// No call of add waits for another (cmd/loadtest/main.go): a swap fails only because somebody
// else's succeeded, and from wherever they stand all calls can be finished.

module SamplerProgress {
  import opened Options
  import opened SamplerSpec

  // ---- failed swaps ----

  /** The call is about to swap a value that is no longer there. */
  predicate Stale(s: State, t: nat) {
    t in s.threads &&
    match s.threads[t]
    case MinCas(_, was) => s.min != was
    case MaxCas(_, was) => s.max != was
    case SlotCas(_, slot, was) => slot < |s.slots| && s.slots[slot] != was
    case _ => false
  }

  predicate IsSwap(e: Step) {
    e.CasMin? || e.CasMax? || e.CasSlot?
  }

  /** Failed swaps of call t, and successful swaps of all the others, on a run. */
  function Failures(s: State, steps: seq<Step>, t: nat): nat
    decreases |steps|
  {
    if steps == [] || Next(s, steps[0]).None? then 0
    else
      (if IsSwap(steps[0]) && steps[0].t == t && Stale(s, t) then 1 else 0)
      + Failures(Next(s, steps[0]).value, steps[1..], t)
  }

  function SwapsOfOthers(s: State, steps: seq<Step>, t: nat): nat
    decreases |steps|
  {
    if steps == [] || Next(s, steps[0]).None? then 0
    else
      (if IsSwap(steps[0]) && steps[0].t != t && !Stale(s, steps[0].t) then 1 else 0)
      + SwapsOfOthers(Next(s, steps[0]).value, steps[1..], t)
  }

  lemma OwnStepIsFresh(s: State, e: Step)
    requires Next(s, e).Some?
    ensures !Stale(Next(s, e).value, e.t)
  {}

  lemma OnlySwapsStale(s: State, e: Step, t: nat)
    requires Next(s, e).Some? && e.t != t && (Stale(Next(s, e).value, t) || Stale(s, t))
    ensures Stale(s, t) || (IsSwap(e) && !Stale(s, e.t))
  {}

  /** Every failed swap of one call is paid for by a swap of another that succeeded meanwhile. */
  lemma {:induction false} FailuresArePaidFor(s: State, steps: seq<Step>, s': State, t: nat)
    requires Runs(s, steps, s')
    ensures Failures(s, steps, t) <= SwapsOfOthers(s, steps, t) + if Stale(s, t) then 1 else 0
    decreases |steps|
  {
    if steps != [] {
      var e := steps[0];
      FailuresArePaidFor(Next(s, e).value, steps[1..], s', t);
      if e.t == t {
        OwnStepIsFresh(s, e);
      } else if Stale(Next(s, e).value, t) {
        OnlySwapsStale(s, e, t);
      }
    }
  }

  // ---- finishing ----

  /** Some run leads from s to s'. */
  ghost predicate Leads(s: State, s': State) {
    exists steps :: Runs(s, steps, s')
  }

  lemma Stays(s: State)
    ensures Leads(s, s)
  {
    assert Runs(s, [], s);
  }

  lemma LeadsFirst(s: State, e: Step, s': State)
    requires Next(s, e).Some? && Leads(Next(s, e).value, s')
    ensures Leads(s, s')
  {
    var steps :| Runs(Next(s, e).value, steps, s');
    Prepend(s, e, steps, s');
  }

  lemma LeadsOn(s: State, mid: State, s': State)
    requires Leads(s, mid) && Leads(mid, s')
    ensures Leads(s, s')
  {
    var steps :| Runs(s, steps, mid);
    RunThenLeads(s, steps, mid, s');
  }

  lemma {:induction false} RunThenLeads(s: State, steps: seq<Step>, mid: State, s': State)
    requires Runs(s, steps, mid) && Leads(mid, s')
    ensures Leads(s, s')
    decreases |steps|
  {
    if steps != [] {
      RunThenLeads(Next(s, steps[0]).value, steps[1..], mid, s');
      LeadsFirst(s, steps[0], s');
    }
  }

  /** How many operations at most a call has left when it is alone: at most one swap of each kind still fails. */
  function Left(s: State, t: nat): nat
    requires t in s.threads
  {
    var late := if Stale(s, t) then 2 else 0;
    match s.threads[t]
    case SlotCas(_, _, _) => 1 + late
    case SlotLoad(_, _) => 2
    case Draw(_) => 4
    case MaxCas(_, _) => 5 + late
    case MaxLoad(_) => 6
    case MinCas(_, _) => 8 + late
    case MinLoad(_) => 9
  }

  function Going(t: nat, pc: Pc): Step {
    match pc
    case SlotCas(_, _, _) => CasSlot(t)
    case SlotLoad(_, _) => LoadSlot(t)
    case Draw(_) => TakeTicket(t, 0)
    case MaxCas(_, _) => CasMax(t)
    case MaxLoad(_) => LoadMax(t)
    case MinCas(_, _) => CasMin(t)
    case MinLoad(_) => LoadMin(t)
  }

  lemma GoesOn(s: State, t: nat)
    requires Inv(s) && t in s.threads
    ensures var e := Going(t, s.threads[t]);
            && Next(s, e).Some?
            && var s' := Next(s, e).value;
               && s'.threads - {t} == s.threads - {t}
               && (t in s'.threads ==> Left(s', t) < Left(s, t))
  {
    assert ThreadOk(s, s.threads[t]);
    OwnStepIsFresh(s, Going(t, s.threads[t]));
  }

  lemma {:induction false} CallFinishes(s: State, t: nat) returns (s': State)
    requires Inv(s) && t in s.threads
    ensures Leads(s, s') && Inv(s') && s'.limit == s.limit && s'.threads == s.threads - {t}
    decreases Left(s, t)
  {
    var e := Going(t, s.threads[t]);
    GoesOn(s, t);
    StepKeepsInv(s, e);
    var next := Next(s, e).value;
    if t in next.threads {
      s' := CallFinishes(next, t);
    } else {
      s' := next;
      assert next.threads - {t} == next.threads;
      Stays(next);
    }
    LeadsFirst(s, e, s');
  }

  lemma {:induction false} CallsFinish(s: State) returns (s': State)
    requires Inv(s)
    ensures Leads(s, s') && Inv(s') && s'.limit == s.limit && s'.threads == map[]
    decreases |s.threads.Keys|
  {
    if s.threads == map[] {
      s' := s;
      Stays(s);
    } else {
      var t :| t in s.threads;
      var mid := CallFinishes(s, t);
      s' := CallsFinish(mid);
      LeadsOn(s, mid, s');
    }
  }

  /** Whatever schedule led here, the calls under way can be finished, and the reservoir is then the sequential one. */
  lemma ComesToRest(limit: nat, steps: seq<Step>, s: State) returns (s': State)
    requires Runs(Initial(limit), steps, s)
    ensures Leads(s, s') && s'.threads == map[] && s'.slots == Reservoir(limit, s'.tickets)
  {
    InitialInv(limit);
    RunKeepsInv(Initial(limit), steps, s);
    s' := CallsFinish(s);
    QuiescentSlots(s');
  }
}
