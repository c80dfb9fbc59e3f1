// What the UDP forwarder can always still do (internal/forward/udp.go): come to rest from wherever
// it stands, and then open a session for any client.

module UdpProgress {
  import opened Options
  import opened UdpSessionsSpec

  /** Some run leads from s to s'. */
  ghost predicate Leads(s: State, s': State) {
    exists steps :: Runs(s, steps, s')
  }

  lemma Stays(s: State)
    ensures Leads(s, s)
  {
    assert Runs(s, [], s);
  }

  lemma LeadsFirst(s: State, e: Step, s': State)
    requires Next(s, e).Some? && Leads(Next(s, e).value, s')
    ensures Leads(s, s')
  {
    var steps :| Runs(Next(s, e).value, steps, s');
    Prepend(s, e, Next(s, e).value, steps, s');
  }

  lemma LeadsOn(s: State, mid: State, s': State)
    requires Leads(s, mid) && Leads(mid, s')
    ensures Leads(s, s')
  {
    var a :| Runs(s, a, mid);
    var b :| Runs(mid, b, s');
    RunsConcat(s, a, mid, b, s');
  }

  ghost predicate From(s: State, s': State) {
    Inv(s') && s'.cap == s.cap && s.sockets <= s'.sockets && Leads(s, s')
  }

  lemma SocketsGrow(s: State, e: Step)
    requires Next(s, e).Some?
    ensures s.sockets <= Next(s, e).value.sockets
  {}

  // ---- one goroutine to its end ----

  /** How many steps at most a goroutine is from its end, when it dials no more sessions. */
  function Left(pc: Pc): nat {
    match pc
    case Dialing(_, _) => 1
    case Writing(_, _) => 1
    case Acquiring(_, _) => 2
    case BackingOut(_, _, _) => 2
    case LookingUp(_, _) => 3
    case Inserting(_, _, _) => 3
    case Awaiting(_) => 4
    case Removing(_) => 5
    case ClosingAll(pending) => 1 + |pending|
  }

  ghost function Finishing(t: nat, pc: Pc): Step {
    match pc
    case Dialing(_, _) => DialErr(t)
    case Writing(_, _) => WriteOk(t)
    case Acquiring(_, _) => TryAcquire(t)
    case BackingOut(_, _, _) => GiveBack(t)
    case LookingUp(_, _) => LookUp(t)
    case Inserting(_, _, _) => UdpSessionsSpec.Insert(t)
    case Awaiting(_) => Fallback(t)
    case Removing(_) => RemoveOwn(t)
    case ClosingAll(pending) =>
      if pending == {} then CloseAllEnd(t) else var sess :| sess in pending; CloseOne(t, sess)
  }

  /** Up to the point where a get has its session, or none. */
  predicate Getting(pc: Pc) {
    pc.LookingUp? || pc.Acquiring? || pc.Dialing? || pc.Inserting?
  }

  lemma GetGoesOn(s: State, t: nat)
    requires t in s.threads && Getting(s.threads[t])
    ensures var e := Finishing(t, s.threads[t]);
            && Next(s, e).Some?
            && var left := Next(s, e).value.threads;
               left - {t} == s.threads - {t} && (t in left ==> Left(left[t]) < Left(s.threads[t]))
  {}

  lemma CloseGoesOn(s: State, t: nat)
    requires t in s.threads && s.threads[t].ClosingAll?
    ensures var e := Finishing(t, s.threads[t]);
            && Next(s, e).Some?
            && var left := Next(s, e).value.threads;
               left - {t} == s.threads - {t} && (t in left ==> Left(left[t]) < Left(s.threads[t]))
  {}

  lemma FinishGoesOn(s: State, t: nat)
    requires t in s.threads && ThreadOk(s, s.threads[t])
    ensures var e := Finishing(t, s.threads[t]);
            && Next(s, e).Some?
            && var left := Next(s, e).value.threads;
               left - {t} == s.threads - {t} && (t in left ==> Left(left[t]) < Left(s.threads[t]))
  {
    if Getting(s.threads[t]) {
      GetGoesOn(s, t);
    } else if s.threads[t].ClosingAll? {
      CloseGoesOn(s, t);
    }
  }

  lemma {:induction false} ThreadFinishes(s: State, t: nat) returns (s': State)
    requires Inv(s) && t in s.threads
    ensures From(s, s') && s'.threads == s.threads - {t}
    decreases Left(s.threads[t])
  {
    var e := Finishing(t, s.threads[t]);
    FinishGoesOn(s, t);
    StepKeepsInv(s, e);
    SocketsGrow(s, e);
    var next := Next(s, e).value;
    if t in next.threads {
      s' := ThreadFinishes(next, t);
    } else {
      s' := next;
      assert next.threads - {t} == next.threads;
      Stays(next);
    }
    LeadsFirst(s, e, s');
  }

  lemma {:induction false} ThreadsFinish(s: State) returns (s': State)
    requires Inv(s)
    ensures From(s, s') && s'.threads == map[]
    decreases |s.threads.Keys|
  {
    if s.threads == map[] {
      s' := s;
      Stays(s);
    } else {
      var t :| t in s.threads;
      var mid := ThreadFinishes(s, t);
      s' := ThreadsFinish(mid);
      LeadsOn(s, mid, s');
    }
  }

  // ---- one relay to its end ----

  function Exits(phase: Phase): nat {
    match phase
    case Running => 5
    case Unlisted => 4
    case Uncounted => 3
    case Released => 2
    case DstClosed => 1
    case Done => 0
  }

  lemma ExitGoesOn(s: State, sess: nat)
    requires sess in s.sessions && !s.sessions[sess].phase.Done?
    ensures Next(s, RelayExit(sess)).Some? && Next(s, RelayExit(sess)).value.threads == s.threads
    ensures var after := Next(s, RelayExit(sess)).value.sessions;
            && sess in after && Exits(after[sess].phase) < Exits(s.sessions[sess].phase)
            && after == s.sessions[sess := after[sess]]
  {}

  lemma {:induction false} RelayEnds(s: State, sess: nat) returns (s': State)
    requires Inv(s) && sess in s.sessions
    ensures From(s, s') && s'.threads == s.threads && s'.sessions.Keys == s.sessions.Keys
    ensures s'.sessions[sess].phase.Done?
    ensures forall other :: other in s.sessions && other != sess ==> s'.sessions[other] == s.sessions[other]
    decreases Exits(s.sessions[sess].phase)
  {
    if s.sessions[sess].phase.Done? {
      s' := s;
      Stays(s);
    } else {
      ExitGoesOn(s, sess);
      StepKeepsInv(s, RelayExit(sess));
      SocketsGrow(s, RelayExit(sess));
      s' := RelayEnds(Next(s, RelayExit(sess)).value, sess);
      LeadsFirst(s, RelayExit(sess), s');
    }
  }

  function Unfinished(s: State): set<nat> {
    set sess | sess in s.sessions && !s.sessions[sess].phase.Done?
  }

  lemma {:induction false} RelaysEnd(s: State) returns (s': State)
    requires Inv(s)
    ensures From(s, s') && s'.threads == s.threads && Unfinished(s') == {}
    decreases |Unfinished(s)|
  {
    if Unfinished(s) == {} {
      s' := s;
      Stays(s);
    } else {
      var sess :| sess in Unfinished(s);
      var mid := RelayEnds(s, sess);
      assert Unfinished(mid) == Unfinished(s) - {sess};
      s' := RelaysEnd(mid);
      LeadsOn(s, mid, s');
    }
  }

  // ---- the whole forwarder ----

  /** Nothing is under way, held, counted, listed or open. */
  predicate AtRest(s: State) {
    s.threads == map[] && s.tokens == 0 && s.active == 0 && s.table == map[] && s.open == {}
  }

  lemma StillReachable(s: State, s': State)
    requires Reachable(s) && From(s, s')
    ensures Reachable(s')
  {
    assert Leads(Initial(s.cap), s);
    LeadsOn(Initial(s.cap), s, s');
  }

  /** No get, no relay and no token is ever stuck: from every reachable state some run ends at rest. */
  lemma ComesToRest(s: State) returns (s': State)
    requires Reachable(s)
    ensures From(s, s') && Reachable(s') && AtRest(s')
  {
    ReachableInv(s);
    var mid := ThreadsFinish(s);
    s' := RelaysEnd(mid);
    LeadsOn(s, mid, s');
    StillReachable(s, s');
    forall sess | sess in s'.sessions
      ensures s'.sessions[sess].phase.Done?
    {
      assert sess !in Unfinished(s');
    }
    QuiescentIsEmpty(s');
  }

  /** Unless its limit is zero, the forwarder can always serve any client again, on a socket of its own. */
  lemma NeverRunsDry(s: State, key: nat) returns (s': State)
    requires Reachable(s) && s.cap != Some(0)
    ensures Leads(s, s') && key in s'.table && s'.active == 1 && s'.table[key] in s'.open
    ensures s'.table[key] !in s.sessions
  {
    var rest := ComesToRest(s);
    var steps;
    steps, s' := FreeTokenOpensSession(rest, 0, key);
    assert Leads(rest, s');
    ReachableInv(s);
    LeadsOn(s, rest, s');
  }
}
