// The lazy idle timeout followed by the eager one, step for step (internal/netutil): which lazy runs
// the eager form can go along with, and a guard at the retry that makes every run one of them.

module IdleSteps {
  import opened IdleForms
  import opened Options
  import E = EagerIdleSpec
  import L = LazyIdleSpec
  import R = IdleReference

  // ---- the eager form, step for step: it refreshes when the lazy form samples the clock ----

  /**
   * A touch of a call that enters or returns is the refresh, over as soon as the clock is sampled; a
   * touch that resumes a half-moved write stands for nothing.
   */
  function OpOf(pc: L.Pc): E.Op {
    match pc
    case Idle => E.Idle
    case Sampling(next) => if Refreshes(next) then E.Entering(next.ToArm?) else E.InFlight
    case Touching(_, next) => if next.ToArm? then E.InFlight else E.Idle
    case Swapping(_, _, next) => if next.ToArm? then E.InFlight else E.Idle
    case _ => E.InFlight
  }

  predicate Refreshes(next: L.After) {
    next != L.ToArm(true)
  }

  ghost predicate Match(l: L.State, e: E.State) {
    && E.Inv(e) && e.now == l.now && e.timeout == l.timeout
    && |l.dirs| == 4 && forall d :: 0 <= d < 4 ==> e.ops[d] == OpOf(l.dirs[d].pc)
  }

  /** The eager step that one lazy step stands for. */
  function EagerStep(l: L.State, step: L.Step): Option<E.Step>
    requires L.Sane(l)
  {
    if step.Tick? then Some(E.Tick(step.to))
    else if step.d >= |l.dirs| then None
    else
      match (step, l.dirs[step.d].pc)
      case (Begin(d), _) => Some(E.Begin(d))
      case (SampleTouch(d), Sampling(next)) => if Refreshes(next) then Some(E.Refresh(d)) else None
      case (SetFails(d), _) => Some(E.IoDone(d, false))
      case (IoDone(d, moved), _) => Some(E.IoDone(d, moved))
      case (Judge(d), Judging(moved, full, at)) =>
        if !L.Retries(l, l.dirs[d], at) then Some(E.IoTimeout(d, moved))
        else if full then Some(E.IoDone(d, moved)) else None
      case _ => None
  }

  /** The eager state e goes to e' while the lazy state l takes this step. */
  ghost predicate FollowsOne(l: L.State, step: L.Step, e: E.State, e': E.State)
    requires L.Sane(l) && L.Next(l, step).Some?
  {
    && Match(L.Next(l, step).value, e')
    && match EagerStep(l, step)
       case None => e' == e
       case Some(eager) => E.Next(e, eager) == Some(e')
  }

  /** The eager form can go along with the lazy run, state by state. */
  ghost predicate Follows(l: L.State, steps: seq<L.Step>, e: E.State)
    decreases |steps|
  {
    steps != [] ==>
      && L.Sane(l) && L.Next(l, steps[0]).Some?
      && exists e' :: FollowsOne(l, steps[0], e, e') && Follows(L.Next(l, steps[0]).value, steps[1..], e')
  }

  /** This step reports a timeout. */
  predicate Expires(l: L.State, step: L.Step)
    requires L.Sane(l)
  {
    && step.Judge? && step.d < |l.dirs| && l.dirs[step.d].pc.Judging?
    && !L.Retries(l, l.dirs[step.d], l.dirs[step.d].pc.at)
  }

  /** The latest sample taken by a call that enters or returns. */
  function Sampled(l: L.State, step: L.Step, sampled: int): int
    requires L.Sane(l)
  {
    var eager := EagerStep(l, step);
    if eager.Some? && eager.value.Refresh? then l.now else sampled
  }

  /** Every timeout is reported a whole timeout after the latest such sample, recorded or not. */
  ghost predicate Rested(l: L.State, steps: seq<L.Step>, sampled: int)
    decreases |steps|
  {
    steps != [] ==>
      && L.Sane(l) && L.Next(l, steps[0]).Some?
      && (Expires(l, steps[0]) ==> l.now >= sampled + l.timeout)
      && Rested(L.Next(l, steps[0]).value, steps[1..], Sampled(l, steps[0], sampled))
  }

  lemma StepAllowed(l: L.State, step: L.Step, e: E.State)
    requires L.Inv(l) && L.Next(l, step).Some? && Match(l, e)
    ensures var eager := EagerStep(l, step);
            && (eager.None? ==> LazyShows(l, step) == [])
            && (eager.Some? ==>
                  && (E.Next(e, eager.value).Some? <==> (Expires(l, step) ==> l.now >= e.activity + l.timeout))
                  && EagerShows(e, eager.value) == LazyShows(l, step))
  {
    if !step.Tick? {
      assert L.DirOk(l, l.dirs[step.d]);
    }
  }

  lemma DirFollows(l: L.State, step: L.Step, e: E.State, e': E.State)
    requires L.Inv(l) && L.Next(l, step).Some? && Match(l, e) && !step.Tick?
    requires match EagerStep(l, step)
             case None => e' == e
             case Some(eager) => E.Next(e, eager) == Some(e')
    ensures e'.now == l.now && e'.timeout == l.timeout && e'.activity == Sampled(l, step, e.activity)
    ensures |e'.ops| == 4 && forall d :: 0 <= d < 4 ==> e'.ops[d] == OpOf(L.Next(l, step).value.dirs[d].pc)
  {
    assert L.DirOk(l, l.dirs[step.d]);
  }

  /** One step can be followed exactly if a timeout it reports comes late enough. */
  lemma StepFollows(l: L.State, step: L.Step, e: E.State) returns (e': E.State)
    requires L.Inv(l) && L.Next(l, step).Some? && Match(l, e)
    ensures (Expires(l, step) ==> l.now >= e.activity + l.timeout) ==>
              FollowsOne(l, step, e, e') && e'.activity == Sampled(l, step, e.activity)
    ensures !(Expires(l, step) ==> l.now >= e.activity + l.timeout) ==> forall x :: !FollowsOne(l, step, e, x)
  {
    StepAllowed(l, step, e);
    var eager := EagerStep(l, step);
    e' := e;
    if eager.None? || E.Next(e, eager.value).Some? {
      if eager.Some? {
        e' := E.Next(e, eager.value).value;
        E.StepKeepsInv(e, eager.value);
      }
      L.StepKeepsInv(l, step);
      if !step.Tick? {
        DirFollows(l, step, e, e');
      }
    }
  }

  ghost function EagerRun(l: L.State, steps: seq<L.Step>): seq<E.Step>
    decreases |steps|
  {
    if steps == [] || !L.Sane(l) || L.Next(l, steps[0]).None? then []
    else
      var rest := EagerRun(L.Next(l, steps[0]).value, steps[1..]);
      var eager := EagerStep(l, steps[0]);
      if eager.Some? then [eager.value] + rest else rest
  }

  /** The eager form follows a lazy run exactly when the run is rested. */
  lemma {:induction false} FollowsExactlyWhenRested(l: L.State, steps: seq<L.Step>, l': L.State, e: E.State)
    requires L.Inv(l) && L.Runs(l, steps, l') && Match(l, e)
    ensures Follows(l, steps, e) <==> Rested(l, steps, e.activity)
    decreases |steps|
  {
    if steps != [] {
      var next := L.Next(l, steps[0]).value;
      L.StepKeepsInv(l, steps[0]);
      var e' := StepFollows(l, steps[0], e);
      if Expires(l, steps[0]) ==> l.now >= e.activity + l.timeout {
        FollowsExactlyWhenRested(next, steps[1..], l', e');
        forall x | FollowsOne(l, steps[0], e, x)
          ensures Follows(next, steps[1..], x) <==> Follows(next, steps[1..], e')
        {
          OneFollower(l, steps[0], e, x, e');
        }
      }
    }
  }

  lemma OneFollower(l: L.State, step: L.Step, e: E.State, x: E.State, y: E.State)
    requires L.Sane(l) && L.Next(l, step).Some? && FollowsOne(l, step, e, x) && FollowsOne(l, step, e, y)
    ensures x == y
  {}

  /** Time waits for the deadline of every operation in flight: each is ended by then. */
  ghost predicate EagerWaits(e: E.State, to: int) {
    forall d :: 0 <= d < |e.ops| && e.ops[d].InFlight? ==> to <= e.activity + e.timeout
  }

  ghost predicate EagerOnTime(e: E.State, steps: seq<E.Step>)
    decreases |steps|
  {
    steps != [] && E.Next(e, steps[0]).Some? ==>
      && (steps[0].Tick? ==> EagerWaits(e, steps[0].to))
      && EagerOnTime(E.Next(e, steps[0]).value, steps[1..])
  }

  /**
   * The same of a lazy call. In its socket call the socket's deadline sees to it, unless a half-moved
   * write has been resumed since the latest sample.
   */
  ghost predicate LazyWaits(l: L.State, to: int, sampled: int) {
    forall d :: 0 <= d < |l.dirs| && OpOf(l.dirs[d].pc).InFlight? && !(l.dirs[d].pc.Blocked? && l.last <= sampled) ==>
                  to <= sampled + l.timeout
  }

  ghost predicate LazyOnTime(l: L.State, steps: seq<L.Step>, sampled: int)
    decreases |steps|
  {
    steps != [] && L.Sane(l) && L.Next(l, steps[0]).Some? ==>
      && (steps[0].Tick? ==> LazyWaits(l, steps[0].to, sampled))
      && LazyOnTime(L.Next(l, steps[0]).value, steps[1..], Sampled(l, steps[0], sampled))
  }

  lemma WaitsAlike(l: L.State, to: int, e: E.State)
    requires L.Inv(l) && Match(l, e) && L.Next(l, L.Tick(to)).Some?
    ensures EagerWaits(e, to) <==> LazyWaits(l, to, e.activity)
  {
    forall d | 0 <= d < 4 && l.dirs[d].pc.Blocked?
      ensures to <= l.last + l.timeout
    {
      assert L.DirOk(l, l.dirs[d]);
    }
    assert |l.dirs| == |e.ops| == 4;
  }

  /**
   * A rested lazy run, late recordings and resumed writes included, is a run of the eager form: the
   * same calls entered and ended, in the same order, at the same instants, with the same outcomes;
   * and the eager form then ends every operation by its deadline exactly if the lazy form does.
   */
  lemma {:induction false} RestedLazyIsEager(l: L.State, steps: seq<L.Step>, l': L.State, e: E.State)
    returns (e': E.State)
    requires L.Inv(l) && L.Runs(l, steps, l') && Match(l, e) && Rested(l, steps, e.activity)
    ensures E.Runs(e, EagerRun(l, steps), e') && Match(l', e')
    ensures EagerSeen(e, EagerRun(l, steps)) == LazySeen(l, steps)
    ensures EagerOnTime(e, EagerRun(l, steps)) <==> LazyOnTime(l, steps, e.activity)
    decreases |steps|
  {
    e' := e;
    if steps != [] {
      var next := L.Next(l, steps[0]).value;
      L.StepKeepsInv(l, steps[0]);
      StepAllowed(l, steps[0], e);
      var mid := StepFollows(l, steps[0], e);
      e' := RestedLazyIsEager(next, steps[1..], l', mid);
      var rest := EagerRun(next, steps[1..]);
      var eager := EagerStep(l, steps[0]);
      if eager.Some? {
        assert ([eager.value] + rest)[1..] == rest;
      }
      if steps[0].Tick? {
        WaitsAlike(l, steps[0].to, e);
      }
    }
  }

  // ---- the guard a retry would have to test ----

  /** At a refused retry: a whole timeout since last, and since every sample still on its way there. */
  ghost predicate Guarded(l: L.State, step: L.Step)
    requires L.Sane(l)
  {
    Expires(l, step) ==>
      && l.now >= l.last + l.timeout
      && forall d :: 0 <= d < |l.dirs| && OnItsWay(l.dirs[d].pc) ==> l.now >= l.dirs[d].pc.at + l.timeout
  }

  predicate OnItsWay(pc: L.Pc) {
    (pc.Touching? || pc.Swapping?) && Refreshes(pc.next)
  }

  ghost predicate AllGuarded(l: L.State, steps: seq<L.Step>)
    decreases |steps|
  {
    steps != [] ==>
      && L.Sane(l) && L.Next(l, steps[0]).Some?
      && Guarded(l, steps[0]) && AllGuarded(L.Next(l, steps[0]).value, steps[1..])
  }

  /** The latest sample is recorded, overtaken, or still on its way. */
  ghost predicate Accounted(l: L.State, sampled: int) {
    sampled <= l.last || exists d :: 0 <= d < |l.dirs| && OnItsWay(l.dirs[d].pc) && l.dirs[d].pc.at == sampled
  }

  lemma AccountedStep(l: L.State, step: L.Step, sampled: int)
    requires L.Inv(l) && L.Next(l, step).Some? && Accounted(l, sampled)
    ensures Accounted(L.Next(l, step).value, Sampled(l, step, sampled))
  {
    var l' := L.Next(l, step).value;
    if !step.Tick? && Sampled(l, step, sampled) == sampled > l.last {
      var d :| 0 <= d < |l.dirs| && OnItsWay(l.dirs[d].pc) && l.dirs[d].pc.at == sampled;
      assert sampled <= l'.last || (OnItsWay(l'.dirs[d].pc) && l'.dirs[d].pc.at == sampled);
    } else if !step.Tick? {
      assert l'.last >= l.last by { L.StepKeepsInv(l, step); }
      if Sampled(l, step, sampled) != sampled {
        assert OnItsWay(l'.dirs[step.d].pc) && l'.dirs[step.d].pc.at == l.now;
      }
    }
  }

  lemma {:induction false} GuardedIsRested(l: L.State, steps: seq<L.Step>, l': L.State, sampled: int)
    requires L.Inv(l) && L.Runs(l, steps, l') && AllGuarded(l, steps) && Accounted(l, sampled)
    ensures Rested(l, steps, sampled)
    decreases |steps|
  {
    if steps != [] {
      L.StepKeepsInv(l, steps[0]);
      AccountedStep(l, steps[0], sampled);
      GuardedIsRested(L.Next(l, steps[0]).value, steps[1..], l', Sampled(l, steps[0], sampled));
    }
  }

  /** From the start of any tunnel: if every refused retry meets the guard, the run is an eager run. */
  lemma GuardedTunnelIsEager(timeout: int, steps: seq<L.Step>, l: L.State) returns (e: E.State)
    requires 1 <= timeout <= R.MAX && L.Runs(L.Initial(timeout), steps, l) && AllGuarded(L.Initial(timeout), steps)
    ensures EagerCan(E.Initial(timeout), LazySeen(L.Initial(timeout), steps), e) && Match(l, e)
  {
    L.InitialInv(timeout);
    GuardedIsRested(L.Initial(timeout), steps, l, 0);
    e := RestedLazyIsEager(L.Initial(timeout), steps, l, E.Initial(timeout));
  }
}
