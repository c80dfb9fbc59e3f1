// The lazy idle timeout against the eager one (internal/netutil): which runs of the lazy form show
// what some run of the eager form shows, exactly, and one that does not.

module IdleForms {
  import opened Options
  import E = EagerIdleSpec
  import L = LazyIdleSpec
  import R = IdleReference

  // ---- what both forms show: calls entered, and calls ended by the socket or by the timeout ----

  datatype Seen = Entered(d: nat, at: int) | Ended(d: nat, moved: bool, expired: bool, at: int)

  function EagerShows(e: E.State, step: E.Step): seq<Seen> {
    match step
    case Begin(d) => [Entered(d, e.now)]
    case IoDone(d, moved) => [Ended(d, moved, false, e.now)]
    case IoTimeout(d, moved) => [Ended(d, moved, true, e.now)]
    case _ => []
  }

  ghost function EagerSeen(e: E.State, steps: seq<E.Step>): seq<Seen>
    decreases |steps|
  {
    if steps == [] || E.Next(e, steps[0]).None? then []
    else EagerShows(e, steps[0]) + EagerSeen(E.Next(e, steps[0]).value, steps[1..])
  }

  function LazyShows(l: L.State, step: L.Step): seq<Seen>
    requires L.Sane(l)
  {
    if step.Tick? || step.d >= |l.dirs| then []
    else
      match (step, l.dirs[step.d].pc)
      case (Begin(d), _) => [Entered(d, l.now)]
      case (SetFails(d), _) => [Ended(d, false, false, l.now)]
      case (IoDone(d, moved), _) => [Ended(d, moved, false, l.now)]
      case (Judge(d), Judging(moved, full, at)) =>
        if !L.Retries(l, l.dirs[d], at) then [Ended(d, moved, true, l.now)]
        else if full then [Ended(d, moved, false, l.now)] else []
      case _ => []
  }

  ghost function LazySeen(l: L.State, steps: seq<L.Step>): seq<Seen>
    decreases |steps|
  {
    if steps == [] || !L.Sane(l) || L.Next(l, steps[0]).None? then []
    else LazyShows(l, steps[0]) + LazySeen(L.Next(l, steps[0]).value, steps[1..])
  }

  // ---- what an eager run can show ----

  /** Nothing shown from here on expires within a timeout of now: a refresh now does no harm. */
  ghost predicate Free(now: int, seen: seq<Seen>, timeout: int) {
    forall k :: 0 <= k < |seen| && seen[k].Ended? && seen[k].expired ==> seen[k].at >= now + timeout
  }

  /** A refresh that direction d owes finds room before d shows anything more: now, or after others. */
  ghost predicate Room(now: int, seen: seq<Seen>, d: nat, timeout: int)
    decreases |seen|
  {
    Free(now, seen, timeout) || (seen != [] && seen[0].d != d && Room(seen[0].at, seen[1..], d, timeout))
  }

  /** Entering a call owes the tunnel a refresh, and so does ending one that moved bytes. */
  predicate Owes(x: Seen) {
    x.Entered? || x.moved
  }

  /**
   * Every refresh that is owed has room: between the event that owes it and the next event of its
   * direction there is a moment after which nothing expires for a whole timeout.
   */
  ghost predicate Spaced(seen: seq<Seen>, timeout: int)
    decreases |seen|
  {
    seen != [] ==>
      && (Owes(seen[0]) ==> Room(seen[0].at, seen[1..], seen[0].d, timeout))
      && Spaced(seen[1..], timeout)
  }

  /** Room, said by positions: p events on, none of them direction d's, a refresh does no harm. */
  lemma {:induction false} RoomIsAMoment(now: int, seen: seq<Seen>, d: nat, timeout: int)
    ensures Room(now, seen, d, timeout) <==>
              exists p: nat :: p <= |seen| && (forall k :: 0 <= k < p ==> seen[k].d != d)
                && Free(if p == 0 then now else seen[p - 1].at, seen[p..], timeout)
    decreases |seen|
  {
    assert seen[0..] == seen;
    if seen != [] {
      var x, rest := seen[0], seen[1..];
      RoomIsAMoment(x.at, rest, d, timeout);
      assert forall p: nat :: p < |seen| ==> rest[p..] == seen[p + 1..];
      if x.d != d && Room(x.at, rest, d, timeout) {
        var p: nat :| p <= |rest| && (forall k :: 0 <= k < p ==> rest[k].d != d)
                      && Free(if p == 0 then x.at else rest[p - 1].at, rest[p..], timeout);
        assert forall k :: 0 <= k < p + 1 ==> seen[k].d != d;
        assert Free(if p + 1 == 0 then now else seen[p + 1 - 1].at, seen[p + 1..], timeout);
      }
      if p: nat :| p <= |seen| && (forall k :: 0 <= k < p ==> seen[k].d != d)
                   && Free(if p == 0 then now else seen[p - 1].at, seen[p..], timeout) {
        if p > 0 {
          assert forall k :: 0 <= k < p - 1 ==> rest[k] == seen[k + 1];
          assert Free(if p - 1 == 0 then x.at else rest[p - 1 - 1].at, rest[p - 1..], timeout);
        }
      }
    }
  }

  lemma {:induction false} RoomEarlier(now: int, later: int, seen: seq<Seen>, d: nat, timeout: int)
    requires now <= later && Room(later, seen, d, timeout)
    ensures Room(now, seen, d, timeout)
  {
    if Free(later, seen, timeout) {
      assert Free(now, seen, timeout);
    }
  }

  /** A run shows what its first step shows, if anything, and then the rest. */
  lemma EagerSeenFirst(e: E.State, steps: seq<E.Step>)
    requires steps != [] && E.Next(e, steps[0]).Some?
    ensures var rest, seen := EagerSeen(E.Next(e, steps[0]).value, steps[1..]), EagerSeen(e, steps);
            if EagerShows(e, steps[0]) == [] then seen == rest
            else seen != [] && [seen[0]] == EagerShows(e, steps[0]) && seen[1..] == rest
  {}

  /** Whatever expires from here on does so a whole timeout after the latest refresh. */
  lemma {:induction false} ExpiriesWait(e: E.State, steps: seq<E.Step>, e': E.State)
    requires E.Inv(e) && E.Runs(e, steps, e')
    ensures Free(e.activity, EagerSeen(e, steps), e.timeout)
    decreases |steps|
  {
    if steps != [] {
      E.StepKeepsInv(e, steps[0]);
      ExpiriesWait(E.Next(e, steps[0]).value, steps[1..], e');
    }
  }

  /** A refresh that an eager run owes finds its room in what the run goes on to show. */
  lemma {:induction false} RefreshHasRoom(e: E.State, steps: seq<E.Step>, e': E.State, d: nat)
    requires E.Inv(e) && E.Runs(e, steps, e') && d < 4 && e.ops[d].Entering?
    ensures Room(e.now, EagerSeen(e, steps), d, e.timeout)
    decreases |steps|
  {
    if steps != [] {
      var next := E.Next(e, steps[0]).value;
      E.StepKeepsInv(e, steps[0]);
      EagerSeenFirst(e, steps);
      if steps[0] == E.Refresh(d) {
        ExpiriesWait(next, steps[1..], e');
      } else {
        RefreshHasRoom(next, steps[1..], e', d);
        if EagerShows(e, steps[0]) == [] {
          RoomEarlier(e.now, next.now, EagerSeen(e, steps), d, e.timeout);
        }
      }
    }
  }

  lemma ShownHasRoom(e: E.State, steps: seq<E.Step>, e': E.State)
    requires E.Inv(e) && E.Runs(e, steps, e') && steps != [] && EagerShows(e, steps[0]) != []
    ensures var x := EagerShows(e, steps[0])[0];
            Owes(x) ==> Room(x.at, EagerSeen(E.Next(e, steps[0]).value, steps[1..]), x.d, e.timeout)
  {
    var x, next := EagerShows(e, steps[0])[0], E.Next(e, steps[0]).value;
    E.StepKeepsInv(e, steps[0]);
    if Owes(x) {
      RefreshHasRoom(next, steps[1..], e', x.d);
    }
  }

  /** Whatever an eager run shows is spaced. */
  lemma {:induction false} EagerIsSpaced(e: E.State, steps: seq<E.Step>, e': E.State)
    requires E.Inv(e) && E.Runs(e, steps, e')
    ensures Spaced(EagerSeen(e, steps), e.timeout)
    decreases |steps|
  {
    if steps != [] {
      E.StepKeepsInv(e, steps[0]);
      EagerIsSpaced(E.Next(e, steps[0]).value, steps[1..], e');
      EagerSeenFirst(e, steps);
      if EagerShows(e, steps[0]) != [] {
        ShownHasRoom(e, steps, e');
      }
    }
  }

  // ---- and everything spaced can be shown ----

  /** Each direction enters and ends its calls in turn, and time does not run back. */
  predicate Proper(busy: seq<bool>, now: int, seen: seq<Seen>)
    decreases |seen|
  {
    seen != [] ==>
      && now <= seen[0].at <= R.MAX && seen[0].d < |busy| && busy[seen[0].d] == seen[0].Ended?
      && Proper(busy[seen[0].d := seen[0].Entered?], seen[0].at, seen[1..])
  }

  ghost predicate EagerCan(e: E.State, seen: seq<Seen>, e': E.State) {
    exists steps :: E.Runs(e, steps, e') && EagerSeen(e, steps) == seen
  }

  lemma EagerCanStep(e: E.State, step: E.Step, mid: E.State, seen: seq<Seen>, e': E.State)
    requires E.Next(e, step) == Some(mid) && EagerCan(mid, seen, e')
    ensures EagerCan(e, EagerShows(e, step) + seen, e')
  {
    var steps :| E.Runs(mid, steps, e') && EagerSeen(mid, steps) == seen;
    assert ([step] + steps)[1..] == steps;
    assert E.Runs(e, [step] + steps, e') && EagerSeen(e, [step] + steps) == EagerShows(e, step) + seen;
  }

  /** The eager step that shows x. */
  function Showing(x: Seen): E.Step {
    match x
    case Entered(d, _) => E.Begin(d)
    case Ended(d, moved, expired, _) => if expired then E.IoTimeout(d, moved) else E.IoDone(d, moved)
  }

  function Owing(op: E.Op): nat {
    if op.Entering? then 1 else 0
  }

  /** Ready to go on and show seen: refreshes owed have room, and the last one is far enough back. */
  ghost predicate Ready(e: E.State, busy: seq<bool>, seen: seq<Seen>) {
    && E.Inv(e) && |busy| == 4 && Proper(busy, e.now, seen) && Spaced(seen, e.timeout)
    && (e.deadlines[0].Some? ==> Free(e.activity, seen, e.timeout))
    && (forall d :: 0 <= d < 4 ==> busy[d] == (e.ops[d] == E.Entering(true) || e.ops[d].InFlight?))
    && (forall d :: 0 <= d < 4 && e.ops[d].Entering? ==> Room(e.now, seen, d, e.timeout))
  }

  /** A refresh that does no harm now is done now. */
  lemma RefreshNow(e: E.State, busy: seq<bool>, seen: seq<Seen>, d: nat) returns (e': E.State)
    requires Ready(e, busy, seen) && Free(e.now, seen, e.timeout) && d < 4 && e.ops[d].Entering?
    ensures E.Next(e, E.Refresh(d)) == Some(e') && Ready(e', busy, seen)
    ensures e'.ops == e.ops[d := if e.ops[d].more then E.InFlight else E.Idle] && e'.now == e.now
  {
    e' := E.Next(e, E.Refresh(d)).value;
    E.StepKeepsInv(e, E.Refresh(d));
    assert forall i :: 0 <= i < 4 && e'.ops[i].Entering? ==> Room(e'.now, seen, i, e.timeout);
  }

  /** With every harmless refresh done, the clock moves on and the next thing is shown. */
  lemma ShowNext(e: E.State, busy: seq<bool>, seen: seq<Seen>) returns (mid: E.State, e': E.State)
    requires Ready(e, busy, seen) && seen != []
    requires Free(e.now, seen, e.timeout) ==> forall d :: 0 <= d < 4 ==> !e.ops[d].Entering?
    ensures E.Next(e, E.Tick(seen[0].at)) == Some(mid) && E.Next(mid, Showing(seen[0])) == Some(e')
    ensures EagerShows(mid, Showing(seen[0])) == [seen[0]]
    ensures e'.timeout == e.timeout && Ready(e', busy[seen[0].d := seen[0].Entered?], seen[1..])
  {
    var x, rest := seen[0], seen[1..];
    assert forall d :: 0 <= d < 4 && e.ops[d].Entering? ==> x.d != d && Room(x.at, rest, d, e.timeout);
    assert forall k :: 0 <= k < |rest| ==> rest[k] == seen[k + 1];
    mid := E.Next(e, E.Tick(x.at)).value;
    e' := E.Next(mid, Showing(x)).value;
    E.StepKeepsInv(e, E.Tick(x.at));
    E.StepKeepsInv(mid, Showing(x));
  }

  lemma {:induction false} SpacedIsEager(e: E.State, busy: seq<bool>, seen: seq<Seen>) returns (e': E.State)
    requires Ready(e, busy, seen)
    ensures EagerCan(e, seen, e')
    decreases |seen|, Owing(e.ops[0]) + Owing(e.ops[1]) + Owing(e.ops[2]) + Owing(e.ops[3])
  {
    if d :| 0 <= d < 4 && e.ops[d].Entering? && Free(e.now, seen, e.timeout) {
      var next := RefreshNow(e, busy, seen, d);
      e' := SpacedIsEager(next, busy, seen);
      EagerCanStep(e, E.Refresh(d), next, seen, e');
      assert [] + seen == seen;
    } else if seen == [] {
      e' := e;
      assert E.Runs(e, [], e) && EagerSeen(e, []) == [];
    } else {
      var mid, next := ShowNext(e, busy, seen);
      e' := SpacedIsEager(next, busy[seen[0].d := seen[0].Entered?], seen[1..]);
      EagerCanStep(mid, Showing(seen[0]), next, seen[1..], e');
      assert [seen[0]] + seen[1..] == seen;
      EagerCanStep(e, E.Tick(seen[0].at), mid, seen, e');
      assert [] + seen == seen;
    }
  }

  // ---- the lazy form, seen from outside ----

  /** Between entering a call and its end, as shown. */
  predicate InCall(pc: L.Pc) {
    match pc
    case Idle => false
    case Sampling(next) => next.ToArm?
    case Touching(_, next) => next.ToArm?
    case Swapping(_, _, next) => next.ToArm?
    case _ => true
  }

  ghost predicate BusyAs(l: L.State, busy: seq<bool>) {
    |l.dirs| == |busy| == 4 && forall d :: 0 <= d < 4 ==> busy[d] == InCall(l.dirs[d].pc)
  }

  lemma ShowsInTurn(l: L.State, step: L.Step)
    requires L.Inv(l) && L.Next(l, step).Some? && !step.Tick?
    ensures step.d < 4 && |LazyShows(l, step)| <= 1
    ensures var before, after := InCall(l.dirs[step.d].pc), InCall(L.Next(l, step).value.dirs[step.d].pc);
            if LazyShows(l, step) == [] then after == before
            else
              var x := LazyShows(l, step)[0];
              x.d == step.d && x.at == l.now && before == x.Ended? && after == x.Entered?
  {}

  lemma LazyShowsInTurn(l: L.State, step: L.Step, busy: seq<bool>)
    requires L.Inv(l) && L.Next(l, step).Some? && BusyAs(l, busy)
    ensures |LazyShows(l, step)| <= 1
    ensures LazyShows(l, step) == [] ==> BusyAs(L.Next(l, step).value, busy)
    ensures LazyShows(l, step) != [] ==>
              var x := LazyShows(l, step)[0];
              && x.at == l.now == L.Next(l, step).value.now && x.d < 4 && busy[x.d] == x.Ended?
              && BusyAs(L.Next(l, step).value, busy[x.d := x.Entered?])
  {
    if !step.Tick? {
      ShowsInTurn(l, step);
      L.OwnStep(l, step, step.d);
    }
  }

  lemma {:induction false} LazyIsProper(l: L.State, steps: seq<L.Step>, l': L.State, busy: seq<bool>)
    requires L.Inv(l) && L.Runs(l, steps, l') && BusyAs(l, busy)
    ensures Proper(busy, l.now, LazySeen(l, steps))
    decreases |steps|
  {
    if steps != [] {
      var next := L.Next(l, steps[0]).value;
      L.StepKeepsInv(l, steps[0]);
      LazyShowsInTurn(l, steps[0], busy);
      var rest := LazySeen(next, steps[1..]);
      if LazyShows(l, steps[0]) == [] {
        LazyIsProper(next, steps[1..], l', busy);
        assert LazySeen(l, steps) == rest && l.now <= next.now;
      } else {
        var x := LazyShows(l, steps[0])[0];
        LazyIsProper(next, steps[1..], l', busy[x.d := x.Entered?]);
        assert LazyShows(l, steps[0]) == [x] && ([x] + rest)[1..] == rest;
      }
    }
  }

  /** From the start of any tunnel, what the lazy form shows is what some eager run shows. */
  ghost predicate EagerToo(timeout: int, seen: seq<Seen>) {
    exists e :: EagerCan(E.Initial(timeout), seen, e)
  }

  lemma EagerTooIsSpaced(timeout: int, seen: seq<Seen>)
    requires 1 <= timeout <= R.MAX && EagerToo(timeout, seen)
    ensures Spaced(seen, timeout)
  {
    var e :| EagerCan(E.Initial(timeout), seen, e);
    var eager :| E.Runs(E.Initial(timeout), eager, e) && EagerSeen(E.Initial(timeout), eager) == seen;
    EagerIsSpaced(E.Initial(timeout), eager, e);
  }

  lemma SpacedIsEagerToo(timeout: int, seen: seq<Seen>)
    requires 1 <= timeout <= R.MAX && Proper([false, false, false, false], 0, seen) && Spaced(seen, timeout)
    ensures EagerToo(timeout, seen)
  {
    var e := SpacedIsEager(E.Initial(timeout), [false, false, false, false], seen);
  }

  /**
   * The exact condition, for every lazy run of every tunnel: some eager run shows the same calls
   * entered and ended, in the same order, at the same instants, with the same outcomes, if and only
   * if every refresh owed had room in what was shown.
   */
  lemma EagerTooExactlyWhenSpaced(timeout: int, steps: seq<L.Step>, l: L.State)
    requires 1 <= timeout <= R.MAX && L.Runs(L.Initial(timeout), steps, l)
    ensures EagerToo(timeout, LazySeen(L.Initial(timeout), steps))
       <==> Spaced(LazySeen(L.Initial(timeout), steps), timeout)
  {
    var seen := LazySeen(L.Initial(timeout), steps);
    if Spaced(seen, timeout) {
      L.InitialInv(timeout);
      LazyIsProper(L.Initial(timeout), steps, l, [false, false, false, false]);
      SpacedIsEagerToo(timeout, seen);
    }
    if EagerToo(timeout, seen) {
      EagerTooIsSpaced(timeout, seen);
    }
  }

  // ---- a lazy run that shows what no eager run shows ----

  /** Some lazy run leads from l to l' and shows this. */
  ghost predicate Can(l: L.State, seen: seq<Seen>, l': L.State) {
    exists steps :: L.Runs(l, steps, l') && LazySeen(l, steps) == seen
  }

  lemma {:induction false} RunsMore(l: L.State, steps: seq<L.Step>, mid: L.State, step: L.Step, l': L.State)
    requires L.Runs(l, steps, mid) && L.Sane(mid) && L.Next(mid, step) == Some(l')
    ensures L.Runs(l, steps + [step], l')
    ensures LazySeen(l, steps + [step]) == LazySeen(l, steps) + LazyShows(mid, step)
    decreases |steps|
  {
    if steps == [] {
      assert steps + [step] == [step];
      assert L.Runs(l', [step][1..], l') && LazySeen(l', [step][1..]) == [];
    } else {
      assert (steps + [step])[1..] == steps[1..] + [step];
      RunsMore(L.Next(l, steps[0]).value, steps[1..], mid, step, l');
    }
  }

  lemma CanMore(l: L.State, seen: seq<Seen>, mid: L.State, step: L.Step, l': L.State)
    requires Can(l, seen, mid) && L.Sane(mid) && L.Next(mid, step) == Some(l')
    ensures Can(l, seen + LazyShows(mid, step), l')
  {
    var steps :| L.Runs(l, steps, mid) && LazySeen(l, steps) == seen;
    RunsMore(l, steps, mid, step, l');
  }

  /** One more step. */
  lemma Do(l: L.State, seen: seq<Seen>, mid: L.State, step: L.Step) returns (l': L.State)
    requires Can(l, seen, mid) && L.Sane(mid) && L.Next(mid, step).Some?
    ensures l' == L.Next(mid, step).value && Can(l, seen + LazyShows(mid, step), l')
    ensures LazyShows(mid, step) == [] ==> Can(l, seen, l')
  {
    l' := L.Next(mid, step).value;
    CanMore(l, seen, mid, step, l');
    assert seen + [] == seen;
  }

  /** Nothing but direction d's own record has changed. */
  ghost predicate Only(l: L.State, l': L.State, d: nat) {
    && l'.now == l.now && l'.timeout == l.timeout && l'.last == l.last
    && |l.dirs| == |l'.dirs| == 4 && forall i :: 0 <= i < 4 && i != d ==> l'.dirs[i] == l.dirs[i]
  }

  /** A call enters and samples the clock. */
  lemma DoEnter(l: L.State, seen: seq<Seen>, mid: L.State, d: nat) returns (l': L.State)
    requires Can(l, seen, mid) && L.Sane(mid) && |mid.dirs| == 4 && d < 4 && mid.dirs[d].pc == L.Idle
    ensures Can(l, seen + [Entered(d, mid.now)], l') && Only(mid, l', d)
    ensures l'.dirs[d].pc == L.Touching(mid.now, L.ToArm(false)) && l'.dirs[d].due == mid.dirs[d].due
  {
    l' := Do(l, seen, mid, L.Begin(d));
    l' := Do(l, seen + [Entered(d, mid.now)], l', L.SampleTouch(d));
  }

  lemma DoFastCheck(l: L.State, seen: seq<Seen>, mid: L.State, d: nat) returns (l': L.State)
    requires Can(l, seen, mid) && L.Sane(mid) && |mid.dirs| == 4 && d < 4
    requires mid.dirs[d].pc == L.Arming(false) && mid.dirs[d].due == 0
    ensures Can(l, seen, l') && Only(mid, l', d)
    ensures l'.dirs[d].pc == L.Locked(false) && l'.dirs[d].due == 0
  {
    l' := Do(l, seen, mid, L.FastCheck(d));
  }

  lemma DoCompute(l: L.State, seen: seq<Seen>, mid: L.State, d: nat) returns (l': L.State)
    requires Can(l, seen, mid) && L.Sane(mid) && |mid.dirs| == 4 && d < 4
    requires mid.dirs[d].pc == L.Locked(false) && mid.dirs[d].due == 0
    ensures Can(l, seen, l') && Only(mid, l', d)
    ensures l'.dirs[d].pc == L.Rechecking(false, L.Deadline(mid)) && l'.dirs[d].due == 0
  {
    l' := Do(l, seen, mid, L.Compute(d));
  }

  lemma DoRecheck(l: L.State, seen: seq<Seen>, mid: L.State, d: nat) returns (l': L.State)
    requires Can(l, seen, mid) && L.Sane(mid) && |mid.dirs| == 4 && d < 4
    requires mid.dirs[d].pc.Rechecking? && mid.dirs[d].pc.target > 0 && mid.dirs[d].due == 0
    ensures Can(l, seen, l') && Only(mid, l', d)
    ensures l'.dirs[d].pc == L.Setting(mid.dirs[d].pc.target)
  {
    l' := Do(l, seen, mid, L.Recheck(d));
  }

  lemma DoSetSock(l: L.State, seen: seq<Seen>, mid: L.State, d: nat) returns (l': L.State)
    requires Can(l, seen, mid) && L.Sane(mid) && |mid.dirs| == 4 && d < 4
    requires mid.dirs[d].pc.Setting?
    ensures Can(l, seen, l') && Only(mid, l', d)
    ensures l'.dirs[d].pc == L.Storing(mid.dirs[d].pc.target) && l'.dirs[d].sock == mid.dirs[d].pc.target
  {
    l' := Do(l, seen, mid, L.SetSock(d));
  }

  lemma DoAim(l: L.State, seen: seq<Seen>, mid: L.State, d: nat) returns (l': L.State)
    requires Can(l, seen, mid) && L.Sane(mid) && |mid.dirs| == 4 && d < 4
    requires mid.dirs[d].pc == L.Arming(false) && mid.dirs[d].due == 0
    ensures Can(l, seen, l') && Only(mid, l', d)
    ensures l'.dirs[d].pc == L.Rechecking(false, L.Deadline(mid)) && l'.dirs[d].due == 0
  {
    l' := DoFastCheck(l, seen, mid, d);
    l' := DoCompute(l, seen, l', d);
  }

  lemma DoSet(l: L.State, seen: seq<Seen>, mid: L.State, d: nat) returns (l': L.State)
    requires Can(l, seen, mid) && L.Sane(mid) && |mid.dirs| == 4 && d < 4
    requires mid.dirs[d].pc.Rechecking? && mid.dirs[d].pc.target > 0 && mid.dirs[d].due == 0
    ensures Can(l, seen, l') && Only(mid, l', d)
    ensures l'.dirs[d].pc == L.Storing(mid.dirs[d].pc.target) && l'.dirs[d].sock == mid.dirs[d].pc.target
  {
    l' := DoRecheck(l, seen, mid, d);
    l' := DoSetSock(l, seen, l', d);
  }

  lemma DoStore(l: L.State, seen: seq<Seen>, mid: L.State, d: nat) returns (l': L.State)
    requires Can(l, seen, mid) && L.Sane(mid) && |mid.dirs| == 4 && d < 4 && mid.dirs[d].pc.Storing?
    ensures Can(l, seen, l') && Only(mid, l', d)
    ensures l'.dirs[d].pc == L.Blocked && l'.dirs[d].due == mid.dirs[d].pc.target && l'.dirs[d].sock == mid.dirs[d].sock
  {
    l' := Do(l, seen, mid, L.Store(d));
  }

  /** A first arm, taken without a pause. */
  lemma DoArm(l: L.State, seen: seq<Seen>, mid: L.State, d: nat) returns (l': L.State)
    requires Can(l, seen, mid) && L.Sane(mid) && |mid.dirs| == 4 && d < 4
    requires mid.dirs[d].pc == L.Arming(false) && mid.dirs[d].due == 0
    ensures Can(l, seen, l') && Only(mid, l', d)
    ensures l'.dirs[d].pc == L.Blocked && l'.dirs[d].due == l'.dirs[d].sock == L.Deadline(mid)
  {
    l' := DoAim(l, seen, mid, d);
    l' := DoSet(l, seen, l', d);
    l' := DoStore(l, seen, l', d);
  }

  lemma DoTimeout(l: L.State, seen: seq<Seen>, mid: L.State, d: nat) returns (l': L.State)
    requires Can(l, seen, mid) && L.Sane(mid) && |mid.dirs| == 4 && d < 4 && mid.dirs[d].pc == L.Blocked
    requires 0 < mid.dirs[d].sock <= mid.now
    ensures Can(l, seen, l') && Only(mid, l', d) && l'.dirs[d].pc == L.Deciding(false, false)
  {
    l' := Do(l, seen, mid, L.IoTimeout(d, false, false));
  }

  lemma DoWake(l: L.State, seen: seq<Seen>, mid: L.State, d: nat) returns (l': L.State)
    requires Can(l, seen, mid) && L.Sane(mid) && |mid.dirs| == 4 && d < 4 && mid.dirs[d].pc == L.Blocked
    requires 0 < mid.dirs[d].sock <= mid.now
    ensures Can(l, seen, l') && Only(mid, l', d) && l'.dirs[d].pc == L.Judging(false, false, mid.now)
  {
    l' := DoTimeout(l, seen, mid, d);
    l' := Do(l, seen, l', L.SampleRetry(d));
  }

  /** A blocked call whose deadline is the idle instant expires there. */
  lemma DoExpire(l: L.State, seen: seq<Seen>, mid: L.State, d: nat) returns (l': L.State)
    requires Can(l, seen, mid) && L.Sane(mid) && |mid.dirs| == 4 && d < 4 && mid.dirs[d].pc == L.Blocked
    requires mid.now == L.Deadline(mid) == mid.dirs[d].sock
    ensures Can(l, seen + [Ended(d, false, true, mid.now)], l') && Only(mid, l', d) && l'.dirs[d].pc == L.Idle
  {
    l' := DoWake(l, seen, mid, d);
    l' := Do(l, seen, l', L.Judge(d));
  }

  /**
   * Timeout 10. Direction 0 enters at 5 and samples the clock, direction 1 then expires at 10, and
   * only afterwards does direction 0 record its 5; it expires at 15.
   */
  const LATE: seq<Seen> := [Entered(1, 0), Entered(0, 5)] + EXPIRIES
  const EXPIRIES: seq<Seen> := [Ended(1, false, true, 10), Ended(0, false, true, 15)]

  lemma LateRecordingStarts() returns (l: L.State)
    ensures Can(L.Initial(10), [Entered(1, 0)], l) && |l.dirs| == 4 && l.now == l.last == 0 && l.timeout == 10
    ensures l.dirs[1].pc == L.Blocked && l.dirs[1].sock == 10
    ensures forall d :: 0 <= d < 4 && d != 1 ==> l.dirs[d] == L.Dir(0, 0, L.Idle, 0, 0, 0)
  {
    var start := L.Initial(10);
    assert L.Runs(start, [], start) && LazySeen(start, []) == [];
    l := DoEnter(start, [], start, 1);
    assert [] + [Entered(1, 0)] == [Entered(1, 0)];
    l := Do(start, [Entered(1, 0)], l, L.Load(1));
    l := DoArm(start, [Entered(1, 0)], l, 1);
  }

  lemma LateRecordingSamples() returns (l: L.State)
    ensures Can(L.Initial(10), [Entered(1, 0)] + [Entered(0, 5)], l)
    ensures |l.dirs| == 4 && l.now == 10 && l.last == 0 && l.timeout == 10
    ensures l.dirs[1].pc == L.Blocked && l.dirs[1].sock == 10
    ensures l.dirs[0].pc == L.Touching(5, L.ToArm(false)) && l.dirs[0].due == 0
    ensures l.dirs[2].pc == l.dirs[3].pc == L.Idle
  {
    var start := L.Initial(10);
    l := LateRecordingStarts();
    l := Do(start, [Entered(1, 0)], l, L.Tick(5));
    l := DoEnter(start, [Entered(1, 0)], l, 0);
    l := Do(start, [Entered(1, 0)] + [Entered(0, 5)], l, L.Tick(10));
  }

  lemma LateRecordingRecords(seen: seq<Seen>, mid: L.State) returns (l: L.State)
    requires Can(L.Initial(10), seen, mid) && |mid.dirs| == 4 && mid.now == 10 && mid.last == 0 && mid.timeout == 10
    requires mid.dirs[0].pc == L.Touching(5, L.ToArm(false)) && mid.dirs[0].due == 0
    requires mid.dirs[1].pc == mid.dirs[2].pc == mid.dirs[3].pc == L.Idle
    ensures Can(L.Initial(10), seen, l) && |l.dirs| == 4 && l.now == 10 && l.last == 5 && l.timeout == 10
    ensures l.dirs[0].pc == L.Arming(false) && l.dirs[0].due == 0
    ensures l.dirs[1].pc == l.dirs[2].pc == l.dirs[3].pc == L.Idle
  {
    l := Do(L.Initial(10), seen, mid, L.Load(0));
    l := Do(L.Initial(10), seen, l, L.Swap(0));
  }

  lemma LateRecordingEnds(seen: seq<Seen>, mid: L.State) returns (l: L.State)
    requires Can(L.Initial(10), seen, mid) && |mid.dirs| == 4 && mid.now == 10 && mid.last == 5 && mid.timeout == 10
    requires mid.dirs[0].pc == L.Arming(false) && mid.dirs[0].due == 0
    requires mid.dirs[1].pc == mid.dirs[2].pc == mid.dirs[3].pc == L.Idle
    ensures Can(L.Initial(10), seen + [Ended(0, false, true, 15)], l)
  {
    l := DoArm(L.Initial(10), seen, mid, 0);
    l := Do(L.Initial(10), seen, l, L.Tick(15));
    l := DoExpire(L.Initial(10), seen, l, 0);
  }

  lemma LateRecordingRuns() returns (l: L.State)
    ensures Can(L.Initial(10), LATE, l)
  {
    var seen := [Entered(1, 0)] + [Entered(0, 5)];
    l := LateRecordingSamples();
    l := DoExpire(L.Initial(10), seen, l, 1);
    seen := seen + [Ended(1, false, true, 10)];
    l := LateRecordingRecords(seen, l);
    l := LateRecordingEnds(seen, l);
    assert seen + [Ended(0, false, true, 15)] == LATE;
  }

  /** The lazy form is no refinement of the eager one: this lazy run shows what no eager run shows. */
  lemma LateRecordingIsNotEager()
    ensures exists steps, l :: L.Runs(L.Initial(10), steps, l) && LazySeen(L.Initial(10), steps) == LATE
    ensures forall steps, e :: E.Runs(E.Initial(10), steps, e) ==> EagerSeen(E.Initial(10), steps) != LATE
  {
    var l := LateRecordingRuns();
    assert exists steps :: L.Runs(L.Initial(10), steps, l) && LazySeen(L.Initial(10), steps) == LATE;
    LateIsNotSpaced();
    forall steps, e | E.Runs(E.Initial(10), steps, e)
      ensures EagerSeen(E.Initial(10), steps) != LATE
    {
      EagerIsSpaced(E.Initial(10), steps, e);
    }
  }

  /** Direction 0's refresh at 5 would be too early for the expiry at 10, and from 10 on too late for that at 15. */
  lemma LateIsNotSpaced()
    ensures !Spaced(LATE, 10)
  {
    assert LATE[1..] == [Entered(0, 5)] + EXPIRIES && LATE[1..][1..] == EXPIRIES;
    assert EXPIRIES[0].at == 10 && EXPIRIES[1..][0].at == 15 && EXPIRIES[1..][0].d == 0;
    assert !Free(5, EXPIRIES, 10) && !Free(10, EXPIRIES[1..], 10);
    assert !Room(10, EXPIRIES[1..], 0, 10);
    assert !Room(5, EXPIRIES, 0, 10);
    assert !Spaced(LATE[1..], 10);
  }
}
