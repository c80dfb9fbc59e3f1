// The tunnel idle timeout (internal/netutil): a reference machine saying when an operation may
// time out, and the lazy native-TCP form and the eager shared form, both refining it.

/** When an operation of a tunnel may report a timeout, and nothing else. */
module IdleReference {
  import opened Options

  const MAX := 0x7FFF_FFFF_FFFF_FFFF

  /** The instant at which the tunnel counts as idle; computed without leaving int64. */
  function Deadline(last: int, timeout: int): (due: int)
    requires 0 <= last <= MAX && 1 <= timeout <= MAX
    ensures 1 <= due <= MAX && 0 <= MAX - timeout
    ensures due == Min(last + timeout, MAX)
  {
    if last > MAX - timeout then MAX else last + timeout
  }

  function Min(a: int, b: int): int {
    if a < b then a else b
  }

  datatype Op =
    | Quiet
    | Owing(more: bool)                 // owes the tunnel a refresh; more: the operation goes on after it
    | Refreshing(at: int, more: bool)   // sampled the clock, not yet recorded
    | InFlight

  datatype Tunnel = Tunnel(now: int, timeout: int, activity: int, ops: seq<Op>)

  datatype Event =
    | Tick(to: int)
    | Start(d: nat)
    | Sample(d: nat)
    | Apply(d: nat)
    | Progress(d: nat)                  // bytes moved inside an operation that goes on
    | Finish(d: nat, moved: bool)       // the operation returns anything but an idle timeout
    | Expire(d: nat, moved: bool)       // the operation returns an idle timeout

  function Set(s: Tunnel, d: nat, op: Op): Tunnel
    requires d < |s.ops|
  {
    s.(ops := s.ops[d := op])
  }

  function Max(a: int, b: int): int {
    if a < b then b else a
  }

  predicate Sane(s: Tunnel) {
    0 <= s.activity <= s.now <= MAX && 1 <= s.timeout <= MAX
  }

  function Next(s: Tunnel, e: Event): Option<Tunnel>
    requires Sane(s)
  {
    if e.Tick? then if s.now <= e.to <= MAX then Some(s.(now := e.to)) else None
    else if e.d >= |s.ops| then None
    else
      match (e, s.ops[e.d])
      case (Start(d), Quiet) => Some(Set(s, d, Owing(true)))
      case (Sample(d), Owing(more)) => Some(Set(s, d, Refreshing(s.now, more)))
      case (Apply(d), Refreshing(at, more)) =>
        if at > s.now then None
        else Some(Set(s.(activity := Max(s.activity, at)), d, if more then InFlight else Quiet))
      case (Progress(d), InFlight) => Some(Set(s, d, Owing(true)))
      case (Finish(d, moved), InFlight) => Some(Set(s, d, if moved then Owing(false) else Quiet))
      case (Expire(d, moved), InFlight) =>
        if s.now < Deadline(s.activity, s.timeout) then None
        else Some(Set(s, d, if moved then Owing(false) else Quiet))
      case _ => None
  }

  ghost predicate Runs(s: Tunnel, events: seq<Event>, s': Tunnel)
    decreases |events|
  {
    if events == [] then s == s'
    else Sane(s) && Next(s, events[0]).Some? && Runs(Next(s, events[0]).value, events[1..], s')
  }

  lemma Cons(s: Tunnel, e: Event, mid: Tunnel, events: seq<Event>, s': Tunnel)
    requires Sane(s) && Next(s, e) == Some(mid) && Runs(mid, events, s')
    ensures Runs(s, [e] + events, s')
  {
    assert ([e] + events)[1..] == events;
  }
}

/** The lazy form: a lock-free activity clock and deadlines extended only when they have expired. */
module LazyIdleSpec {
  import opened Options
  import R = IdleReference

  datatype After = ToArm(expired: bool) | ToReturn

  datatype Pc =
    | Idle
    | Sampling(next: After)                          // touch, before reading the clock
    | Touching(at: int, next: After)                 // touch, before loading last
    | Swapping(at: int, was: int, next: After)       // touch, before its compare-and-swap
    | Arming(expired: bool)                          // arm, before its unlocked check
    | Locked(expired: bool)                          // arm, holding the direction's lock
    | Rechecking(expired: bool, target: int)         // arm, with the deadline computed
    | Setting(target: int)
    | Storing(target: int)                           // socket set, due not yet stored
    | Blocked                                        // in the socket call
    | Deciding(moved: bool, full: bool)              // woken by a deadline, before reading the clock
    | Judging(moved: bool, full: bool, at: int)      // before loading due and last

  /**
   * One direction of one endpoint. due is the recorded deadline, sock the one its socket has (0:
   * none). retries, base and paid count this call's retries and the advances of the activity
   * clock up to its start and up to its latest computed deadline.
   */
  datatype Dir = Dir(due: int, sock: int, pc: Pc, retries: nat, base: nat, paid: nat)

  datatype State = State(now: int, timeout: int, last: int, advances: nat, dirs: seq<Dir>)

  datatype Step =
    | Tick(to: int)
    | Begin(d: nat)
    | SampleTouch(d: nat)
    | Load(d: nat)
    | Swap(d: nat)
    | FastCheck(d: nat)
    | Compute(d: nat)
    | Recheck(d: nat)
    | SetSock(d: nat)
    | SetFails(d: nat)
    | Store(d: nat)
    | IoDone(d: nat, moved: bool)
    | IoTimeout(d: nat, moved: bool, full: bool)
    | SampleRetry(d: nat)
    | Judge(d: nat)

  function Initial(timeout: int): State {
    var quiet := Dir(0, 0, Idle, 0, 0, 0);
    State(0, timeout, 0, 0, [quiet, quiet, quiet, quiet])
  }

  predicate Sane(s: State) {
    0 <= s.last <= s.now <= R.MAX && 1 <= s.timeout <= R.MAX
  }

  function Deadline(s: State): int
    requires Sane(s)
  {
    R.Deadline(s.last, s.timeout)
  }

  /** Even directions read, odd ones write; a timed-out read has moved nothing. */
  predicate IsRead(d: nat) {
    d % 2 == 0
  }

  function Go(s: State, d: nat, pc: Pc): State
    requires d < |s.dirs|
  {
    s.(dirs := s.dirs[d := s.dirs[d].(pc := pc)])
  }

  function Resume(next: After): Pc {
    if next.ToArm? then Arming(next.expired) else Idle
  }

  /** A blocked call wakes when the clock reaches its socket's deadline: time cannot pass it. */
  ghost predicate MayPass(s: State, to: int) {
    forall d :: 0 <= d < |s.dirs| && s.dirs[d].pc.Blocked? ==> s.dirs[d].sock == 0 || to <= s.dirs[d].sock
  }

  ghost function Next(s: State, e: Step): Option<State>
    requires Sane(s)
  {
    if e.Tick? then if s.now <= e.to <= R.MAX && MayPass(s, e.to) then Some(s.(now := e.to)) else None
    else if e.d >= |s.dirs| then None
    else DirNext(s, e, e.d, s.dirs[e.d])
  }

  function DirNext(s: State, e: Step, d: nat, me: Dir): Option<State>
    requires Sane(s) && d < |s.dirs|
  {
    match (e, me.pc)
    case (Begin(_), Idle) =>
      Some(s.(dirs := s.dirs[d := Dir(me.due, me.sock, Sampling(ToArm(false)), 0, s.advances, s.advances)]))
    case (SampleTouch(_), Sampling(next)) => Some(Go(s, d, Touching(s.now, next)))
    case (Load(_), Touching(at, next)) =>
      Some(Go(s, d, if at > s.last then Swapping(at, s.last, next) else Resume(next)))
    case (Swap(_), Swapping(at, was, next)) =>
      Some(if s.last == was then Go(s.(last := at, advances := s.advances + 1), d, Resume(next))
           else Go(s, d, Touching(at, next)))
    case (FastCheck(_), Arming(expired)) =>
      Some(Go(s, d, if !expired && me.due > s.last then Blocked else Locked(expired)))
    case (Compute(_), Locked(expired)) =>
      Some(s.(dirs := s.dirs[d := me.(pc := Rechecking(expired, Deadline(s)), paid := s.advances)]))
    case (Recheck(_), Rechecking(expired, target)) =>
      Some(Go(s, d, if (!expired && me.due > s.last) || me.due >= target then Blocked else Setting(target)))
    case (SetSock(_), Setting(target)) =>
      Some(s.(dirs := s.dirs[d := me.(pc := Storing(target), sock := target)]))
    case (SetFails(_), Setting(_)) => Some(Go(s, d, Idle))
    case (Store(_), Storing(target)) => Some(s.(dirs := s.dirs[d := me.(pc := Blocked, due := target)]))
    case (IoDone(_, moved), Blocked) => Some(Go(s, d, if moved then Sampling(ToReturn) else Idle))
    case (IoTimeout(_, moved, full), Blocked) =>
      if me.sock > 0 && s.now >= me.sock && (IsRead(d) ==> !moved && !full)
      then Some(Go(s, d, Deciding(moved, full))) else None
    case (SampleRetry(_), Deciding(moved, full)) => Some(Go(s, d, Judging(moved, full, s.now)))
    case (Judge(_), Judging(moved, full, at)) =>
      if Retries(s, me, at) then
        var after := if full then ToReturn else ToArm(true);
        var pc := if moved then Sampling(after) else Resume(after);
        Some(s.(dirs := s.dirs[d := me.(pc := pc, retries := me.retries + 1)]))
      else Some(Go(s, d, if moved then Sampling(ToReturn) else Idle))
    case _ => None
  }

  /** retry: the wakeup was our own expired deadline, and the tunnel has been active since. */
  predicate Retries(s: State, me: Dir, at: int)
    requires Sane(s)
  {
    at >= me.due && at < Deadline(s)
  }

  ghost predicate Runs(s: State, steps: seq<Step>, s': State)
    decreases |steps|
  {
    if steps == [] then s == s'
    else Sane(s) && Next(s, steps[0]).Some? && Runs(Next(s, steps[0]).value, steps[1..], s')
  }

  // ---- the invariant ----

  ghost predicate DirOk(s: State, me: Dir)
    requires Sane(s)
  {
    && 0 <= me.due <= Deadline(s)
    && 0 <= me.sock <= Deadline(s)
    && (!me.pc.Storing? ==> me.sock == me.due)
    && me.base <= me.paid <= s.advances
    && me.retries <= 1 + s.advances - me.base
    && match me.pc
       case Idle => true
       case Sampling(next) => AfterOk(s, me, next)
       case Touching(at, next) => 0 <= at <= s.now && AfterOk(s, me, next)
       case Swapping(at, was, next) => 0 <= was < at <= s.now && was <= s.last && AfterOk(s, me, next)
       case Arming(expired) => AfterOk(s, me, ToArm(expired))
       case Locked(expired) => AfterOk(s, me, ToArm(expired))
       case Rechecking(expired, target) =>
         1 <= target <= Deadline(s) && (expired ==> me.due < target) && (!expired ==> me.retries == 0)
         && PaidFor(s, me, target)
       case Setting(target) => me.due < target <= Deadline(s) && PaidFor(s, me, target)
       case Storing(target) => me.due < target == me.sock && PaidFor(s, me, target)
       case Blocked => me.due >= 1 && PaidFor(s, me, me.due)
       case Deciding(_, _) => 1 <= me.due <= s.now && PaidFor(s, me, me.due)
       case Judging(_, _, at) => 1 <= me.due <= at <= s.now && PaidFor(s, me, me.due)
  }

  /** Before arming: a first arm has seen no retry, a retry has a later deadline to install. */
  ghost predicate AfterOk(s: State, me: Dir, next: After)
    requires Sane(s)
  {
    match next
    case ToArm(expired) =>
      if expired then me.due < Deadline(s) else me.retries == 0
    case ToReturn => true
  }

  /** Every retry but one was paid for, and while the clock stands still this deadline is the latest. */
  ghost predicate PaidFor(s: State, me: Dir, target: int)
    requires Sane(s)
  {
    me.retries > 0 ==>
      me.retries <= 1 + me.paid - me.base && (me.paid == s.advances ==> target == Deadline(s))
  }

  ghost predicate Inv(s: State) {
    Sane(s) && |s.dirs| == 4 && forall d :: 0 <= d < 4 ==> DirOk(s, s.dirs[d])
  }

  lemma InitialInv(timeout: int)
    requires 1 <= timeout <= R.MAX
    ensures Inv(Initial(timeout))
  {}

  /** Another direction's step only moves the clock and the activity forward. */
  lemma DirOkStable(s: State, s': State, me: Dir)
    requires Sane(s) && Sane(s') && DirOk(s, me)
    requires s.timeout == s'.timeout && s.now <= s'.now && s.last <= s'.last && s.advances <= s'.advances
    requires s.advances == s'.advances ==> s.last == s'.last
    ensures DirOk(s', me)
  {}

  /** What a direction's own step keeps: itself in order, the rest untouched, the clock forward. */
  ghost predicate OwnOk(s: State, s': State, d: nat)
    requires Sane(s) && |s.dirs| == 4 && d < 4
  {
    && Sane(s') && |s'.dirs| == 4
    && s'.timeout == s.timeout && s'.now == s.now && s.last <= s'.last && s.advances <= s'.advances
    && (s.advances == s'.advances ==> s.last == s'.last)
    && DirOk(s', s'.dirs[d])
    && forall i :: 0 <= i < 4 && i != d ==> s'.dirs[i] == s.dirs[i]
  }

  predicate InTouch(pc: Pc) {
    pc.Idle? || pc.Sampling? || pc.Touching? || pc.Swapping?
  }

  predicate InArm(pc: Pc) {
    pc.Arming? || pc.Locked? || pc.Rechecking? || pc.Setting? || pc.Storing?
  }

  lemma TouchStep(s: State, e: Step, d: nat)
    requires Inv(s) && d < 4 && InTouch(s.dirs[d].pc) && DirNext(s, e, d, s.dirs[d]).Some?
    ensures OwnOk(s, DirNext(s, e, d, s.dirs[d]).value, d)
  {}

  lemma ArmStep(s: State, e: Step, d: nat)
    requires Inv(s) && d < 4 && InArm(s.dirs[d].pc) && DirNext(s, e, d, s.dirs[d]).Some?
    ensures OwnOk(s, DirNext(s, e, d, s.dirs[d]).value, d)
  {}

  lemma IoStep(s: State, e: Step, d: nat)
    requires Inv(s) && d < 4 && !InTouch(s.dirs[d].pc) && !InArm(s.dirs[d].pc) && DirNext(s, e, d, s.dirs[d]).Some?
    ensures OwnOk(s, DirNext(s, e, d, s.dirs[d]).value, d)
  {}

  lemma OwnStep(s: State, e: Step, d: nat)
    requires Inv(s) && d < 4 && DirNext(s, e, d, s.dirs[d]).Some?
    ensures OwnOk(s, DirNext(s, e, d, s.dirs[d]).value, d)
  {
    if InTouch(s.dirs[d].pc) {
      TouchStep(s, e, d);
    } else if InArm(s.dirs[d].pc) {
      ArmStep(s, e, d);
    } else {
      IoStep(s, e, d);
    }
  }

  lemma StepKeepsInv(s: State, e: Step)
    requires Inv(s) && Next(s, e).Some?
    ensures Inv(Next(s, e).value)
    ensures Next(s, e).value.timeout == s.timeout && Next(s, e).value.last >= s.last
  {
    var s' := Next(s, e).value;
    if !e.Tick? {
      OwnStep(s, e, e.d);
    }
    forall i | 0 <= i < 4
      ensures DirOk(s', s'.dirs[i])
    {
      if e.Tick? || i != e.d {
        DirOkStable(s, s', s.dirs[i]);
      }
    }
  }

  lemma {:induction false} RunKeepsInv(s: State, steps: seq<Step>, s': State)
    requires Inv(s) && Runs(s, steps, s')
    ensures Inv(s') && s'.last >= s.last && s'.timeout == s.timeout
    decreases |steps|
  {
    if steps != [] {
      StepKeepsInv(s, steps[0]);
      RunKeepsInv(Next(s, steps[0]).value, steps[1..], s');
    }
  }

  // ---- refinement of the reference ----

  function AbsOp(pc: Pc): R.Op {
    match pc
    case Idle => R.Quiet
    case Sampling(next) => R.Owing(next.ToArm?)
    case Touching(at, next) => R.Refreshing(at, next.ToArm?)
    case Swapping(at, _, next) => R.Refreshing(at, next.ToArm?)
    case _ => R.InFlight
  }

  function Abs(s: State): R.Tunnel {
    R.Tunnel(s.now, s.timeout, s.last, seq(|s.dirs|, i requires 0 <= i < |s.dirs| => AbsOp(s.dirs[i].pc)))
  }

  /** What one step of the lazy form looks like from outside; None: nothing happens. */
  function Project(s: State, e: Step): Option<R.Event>
    requires Sane(s)
  {
    if e.Tick? then Some(R.Tick(e.to))
    else if e.d >= |s.dirs| then None
    else
      var me := s.dirs[e.d];
      match (e, me.pc)
      case (Begin(d), _) => Some(R.Start(d))
      case (SampleTouch(d), _) => Some(R.Sample(d))
      case (Load(d), Touching(at, _)) => if at > s.last then None else Some(R.Apply(d))
      case (Swap(d), Swapping(_, was, _)) => if s.last == was then Some(R.Apply(d)) else None
      case (SetFails(d), _) => Some(R.Finish(d, false))
      case (IoDone(d, moved), _) => Some(R.Finish(d, moved))
      case (Judge(d), Judging(moved, full, at)) =>
        if !Retries(s, me, at) then Some(R.Expire(d, moved))
        else if full then Some(R.Finish(d, moved))
        else if moved then Some(R.Progress(d)) else None
      case _ => None
  }

  ghost function Trace(s: State, steps: seq<Step>): seq<R.Event>
    decreases |steps|
  {
    if steps == [] || !Sane(s) || Next(s, steps[0]).None? then []
    else
      var rest := Trace(Next(s, steps[0]).value, steps[1..]);
      var e := Project(s, steps[0]);
      if e.Some? then [e.value] + rest else rest
  }

  /** A direction's own step moves no other. */
  lemma AbsMovesOne(s: State, e: Step)
    requires Inv(s) && Next(s, e).Some? && !e.Tick?
    ensures var s' := Next(s, e).value;
            && e.d < |s.dirs| == |s'.dirs|
            && Abs(s').ops == Abs(s).ops[e.d := AbsOp(s'.dirs[e.d].pc)]
            && s'.now == s.now && s'.timeout == s.timeout
  {
    var s' := Next(s, e).value;
    assert forall i :: 0 <= i < |s.dirs| && i != e.d ==> Abs(s').ops[i] == Abs(s).ops[i];
  }

  /** Each step of the lazy form is one step of the reference, or none. */
  lemma StepRefines(s: State, e: Step)
    requires Inv(s) && Next(s, e).Some?
    ensures R.Sane(Abs(s))
    ensures match Project(s, e)
            case None => Abs(Next(s, e).value) == Abs(s)
            case Some(event) => R.Next(Abs(s), event) == Some(Abs(Next(s, e).value))
  {
    if !e.Tick? {
      assert DirOk(s, s.dirs[e.d]);
      AbsMovesOne(s, e);
      assert Abs(s).ops[e.d := Abs(s).ops[e.d]] == Abs(s).ops;
    }
  }

  /**
   * Every run of the lazy form, whatever the interleaving of the four directions, looks from
   * outside like a run of the reference: it times out only when the whole tunnel is idle.
   */
  lemma {:induction false} LazyRefinesReference(s: State, steps: seq<Step>, s': State)
    requires Inv(s) && Runs(s, steps, s')
    ensures R.Runs(Abs(s), Trace(s, steps), Abs(s'))
    decreases |steps|
  {
    if steps != [] {
      var next := Next(s, steps[0]).value;
      StepKeepsInv(s, steps[0]);
      StepRefines(s, steps[0]);
      LazyRefinesReference(next, steps[1..], s');
      var e := Project(s, steps[0]);
      if e.Some? {
        R.Cons(Abs(s), e.value, Abs(next), Trace(next, steps[1..]), Abs(s'));
      }
    }
  }

  // ---- what this means for one operation ----

  /** Some schedule of the four directions leads here, from any positive timeout. */
  ghost predicate Reachable(s: State) {
    1 <= s.timeout <= R.MAX && exists steps :: Runs(Initial(s.timeout), steps, s)
  }

  lemma ReachableInv(s: State)
    requires Reachable(s)
    ensures Inv(s)
  {
    var steps :| Runs(Initial(s.timeout), steps, s);
    InitialInv(s.timeout);
    RunKeepsInv(Initial(s.timeout), steps, s);
  }

  /** A timeout is reported only once the tunnel is idle. */
  lemma TimeoutOnlyWhenIdle(s: State, d: nat, moved: bool)
    requires Reachable(s) && Sane(s) && Next(s, Judge(d)).Some? && Project(s, Judge(d)) == Some(R.Expire(d, moved))
    ensures s.now >= R.Min(s.last + s.timeout, R.MAX)
  {
    ReachableInv(s);
    assert DirOk(s, s.dirs[d]);
  }

  lemma WokenRun(s: State, d: nat)
    requires Inv(s) && d < 4 && Next(s, IoTimeout(d, false, false)).Some?
    ensures Runs(s, [IoTimeout(d, false, false), SampleRetry(d)], Go(s, d, Judging(false, false, s.now)))
  {
    var mid := Go(s, d, Deciding(false, false));
    var woken := Go(s, d, Judging(false, false, s.now));
    WokenSteps(s, d);
    assert Runs(mid, [SampleRetry(d)], woken);
    assert [IoTimeout(d, false, false), SampleRetry(d)][1..] == [SampleRetry(d)];
  }

  lemma WokenSteps(s: State, d: nat)
    requires Inv(s) && d < 4 && Next(s, IoTimeout(d, false, false)).Some?
    ensures var mid := Go(s, d, Deciding(false, false));
            && Sane(mid) && Next(s, IoTimeout(d, false, false)) == Some(mid)
            && Next(mid, SampleRetry(d)) == Some(Go(s, d, Judging(false, false, s.now)))
  {
    var mid := Go(s, d, Deciding(false, false));
    assert mid.dirs[d := mid.dirs[d].(pc := Judging(false, false, s.now))]
        == Go(s, d, Judging(false, false, s.now)).dirs;
  }

  lemma JudgedOnceWoken(s: State, d: nat)
    requires Inv(s) && d < 4 && s.dirs[d].pc.Blocked? && Next(s, IoTimeout(d, false, false)).Some?
    ensures Sane(Go(s, d, Judging(false, false, s.now))) && VerdictIsIdle(s, d)
  {
    assert DirOk(s, s.dirs[d]);
  }

  /** Woken now, the call returns a timeout if the tunnel is idle, and arms again if it is not. */
  ghost predicate VerdictIsIdle(s: State, d: nat)
    requires Sane(s) && d < |s.dirs|
  {
    var woken := Go(s, d, Judging(false, false, s.now));
    && Next(woken, Judge(d)).Some?
    && Next(woken, Judge(d)).value.dirs[d].pc == if s.now >= Deadline(s) then Idle else Arming(true)
  }

  lemma BlockedIsWokenInTime(s: State, d: nat)
    requires Inv(s) && d < 4 && s.dirs[d].pc.Blocked?
    ensures 1 <= s.dirs[d].sock <= Deadline(s)
    ensures forall to :: Next(s, Tick(to)).Some? ==> to <= Deadline(s)
    ensures s.now >= Deadline(s) ==> Next(s, IoTimeout(d, false, false)).Some?
  {
    assert DirOk(s, s.dirs[d]);
  }

  /**
   * A blocked operation is woken no later than the idle deadline, which time cannot pass; and
   * once woken, with nobody else moving, it returns a timeout if and only if the tunnel is idle.
   */
  lemma BlockedIsReturnedExactlyWhenIdle(s: State, d: nat)
    requires Reachable(s) && d < |s.dirs| && s.dirs[d].pc.Blocked?
    ensures Sane(s) && d < 4 && 1 <= s.dirs[d].sock <= Deadline(s)
    ensures forall to :: Next(s, Tick(to)).Some? ==> to <= Deadline(s)
    ensures s.now >= Deadline(s) ==> Next(s, IoTimeout(d, false, false)).Some?
    ensures Next(s, IoTimeout(d, false, false)).Some? ==>
              && Runs(s, [IoTimeout(d, false, false), SampleRetry(d)], Go(s, d, Judging(false, false, s.now)))
              && VerdictIsIdle(s, d)
  {
    ReachableInv(s);
    BlockedIsWokenInTime(s, d);
    if Next(s, IoTimeout(d, false, false)).Some? {
      WokenRun(s, d);
      JudgedOnceWoken(s, d);
    }
  }

  /** A retry always goes on to install a deadline strictly later than the one that woke it. */
  lemma RetryInstallsLaterDeadline(s: State, d: nat)
    requires Reachable(s) && Sane(s) && d < |s.dirs| == 4
    requires s.dirs[d].pc.Arming? || s.dirs[d].pc.Locked? || s.dirs[d].pc.Rechecking?
    requires s.dirs[d].pc.expired
    ensures var me := s.dirs[d];
            match me.pc
            case Arming(_) => Next(s, FastCheck(d)) == Some(Go(s, d, Locked(true)))
            case Locked(_) => me.due < Next(s, Compute(d)).value.dirs[d].pc.target == Deadline(s)
            case _ => me.due < me.pc.target && Next(s, Recheck(d)) == Some(Go(s, d, Setting(me.pc.target)))
  {
    ReachableInv(s);
    assert DirOk(s, s.dirs[d]);
  }

  /** Each retry of a call but its first was paid for by an advance of the activity clock. */
  lemma RetriesArePaidFor(s: State, d: nat)
    requires Reachable(s) && Sane(s) && d < |s.dirs|
    ensures s.dirs[d].retries <= 1 + s.advances - s.dirs[d].base
    ensures s.dirs[d].pc.Judging? && Retries(s, s.dirs[d], s.dirs[d].pc.at) && s.dirs[d].retries > 0 ==>
              s.advances > s.dirs[d].paid
  {
    ReachableInv(s);
    assert DirOk(s, s.dirs[d]);
  }

  /** The activity clock moves only forward, and advances counts exactly its moves. */
  lemma AdvancesCountMoves(s: State, e: Step)
    requires Reachable(s) && Sane(s) && Next(s, e).Some?
    ensures var s' := Next(s, e).value;
            if s'.advances == s.advances then s'.last == s.last
            else s'.advances == s.advances + 1 && s'.last > s.last && s'.last <= s.now
  {
    ReachableInv(s);
    if !e.Tick? {
      assert DirOk(s, s.dirs[e.d]);
    }
  }
}

/** The eager form: every refresh rewrites both endpoints' deadlines under one lock. */
module EagerIdleSpec {
  import opened Options
  import R = IdleReference

  /** Entering: owes a refresh, then goes on into the socket call or returns. */
  datatype Op = Idle | Entering(more: bool) | InFlight

  /** activity is when the latest refresh took place; deadlines belong to the two endpoints. */
  datatype State = State(now: int, timeout: int, activity: int, deadlines: seq<Option<int>>, ops: seq<Op>)

  datatype Step =
    | Tick(to: int)
    | Begin(d: nat)
    | Refresh(d: nat)
    | IoDone(d: nat, moved: bool)
    | IoTimeout(d: nat, moved: bool)

  function Initial(timeout: int): State {
    State(0, timeout, 0, [None, None], [Idle, Idle, Idle, Idle])
  }

  /** refreshDeadline's loop over the two connections. */
  function Stamped(deadlines: seq<Option<int>>, due: int): seq<Option<int>> {
    seq(|deadlines|, _ => Some(due))
  }

  function Next(s: State, e: Step): Option<State> {
    if e.Tick? then if s.now <= e.to <= R.MAX then Some(s.(now := e.to)) else None
    else if e.d >= |s.ops| || |s.deadlines| != 2 || e.d >= 4 then None
    else
      var due := s.deadlines[e.d / 2];
      match (e, s.ops[e.d])
      case (Begin(d), Idle) => Some(s.(ops := s.ops[d := Entering(true)]))
      case (Refresh(d), Entering(more)) =>
        Some(s.(activity := s.now, deadlines := Stamped(s.deadlines, s.now + s.timeout),
                ops := s.ops[d := if more then InFlight else Idle]))
      case (IoDone(d, moved), InFlight) => Some(s.(ops := s.ops[d := if moved then Entering(false) else Idle]))
      case (IoTimeout(d, moved), InFlight) =>
        if due.Some? && s.now >= due.value
        then Some(s.(ops := s.ops[d := if moved then Entering(false) else Idle])) else None
      case _ => None
  }

  ghost predicate Runs(s: State, steps: seq<Step>, s': State)
    decreases |steps|
  {
    if steps == [] then s == s'
    else Next(s, steps[0]).Some? && Runs(Next(s, steps[0]).value, steps[1..], s')
  }

  /** Once anything is in flight, both endpoints carry exactly last activity plus timeout. */
  ghost predicate Inv(s: State) {
    && 0 <= s.activity <= s.now <= R.MAX && 1 <= s.timeout <= R.MAX
    && |s.ops| == 4 && |s.deadlines| == 2
    && (s.deadlines == [None, None] || s.deadlines == Stamped(s.deadlines, s.activity + s.timeout))
    && (forall d :: 0 <= d < 4 && s.ops[d].InFlight? ==> s.deadlines[0].Some?)
  }

  function Abs(s: State): R.Tunnel {
    R.Tunnel(s.now, s.timeout, s.activity, seq(|s.ops|, i requires 0 <= i < |s.ops| => AbsOp(s.ops[i])))
  }

  function AbsOp(op: Op): R.Op {
    match op
    case Idle => R.Quiet
    case Entering(more) => R.Owing(more)
    case InFlight => R.InFlight
  }

  function Project(e: Step): seq<R.Event> {
    match e
    case Tick(to) => [R.Tick(to)]
    case Begin(d) => [R.Start(d)]
    case Refresh(d) => [R.Sample(d), R.Apply(d)]
    case IoDone(d, moved) => [R.Finish(d, moved)]
    case IoTimeout(d, moved) => [R.Expire(d, moved)]
  }

  function Trace(steps: seq<Step>): seq<R.Event> {
    if steps == [] then [] else Project(steps[0]) + Trace(steps[1..])
  }

  lemma StepKeepsInv(s: State, e: Step)
    requires Inv(s) && Next(s, e).Some?
    ensures Inv(Next(s, e).value)
  {}

  lemma StepRefines(s: State, e: Step, events: seq<R.Event>, t: R.Tunnel)
    requires Inv(s) && Next(s, e).Some? && R.Runs(Abs(Next(s, e).value), events, t)
    ensures R.Runs(Abs(s), Project(e) + events, t)
  {
    var s' := Next(s, e).value;
    if e.Tick? {
      R.Cons(Abs(s), R.Tick(e.to), Abs(s'), events, t);
    } else {
      var d := e.d;
      assert Abs(s').ops == Abs(s).ops[d := AbsOp(s'.ops[d])];
      if e.Refresh? {
        var mid := R.Set(Abs(s), d, R.Refreshing(s.now, s.ops[d].more));
        assert mid.ops[d := AbsOp(s'.ops[d])] == Abs(s').ops;
        R.Cons(mid, R.Apply(d), Abs(s'), events, t);
        R.Cons(Abs(s), R.Sample(d), mid, [R.Apply(d)] + events, t);
        assert Project(e) + events == [R.Sample(d)] + ([R.Apply(d)] + events);
      } else {
        R.Cons(Abs(s), Project(e)[0], Abs(s'), events, t);
      }
    }
  }

  /** The eager form too never times out before the reference would let it. */
  lemma {:induction false} EagerRefinesReference(s: State, steps: seq<Step>, s': State)
    requires Inv(s) && Runs(s, steps, s')
    ensures R.Runs(Abs(s), Trace(steps), Abs(s'))
    decreases |steps|
  {
    if steps != [] {
      var next := Next(s, steps[0]).value;
      StepKeepsInv(s, steps[0]);
      EagerRefinesReference(next, steps[1..], s');
      StepRefines(s, steps[0], Trace(steps[1..]), Abs(s'));
    }
  }

  /** An operation in flight can time out exactly from last activity plus timeout on. */
  lemma EagerTimesOutExactlyWhenIdle(timeout: int, steps: seq<Step>, s: State, d: nat)
    requires 1 <= timeout <= R.MAX && Runs(Initial(timeout), steps, s) && d < |s.ops| && s.ops[d].InFlight?
    ensures Next(s, IoTimeout(d, false)).Some? <==> s.now >= s.activity + timeout
  {
    RunKeepsInv(Initial(timeout), steps, s);
  }

  lemma {:induction false} RunKeepsInv(s: State, steps: seq<Step>, s': State)
    requires Inv(s) && Runs(s, steps, s')
    ensures Inv(s') && s'.timeout == s.timeout
    decreases |steps|
  {
    if steps != [] {
      StepKeepsInv(s, steps[0]);
      RunKeepsInv(Next(s, steps[0]).value, steps[1..], s');
    }
  }
}
