// The methods of tcpIdleConn and idleGroup in their own form: loops over single atomic
// operations, with anything the other directions may do in between.

module TcpIdleCalls {
  import opened Bytes
  import opened Options
  import opened LazyIdleSpec
  import R = IdleReference

  /** What one direction may assume of the rest of the tunnel between two of its operations. */
  ghost predicate Rely(s: State, s': State, d: nat)
    requires Inv(s) && d < 4
  {
    && Inv(s') && s'.timeout == s.timeout && s'.dirs[d] == s.dirs[d]
    && s.now <= s'.now && s.last <= s'.last && s.advances <= s'.advances
    && (s.advances == s'.advances ==> s.last == s'.last)
  }

  /** Any steps of the clock and the other three directions stay within that assumption. */
  lemma {:induction false} OthersKeepRely(s: State, steps: seq<Step>, s': State, d: nat)
    requires Inv(s) && d < 4 && Runs(s, steps, s')
    requires forall i :: 0 <= i < |steps| ==> steps[i].Tick? || steps[i].d != d
    ensures Rely(s, s', d)
    decreases |steps|
  {
    if steps != [] {
      var next := Next(s, steps[0]).value;
      StepKeepsInv(s, steps[0]);
      if !steps[0].Tick? {
        OwnStep(s, steps[0], steps[0].d);
      }
      OthersKeepRely(next, steps[1..], s', d);
    }
  }

  /** The rest of the tunnel, as a function of the turn and of what it finds. */
  type Others = (nat, State) -> State

  ghost predicate Friendly(others: Others, d: nat)
    requires d < 4
  {
    forall turn, s :: Inv(s) ==> Rely(s, others(turn, s), d)
  }

  datatype Answer = Done | Failed | TimedOut

  /** What the socket answers to one call. */
  datatype Io = Io(n: nat, answer: Answer)

  datatype Error = NoError | SocketError | IdleTimeout | SetDeadlineError

  /** How many of room bytes the socket moves: all of them when it reports no error on a write. */
  function Moves(io: Io, room: nat, whole: bool): nat {
    if (whole && io.answer.Done?) || io.n > room then room else io.n
  }

  /** The error that one turn of a call ends with, if it ends there, comes from where the source takes it. */
  predicate Explains(error: Error, io: Io, accepts: bool, full: bool) {
    match error
    case NoError => io.answer.Done? || (io.answer.TimedOut? && full)
    case SocketError => !io.answer.Done?
    case IdleTimeout => io.answer.TimedOut?
    case SetDeadlineError => !accepts
  }

  class Tunnel {
    const timeout: int
    var now: int
    var last: int
    var dirs: seq<Dir>
    var advances: nat             // how often last has moved
    var accepted: seq<seq<byte>>   // per direction: the bytes its socket has taken so far
    var turn: nat

    ghost function View(): State
      reads this
    {
      State(now, timeout, last, advances, dirs)
    }

    ghost predicate Valid()
      reads this
    {
      Inv(View()) && |accepted| == 4
    }

    constructor (timeout: int)
      requires 1 <= timeout <= R.MAX
      ensures Valid() && View() == Initial(timeout)
    {
      this.timeout := timeout;
      now, last, advances, turn := 0, 0, 0, 0;
      dirs := Initial(timeout).dirs;
      accepted := [[], [], [], []];
    }

    /** The other directions take their turn. */
    method Interfere(d: nat, others: Others)
      requires Valid() && d < 4 && Friendly(others, d)
      modifies this`now, this`last, this`dirs, this`advances, this`turn
      ensures Valid() && Rely(old(View()), View(), d)
    {
      var after := others(turn, State(now, timeout, last, advances, dirs));
      turn := turn + 1;
      now, last, advances, dirs := after.now, after.last, after.advances, after.dirs;
    }

    /** touch: raise last to the time it was called, unless it is there already. */
    method Touch(d: nat, next: After, others: Others)
      requires Valid() && d < 4 && dirs[d].pc == Sampling(next) && Friendly(others, d)
      modifies this`now, this`last, this`dirs, this`advances, this`turn
      ensures Valid() && Calls(old(View()), View(), d) && dirs[d] == old(dirs[d]).(pc := Resume(next))
      ensures last >= old(now)
    {
      ghost var start := View();
      var at := now;
      Become(d, dirs[d].(pc := Touching(at, next)), SampleTouch(d));
      Interfere(d, others);
      while at > last
        invariant Valid() && Calls(start, View(), d) && dirs[d] == start.dirs[d].(pc := Touching(at, next))
        decreases at - last
      {
        var swapped := TrySwap(d, at, next, others);
        if swapped {
          return;
        }
        Interfere(d, others);
      }
      Become(d, dirs[d].(pc := Resume(next)), Load(d));
    }

    /** A load that finds last behind, and the compare-and-swap that follows; it fails only if last has moved. */
    method TrySwap(d: nat, at: int, next: After, others: Others) returns (swapped: bool)
      requires Valid() && d < 4 && dirs[d].pc == Touching(at, next) && at > last && Friendly(others, d)
      modifies this`now, this`last, this`dirs, this`advances, this`turn
      ensures Valid() && Calls(old(View()), View(), d)
      ensures dirs[d] == old(dirs[d]).(pc := if swapped then Resume(next) else Touching(at, next))
      ensures if swapped then last == at else last > old(last)
    {
      var was := last;
      Become(d, dirs[d].(pc := Swapping(at, was, next)), Load(d));
      Interfere(d, others);
      StepKeepsInv(View(), Swap(d));
      swapped := last == was;
      if swapped {
        last := at;
        advances := advances + 1;
      }
      dirs := dirs[d := dirs[d].(pc := if swapped then Resume(next) else Touching(at, next))];
    }

    /** One atomic operation that changes nothing but this direction's own record. */
    method Become(d: nat, me: Dir, ghost e: Step)
      requires Valid() && d < 4
      requires Next(View(), e) == Some(View().(dirs := dirs[d := me]))
      modifies this`dirs
      ensures Valid() && dirs == old(dirs)[d := me]
    {
      StepKeepsInv(View(), e);
      dirs := dirs[d := me];
    }

    /** arm: make sure the socket has a deadline that is worth waiting for. */
    method Arm(d: nat, expired: bool, accepts: bool, others: Others) returns (ok: bool)
      requires Valid() && d < 4 && dirs[d].pc == Arming(expired) && Friendly(others, d)
      modifies this`now, this`last, this`dirs, this`advances, this`turn
      ensures Valid() && Calls(old(View()), View(), d) && dirs[d].retries == old(dirs[d].retries)
      ensures dirs[d].pc == if ok then Blocked else Idle
      ensures dirs[d].due >= old(dirs[d].due) && (ok && expired ==> dirs[d].due > old(dirs[d].due))
      ensures !ok ==> !accepts
    {
      if !expired && dirs[d].due > last {
        Become(d, dirs[d].(pc := Blocked), FastCheck(d));
        return true;
      }
      Become(d, dirs[d].(pc := Locked(expired)), FastCheck(d));
      Interfere(d, others);
      ok := ArmLocked(d, expired, accepts, others);
    }

    /** arm, from taking the direction's lock on. */
    method ArmLocked(d: nat, expired: bool, accepts: bool, others: Others) returns (ok: bool)
      requires Valid() && d < 4 && dirs[d].pc == Locked(expired) && Friendly(others, d)
      modifies this`now, this`last, this`dirs, this`advances, this`turn
      ensures Valid() && Calls(old(View()), View(), d) && dirs[d].retries == old(dirs[d].retries)
      ensures dirs[d].pc == if ok then Blocked else Idle
      ensures dirs[d].due >= old(dirs[d].due) && (ok && expired ==> dirs[d].due > old(dirs[d].due))
      ensures !ok ==> !accepts
    {
      var target := R.MAX;
      if last <= R.MAX - timeout {
        target := last + timeout;
      }
      Become(d, dirs[d].(pc := Rechecking(expired, target), paid := advances), Compute(d));
      Interfere(d, others);
      if (!expired && dirs[d].due > last) || dirs[d].due >= target {
        Become(d, dirs[d].(pc := Blocked), Recheck(d));
        return true;
      }
      Become(d, dirs[d].(pc := Setting(target)), Recheck(d));
      Interfere(d, others);
      ok := Install(d, target, accepts, others);
    }

    /** The end of arm: hand the deadline to the socket, then record it. */
    method Install(d: nat, target: int, accepts: bool, others: Others) returns (ok: bool)
      requires Valid() && d < 4 && dirs[d].pc == Setting(target) && Friendly(others, d)
      modifies this`now, this`last, this`dirs, this`advances, this`turn
      ensures Valid() && Calls(old(View()), View(), d) && dirs[d].retries == old(dirs[d].retries)
      ensures ok == accepts && dirs[d].pc == if ok then Blocked else Idle
      ensures if ok then dirs[d].due == target > old(dirs[d].due) else dirs[d].due == old(dirs[d].due)
    {
      if !accepts {
        Become(d, dirs[d].(pc := Idle), SetFails(d));
        return false;
      }
      Become(d, dirs[d].(pc := Storing(target), sock := target), SetSock(d));
      Interfere(d, others);
      Become(d, dirs[d].(pc := Blocked, due := target), Store(d));
      return true;
    }

    /** The socket call: how much of rest it took, and how it ended. No outside deadline interferes. */
    method RawWrite(d: nat, rest: seq<byte>, io: Io) returns (n: nat, answer: Answer)
      requires |accepted| == 4 && |dirs| == 4 && d < 4
      modifies this`accepted
      ensures n == Moves(io, |rest|, true) <= |rest| && (answer.Done? ==> n == |rest|)
      ensures (answer.Done? <==> io.answer.Done?) && (answer.TimedOut? ==> io.answer.TimedOut?)
      ensures answer.TimedOut? ==> dirs[d].sock > 0 && now >= dirs[d].sock
      ensures accepted == old(accepted)[d := old(accepted[d]) + rest[..n]]
    {
      answer := if io.answer.TimedOut? && !(dirs[d].sock > 0 && now >= dirs[d].sock) then Failed else io.answer;
      n := if io.answer.Done? || io.n > |rest| then |rest| else io.n;
      accepted := accepted[d := accepted[d] + rest[..n]];
    }

    /** The socket call ended without a timeout: refresh if bytes moved, and leave. */
    method Return(d: nat, moved: bool, others: Others)
      requires Valid() && d < 4 && dirs[d].pc.Blocked? && Friendly(others, d)
      modifies this`now, this`last, this`dirs, this`advances, this`turn
      ensures Valid() && Calls(old(View()), View(), d) && dirs[d] == old(dirs[d]).(pc := Idle)
      ensures moved ==> last >= old(now)
    {
      Become(d, dirs[d].(pc := if moved then Sampling(ToReturn) else Idle), IoDone(d, moved));
      if moved {
        Touch(d, ToReturn, others);
      }
    }

    /** retry's answer, read off the current deadline and activity. */
    method Retry(d: nat, moved: bool, full: bool, others: Others) returns (again: bool, ghost judged: State)
      requires Valid() && d < 4 && dirs[d].pc == Deciding(moved, full) && Friendly(others, d)
      modifies this`now, this`last, this`dirs, this`advances, this`turn
      ensures Valid() && Calls(old(View()), View(), d) && dirs[d].due == old(dirs[d].due)
      ensures var after := if again && !full then ToArm(true) else ToReturn;
              dirs[d].pc == if moved then Sampling(after) else Resume(after)
      ensures Calls(old(View()), judged, d) && Calls(judged, View(), d)
      ensures !again ==> judged.now >= Deadline(judged)
    {
      var at := now;
      Become(d, dirs[d].(pc := Judging(moved, full, at)), SampleRetry(d));
      Interfere(d, others);
      judged := View();
      var deadline := if last > R.MAX - timeout then R.MAX else last + timeout;
      again := at >= dirs[d].due && at < deadline;
      if again {
        var after := if full then ToReturn else ToArm(true);
        var pc := if moved then Sampling(after) else Resume(after);
        Become(d, dirs[d].(pc := pc, retries := dirs[d].retries + 1), Judge(d));
      } else {
        Become(d, dirs[d].(pc := if moved then Sampling(ToReturn) else Idle), Judge(d));
      }
    }

    /** The socket call ended with a timeout: judge it, and refresh if bytes moved. */
    method AfterTimeout(d: nat, moved: bool, full: bool, others: Others) returns (again: bool, ghost judged: State)
      requires Valid() && d < 4 && dirs[d].pc.Blocked? && Friendly(others, d)
      requires dirs[d].sock > 0 && now >= dirs[d].sock && (IsRead(d) ==> !moved && !full)
      modifies this`now, this`last, this`dirs, this`advances, this`turn
      ensures Valid() && Calls(old(View()), View(), d) && dirs[d].due == old(dirs[d].due)
      ensures dirs[d].pc == if again && !full then Arming(true) else Idle
      ensures !again ==> Judged(old(View()), judged, View())
      ensures moved ==> last >= old(now)
    {
      Become(d, dirs[d].(pc := Deciding(moved, full)), IoTimeout(d, moved, full));
      again, judged := Retry(d, moved, full, others);
      if moved {
        Touch(d, if again && !full then ToArm(true) else ToReturn, others);
      }
    }

    /** One turn of Write's loop: arm, offer the rest, and decide whether to go on. */
    method WriteOnce(d: nat, expired: bool, rest: seq<byte>, others: Others, io: Io, accepts: bool)
      returns (n: nat, over: bool, error: Error, ghost judged: State)
      requires Valid() && d < 4 && !IsRead(d) && dirs[d].pc == Arming(expired) && Friendly(others, d)
      modifies this
      ensures Valid() && Calls(old(View()), View(), d)
      ensures n <= |rest| && accepted == old(accepted)[d := old(accepted[d]) + rest[..n]]
      ensures dirs[d].pc == if over then Idle else Arming(true)
      ensures !over ==> dirs[d].due >= old(dirs[d].due) && (expired ==> dirs[d].due > old(dirs[d].due))
      ensures over && error.NoError? ==> n == |rest|
      ensures over && error.IdleTimeout? ==> Judged(old(View()), judged, View())
      ensures if over then Explains(error, io, accepts, n == |rest|) else io.answer.TimedOut? && n < |rest|
      ensures n == if over && error.SetDeadlineError? then 0 else Moves(io, |rest|, true)
      ensures n > 0 ==> last >= old(now)
    {
      n, judged := 0, View();
      var ok := Arm(d, expired, accepts, others);
      if !ok {
        assert accepted[d] + rest[..0] == accepted[d];
        return n, true, SetDeadlineError, judged;
      }
      Interfere(d, others);
      var answer;
      n, answer := RawWrite(d, rest, io);
      if !answer.TimedOut? {
        Return(d, n > 0, others);
        return n, true, if answer.Done? then NoError else SocketError, judged;
      }
      var again;
      again, judged := AfterTimeout(d, n > 0, n == |rest|, others);
      return n, !again || n == |rest|, if again then NoError else IdleTimeout, judged;
    }

    /**
     * Write. The socket has taken exactly the first total bytes, in order and once each; no error
     * means all of them; a timeout means the tunnel was idle when it was judged; and the retries
     * were paid for by the activity clock. Every turn but the last was a stale timeout, and the last
     * one explains the error: none exactly if the socket was done or had taken everything. That each
     * retry installs a later deadline is what makes the loop end.
     */
    method Write(d: nat, payload: seq<byte>, others: Others, io: nat -> Io, accepts: nat -> bool)
      returns (total: nat, error: Error, ghost judged: State, ghost turns: nat)
      requires Valid() && d < 4 && !IsRead(d) && dirs[d].pc.Idle? && Friendly(others, d)
      modifies this
      ensures Valid() && dirs[d].pc.Idle?
      ensures total <= |payload| && accepted == old(accepted)[d := old(accepted[d]) + payload[..total]]
      ensures error.NoError? ==> total == |payload|
      ensures error.IdleTimeout? ==> Judged(old(View()), judged, View())
      ensures dirs[d].retries <= 1 + advances - old(advances)
      ensures turns > 0 && forall k :: 0 <= k < turns - 1 ==> io(k).answer.TimedOut?
      ensures Explains(error, io(turns - 1), accepts(turns - 1), total == |payload|)
      ensures (forall k :: accepts(k) && io(k).answer.Done?) ==> error.NoError?
      ensures last >= old(now)
    {
      Start(d, others);
      ghost var begun := View();
      total, turns := 0, 0;
      assert accepted[d] + payload[..0] == accepted[d];
      var expired, calls := false, 0;
      while true
        invariant Valid() && Calls(begun, View(), d) && dirs[d].pc == Arming(expired)
        invariant total <= |payload| && accepted == old(accepted)[d := old(accepted[d]) + payload[..total]]
        invariant calls == turns && forall k :: 0 <= k < turns ==> io(k).answer.TimedOut?
        decreases !expired, R.MAX - dirs[d].due
      {
        var rest := payload[total..];
        var n, over;
        n, over, error, judged := WriteOnce(d, expired, rest, others, io(calls), accepts(calls));
        calls, turns := calls + 1, turns + 1;
        TakenSoFar(old(accepted[d]), payload, total, n);
        total := total + n;
        if over {
          return;
        }
        expired := true;
      }
    }

    /** A call's first touch. */
    method Start(d: nat, others: Others)
      requires Valid() && d < 4 && dirs[d].pc.Idle? && Friendly(others, d)
      modifies this`now, this`last, this`dirs, this`advances, this`turn
      ensures Valid() && dirs[d].pc == Arming(false) && dirs[d].base == old(advances) && last >= old(now)
      ensures now >= old(now) && last >= old(last) && advances >= old(advances)
    {
      Become(d, Dir(dirs[d].due, dirs[d].sock, Sampling(ToArm(false)), 0, advances, advances), Begin(d));
      Touch(d, ToArm(false), others);
    }

    /** One turn of Read's loop. */
    method ReadOnce(d: nat, expired: bool, size: nat, others: Others, io: Io, accepts: bool)
      returns (n: nat, over: bool, error: Error, ghost judged: State)
      requires Valid() && d < 4 && IsRead(d) && dirs[d].pc == Arming(expired) && Friendly(others, d)
      modifies this`now, this`last, this`dirs, this`advances, this`turn
      ensures Valid() && Calls(old(View()), View(), d) && n <= size
      ensures dirs[d].pc == if over then Idle else Arming(true)
      ensures !over ==> n == 0 && dirs[d].due >= old(dirs[d].due) && (expired ==> dirs[d].due > old(dirs[d].due))
      ensures over && error.IdleTimeout? ==> n == 0 && Judged(old(View()), judged, View())
      ensures if over then Explains(error, io, accepts, false) else io.answer.TimedOut?
      ensures over && (error.NoError? || error.SocketError?) ==> n == Moves(io, size, false)
      ensures over && error.SetDeadlineError? ==> n == 0
      ensures n > 0 ==> last >= old(now)
    {
      n, judged := 0, View();
      var ok := Arm(d, expired, accepts, others);
      if !ok {
        return n, true, SetDeadlineError, judged;
      }
      Interfere(d, others);
      if !(io.answer.TimedOut? && dirs[d].sock > 0 && now >= dirs[d].sock) {
        n := if io.n > size then size else io.n;
        Return(d, n > 0, others);
        return n, true, if io.answer.Done? then NoError else SocketError, judged;
      }
      var again;
      again, judged := AfterTimeout(d, false, false, others);
      return n, !again, IdleTimeout, judged;
    }

    /** Read, of at most size bytes: the same loop, except that bytes end it. */
    method Read(d: nat, size: nat, others: Others, io: nat -> Io, accepts: nat -> bool)
      returns (n: nat, error: Error, ghost judged: State, ghost turns: nat)
      requires Valid() && d < 4 && IsRead(d) && dirs[d].pc.Idle? && Friendly(others, d)
      modifies this`now, this`last, this`dirs, this`advances, this`turn
      ensures Valid() && dirs[d].pc.Idle? && n <= size
      ensures error.IdleTimeout? ==> n == 0 && Judged(old(View()), judged, View())
      ensures dirs[d].retries <= 1 + advances - old(advances)
      ensures turns > 0 && forall k :: 0 <= k < turns - 1 ==> io(k).answer.TimedOut?
      ensures Explains(error, io(turns - 1), accepts(turns - 1), false)
      ensures n == if error.NoError? || error.SocketError? then Moves(io(turns - 1), size, false) else 0
      ensures (forall k :: accepts(k) && io(k).answer.Done?) ==> error.NoError?
      ensures last >= old(now)
    {
      Start(d, others);
      ghost var begun := View();
      turns := 0;
      var expired, calls := false, 0;
      while true
        invariant Valid() && Calls(begun, View(), d) && dirs[d].pc == Arming(expired)
        invariant calls == turns && forall k :: 0 <= k < turns ==> io(k).answer.TimedOut?
        decreases !expired, R.MAX - dirs[d].due
      {
        var over;
        n, over, error, judged := ReadOnce(d, expired, size, others, io(calls), accepts(calls));
        calls, turns := calls + 1, turns + 1;
        if over {
          return;
        }
        expired := true;
      }
    }
  }

  lemma TakenSoFar(before: seq<byte>, payload: seq<byte>, total: nat, n: nat)
    requires total + n <= |payload|
    ensures before + payload[..total] + payload[total..][..n] == before + payload[..total + n]
  {
    assert payload[..total + n] == payload[..total] + payload[total..][..n];
  }

  /** The tunnel was idle at a state reached during the call, which is when the call was judged. */
  ghost predicate Judged(s: State, judged: State, s': State) {
    && Inv(judged) && judged.timeout == s.timeout && judged.now >= Deadline(judged)
    && s.now <= judged.now <= s'.now && s.last <= judged.last <= s'.last
  }

  /** A stretch of one direction's call, whatever the others did meanwhile. */
  ghost predicate Calls(s: State, s': State, d: nat)
    requires Inv(s) && d < 4
  {
    && Inv(s') && s'.timeout == s.timeout
    && s.now <= s'.now && s.last <= s'.last && s.advances <= s'.advances
    && (s.advances == s'.advances ==> s.last == s'.last)
    && s'.dirs[d].base == s.dirs[d].base
  }
}

/** The eager form's own code: idleGroup and the shared mode of IdleConn. */
module EagerIdleCalls {
  import opened Options
  import opened EagerIdleSpec
  import R = IdleReference

  /** Two endpoints joined by ShareIdleTimeout. */
  class IdleGroup {
    const timeout: int
    var now: int
    var deadlines: seq<Option<int>>
    ghost var activity: int
    ghost var ops: seq<Op>

    ghost function View(): State
      reads this
    {
      State(now, timeout, activity, deadlines, ops)
    }

    ghost predicate Valid()
      reads this
    {
      Inv(View())
    }

    constructor (timeout: int)
      requires 1 <= timeout <= R.MAX
      ensures Valid() && View() == Initial(timeout)
    {
      this.timeout := timeout;
      now, deadlines, activity := 0, [None, None], 0;
      ops := Initial(timeout).ops;
    }

    /**
     * refreshDeadline: give every endpoint the same new deadline, going on past one that refuses
     * it, and report the first refusal.
     */
    method RefreshDeadline(accepts: seq<bool>) returns (firstErr: Option<nat>)
      requires |accepts| == |deadlines|
      modifies this`deadlines
      ensures |deadlines| == |accepts|
      ensures forall i :: 0 <= i < |accepts| ==>
                            deadlines[i] == if accepts[i] then Some(now + timeout) else old(deadlines[i])
      ensures match firstErr
              case None => forall i :: 0 <= i < |accepts| ==> accepts[i]
              case Some(k) => k < |accepts| && !accepts[k] && forall i :: 0 <= i < k ==> accepts[i]
    {
      firstErr := None;
      var due := now + timeout;
      for i := 0 to |deadlines|
        invariant |deadlines| == |accepts|
        invariant forall j :: 0 <= j < |accepts| ==>
                    deadlines[j] == if j < i && accepts[j] then Some(due) else old(deadlines[j])
        invariant match firstErr
                  case None => forall j :: 0 <= j < i ==> accepts[j]
                  case Some(k) => k < i && !accepts[k] && forall j :: 0 <= j < k ==> accepts[j]
      {
        if accepts[i] {
          deadlines := deadlines[i := Some(due)];
        } else if firstErr.None? {
          firstErr := Some(i);
        }
      }
    }

    /** The refresh that starts or ends an operation on working sockets: one locked step. */
    method Touch(d: nat)
      requires Valid() && d < 4 && ops[d].Entering?
      modifies this`deadlines, this`activity, this`ops
      ensures Next(old(View()), Refresh(d)) == Some(View()) && Valid()
      ensures deadlines == [Some(now + timeout), Some(now + timeout)]
    {
      StepKeepsInv(View(), Refresh(d));
      ghost var before := deadlines;
      var firstErr := RefreshDeadline(seq(|deadlines|, _ => true));
      assert deadlines == Stamped(before, now + timeout);
      activity := now;
      ops := ops[d := if ops[d].more then InFlight else Idle];
    }
  }
}
