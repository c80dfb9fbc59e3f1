// The UDP forwarder's session table (internal/forward/udp.go): a machine over its lock-held
// blocks, semaphore operations and relay exits, and the class whose methods are those sections.

module UdpSessionsSpec {
  import opened Counting
  import opened Options

  /** How far a session's relay has got with its exit, in the order of its deferred steps. */
  datatype Phase = Running | Unlisted | Uncounted | Released | DstClosed | Done

  datatype Session = Session(key: nat, phase: Phase)

  /** Where a goroutine stands. retry is the session whose failed write led to this second get. */
  datatype Pc =
    | LookingUp(key: nat, retry: Option<nat>)
    | Acquiring(key: nat, retry: Option<nat>)
    | Dialing(key: nat, retry: Option<nat>)                          // holds a token
    | Inserting(key: nat, retry: Option<nat>, sock: nat)             // holds a token and a socket
    | BackingOut(existing: nat, retry: Option<nat>, sock: nat)       // holds a token and a socket
    | Writing(sess: nat, retry: Option<nat>)
    | Removing(sess: nat)
    | Awaiting(sess: nat)                                            // until done, or two seconds
    | ClosingAll(pending: set<nat>)

  /** Sessions are numbered by their sockets. cap is MaxConns; without it there is no semaphore. */
  datatype State = State(
    cap: Option<nat>, tokens: nat, active: int, table: map<nat, nat>,
    sessions: map<nat, Session>, sockets: nat, open: set<nat>, threads: map<nat, Pc>)

  datatype Step =
    | CallForward(t: nat, key: nat)
    | LookUp(t: nat)
    | TryAcquire(t: nat)
    | DialOk(t: nat)
    | DialErr(t: nat)
    | Insert(t: nat)
    | GiveBack(t: nat)
    | WriteOk(t: nat)
    | WriteErr(t: nat)
    | RemoveOwn(t: nat)
    | SeeDone(t: nat)
    | Fallback(t: nat)
    | CallCloseAll(t: nat)
    | CloseOne(t: nat, sess: nat)
    | CloseAllEnd(t: nat)
    | RelayExit(sess: nat)     // the next deferred step of this session's relay

  function Initial(cap: Option<nat>): State {
    State(cap, 0, 0, map[], map[], 0, {}, map[])
  }

  function Move(s: State, t: nat, pc: Pc): State {
    s.(threads := s.threads[t := pc])
  }

  function Finish(s: State, t: nat): State {
    s.(threads := s.threads - {t})
  }

  predicate Full(s: State) {
    s.cap.Some? && s.tokens >= s.cap.value
  }

  function TakeToken(s: State): State {
    if s.cap.Some? then s.(tokens := s.tokens + 1) else s
  }

  function ReturnToken(s: State): State {
    if s.cap.Some? && s.tokens > 0 then s.(tokens := s.tokens - 1) else s
  }

  /** removeIf: drop the entry only if it still is this session. */
  function RemoveIf(table: map<nat, nat>, key: nat, sess: nat): map<nat, nat> {
    if key in table && table[key] == sess then table - {key} else table
  }

  function Next(s: State, e: Step): Option<State> {
    if e.RelayExit? then
      if e.sess in s.sessions then RelayNext(s, e.sess, s.sessions[e.sess]) else None
    else if e.t in s.threads then Continue(s, e, e.t, s.threads[e.t])
    else Begin(s, e, e.t)
  }

  function Begin(s: State, e: Step, t: nat): Option<State> {
    match e
    case CallForward(_, key) => Some(Move(s, t, LookingUp(key, None)))
    case CallCloseAll(_) => Some(Move(s.(table := map[]), t, ClosingAll(s.table.Values)))
    case _ => None
  }

  function Continue(s: State, e: Step, t: nat, pc: Pc): Option<State> {
    match (e, pc)
    case (LookUp(_), LookingUp(key, retry)) =>
      Some(Move(s, t, if key in s.table then Writing(s.table[key], retry) else Acquiring(key, retry)))
    case (TryAcquire(_), Acquiring(key, retry)) =>
      Some(if Full(s) then Finish(s, t) else Move(TakeToken(s), t, Dialing(key, retry)))
    case (DialOk(_), Dialing(key, retry)) =>
      Some(Move(s.(sockets := s.sockets + 1, open := s.open + {s.sockets}), t, Inserting(key, retry, s.sockets)))
    case (DialErr(_), Dialing(key, retry)) => Some(Finish(ReturnToken(s), t))
    case (Insert(_), Inserting(key, retry, sock)) =>
      Some(if key in s.table then Move(s, t, BackingOut(s.table[key], retry, sock))
           else Move(s.(table := s.table[key := sock], active := s.active + 1,
                        sessions := s.sessions[sock := Session(key, Running)]),
                     t, Writing(sock, retry)))
    case (GiveBack(_), BackingOut(existing, retry, sock)) =>
      Some(Move(ReturnToken(s.(open := s.open - {sock})), t, Writing(existing, retry)))
    case (WriteOk(_), Writing(sess, retry)) => Some(Finish(s, t))
    case (WriteErr(_), Writing(sess, retry)) =>
      Some(if retry.None? then Move(s, t, Removing(sess)) else Finish(s, t))
    case (RemoveOwn(_), Removing(sess)) =>
      if sess !in s.sessions then None
      else Some(Move(s.(table := RemoveIf(s.table, s.sessions[sess].key, sess)), t, Awaiting(sess)))
    case (SeeDone(_), Awaiting(sess)) =>
      if sess !in s.sessions || !s.sessions[sess].phase.Done? then None
      else Some(Move(s, t, LookingUp(s.sessions[sess].key, Some(sess))))
    case (Fallback(_), Awaiting(sess)) =>
      if sess !in s.sessions then None else Some(Move(s, t, LookingUp(s.sessions[sess].key, Some(sess))))
    case (CloseOne(_, sess), ClosingAll(pending)) =>
      if sess !in pending then None
      else Some(Move(s.(open := s.open - {sess}), t, ClosingAll(pending - {sess})))
    case (CloseAllEnd(_), ClosingAll(pending)) => if pending == {} then Some(Finish(s, t)) else None
    case _ => None
  }

  function RelayNext(s: State, sess: nat, it: Session): Option<State> {
    var to := (p: Phase) => s.sessions[sess := Session(it.key, p)];
    match it.phase
    case Running => Some(s.(table := RemoveIf(s.table, it.key, sess), sessions := to(Unlisted)))
    case Unlisted => Some(s.(active := s.active - 1, sessions := to(Uncounted)))
    case Uncounted => Some(ReturnToken(s).(sessions := to(Released)))
    case Released => Some(s.(open := s.open - {sess}, sessions := to(DstClosed)))
    case DstClosed => Some(s.(sessions := to(Phase.Done)))
    case Done => None
  }

  ghost predicate Runs(s: State, steps: seq<Step>, s': State)
    decreases |steps|
  {
    if steps == [] then s == s'
    else Next(s, steps[0]).Some? && Runs(Next(s, steps[0]).value, steps[1..], s')
  }

  // ---- the invariant ----

  predicate HasToken(pc: Pc) {
    pc.Dialing? || pc.Inserting? || pc.BackingOut?
  }

  predicate KeepsToken(it: Session) {
    it.phase.Running? || it.phase.Unlisted? || it.phase.Uncounted?
  }

  predicate Counted(it: Session) {
    it.phase.Running? || it.phase.Unlisted?
  }

  /** Every token is accounted for: by a get between acquiring and publishing, or by a session. */
  ghost predicate TokensOk(s: State) {
    && s.active == Count(s.sessions, Counted)
    && match s.cap
       case None => s.tokens == 0
       case Some(cap) => s.tokens == Count(s.threads, HasToken) + Count(s.sessions, KeepsToken) && s.tokens <= cap
  }

  ghost predicate TableOk(s: State) {
    forall key :: key in s.table ==> s.table[key] in s.sessions && s.sessions[s.table[key]] == Session(key, Running)
  }

  ghost predicate ThreadOk(s: State, pc: Pc) {
    match pc
    case LookingUp(_, retry) => retry.Some? ==> retry.value in s.sessions
    case Acquiring(_, retry) => retry.Some? ==> retry.value in s.sessions
    case BackingOut(existing, _, _) => existing in s.sessions
    case Writing(sess, _) => sess in s.sessions
    case Removing(sess) => sess in s.sessions
    case Awaiting(sess) => sess in s.sessions
    case _ => true
  }

  /** Goroutine t owns a socket that is not yet a session's. */
  ghost predicate OwnsSocket(s: State, t: nat, sock: nat) {
    t in s.threads && (s.threads[t].Inserting? || s.threads[t].BackingOut?) && s.threads[t].sock == sock
  }

  /** An open socket is a live session's, or still in the hands of a goroutine. */
  ghost predicate Accounted(s: State, sock: nat) {
    || (sock in s.sessions && !s.sessions[sock].phase.DstClosed? && !s.sessions[sock].phase.Done?)
    || exists t :: OwnsSocket(s, t, sock)
  }

  ghost predicate SocketsOk(s: State) {
    && (forall sock :: sock in s.sessions ==> sock < s.sockets)
    && (forall t, sock: nat :: OwnsSocket(s, t, sock) ==> sock < s.sockets && sock !in s.sessions)
    && (forall t, u, sock: nat :: OwnsSocket(s, t, sock) && OwnsSocket(s, u, sock) ==> t == u)
    && (forall sock :: sock in s.open ==> Accounted(s, sock))
    && (forall t :: t in s.threads ==> ThreadOk(s, s.threads[t]))
  }

  ghost predicate Inv(s: State) {
    TokensOk(s) && TableOk(s) && SocketsOk(s)
  }

  lemma InitialInv(cap: Option<nat>)
    ensures Inv(Initial(cap))
  {
    var s := Initial(cap);
    assert Hits(s.sessions, Counted) == Hits(s.sessions, KeepsToken) == {};
    assert Hits(s.threads, HasToken) == {};
  }

  /** The counts of one thread's and one session's tokens move together with the semaphore. */
  lemma RelayTokensStep(s: State, e: Step)
    requires Inv(s) && Next(s, e).Some? && e.RelayExit?
    ensures TokensOk(Next(s, e).value)
  {
    var s' := Next(s, e).value;
    CountSet(s.sessions, e.sess, s'.sessions[e.sess], Counted);
    CountSet(s.sessions, e.sess, s'.sessions[e.sess], KeepsToken);
  }

  lemma InsertTokensStep(s: State, e: Step)
    requires Inv(s) && Next(s, e).Some? && e.Insert?
    ensures TokensOk(Next(s, e).value)
  {
    var s' := Next(s, e).value;
    var sock := s.threads[e.t].sock;
    assert OwnsSocket(s, e.t, sock);
    CountSet(s.threads, e.t, s'.threads[e.t], HasToken);
    if s.threads[e.t].key !in s.table {
      CountSet(s.sessions, sock, s'.sessions[sock], Counted);
      CountSet(s.sessions, sock, s'.sessions[sock], KeepsToken);
    }
  }

  lemma ThreadMoves(s: State, e: Step)
    requires Next(s, e).Some? && !e.RelayExit? && !e.Insert?
    ensures var s' := Next(s, e).value;
            && s'.sessions == s.sessions && s'.active == s.active && s'.cap == s.cap
            && s'.threads == if e.t in s'.threads then s.threads[e.t := s'.threads[e.t]] else s.threads - {e.t}
  {}

  lemma ThreadTokensStep(s: State, e: Step)
    requires Inv(s) && Next(s, e).Some? && !e.RelayExit? && !e.Insert?
    ensures TokensOk(Next(s, e).value)
  {
    var s' := Next(s, e).value;
    ThreadMoves(s, e);
    if e.t in s'.threads {
      CountSet(s.threads, e.t, s'.threads[e.t], HasToken);
    } else {
      CountRemove(s.threads, e.t, HasToken);
    }
  }

  lemma TokensStep(s: State, e: Step)
    requires Inv(s) && Next(s, e).Some?
    ensures TokensOk(Next(s, e).value)
  {
    if e.RelayExit? {
      RelayTokensStep(s, e);
    } else if e.Insert? {
      InsertTokensStep(s, e);
    } else {
      ThreadTokensStep(s, e);
    }
  }

  lemma RelayTableStep(s: State, e: Step)
    requires Inv(s) && Next(s, e).Some? && e.RelayExit?
    ensures TableOk(Next(s, e).value)
  {}

  lemma ThreadTableStep(s: State, e: Step)
    requires Inv(s) && Next(s, e).Some? && !e.RelayExit?
    ensures TableOk(Next(s, e).value)
  {
    var s' := Next(s, e).value;
    if e.Insert? {
      assert OwnsSocket(s, e.t, s.threads[e.t].sock);
    } else {
      assert s'.sessions == s.sessions;
      assert forall key :: key in s'.table ==> key in s.table && s'.table[key] == s.table[key];
    }
  }

  lemma TableStep(s: State, e: Step)
    requires Inv(s) && Next(s, e).Some?
    ensures TableOk(Next(s, e).value)
  {
    if e.RelayExit? {
      RelayTableStep(s, e);
    } else {
      ThreadTableStep(s, e);
    }
  }

  lemma OwnsSocketFrom(s: State, e: Step, t: nat, sock: nat)
    requires Next(s, e).Some? && OwnsSocket(Next(s, e).value, t, sock)
    ensures OwnsSocket(s, t, sock) || (e == DialOk(t) && sock == s.sockets)
  {}

  lemma RelayOpenSockets(s: State, e: Step, sock: nat)
    requires Next(s, e).Some? && e.RelayExit? && sock in Next(s, e).value.open && Accounted(s, sock)
    ensures Accounted(Next(s, e).value, sock)
  {
    if t :| OwnsSocket(s, t, sock) {
      assert OwnsSocket(Next(s, e).value, t, sock);
    }
  }

  lemma ThreadOpenSockets(s: State, e: Step, sock: nat)
    requires Next(s, e).Some? && !e.RelayExit? && sock in Next(s, e).value.open
    requires sock in s.open ==> Accounted(s, sock)
    ensures Accounted(Next(s, e).value, sock)
  {
    var s' := Next(s, e).value;
    if sock !in s.open {
      assert OwnsSocket(s', e.t, sock);
    } else if t :| OwnsSocket(s, t, sock) {
      assert OwnsSocket(s', t, sock) || (e.Insert? && t == e.t && sock in s'.sessions);
    }
  }

  /** No session is ever forgotten, and a step moves one goroutine at most. */
  lemma OthersStay(s: State, e: Step, t: nat)
    requires Next(s, e).Some?
    ensures s.sessions.Keys <= Next(s, e).value.sessions.Keys
    ensures e.RelayExit? || t != e.t ==>
              && (t in s.threads <==> t in Next(s, e).value.threads)
              && (t in s.threads ==> Next(s, e).value.threads[t] == s.threads[t])
  {}

  lemma ThreadsStep(s: State, e: Step, t: nat)
    requires Inv(s) && Next(s, e).Some? && t in Next(s, e).value.threads
    ensures ThreadOk(Next(s, e).value, Next(s, e).value.threads[t])
  {
    OthersStay(s, e, t);
    if e.RelayExit? || t != e.t {
      assert ThreadOk(s, s.threads[t]);
    } else if t in s.threads {
      OwnThreadStep(s, e, t, s.threads[t]);
    }
  }

  lemma OwnThreadStep(s: State, e: Step, t: nat, pc: Pc)
    requires Continue(s, e, t, pc).Some? && ThreadOk(s, pc) && TableOk(s)
    ensures var s' := Continue(s, e, t, pc).value;
            t in s'.threads ==> ThreadOk(s', s'.threads[t])
  {}

  lemma SocketsStep(s: State, e: Step)
    requires Inv(s) && Next(s, e).Some?
    ensures SocketsOk(Next(s, e).value)
  {
    var s' := Next(s, e).value;
    assert e.Insert? ==> OwnsSocket(s, e.t, s.threads[e.t].sock);
    forall t, sock: nat | OwnsSocket(s', t, sock)
      ensures sock < s'.sockets && sock !in s'.sessions
    {
      OwnsSocketFrom(s, e, t, sock);
    }
    forall t, u, sock: nat | OwnsSocket(s', t, sock) && OwnsSocket(s', u, sock)
      ensures t == u
    {
      OwnsSocketFrom(s, e, t, sock);
      OwnsSocketFrom(s, e, u, sock);
    }
    forall sock | sock in s'.open
      ensures Accounted(s', sock)
    {
      assert sock in s.open ==> Accounted(s, sock);
      if e.RelayExit? {
        RelayOpenSockets(s, e, sock);
      } else {
        ThreadOpenSockets(s, e, sock);
      }
    }
    forall t | t in s'.threads
      ensures ThreadOk(s', s'.threads[t])
    {
      ThreadsStep(s, e, t);
    }
  }

  lemma StepKeepsInv(s: State, e: Step)
    requires Inv(s) && Next(s, e).Some?
    ensures Inv(Next(s, e).value) && Next(s, e).value.cap == s.cap
  {
    TokensStep(s, e);
    TableStep(s, e);
    SocketsStep(s, e);
  }

  lemma {:induction false} RunKeepsInv(s: State, steps: seq<Step>, s': State)
    requires Inv(s) && Runs(s, steps, s')
    ensures Inv(s') && s'.cap == s.cap
    decreases |steps|
  {
    if steps != [] {
      StepKeepsInv(s, steps[0]);
      RunKeepsInv(Next(s, steps[0]).value, steps[1..], s');
    }
  }

  /** Some schedule leads here. */
  ghost predicate Reachable(s: State) {
    exists steps :: Runs(Initial(s.cap), steps, s)
  }

  lemma ReachableInv(s: State)
    requires Reachable(s)
    ensures Inv(s)
  {
    var steps :| Runs(Initial(s.cap), steps, s);
    InitialInv(s.cap);
    RunKeepsInv(Initial(s.cap), steps, s);
  }

  // ---- conservation ----

  /** Active sessions never outnumber the tokens taken, nor those the limit. */
  lemma ActiveWithinTokens(s: State)
    requires Reachable(s)
    ensures 0 <= s.active
    ensures s.cap.Some? ==> s.active <= s.tokens <= s.cap.value
    ensures s.cap.Some? ==> s.tokens == Count(s.threads, HasToken) + Count(s.sessions, KeepsToken)
  {
    ReachableInv(s);
    CountMonotone(s.sessions, Counted, KeepsToken);
  }

  lemma TokenInHand(s: State, t: nat)
    requires Inv(s) && s.cap.Some? && t in s.threads && HasToken(s.threads[t])
    ensures s.tokens > 0
  {
    CountRemove(s.threads, t, HasToken);
  }

  lemma SessionToken(s: State, sess: nat)
    requires Inv(s) && s.cap.Some? && sess in s.sessions && KeepsToken(s.sessions[sess])
    ensures s.tokens > 0
  {
    CountRemove(s.sessions, sess, KeepsToken);
  }

  /** When every get has returned and every relay is done, nothing is held, counted or listed. */
  lemma QuiescentIsEmpty(s: State)
    requires Reachable(s)
    requires s.threads == map[] && forall sess :: sess in s.sessions ==> s.sessions[sess].phase.Done?
    ensures s.tokens == 0 && s.active == 0 && s.table == map[] && s.open == {}
  {
    ReachableInv(s);
    assert Hits(s.sessions, Counted) == Hits(s.sessions, KeepsToken) == {};
    assert Hits(s.threads, HasToken) == {};
    assert forall key :: key !in s.table;
    assert forall t, sock: nat :: !OwnsSocket(s, t, sock);
  }

  /** A packet from a client without a session opens one whenever a token is free. */
  lemma FreeTokenOpensSession(s: State, t: nat, key: nat) returns (steps: seq<Step>, s': State)
    requires Reachable(s) && t !in s.threads && key !in s.table && (s.cap.None? || s.tokens < s.cap.value)
    ensures Runs(s, steps, s') && t in s'.threads && s'.threads[t] == Writing(s.sockets, None)
    ensures key in s'.table && s'.table[key] == s.sockets && s'.active == s.active + 1 && s.sockets in s'.open
  {
    var s1 := Next(s, CallForward(t, key)).value;
    var s2 := Next(s1, LookUp(t)).value;
    var s3 := Next(s2, TryAcquire(t)).value;
    var s4 := Next(s3, DialOk(t)).value;
    s' := Next(s4, Insert(t)).value;
    Prepend(s4, Insert(t), s', [], s');
    Prepend(s3, DialOk(t), s4, [Insert(t)], s');
    Prepend(s2, TryAcquire(t), s3, [DialOk(t)] + [Insert(t)], s');
    Prepend(s1, LookUp(t), s2, [TryAcquire(t)] + ([DialOk(t)] + [Insert(t)]), s');
    Prepend(s, CallForward(t, key), s1, [LookUp(t)] + ([TryAcquire(t)] + ([DialOk(t)] + [Insert(t)])), s');
    steps := [CallForward(t, key)] + ([LookUp(t)] + ([TryAcquire(t)] + ([DialOk(t)] + [Insert(t)])));
  }

  /** A failed first write takes its session down and goes for a second get once that is done. */
  lemma FailedWriteRebuilds(s: State, t: nat, sess: nat) returns (steps: seq<Step>, s': State)
    requires Reachable(s) && t in s.threads && s.threads[t] == Writing(sess, None)
    requires sess in s.sessions && s.sessions[sess].phase.Done?
    ensures Runs(s, steps, s') && t in s'.threads && s'.threads[t] == LookingUp(s.sessions[sess].key, Some(sess))
    ensures s'.table == RemoveIf(s.table, s.sessions[sess].key, sess)
  {
    var s1 := Next(s, WriteErr(t)).value;
    var s2 := Next(s1, RemoveOwn(t)).value;
    s' := Next(s2, SeeDone(t)).value;
    Prepend(s2, SeeDone(t), s', [], s');
    Prepend(s1, RemoveOwn(t), s2, [SeeDone(t)], s');
    Prepend(s, WriteErr(t), s1, [RemoveOwn(t)] + [SeeDone(t)], s');
    steps := [WriteErr(t)] + ([RemoveOwn(t)] + [SeeDone(t)]);
  }

  // ---- rebuilding a session ----

  /**
   * An entry leaves the table, or changes, only through its own relay's exit, the failed writer
   * that holds it, or closeAll: a dying relay or a stale writer never removes its replacement.
   */
  lemma OnlyItsOwnExitUnlists(s: State, e: Step, key: nat)
    requires Reachable(s) && Next(s, e).Some? && key in s.table
    requires key !in Next(s, e).value.table || Next(s, e).value.table[key] != s.table[key]
    ensures key !in Next(s, e).value.table
    ensures || e == RelayExit(s.table[key])
            || (e.RemoveOwn? && s.threads[e.t] == Removing(s.table[key]))
            || e.CallCloseAll?
  {
    ReachableInv(s);
  }

  /** The steps of a forwarder: the dispatcher loop is the only goroutine that gets sessions. */
  ghost predicate SingleDispatcher(steps: seq<Step>) {
    forall i :: 0 <= i < |steps| && !steps[i].RelayExit? ==> steps[i].t == 0
  }

  /** Room for one more session as soon as sess has given its token back. */
  ghost predicate Slack(s: State, sess: nat) {
    s.cap.Some? && sess in s.sessions ==> s.tokens + 1 <= s.cap.value + Indicator(KeepsToken(s.sessions[sess]))
  }

  ghost predicate DispatcherOk(s: State) {
    && (forall t :: t in s.threads ==> t == 0)
    && (0 in s.threads ==>
          match s.threads[0]
          case LookingUp(_, retry) => retry.Some? ==> Slack(s, retry.value)
          case Acquiring(key, retry) => key !in s.table && (retry.Some? ==> Slack(s, retry.value))
          case Dialing(key, _) => key !in s.table
          case Inserting(key, _, _) => key !in s.table
          case BackingOut(_, _, _) => false
          case Writing(sess, _) => Slack(s, sess)
          case Removing(sess) => Slack(s, sess)
          case Awaiting(sess) => Slack(s, sess)
          case ClosingAll(_) => true)
  }

  lemma DispatcherRelayStep(s: State, e: Step)
    requires Inv(s) && DispatcherOk(s) && Next(s, e).Some? && e.RelayExit?
    ensures DispatcherOk(Next(s, e).value)
  {
    var s' := Next(s, e).value;
    CountSet(s.sessions, e.sess, s'.sessions[e.sess], KeepsToken);
    assert s'.threads == s.threads;
    forall sess | Slack(s, sess)
      ensures Slack(s', sess)
    {}
  }

  lemma DispatcherInserts(s: State, e: Step)
    requires Inv(s) && DispatcherOk(s) && Next(s, e).Some? && e.Insert? && e.t == 0
    ensures DispatcherOk(Next(s, e).value)
  {
    TokensStep(s, e);
  }

  lemma DispatcherMoves(s: State, e: Step)
    requires Inv(s) && DispatcherOk(s) && Next(s, e).Some? && !e.RelayExit? && !e.Insert? && e.t == 0
    ensures DispatcherOk(Next(s, e).value)
  {
    var s' := Next(s, e).value;
    ThreadMoves(s, e);
    TokensStep(s, e);
    assert 0 in s.threads ==> ThreadOk(s, s.threads[0]);
    forall sess | s'.tokens <= s.tokens && Slack(s, sess)
      ensures Slack(s', sess)
    {}
  }

  lemma DispatcherOwnStep(s: State, e: Step)
    requires Inv(s) && DispatcherOk(s) && Next(s, e).Some? && !e.RelayExit? && e.t == 0
    ensures DispatcherOk(Next(s, e).value)
  {
    if e.Insert? {
      DispatcherInserts(s, e);
    } else {
      DispatcherMoves(s, e);
    }
  }

  lemma DispatcherStep(s: State, e: Step)
    requires Inv(s) && DispatcherOk(s) && Next(s, e).Some? && (e.RelayExit? || e.t == 0)
    ensures DispatcherOk(Next(s, e).value)
  {
    if e.RelayExit? {
      DispatcherRelayStep(s, e);
    } else {
      DispatcherOwnStep(s, e);
    }
  }

  lemma {:induction false} DispatcherRun(s: State, steps: seq<Step>, s': State)
    requires Inv(s) && DispatcherOk(s) && Runs(s, steps, s') && SingleDispatcher(steps)
    ensures Inv(s') && DispatcherOk(s') && s'.cap == s.cap
    decreases |steps|
  {
    if steps != [] {
      StepKeepsInv(s, steps[0]);
      DispatcherStep(s, steps[0]);
      DispatcherRun(Next(s, steps[0]).value, steps[1..], s');
    }
  }

  /**
   * With a single dispatcher, the second get of a rebuild is refused exactly while the session it
   * replaces has not released its token and the other sessions hold all the rest; once that
   * session's done is closed it never is.
   */
  lemma RebuildRefusedOnlyBeforeRelease(cap: Option<nat>, steps: seq<Step>, s: State, key: nat, replaced: nat)
    requires Runs(Initial(cap), steps, s) && SingleDispatcher(steps)
    requires 0 in s.threads && s.threads[0] == Acquiring(key, Some(replaced))
    ensures replaced in s.sessions
    ensures Full(s) <==> cap.Some? && KeepsToken(s.sessions[replaced])
                         && Count(s.sessions - {replaced}, KeepsToken) + 1 == cap.value
    ensures s.sessions[replaced].phase.Done? ==>
              Next(s, TryAcquire(0)) == Some(Move(TakeToken(s), 0, Dialing(key, Some(replaced))))
  {
    InitialInv(cap);
    DispatcherRun(Initial(cap), steps, s);
    assert ThreadOk(s, s.threads[0]);
    assert Hits(s.threads, HasToken) == {};
    CountRemove(s.sessions, replaced, KeepsToken);
  }

  /** With a single dispatcher the second look at the table never finds a rival session. */
  lemma SingleDispatcherNeverBacksOut(cap: Option<nat>, steps: seq<Step>, s: State)
    requires Runs(Initial(cap), steps, s) && SingleDispatcher(steps)
    ensures 0 in s.threads ==> !s.threads[0].BackingOut?
    ensures 0 in s.threads && s.threads[0].Inserting? ==> s.threads[0].key !in s.table
  {
    InitialInv(cap);
    DispatcherRun(Initial(cap), steps, s);
  }

  /**
   * Without waiting for done the refusal is real: with a limit of one, a relay that outlives
   * the two seconds makes the rebuild of its own session fail.
   */
  lemma FallbackCanBeRefused()
    ensures exists steps, s :: Runs(Initial(Some(1)), steps, s) && SingleDispatcher(steps)
              && 0 in s.threads && s.threads[0] == Acquiring(7, Some(0)) && Full(s)
  {
    var s := SessionOpened();
    var s' := RebuildRefused(s);
    RunsConcat(Initial(Some(1)), OPENING, s, REBUILD, s');
    assert SingleDispatcher(OPENING + REBUILD);
  }

  const OPENING := [CallForward(0, 7), LookUp(0), TryAcquire(0), DialOk(0), Insert(0)]
  const REBUILD := [WriteErr(0), RemoveOwn(0), Fallback(0), LookUp(0)]

  lemma {:induction false} RunsConcat(s: State, a: seq<Step>, mid: State, b: seq<Step>, s': State)
    requires Runs(s, a, mid) && Runs(mid, b, s')
    ensures Runs(s, a + b, s')
    decreases |a|
  {
    if a == [] {
      assert a + b == b;
    } else {
      assert (a + b)[1..] == a[1..] + b;
      RunsConcat(Next(s, a[0]).value, a[1..], mid, b, s');
    }
  }

  lemma SessionOpened() returns (s: State)
    ensures Runs(Initial(Some(1)), OPENING, s)
    ensures 0 in s.threads && s.threads[0] == Writing(0, None) && Full(s)
    ensures 0 in s.sessions && s.sessions[0] == Session(7, Running) && s.table == map[7 := 0]
  {
    var s1 := Move(Initial(Some(1)), 0, LookingUp(7, None));
    var s2 := Move(s1, 0, Acquiring(7, None));
    var s3 := Move(TakeToken(s2), 0, Dialing(7, None));
    var s4 := Move(s3.(sockets := 1, open := s3.open + {0}), 0, Inserting(7, None, 0));
    s := Move(s4.(table := s4.table[7 := 0], active := 1, sessions := s4.sessions[0 := Session(7, Running)]),
              0, Writing(0, None));
    Prepend(s4, Insert(0), s, [], s);
    Prepend(s3, DialOk(0), s4, [Insert(0)], s);
    Prepend(s2, TryAcquire(0), s3, [DialOk(0)] + [Insert(0)], s);
    Prepend(s1, LookUp(0), s2, [TryAcquire(0)] + ([DialOk(0)] + [Insert(0)]), s);
    Prepend(Initial(Some(1)), CallForward(0, 7), s1, [LookUp(0)] + ([TryAcquire(0)] + ([DialOk(0)] + [Insert(0)])), s);
    assert OPENING == [CallForward(0, 7)] + ([LookUp(0)] + ([TryAcquire(0)] + ([DialOk(0)] + [Insert(0)])));
  }

  /** A failed first write on a live session, with every token taken and the relay still running. */
  lemma RebuildRefused(s: State) returns (s': State)
    requires 0 in s.threads && s.threads[0] == Writing(0, None) && Full(s)
    requires 0 in s.sessions && s.sessions[0] == Session(7, Running) && s.table == map[7 := 0]
    ensures Runs(s, REBUILD, s')
    ensures 0 in s'.threads && s'.threads[0] == Acquiring(7, Some(0)) && Full(s')
  {
    var s6 := Move(s, 0, Removing(0));
    var s7 := Move(s6.(table := RemoveIf(s6.table, 7, 0)), 0, Awaiting(0));
    var s8 := Move(s7, 0, LookingUp(7, Some(0)));
    s' := Move(s8, 0, Acquiring(7, Some(0)));
    Prepend(s8, LookUp(0), s', [], s');
    Prepend(s7, Fallback(0), s8, [LookUp(0)], s');
    Prepend(s6, RemoveOwn(0), s7, [Fallback(0)] + [LookUp(0)], s');
    Prepend(s, WriteErr(0), s6, [RemoveOwn(0)] + ([Fallback(0)] + [LookUp(0)]), s');
    assert REBUILD == [WriteErr(0)] + ([RemoveOwn(0)] + ([Fallback(0)] + [LookUp(0)]));
  }

  lemma Prepend(s: State, e: Step, mid: State, steps: seq<Step>, s': State)
    requires Next(s, e) == Some(mid) && Runs(mid, steps, s')
    ensures Runs(s, [e] + steps, s')
  {
    assert ([e] + steps)[1..] == steps;
  }
}

module UdpSessions {
  import opened Options
  import opened UdpSessionsSpec

  /** The table, the semaphore and the counter the forwarder's goroutines share. */
  class Sessions {
    const cap: Option<nat>
    var table: map<nat, nat>
    var tokens: nat
    var active: int
    ghost var sessions: map<nat, Session>
    ghost var sockets: nat
    ghost var open: set<nat>
    ghost var threads: map<nat, Pc>

    ghost function View(): State
      reads this
    {
      State(cap, tokens, active, table, sessions, sockets, open, threads)
    }

    ghost predicate Valid()
      reads this
    {
      Inv(View())
    }

    constructor (maxConns: nat)
      ensures Valid() && View() == Initial(if maxConns > 0 then Some(maxConns) else None)
    {
      cap := if maxConns > 0 then Some(maxConns) else None;
      table, tokens, active := map[], 0, 0;
      sessions, sockets, open, threads := map[], 0, {}, map[];
      new;
      InitialInv(cap);
    }

    /** get's first look at the table. */
    method Find(ghost t: nat, key: nat) returns (found: Option<nat>)
      requires Valid() && t in threads && threads[t].LookingUp? && threads[t].key == key
      modifies this`threads
      ensures Next(old(View()), LookUp(t)) == Some(View()) && Valid()
      ensures found == if key in table then Some(table[key]) else None
    {
      StepKeepsInv(View(), LookUp(t));
      found := if key in table then Some(table[key]) else None;
      threads := threads[t := if found.Some? then Writing(found.value, threads[t].retry)
                              else Acquiring(key, threads[t].retry)];
    }

    /** The nonblocking send on the semaphore. */
    method Acquire(ghost t: nat) returns (ok: bool)
      requires Valid() && t in threads && threads[t].Acquiring?
      modifies this`threads, this`tokens
      ensures Next(old(View()), TryAcquire(t)) == Some(View()) && Valid()
      ensures ok <==> cap.None? || old(tokens) < cap.value
      ensures tokens == (if ok && cap.Some? then old(tokens) + 1 else old(tokens))
    {
      StepKeepsInv(View(), TryAcquire(t));
      ok := cap.None? || tokens < cap.value;
      if ok && cap.Some? {
        tokens := tokens + 1;
      }
      threads := if ok then threads[t := Dialing(threads[t].key, threads[t].retry)] else threads - {t};
    }

    /** A failed dial gives its token back. */
    method AbandonDial(ghost t: nat)
      requires Valid() && t in threads && threads[t].Dialing?
      modifies this`threads, this`tokens
      ensures Next(old(View()), DialErr(t)) == Some(View()) && Valid()
      ensures cap.Some? ==> tokens == old(tokens) - 1
    {
      if cap.Some? {
        TokenInHand(View(), t);
      }
      StepKeepsInv(View(), DialErr(t));
      if cap.Some? {
        tokens := tokens - 1;
      }
      threads := threads - {t};
    }

    /** get's second look: publish the new session, or find the one that came first. */
    method Publish(ghost t: nat, key: nat, sock: nat) returns (existing: Option<nat>)
      requires Valid() && t in threads && threads[t].Inserting? && threads[t].key == key && threads[t].sock == sock
      modifies this`threads, this`table, this`active, this`sessions
      ensures Next(old(View()), UdpSessionsSpec.Insert(t)) == Some(View()) && Valid()
      ensures key in table && table[key] == if existing.Some? then existing.value else sock
      ensures existing.Some? <==> key in old(table)
      ensures table == (if existing.Some? then old(table) else old(table)[key := sock])
      ensures active == (if existing.Some? then old(active) else old(active) + 1)
    {
      StepKeepsInv(View(), UdpSessionsSpec.Insert(t));
      if key in table {
        existing := Some(table[key]);
        threads := threads[t := BackingOut(table[key], threads[t].retry, sock)];
      } else {
        existing := None;
        active := active + 1;
        table := table[key := sock];
        sessions := sessions[sock := Session(key, Running)];
        threads := threads[t := Writing(sock, threads[t].retry)];
      }
    }

    /** removeIf, called by a writer whose write failed. */
    method RemoveForWriter(ghost t: nat, key: nat, sess: nat)
      requires Valid() && t in threads && threads[t] == Removing(sess) && sess in sessions && sessions[sess].key == key
      modifies this`threads, this`table
      ensures Next(old(View()), RemoveOwn(t)) == Some(View()) && Valid()
      ensures table == if key in old(table) && old(table[key]) == sess then old(table) - {key} else old(table)
    {
      StepKeepsInv(View(), RemoveOwn(t));
      if key in table && table[key] == sess {
        table := table - {key};
      }
      threads := threads[t := Awaiting(sess)];
    }

    /** removeIf, the first thing a dying relay does. */
    method RemoveForRelay(key: nat, sess: nat)
      requires Valid() && sess in sessions && sessions[sess] == Session(key, Running)
      modifies this`sessions, this`table
      ensures Next(old(View()), RelayExit(sess)) == Some(View()) && Valid()
      ensures table == if key in old(table) && old(table[key]) == sess then old(table) - {key} else old(table)
    {
      StepKeepsInv(View(), RelayExit(sess));
      if key in table && table[key] == sess {
        table := table - {key};
      }
      sessions := sessions[sess := Session(key, Unlisted)];
    }

    /** A dying relay gives its token back. */
    method ReleaseForRelay(sess: nat)
      requires Valid() && sess in sessions && sessions[sess].phase.Uncounted?
      modifies this`sessions, this`tokens
      ensures Next(old(View()), RelayExit(sess)) == Some(View()) && Valid()
      ensures cap.Some? ==> tokens == old(tokens) - 1
    {
      if cap.Some? {
        SessionToken(View(), sess);
      }
      StepKeepsInv(View(), RelayExit(sess));
      if cap.Some? {
        tokens := tokens - 1;
      }
      sessions := sessions[sess := Session(sessions[sess].key, Released)];
    }

    /** closeAll's block: the sessions to cancel and close. */
    method CloseAll(ghost t: nat) returns (snapshot: set<nat>)
      requires Valid() && t !in threads
      modifies this`threads, this`table
      ensures Next(old(View()), CallCloseAll(t)) == Some(View()) && Valid()
      ensures table == map[] && snapshot == old(table).Values
    {
      StepKeepsInv(View(), CallCloseAll(t));
      snapshot := table.Values;
      table := map[];
      threads := threads[t := ClosingAll(snapshot)];
    }
  }
}
