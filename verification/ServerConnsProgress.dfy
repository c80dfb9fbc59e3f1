// What the proxy server can always still do (internal/proxy/server.go): relay one more client
// while it is open, and come to rest from wherever it stands.

module ServerConnsProgress {
  import opened Options
  import opened ServerConnsSpec

  /** Some run leads from s to s'. */
  ghost predicate Leads(s: State, s': State) {
    exists steps :: Runs(s, steps, s')
  }

  lemma Stays(s: State)
    ensures Leads(s, s)
  {
    assert Runs(s, [], s);
  }

  lemma LeadsFirst(s: State, e: Step, s': State)
    requires Next(s, e).Some? && Leads(Next(s, e).value, s')
    ensures Leads(s, s')
  {
    var steps :| Runs(Next(s, e).value, steps, s');
    Prepend(s, e, steps, s');
  }

  lemma LeadsOn(s: State, mid: State, s': State)
    requires Leads(s, mid) && Leads(mid, s')
    ensures Leads(s, s')
  {
    var steps :| Runs(s, steps, mid);
    RunThenLeads(s, steps, mid, s');
  }

  lemma {:induction false} RunThenLeads(s: State, steps: seq<Step>, mid: State, s': State)
    requires Runs(s, steps, mid) && Leads(mid, s')
    ensures Leads(s, s')
    decreases |steps|
  {
    if steps != [] {
      RunThenLeads(Next(s, steps[0]).value, steps[1..], mid, s');
      LeadsFirst(s, steps[0], s');
    }
  }

  // ---- a handler to its end ----

  /** How many steps at most a handler is from its end, when everything it tries fails. */
  function Left(stage: Stage): nat {
    match stage
    case Departing => 1
    case ClientUntracking(_) => 2
    case ClientClosing(_) => 3
    case Untracking(_) => 4
    case RemoteClosing(_) => 5
    case Relaying => 6
    case Clearing => 7
    case Tracked => 8
    case RemoteRefused => 4
    case HasRemote => 5
    case Dialing => 4
    case Reading => 5
    case Starting => 6
  }

  function Finish(c: nat, stage: Stage): Step {
    match stage
    case Starting => SetHandshakeDeadline(c, 0, false)
    case Reading => FailHandshake(c)
    case Dialing => FailDial(c)
    case HasRemote => RejectSelf(c)
    case RemoteRefused => CloseRejected(c)
    case Tracked => BeginRelay(c)
    case Clearing => ClearDeadlines(c)
    case Relaying => EndRelay(c)
    case RemoteClosing(_) => CloseRemote(c)
    case Untracking(_) => UntrackRemote(c)
    case ClientClosing(_) => CloseClient(c)
    case ClientUntracking(_) => Untrack(c)
    case Departing => WgDone(c)
  }

  /** What a handler that winds down leaves alone. */
  predicate SameElse(s: State, s': State) {
    SameGlobals(s, s') && s'.accepted == s.accepted && s'.refused == s.refused
  }

  lemma FinishGoesOn(s: State, c: nat)
    requires Inv(s) && c in s.handlers
    ensures var e := Finish(c, s.handlers[c]);
            && Next(s, e).Some? && Inv(Next(s, e).value) && SameElse(s, Next(s, e).value)
            && var left := Next(s, e).value.handlers;
               if e.WgDone? then left.Keys == s.handlers.Keys - {c}
               else left.Keys == s.handlers.Keys && Left(left[c]) < Left(s.handlers[c])
  {
    var e := Finish(c, s.handlers[c]);
    FinishHere(s, c, s.handlers[c]);
    HandlerFrame(s, e, c, s.handlers[c]);
    StepKeepsInv(s, e);
  }

  lemma FinishHere(s: State, c: nat, stage: Stage)
    ensures var e := Finish(c, stage);
            && Local(e) && !e.Track? && !e.CloseRefused? && e.c == c
            && HandlerNext(s, e, c, stage).Some?
            && var left := HandlerNext(s, e, c, stage).value.handlers;
               e.WgDone? || (c in left && Left(left[c]) < Left(stage))
  {}

  lemma {:induction false} HandlerFinishes(s: State, c: nat) returns (s': State)
    requires Inv(s) && c in s.handlers
    ensures Leads(s, s') && Inv(s') && SameElse(s, s') && s'.handlers.Keys == s.handlers.Keys - {c}
    decreases Left(s.handlers[c])
  {
    var e := Finish(c, s.handlers[c]);
    FinishGoesOn(s, c);
    s' := Next(s, e).value;
    if e.WgDone? {
      Stays(s');
    } else {
      s' := HandlerFinishes(s', c);
    }
    LeadsFirst(s, e, s');
  }

  lemma {:induction false} HandlersFinish(s: State) returns (s': State)
    requires Inv(s)
    ensures Leads(s, s') && Inv(s') && SameElse(s, s') && s'.handlers == map[]
    decreases |s.handlers.Keys|
  {
    if s.handlers == map[] {
      s' := s;
      Stays(s);
    } else {
      var c :| c in s.handlers;
      var mid := HandlerFinishes(s, c);
      s' := HandlersFinish(mid);
      LeadsOn(s, mid, s');
    }
  }

  // ---- the accept loop ----

  lemma TrackOne(s: State, c: nat)
    requires Inv(s) && c in s.accepted
    ensures Next(s, Track(c)).Some? && Inv(Next(s, Track(c)).value)
    ensures SameGlobals(s, Next(s, Track(c)).value) && Next(s, Track(c)).value.accepted == s.accepted - {c}
  {
    LocalGlobals(s, Track(c));
    StepKeepsInv(s, Track(c));
  }

  /** Every socket in the accept loop is tracked or refused. */
  lemma {:induction false} AcceptedAreTracked(s: State) returns (s': State)
    requires Inv(s)
    ensures Leads(s, s') && Inv(s') && SameGlobals(s, s') && s'.accepted == {}
    decreases |s.accepted|
  {
    if s.accepted == {} {
      s' := s;
      Stays(s);
    } else {
      var c :| c in s.accepted;
      TrackOne(s, c);
      s' := AcceptedAreTracked(Next(s, Track(c)).value);
      LeadsFirst(s, Track(c), s');
    }
  }

  lemma {:induction false} RefusedAreClosed(s: State) returns (s': State)
    requires Inv(s)
    ensures Leads(s, s') && Inv(s') && SameGlobals(s, s')
    ensures s'.accepted == s.accepted && s'.handlers == s.handlers && s'.refused == {}
    decreases |s.refused|
  {
    if s.refused == {} {
      s' := s;
      Stays(s);
    } else {
      var c :| c in s.refused;
      StepKeepsInv(s, CloseRefused(c));
      s' := RefusedAreClosed(Next(s, CloseRefused(c)).value);
      LeadsFirst(s, CloseRefused(c), s');
    }
  }

  // ---- calls of Close and Shutdown ----

  /** Nothing is left but calls of Close and Shutdown. */
  predicate Quiet(s: State) {
    s.handlers == map[] && s.accepted == {} && s.refused == {}
  }

  predicate SameButClosers(s: State, s': State) {
    Quiet(s') && s'.closing == s.closing && s'.maxConns == s.maxConns && s'.handshakeTimeout == s.handshakeTimeout
  }

  function Phase(it: Closer): nat {
    if it.Stopped? then 2 else if it.Sweeping? then 1 else 0
  }

  function Pending(it: Closer): set<Sock> {
    if it.Sweeping? then it.pending else {}
  }

  predicate Nearer(it: Closer, it': Closer) {
    Phase(it') < Phase(it) || (Phase(it') == Phase(it) && |Pending(it')| < |Pending(it)|)
  }

  /** The call is over, or nearer to it, and no other call is touched. */
  predicate GoesOn(closers: map<nat, Closer>, k: nat, closers': map<nat, Closer>)
    requires k in closers
  {
    closers' - {k} == closers - {k} && (k in closers' ==> Nearer(closers[k], closers'[k]))
  }

  predicate OfCloser(e: Step) {
    e.Snapshot? || e.SweepOne? || e.SweepEnd? || e.Drain?
  }

  lemma SweepGoesOn(s: State, k: nat) returns (e: Step)
    requires k in s.closers && s.closers[k].Sweeping?
    ensures OfCloser(e) && Next(s, e).Some? && GoesOn(s.closers, k, Next(s, e).value.closers)
  {
    var pending := s.closers[k].pending;
    if pending == {} {
      e := SweepEnd(k);
    } else {
      var sock :| sock in pending;
      e := SweepOne(k, sock);
    }
  }

  lemma OtherGoesOn(s: State, k: nat) returns (e: Step)
    requires k in s.closers && !s.closers[k].Sweeping? && s.wg == 0
    ensures OfCloser(e) && Next(s, e).Some? && GoesOn(s.closers, k, Next(s, e).value.closers)
  {
    e := if s.closers[k].Stopped? then Snapshot(k) else Drain(k);
  }

  lemma CloserGoesOn(s: State, k: nat) returns (e: Step)
    requires Inv(s) && Quiet(s) && k in s.closers
    ensures Next(s, e).Some? && Inv(Next(s, e).value) && SameButClosers(s, Next(s, e).value)
    ensures GoesOn(s.closers, k, Next(s, e).value.closers)
  {
    if s.closers[k].Sweeping? {
      e := SweepGoesOn(s, k);
    } else {
      e := OtherGoesOn(s, k);
    }
    CloserKeepsQuiet(s, e);
    StepKeepsInv(s, e);
  }

  lemma CloserKeepsQuiet(s: State, e: Step)
    requires OfCloser(e) && Quiet(s) && Next(s, e).Some?
    ensures SameButClosers(s, Next(s, e).value)
  {}

  lemma {:induction false} CloserFinishes(s: State, k: nat) returns (s': State)
    requires Inv(s) && Quiet(s) && k in s.closers
    ensures Leads(s, s') && Inv(s') && SameButClosers(s, s') && s'.closers == s.closers - {k}
    decreases Phase(s.closers[k]), |Pending(s.closers[k])|
  {
    var e := CloserGoesOn(s, k);
    s' := Next(s, e).value;
    if k in s'.closers {
      s' := CloserFinishes(s', k);
    } else {
      assert s'.closers - {k} == s'.closers;
      Stays(s');
    }
    LeadsFirst(s, e, s');
  }

  lemma {:induction false} ClosersFinish(s: State) returns (s': State)
    requires Inv(s) && Quiet(s)
    ensures Leads(s, s') && Inv(s') && SameButClosers(s, s') && s'.closers == map[]
    decreases |s.closers.Keys|
  {
    if s.closers == map[] {
      s' := s;
      Stays(s);
    } else {
      var k :| k in s.closers;
      var mid := CloserFinishes(s, k);
      s' := ClosersFinish(mid);
      LeadsOn(s, mid, s');
    }
  }

  // ---- the whole server ----

  /** Nothing is under way, nothing is tracked and every socket is closed. */
  predicate AtRest(s: State) {
    && Quiet(s) && s.closers == map[] && s.wg == 0
    && s.conns == {} && s.handshakes == {} && s.remotes == {} && s.open == {}
  }

  lemma InvLeadsToRest(s: State) returns (s': State)
    requires Inv(s)
    ensures Leads(s, s') && Inv(s') && AtRest(s')
    ensures s'.closing == s.closing && s'.maxConns == s.maxConns && s'.handshakeTimeout == s.handshakeTimeout
  {
    var s1 := AcceptedAreTracked(s);
    var s2 := RefusedAreClosed(s1);
    var s3 := HandlersFinish(s2);
    s' := ClosersFinish(s3);
    IdleWaitGroup(s');
    LeadsOn(s, s1, s2);
    LeadsOn(s, s2, s3);
    LeadsOn(s, s3, s');
  }

  /**
   * No handler, no socket and no shutdown is ever stuck: from every reachable state some run, with
   * no new call of Close or Shutdown, ends with the server at rest.
   */
  lemma ComesToRest(s: State) returns (s': State)
    requires Reachable(s)
    ensures Leads(s, s') && AtRest(s') && s'.closing == s.closing
  {
    ReachableInv(s);
    s' := InvLeadsToRest(s);
  }

  /** A client whose relay is up: promoted, tracked with its remote, and on no handshake deadline. */
  predicate Relayed(s: State, c: nat) {
    && c in s.handlers && s.handlers[c].Relaying?
    && c in s.conns && c in s.remotes && c !in s.handshakes
    && Client(c) in s.open && Remote(c) in s.open
    && c in s.deadline && s.deadline[c] == None
  }

  lemma NextClientArrives(s: State) returns (s': State)
    requires !s.closing && !Saturated(s)
    ensures Leads(s, s') && !s'.closing && s.clients in s'.handlers && s'.handlers[s.clients].Starting?
    ensures Client(s.clients) in s'.open && s.clients in s'.conns
  {
    var s1 := Next(s, Accept).value;
    s' := Next(s1, Track(s.clients)).value;
    Stays(s');
    LeadsFirst(s1, Track(s.clients), s');
    LeadsFirst(s, Accept, s');
  }

  lemma ArrivedDials(s: State, c: nat) returns (s': State)
    requires !s.closing && c in s.handlers && s.handlers[c].Starting?
    requires Client(c) in s.open && c in s.conns
    ensures Leads(s, s') && !s'.closing && c in s'.handlers && s'.handlers[c].HasRemote?
    ensures Client(c) in s'.open && Remote(c) in s'.open && c in s'.conns
  {
    var s1 := Next(s, SetHandshakeDeadline(c, 0, true)).value;
    var s2 := Next(s1, CompleteHandshake(c, true)).value;
    s' := Next(s2, DialOk(c)).value;
    Stays(s');
    LeadsFirst(s2, DialOk(c), s');
    LeadsFirst(s1, CompleteHandshake(c, true), s');
    LeadsFirst(s, SetHandshakeDeadline(c, 0, true), s');
  }

  lemma DialledIsRelayed(s: State, c: nat) returns (s': State)
    requires !s.closing && c in s.handlers && s.handlers[c].HasRemote?
    requires Client(c) in s.open && Remote(c) in s.open && c in s.conns
    ensures Leads(s, s') && !s'.closing && Relayed(s', c)
  {
    var s1 := Next(s, TrackRemote(c)).value;
    var s2 := Next(s1, BeginRelay(c)).value;
    s' := Next(s2, ClearDeadlines(c)).value;
    Stays(s');
    LeadsFirst(s2, ClearDeadlines(c), s');
    LeadsFirst(s1, BeginRelay(c), s');
    LeadsFirst(s, TrackRemote(c), s');
  }

  /** An open server can always still relay: from every reachable state before closing, some run relays a new client. */
  lemma OpenServerRelays(s: State) returns (s': State, c: nat)
    requires Reachable(s) && !s.closing
    ensures Leads(s, s') && !s'.closing && Relayed(s', c)
  {
    ReachableInv(s);
    var rest := InvLeadsToRest(s);
    c := rest.clients;
    var arrived := NextClientArrives(rest);
    var dialled := ArrivedDials(arrived, c);
    s' := DialledIsRelayed(dialled, c);
    LeadsOn(s, rest, arrived);
    LeadsOn(s, arrived, dialled);
    LeadsOn(s, dialled, s');
  }
}
