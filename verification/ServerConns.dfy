// Connection lifecycle of the proxy server (internal/proxy/server.go): a machine over its
// lock-held blocks and socket operations, and the class whose methods are those blocks.

module ServerConnsSpec {
  import Counting
  import opened Options

  /** A handler dials at most once, so its outbound socket is named by its client. */
  datatype Sock = Client(c: nat) | Remote(c: nat)

  /** Where the handler of one client stands; promoted records that beginRelay succeeded. */
  datatype Stage =
    | Starting                             // before setHandshakeDeadline
    | Reading                              // parsing the request
    | Dialing                              // past completeHandshake
    | HasRemote                            // owns a dialled, untracked remote
    | RemoteRefused                        // must close that remote
    | Tracked                              // remote tracked, before beginRelay
    | Clearing                             // promoted, deadlines not yet cleared
    | Relaying
    | RemoteClosing(promoted: bool)
    | Untracking(promoted: bool)
    | ClientClosing(promoted: bool)
    | ClientUntracking(promoted: bool)
    | Departing                            // untracked, wg.Done still to come

  /** A call of Close (force) or Shutdown after its stopAccepting. */
  datatype Closer = Stopped(force: bool) | Sweeping(pending: set<Sock>, force: bool) | Draining

  datatype State = State(
    maxConns: nat, handshakeTimeout: bool, now: int, closing: bool, shutAt: int,
    conns: set<nat>, handshakes: set<nat>, remotes: set<nat>, wg: int,
    handlers: map<nat, Stage>,
    accepted: set<nat>, refused: set<nat>,  // in the accept loop: not yet tracked, or to be closed
    clients: nat, open: set<Sock>,
    deadline: map<nat, Option<int>>, marked: set<nat>,
    closers: map<nat, Closer>, swept: bool)

  datatype Step =
    | Tick(to: int)
    | Accept
    | Track(c: nat)
    | CloseRefused(c: nat)
    | SetHandshakeDeadline(c: nat, due: int, ok: bool)
    | FailHandshake(c: nat)
    | CompleteHandshake(c: nat, ok: bool)
    | FailDial(c: nat)
    | DialOk(c: nat)
    | RejectSelf(c: nat)
    | TrackRemote(c: nat)
    | CloseRejected(c: nat)
    | BeginRelay(c: nat)
    | ClearDeadlines(c: nat)
    | RefreshIdle(c: nat, due: int)
    | EndRelay(c: nat)
    | CloseRemote(c: nat)
    | UntrackRemote(c: nat)
    | CloseClient(c: nat)
    | Untrack(c: nat)
    | WgDone(c: nat)
    | Stop(k: nat, force: bool)
    | Snapshot(k: nat)
    | SweepOne(k: nat, sock: Sock)
    | SweepEnd(k: nat)
    | Drain(k: nat)

  function Initial(maxConns: nat, handshakeTimeout: bool): State {
    State(maxConns, handshakeTimeout, 0, false, 0, {}, {}, {}, 0, map[], {}, {}, 0, {}, map[], {}, map[], false)
  }

  function To(s: State, c: nat, stage: Stage): State {
    s.(handlers := s.handlers[c := stage])
  }

  function CloseSock(s: State, sock: Sock): State {
    s.(open := s.open - {sock})
  }

  function TrackedSocks(s: State): set<Sock> {
    (set c | c in s.conns :: Client(c)) + (set c | c in s.remotes :: Remote(c))
  }

  predicate Saturated(s: State) {
    s.closing || (s.maxConns > 0 && |s.conns| >= s.maxConns)
  }

  /** The steps that concern one client alone. */
  predicate Local(e: Step) {
    !e.Tick? && !e.Accept? && !e.Stop? && !e.Snapshot? && !e.SweepOne? && !e.SweepEnd? && !e.Drain?
  }

  function Next(s: State, e: Step): Option<State> {
    if Local(e) then LocalNext(s, e) else GlobalNext(s, e)
  }

  function LocalNext(s: State, e: Step): Option<State>
    requires Local(e)
  {
    if e.Track? then
      if e.c in s.accepted then Some(TrackBlock(s, e.c)) else None
    else if e.CloseRefused? then
      if e.c in s.refused then Some(CloseSock(s.(refused := s.refused - {e.c}), Client(e.c))) else None
    else if e.c in s.handlers then HandlerNext(s, e, e.c, s.handlers[e.c]) else None
  }

  function GlobalNext(s: State, e: Step): Option<State>
    requires !Local(e)
  {
    if e.Tick? then
      if e.to >= s.now then Some(s.(now := e.to)) else None
    else if e.Accept? then
      Some(s.(accepted := s.accepted + {s.clients}, open := s.open + {Client(s.clients)}, clients := s.clients + 1))
    else if e.Stop? then
      if e.k in s.closers then None else Some(StopBlock(s, e.k, e.force))
    else if e.k in s.closers then CloserNext(s, e, e.k, s.closers[e.k]) else None
  }

  function TrackBlock(s: State, c: nat): State {
    if Saturated(s) then Refused(s, c) else Admitted(s, c)
  }

  function Refused(s: State, c: nat): State {
    s.(accepted := s.accepted - {c}, refused := s.refused + {c})
  }

  function Admitted(s: State, c: nat): State {
    s.(accepted := s.accepted - {c}, conns := s.conns + {c}, handshakes := s.handshakes + {c}, wg := s.wg + 1,
       deadline := s.deadline[c := None], handlers := s.handlers[c := Starting])
  }

  /** stopAccepting's block: every handshake gets the present instant as its deadline. */
  function StopBlock(s: State, k: nat, force: bool): State {
    s.(closing := true, shutAt := if s.closing then s.shutAt else s.now,
       deadline := Stamp(s.deadline, s.handshakes, s.now),
       marked := s.marked + s.handshakes, closers := s.closers[k := Stopped(force)])
  }

  function Stamp(deadline: map<nat, Option<int>>, conns: set<nat>, now: int): map<nat, Option<int>> {
    map c | c in deadline.Keys + conns :: if c in conns then Some(now) else deadline[c]
  }

  lemma StampOne(deadline: map<nat, Option<int>>, conns: set<nat>, c: nat, now: int)
    ensures Stamp(deadline, conns + {c}, now) == Stamp(deadline, conns, now)[c := Some(now)]
  {}

  function CloserNext(s: State, e: Step, k: nat, it: Closer): Option<State> {
    match (e, it)
    case (Snapshot(_), Stopped(force)) => Some(s.(closers := s.closers[k := Sweeping(TrackedSocks(s), force)]))
    case (SweepOne(_, sock), Sweeping(pending, force)) =>
      if sock !in pending then None
      else Some(CloseSock(s.(closers := s.closers[k := Sweeping(pending - {sock}, force)]), sock))
    case (SweepEnd(_), Sweeping(pending, force)) =>
      if pending != {} then None
      else Some(s.(swept := true, closers := if force then s.closers[k := Draining] else s.closers - {k}))
    case (Drain(_), Draining) => if s.wg == 0 then Some(s.(closers := s.closers - {k})) else None
    case (Drain(_), Stopped(force)) => if !force && s.wg == 0 then Some(s.(closers := s.closers - {k})) else None
    case _ => None
  }

  predicate InHandshake(e: Step) {
    e.SetHandshakeDeadline? || e.FailHandshake? || e.CompleteHandshake?
  }

  /** From the end of the handshake to a tracked remote, or to a remote turned away. */
  predicate InDial(e: Step) {
    e.FailDial? || e.DialOk? || e.RejectSelf? || e.TrackRemote? || e.CloseRejected?
  }

  /** From a tracked remote to the end of its relay. */
  predicate InRelay(e: Step) {
    e.BeginRelay? || e.ClearDeadlines? || e.RefreshIdle? || e.EndRelay?
  }

  function HandlerNext(s: State, e: Step, c: nat, stage: Stage): Option<State> {
    if InHandshake(e) then Handshake(s, e, c, stage)
    else if InDial(e) then Dial(s, e, c, stage)
    else if InRelay(e) then Relay(s, e, c, stage)
    else WindDown(s, e, c, stage)
  }

  function Handshake(s: State, e: Step, c: nat, stage: Stage): Option<State> {
    if e.SetHandshakeDeadline? && stage.Starting? then
      Some(if !s.handshakeTimeout then To(s, c, Reading)
           else if s.closing || !e.ok then To(s, c, ClientClosing(false))
           else To(s.(deadline := s.deadline[c := Some(e.due)]), c, Reading))
    else if e.FailHandshake? && stage.Reading? then Some(To(s, c, ClientClosing(false)))
    else if e.CompleteHandshake? && stage.Reading? then
      Some(if s.closing || !e.ok then To(s, c, ClientClosing(false))
           else To(s.(deadline := s.deadline[c := None]), c, Dialing))
    else None
  }

  function Dial(s: State, e: Step, c: nat, stage: Stage): Option<State> {
    if e.FailDial? && stage.Dialing? then Some(To(s, c, ClientClosing(false)))
    else if e.DialOk? && stage.Dialing? then Some(To(s.(open := s.open + {Remote(c)}), c, HasRemote))
    else if e.RejectSelf? && stage.HasRemote? then Some(To(s, c, RemoteRefused))
    else if e.TrackRemote? && stage.HasRemote? then
      Some(if s.closing then To(s, c, RemoteRefused) else To(s.(remotes := s.remotes + {c}), c, Tracked))
    else if e.CloseRejected? && stage.RemoteRefused? then
      Some(To(CloseSock(s, Remote(c)), c, ClientClosing(false)))
    else None
  }

  function Relay(s: State, e: Step, c: nat, stage: Stage): Option<State> {
    if e.BeginRelay? && stage.Tracked? then
      Some(if s.closing then To(s, c, RemoteClosing(false))
           else To(s.(handshakes := s.handshakes - {c}), c, Clearing))
    else if e.ClearDeadlines? && stage.Clearing? then Some(To(s.(deadline := s.deadline[c := None]), c, Relaying))
    else if e.RefreshIdle? && stage.Relaying? then Some(s.(deadline := s.deadline[c := Some(e.due)]))
    else if e.EndRelay? && stage.Relaying? then Some(To(s, c, RemoteClosing(true)))
    else None
  }

  function WindDown(s: State, e: Step, c: nat, stage: Stage): Option<State> {
    if e.CloseRemote? && stage.RemoteClosing? then
      Some(To(CloseSock(s, Remote(c)), c, Untracking(stage.promoted)))
    else if e.UntrackRemote? && stage.Untracking? then
      Some(To(s.(remotes := s.remotes - {c}), c, ClientClosing(stage.promoted)))
    else if e.CloseClient? && stage.ClientClosing? then
      Some(To(CloseSock(s, Client(c)), c, ClientUntracking(stage.promoted)))
    else if e.Untrack? && stage.ClientUntracking? then Some(Untracked(s, c))
    else if e.WgDone? && stage.Departing? then Some(s.(wg := s.wg - 1, handlers := s.handlers - {c}))
    else None
  }

  function Untracked(s: State, c: nat): State {
    s.(conns := s.conns - {c}, handshakes := s.handshakes - {c}, handlers := s.handlers[c := Departing])
  }

  lemma TrackIsItsBlock(s: State, c: nat)
    requires c in s.accepted
    ensures Next(s, Track(c)) == Some(TrackBlock(s, c))
  {}

  lemma UntrackIsItsBlock(s: State, c: nat)
    requires c in s.handlers && s.handlers[c].ClientUntracking?
    ensures Next(s, Untrack(c)) == Some(Untracked(s, c))
  {}

  ghost predicate Runs(s: State, steps: seq<Step>, s': State)
    decreases |steps|
  {
    if steps == [] then s == s'
    else Next(s, steps[0]).Some? && Runs(Next(s, steps[0]).value, steps[1..], s')
  }

  // ---- the invariant ----

  predicate Promoted(stage: Stage) {
    match stage
    case Clearing => true
    case Relaying => true
    case RemoteClosing(p) => p
    case Untracking(p) => p
    case ClientClosing(p) => p
    case ClientUntracking(p) => p
    case _ => false
  }

  predicate RemoteTracked(stage: Stage) {
    stage.Tracked? || stage.Clearing? || stage.Relaying? || stage.RemoteClosing? || stage.Untracking?
  }

  predicate ClientMayBeOpen(stage: Stage) {
    !stage.ClientUntracking? && !stage.Departing?
  }

  predicate RemoteMayBeOpen(stage: Stage) {
    stage.HasRemote? || stage.RemoteRefused? || (RemoteTracked(stage) && !stage.Untracking?)
  }

  /** Everything the machine records about one client and its outbound socket. */
  datatype Spot = Spot(
    conn: bool, handshake: bool, remote: bool, stage: Option<Stage>, accepted: bool, refused: bool,
    clientOpen: bool, remoteOpen: bool, marked: bool, deadline: Option<int>)

  ghost function At(s: State, c: nat): Spot {
    Spot(c in s.conns, c in s.handshakes, c in s.remotes,
         if c in s.handlers then Some(s.handlers[c]) else None, c in s.accepted, c in s.refused,
         Client(c) in s.open, Remote(c) in s.open, c in s.marked,
         if c in s.deadline then s.deadline[c] else None)
  }

  /** The three sets, the sockets and the stamps say exactly how far this client's handler has got. */
  ghost predicate SpotOk(s: State, c: nat, p: Spot) {
    && (p.conn <==> p.stage.Some? && !p.stage.value.Departing?)
    && (p.handshake <==> p.conn && !Promoted(p.stage.value))
    && (p.remote <==> p.stage.Some? && RemoteTracked(p.stage.value))
    && (p.accepted || p.refused || p.stage.Some? || p.marked ==> c < s.clients)
    && (p.accepted ==> !p.refused && p.stage.None? && !p.marked)
    && (p.refused ==> p.stage.None?)
    && (p.clientOpen ==> p.accepted || p.refused || (p.stage.Some? && ClientMayBeOpen(p.stage.value)))
    && (p.remoteOpen ==> p.stage.Some? && RemoteMayBeOpen(p.stage.value))
    && (p.marked ==> s.closing && !(p.stage.Some? && Promoted(p.stage.value)))
    && (s.closing && p.handshake ==> p.deadline.Some? && s.shutAt <= p.deadline.value <= s.now)
    && (s.swept ==> SpotCovered(c, p, {}))
  }

  /** The client's tracked sockets are closed already or still on this list. */
  ghost predicate SpotCovered(c: nat, p: Spot, pending: set<Sock>) {
    && (p.conn && p.clientOpen ==> Client(c) in pending)
    && (p.remote && p.remoteOpen ==> Remote(c) in pending)
  }

  ghost predicate CloserOk(s: State, it: Closer) {
    && (it.Sweeping? ==> forall c: nat :: SpotCovered(c, At(s, c), it.pending))
    && (it.Draining? ==> s.swept)
  }

  ghost predicate Inv(s: State) {
    && (forall c: nat :: SpotOk(s, c, At(s, c)))
    && (forall k :: k in s.closers ==> s.closing && CloserOk(s, s.closers[k]))
    && s.wg == |s.handlers|
    && (s.maxConns > 0 ==> |s.conns| <= s.maxConns)
    && (s.swept ==> s.closing)
    && (s.closing ==> s.shutAt <= s.now)
  }

  lemma InitialInv(maxConns: nat, handshakeTimeout: bool)
    ensures Inv(Initial(maxConns, handshakeTimeout))
  {}

  lemma ToElsewhere(s: State, c: nat, d: nat, stage: Stage)
    requires c != d
    ensures At(To(s, d, stage), c) == At(s, c)
  {}

  lemma DueElsewhere(s: State, c: nat, d: nat, due: Option<int>)
    requires c != d
    ensures At(s.(deadline := s.deadline[d := due]), c) == At(s, c)
  {}

  lemma HandshakeElsewhere(s: State, e: Step, c: nat, d: nat, stage: Stage)
    requires Handshake(s, e, d, stage).Some? && c != d
    ensures At(Handshake(s, e, d, stage).value, c) == At(s, c)
  {
    var to := Handshake(s, e, d, stage).value.handlers[d];
    ToElsewhere(s, c, d, to);
    var due := if e.SetHandshakeDeadline? then Some(e.due) else None;
    DueElsewhere(s, c, d, due);
    ToElsewhere(s.(deadline := s.deadline[d := due]), c, d, to);
  }

  lemma DialElsewhere(s: State, e: Step, c: nat, d: nat, stage: Stage)
    requires Dial(s, e, d, stage).Some? && c != d
    ensures At(Dial(s, e, d, stage).value, c) == At(s, c)
  {}

  lemma RelayElsewhere(s: State, e: Step, c: nat, d: nat, stage: Stage)
    requires Relay(s, e, d, stage).Some? && c != d
    ensures At(Relay(s, e, d, stage).value, c) == At(s, c)
  {}

  lemma WindDownElsewhere(s: State, e: Step, c: nat, d: nat, stage: Stage)
    requires WindDown(s, e, d, stage).Some? && c != d
    ensures At(WindDown(s, e, d, stage).value, c) == At(s, c)
  {}

  /** A handler's step leaves every other client alone. */
  lemma HandlerElsewhere(s: State, e: Step, c: nat, d: nat, stage: Stage)
    requires HandlerNext(s, e, d, stage).Some? && c != d
    ensures At(HandlerNext(s, e, d, stage).value, c) == At(s, c)
  {
    if InHandshake(e) {
      HandshakeElsewhere(s, e, c, d, stage);
    } else if InDial(e) {
      DialElsewhere(s, e, c, d, stage);
    } else if InRelay(e) {
      RelayElsewhere(s, e, c, d, stage);
    } else {
      WindDownElsewhere(s, e, c, d, stage);
    }
  }

  lemma TrackElsewhere(s: State, d: nat, c: nat)
    requires c != d
    ensures At(TrackBlock(s, d), c) == At(s, c)
  {
    if Saturated(s) {
      assert At(Refused(s, d), c) == At(s, c);
    } else {
      assert At(Admitted(s, d), c) == At(s, c);
    }
  }

  lemma LocalElsewhere(s: State, e: Step, c: nat)
    requires Local(e) && Next(s, e).Some? && c != e.c
    ensures At(Next(s, e).value, c) == At(s, c)
  {
    if e.Track? {
      TrackElsewhere(s, e.c, c);
    } else if !e.CloseRefused? {
      HandlerElsewhere(s, e, c, e.c, s.handlers[e.c]);
    }
  }

  /** What no client's own step touches. */
  predicate SameGlobals(s: State, s': State) {
    && s'.closing == s.closing && s'.shutAt == s.shutAt && s'.now == s.now
    && s'.closers == s.closers && s'.swept == s.swept && s'.maxConns == s.maxConns
    && s'.clients == s.clients && s'.handshakeTimeout == s.handshakeTimeout
  }

  /** What a handler's step does to the sets. */
  predicate Counts(s: State, s': State, e: Step, c: nat) {
    && s'.conns <= s.conns && s'.handshakes <= s.handshakes
    && s'.accepted == s.accepted && s'.refused == s.refused && s'.marked == s.marked
    && s'.open <= (if e.DialOk? then s.open + {Remote(c)} else s.open)
    && s'.handlers.Keys == (if e.WgDone? then s.handlers.Keys - {c} else s.handlers.Keys)
    && s'.wg == (if e.WgDone? then s.wg - 1 else s.wg)
  }

  lemma HandshakeFrame(s: State, e: Step, c: nat, stage: Stage)
    requires Handshake(s, e, c, stage).Some? && c in s.handlers && InHandshake(e)
    ensures SameGlobals(s, Handshake(s, e, c, stage).value) && Counts(s, Handshake(s, e, c, stage).value, e, c)
  {}

  lemma DialFrame(s: State, e: Step, c: nat, stage: Stage)
    requires Dial(s, e, c, stage).Some? && c in s.handlers && InDial(e)
    ensures SameGlobals(s, Dial(s, e, c, stage).value) && Counts(s, Dial(s, e, c, stage).value, e, c)
  {}

  lemma RelayFrame(s: State, e: Step, c: nat, stage: Stage)
    requires Relay(s, e, c, stage).Some? && c in s.handlers && InRelay(e)
    ensures SameGlobals(s, Relay(s, e, c, stage).value) && Counts(s, Relay(s, e, c, stage).value, e, c)
  {}

  lemma WindDownFrame(s: State, e: Step, c: nat, stage: Stage)
    requires WindDown(s, e, c, stage).Some? && c in s.handlers
    ensures SameGlobals(s, WindDown(s, e, c, stage).value) && Counts(s, WindDown(s, e, c, stage).value, e, c)
  {}

  lemma HandlerFrame(s: State, e: Step, c: nat, stage: Stage)
    requires HandlerNext(s, e, c, stage).Some? && c in s.handlers
    ensures SameGlobals(s, HandlerNext(s, e, c, stage).value) && Counts(s, HandlerNext(s, e, c, stage).value, e, c)
  {
    if InHandshake(e) {
      HandshakeFrame(s, e, c, stage);
    } else if InDial(e) {
      DialFrame(s, e, c, stage);
    } else if InRelay(e) {
      RelayFrame(s, e, c, stage);
    } else {
      WindDownFrame(s, e, c, stage);
    }
  }

  lemma HandshakeHere(s: State, e: Step, c: nat, stage: Stage)
    requires Handshake(s, e, c, stage).Some? && c in s.handlers && s.handlers[c] == stage
    requires SpotOk(s, c, At(s, c)) && (s.swept ==> s.closing)
    ensures SpotOk(Handshake(s, e, c, stage).value, c, At(Handshake(s, e, c, stage).value, c))
  {}

  lemma DialHere(s: State, e: Step, c: nat, stage: Stage)
    requires Dial(s, e, c, stage).Some? && c in s.handlers && s.handlers[c] == stage
    requires SpotOk(s, c, At(s, c)) && (s.swept ==> s.closing)
    ensures SpotOk(Dial(s, e, c, stage).value, c, At(Dial(s, e, c, stage).value, c))
  {}

  lemma BeginRelayHere(s: State, e: Step, c: nat, stage: Stage)
    requires Relay(s, e, c, stage).Some? && e.BeginRelay? && c in s.handlers && s.handlers[c] == stage
    requires SpotOk(s, c, At(s, c)) && (s.swept ==> s.closing)
    ensures SpotOk(Relay(s, e, c, stage).value, c, At(Relay(s, e, c, stage).value, c))
  {}

  lemma RelayHere(s: State, e: Step, c: nat, stage: Stage)
    requires Relay(s, e, c, stage).Some? && InRelay(e) && c in s.handlers && s.handlers[c] == stage
    requires SpotOk(s, c, At(s, c)) && (s.swept ==> s.closing)
    ensures SpotOk(Relay(s, e, c, stage).value, c, At(Relay(s, e, c, stage).value, c))
  {
    if e.BeginRelay? {
      BeginRelayHere(s, e, c, stage);
    } else {
      var p, p' := At(s, c), At(Relay(s, e, c, stage).value, c);
      assert p' == p.(stage := p'.stage, deadline := p'.deadline);
    }
  }

  lemma WindDownHere(s: State, e: Step, c: nat, stage: Stage)
    requires WindDown(s, e, c, stage).Some? && c in s.handlers && s.handlers[c] == stage
    requires SpotOk(s, c, At(s, c)) && (s.swept ==> s.closing)
    ensures SpotOk(WindDown(s, e, c, stage).value, c, At(WindDown(s, e, c, stage).value, c))
  {}

  lemma LocalHere(s: State, e: Step)
    requires Local(e) && Next(s, e).Some? && SpotOk(s, e.c, At(s, e.c)) && (s.swept ==> s.closing)
    ensures SpotOk(Next(s, e).value, e.c, At(Next(s, e).value, e.c))
  {
    if !e.Track? && !e.CloseRefused? {
      if InHandshake(e) {
        HandshakeHere(s, e, e.c, s.handlers[e.c]);
      } else if InDial(e) {
        DialHere(s, e, e.c, s.handlers[e.c]);
      } else if InRelay(e) {
        RelayHere(s, e, e.c, s.handlers[e.c]);
      } else {
        WindDownHere(s, e, e.c, s.handlers[e.c]);
      }
    }
  }

  /** Once closing is set nothing more is admitted, on any run from there. */
  ghost predicate OnlyShrinks(s: State, s': State) {
    && s'.closing
    && s'.conns <= s.conns && s'.handshakes <= s.handshakes && s'.remotes <= s.remotes
    && s'.wg <= s.wg
  }

  lemma HandlerShrinks(s: State, e: Step, c: nat, stage: Stage)
    requires s.closing && HandlerNext(s, e, c, stage).Some?
    ensures OnlyShrinks(s, HandlerNext(s, e, c, stage).value)
  {
    if InHandshake(e) {
      assert OnlyShrinks(s, Handshake(s, e, c, stage).value);
    } else if InDial(e) {
      assert OnlyShrinks(s, Dial(s, e, c, stage).value);
    } else if InRelay(e) {
      assert OnlyShrinks(s, Relay(s, e, c, stage).value);
    } else {
      assert OnlyShrinks(s, WindDown(s, e, c, stage).value);
    }
  }

  lemma HandlerKeepsCovered(s: State, e: Step, c: nat, stage: Stage, pending: set<Sock>)
    requires HandlerNext(s, e, c, stage).Some? && s.closing && c in s.handlers && s.handlers[c] == stage
    requires SpotOk(s, c, At(s, c)) && SpotCovered(c, At(s, c), pending)
    ensures SpotCovered(c, At(HandlerNext(s, e, c, stage).value, c), pending)
  {
    HandlerFrame(s, e, c, stage);
    HandlerShrinks(s, e, c, stage);
    if e.DialOk? {
      assert c !in s.remotes;
    }
  }

  /** A step never uncovers a socket: nothing is tracked once closing is set. */
  lemma LocalKeepsCovered(s: State, e: Step, pending: set<Sock>)
    requires Local(e) && Next(s, e).Some? && s.closing
    requires SpotOk(s, e.c, At(s, e.c)) && SpotCovered(e.c, At(s, e.c), pending)
    ensures SpotCovered(e.c, At(Next(s, e).value, e.c), pending)
  {
    if e.Track? {
      assert Next(s, e).value == Refused(s, e.c);
    } else if !e.CloseRefused? {
      HandlerKeepsCovered(s, e, e.c, s.handlers[e.c], pending);
    }
  }

  lemma LocalGlobals(s: State, e: Step)
    requires Local(e) && Next(s, e).Some?
    ensures SameGlobals(s, Next(s, e).value)
  {
    if !e.Track? && !e.CloseRefused? {
      HandlerFrame(s, e, e.c, s.handlers[e.c]);
    }
  }

  lemma HandlerCounts(s: State, e: Step, c: nat, stage: Stage)
    requires HandlerNext(s, e, c, stage).Some? && c in s.handlers && s.wg == |s.handlers|
    ensures var s' := HandlerNext(s, e, c, stage).value; s'.wg == |s'.handlers| && |s'.conns| <= |s.conns|
  {
    HandlerFrame(s, e, c, stage);
    var s' := HandlerNext(s, e, c, stage).value;
    Counting.SubsetSize(s'.conns, s.conns);
    assert |s'.handlers| == |s'.handlers.Keys| && |s.handlers| == |s.handlers.Keys|;
  }

  lemma TrackCounts(s: State, c: nat)
    requires c !in s.handlers && s.wg == |s.handlers| && (s.maxConns > 0 ==> |s.conns| <= s.maxConns)
    ensures var s' := TrackBlock(s, c);
            s'.wg == |s'.handlers| && (s.maxConns > 0 ==> |s'.conns| <= s.maxConns)
  {
    var s' := TrackBlock(s, c);
    if !Saturated(s) {
      assert s'.handlers.Keys == s.handlers.Keys + {c};
      assert |s'.handlers| == |s'.handlers.Keys| && |s.handlers| == |s.handlers.Keys|;
    }
  }

  lemma LocalCounts(s: State, e: Step)
    requires Inv(s) && Local(e) && Next(s, e).Some?
    ensures var s' := Next(s, e).value;
            s'.wg == |s'.handlers| && (s.maxConns > 0 ==> |s'.conns| <= s.maxConns)
  {
    if e.Track? {
      assert SpotOk(s, e.c, At(s, e.c));
      TrackCounts(s, e.c);
    } else if !e.CloseRefused? {
      HandlerCounts(s, e, e.c, s.handlers[e.c]);
    }
  }

  lemma LocalStep(s: State, e: Step)
    requires Inv(s) && Local(e) && Next(s, e).Some?
    ensures Inv(Next(s, e).value)
  {
    var s' := Next(s, e).value;
    LocalGlobals(s, e);
    LocalCounts(s, e);
    LocalHere(s, e);
    forall c: nat
      ensures SpotOk(s', c, At(s', c))
    {
      if c != e.c {
        LocalElsewhere(s, e, c);
      }
    }
    forall k | k in s'.closers && s'.closers[k].Sweeping?
      ensures CloserOk(s', s'.closers[k])
    {
      var pending := s.closers[k].pending;
      LocalKeepsCovered(s, e, pending);
      forall c: nat
        ensures SpotCovered(c, At(s', c), pending)
      {
        if c != e.c {
          LocalElsewhere(s, e, c);
        }
      }
    }
  }

  /** The clock, a fresh arrival, and stopAccepting. */
  lemma ArrivalStep(s: State, e: Step)
    requires Inv(s) && Next(s, e).Some? && (e.Tick? || e.Accept?)
    ensures Inv(Next(s, e).value)
  {
    var s' := Next(s, e).value;
    forall c: nat
      ensures SpotOk(s', c, At(s', c))
    {
      assert SpotOk(s, c, At(s, c));
      assert At(s', c) == At(s, c) || (e.Accept? && c == s.clients);
    }
    forall k | k in s'.closers && s'.closers[k].Sweeping?
      ensures CloserOk(s', s'.closers[k])
    {
      forall c: nat
        ensures SpotCovered(c, At(s', c), s'.closers[k].pending)
      {
        assert SpotOk(s, c, At(s, c)) && SpotCovered(c, At(s, c), s.closers[k].pending);
      }
    }
  }

  lemma StopHere(s: State, k: nat, force: bool, c: nat)
    requires SpotOk(s, c, At(s, c)) && (s.swept ==> s.closing) && (s.closing ==> s.shutAt <= s.now)
    ensures SpotOk(StopBlock(s, k, force), c, At(StopBlock(s, k, force), c))
    ensures forall pending :: SpotCovered(c, At(s, c), pending) ==>
              SpotCovered(c, At(StopBlock(s, k, force), c), pending)
  {
    var p, p' := At(s, c), At(StopBlock(s, k, force), c);
    assert p' == p.(marked := p.marked || p.handshake, deadline := if p.handshake then Some(s.now) else p.deadline);
  }

  lemma StopStep(s: State, e: Step)
    requires Inv(s) && Next(s, e).Some? && e.Stop?
    ensures Inv(Next(s, e).value)
  {
    var s' := StopBlock(s, e.k, e.force);
    forall c: nat
      ensures SpotOk(s', c, At(s', c))
      ensures forall pending :: SpotCovered(c, At(s, c), pending) ==> SpotCovered(c, At(s', c), pending)
    {
      assert SpotOk(s, c, At(s, c));
      StopHere(s, e.k, e.force, c);
    }
    forall k | k in s'.closers && s'.closers[k].Sweeping?
      ensures CloserOk(s', s'.closers[k])
    {
      assert k != e.k && CloserOk(s, s.closers[k]);
    }
  }

  lemma CloserStep(s: State, e: Step)
    requires Inv(s) && Next(s, e).Some? && !Local(e) && !e.Tick? && !e.Accept? && !e.Stop?
    ensures Inv(Next(s, e).value)
  {
    var s' := Next(s, e).value;
    assert CloserOk(s, s.closers[e.k]);
    forall c: nat
      ensures SpotOk(s', c, At(s', c))
      ensures forall pending :: SpotCovered(c, At(s, c), pending) ==> SpotCovered(c, At(s', c), pending)
      ensures e.Snapshot? ==> SpotCovered(c, At(s', c), TrackedSocks(s))
      ensures e.SweepOne? ==> SpotCovered(c, At(s', c), s.closers[e.k].pending - {e.sock})
    {
      assert SpotOk(s, c, At(s, c));
      assert e.SweepOne? || e.SweepEnd? ==> SpotCovered(c, At(s, c), s.closers[e.k].pending);
    }
    forall k | k in s'.closers
      ensures CloserOk(s', s'.closers[k])
    {
      if k != e.k {
        assert CloserOk(s, s.closers[k]);
      }
    }
  }

  lemma StepKeepsInv(s: State, e: Step)
    requires Inv(s) && Next(s, e).Some?
    ensures Inv(Next(s, e).value)
  {
    if Local(e) {
      LocalStep(s, e);
    } else if e.Tick? || e.Accept? {
      ArrivalStep(s, e);
    } else if e.Stop? {
      StopStep(s, e);
    } else {
      CloserStep(s, e);
    }
  }

  // ---- what holds over every run ----

  lemma ClosingShrinks(s: State, e: Step)
    requires s.closing && Next(s, e).Some?
    ensures OnlyShrinks(s, Next(s, e).value)
  {
    if Local(e) && !e.Track? && !e.CloseRefused? {
      HandlerShrinks(s, e, e.c, s.handlers[e.c]);
    }
  }

  lemma SweptStays(s: State, e: Step)
    requires Next(s, e).Some? && s.swept
    ensures Next(s, e).value.swept
  {
    if Local(e) {
      LocalGlobals(s, e);
    }
  }

  lemma {:induction false} RunKeepsInv(s: State, steps: seq<Step>, s': State)
    requires Inv(s) && Runs(s, steps, s')
    ensures Inv(s') && (s.swept ==> s'.swept)
    decreases |steps|
  {
    if steps != [] {
      var next := Next(s, steps[0]).value;
      StepKeepsInv(s, steps[0]);
      if s.swept {
        SweptStays(s, steps[0]);
      }
      RunKeepsInv(next, steps[1..], s');
    }
  }

  /** Some schedule leads here. */
  ghost predicate Reachable(s: State) {
    exists steps :: Runs(Initial(s.maxConns, s.handshakeTimeout), steps, s)
  }

  lemma ReachableInv(s: State)
    requires Reachable(s)
    ensures Inv(s)
  {
    var steps :| Runs(Initial(s.maxConns, s.handshakeTimeout), steps, s);
    InitialInv(s.maxConns, s.handshakeTimeout);
    RunKeepsInv(Initial(s.maxConns, s.handshakeTimeout), steps, s);
  }

  lemma {:induction false} NothingIsAdmittedAfterClosing(s: State, steps: seq<Step>, s': State)
    requires s.closing && Runs(s, steps, s')
    ensures OnlyShrinks(s, s')
    decreases |steps|
  {
    if steps != [] {
      var next := Next(s, steps[0]).value;
      ClosingShrinks(s, steps[0]);
      NothingIsAdmittedAfterClosing(next, steps[1..], s');
    }
  }

  /** A remote that is neither tracked nor in its handler's hands is closed. */
  lemma NoUntrackedRemoteIsOpen(s: State, c: nat)
    requires Reachable(s) && Remote(c) in s.open && c !in s.remotes
    ensures c in s.handlers && (s.handlers[c].HasRemote? || s.handlers[c].RemoteRefused?)
  {
    ReachableInv(s);
    assert SpotOk(s, c, At(s, c));
  }

  /**
   * After stopAccepting and a finished closeActiveConns, a socket that is still open is held by
   * the accept loop or by a handler whose next tracking step is refused and closes it.
   */
  lemma NothingEscapesShutdown(s: State, sock: Sock)
    requires Reachable(s) && s.swept && sock in s.open
    ensures match sock
            case Client(c) =>
              || (c in s.refused && !(Client(c) in Next(s, CloseRefused(c)).value.open))
              || (c in s.accepted && Next(s, Track(c)).Some?
                  && var s' := Next(s, Track(c)).value;
                     c in s'.refused && s'.conns == s.conns && s'.wg == s.wg
                     && Next(s', CloseRefused(c)).Some? && Client(c) !in Next(s', CloseRefused(c)).value.open)
            case Remote(c) =>
              c in s.handlers &&
              (|| (s.handlers[c].RemoteRefused? && Next(s, CloseRejected(c)).Some?
                   && Remote(c) !in Next(s, CloseRejected(c)).value.open)
               || (s.handlers[c].HasRemote? && Next(s, TrackRemote(c)).Some?
                   && var s' := Next(s, TrackRemote(c)).value;
                      s'.remotes == s.remotes && Next(s', CloseRejected(c)).Some?
                      && Remote(c) !in Next(s', CloseRejected(c)).value.open))
  {
    ReachableInv(s);
    assert SpotOk(s, sock.c, At(s, sock.c));
  }

  /** An idle wait group means nothing is tracked, and only the accept loop can hold a socket. */
  lemma IdleWaitGroup(s: State)
    requires Inv(s) && s.wg == 0
    ensures s.conns == {} && s.handshakes == {} && s.remotes == {}
    ensures forall sock :: sock in s.open ==> sock.Client? && sock.c in s.accepted + s.refused
  {
    assert forall c: nat :: c !in s.handlers;
    forall c: nat
      ensures c !in s.conns && c !in s.handshakes && c !in s.remotes
      ensures Remote(c) !in s.open && (Client(c) in s.open ==> c in s.accepted + s.refused)
    {
      assert SpotOk(s, c, At(s, c));
    }
    forall sock | sock in s.open
      ensures sock.Client? && sock.c in s.accepted + s.refused
    {
      assert sock == Client(sock.c) || sock == Remote(sock.c);
    }
  }

  /** When Close's wait is over, every tracked socket is closed and nothing is left to wait for. */
  lemma CloseReturnsClean(s: State, k: nat)
    requires Reachable(s) && k in s.closers && s.closers[k] == Draining && Next(s, Drain(k)).Some?
    ensures s.closing && s.swept && s.conns == {} && s.remotes == {} && s.handlers == map[]
    ensures forall sock :: sock in s.open ==> sock.Client? && sock.c in s.accepted + s.refused
  {
    ReachableInv(s);
    assert CloserOk(s, s.closers[k]);
    IdleWaitGroup(s);
  }

  /** The limit is never exceeded, and the three sets always nest. */
  lemma TrackingNests(s: State)
    requires Reachable(s)
    ensures s.handshakes <= s.conns && s.remotes <= s.conns && |s.conns| <= s.wg
    ensures s.maxConns > 0 ==> |s.conns| <= s.maxConns
  {
    ReachableInv(s);
    forall c | c in s.handshakes || c in s.remotes || c in s.conns
      ensures c in s.conns && c in s.handlers.Keys
    {
      assert SpotOk(s, c, At(s, c));
    }
    Counting.SubsetSize(s.conns, s.handlers.Keys);
    assert |s.handlers| == |s.handlers.Keys|;
  }

  // ---- the handshake deadline is in force exactly while the request is read ----

  /** Under a handshake timeout a request is only read under a deadline; past the handshake none is left. */
  predicate SpotTimed(handshakeTimeout: bool, p: Spot) {
    p.stage.Some? ==>
      match p.stage.value
      case Starting => p.marked || p.deadline.None?
      case Reading => if handshakeTimeout then p.deadline.Some? else p.marked || p.deadline.None?
      case Dialing => p.marked || p.deadline.None?
      case HasRemote => p.marked || p.deadline.None?
      case Tracked => p.marked || p.deadline.None?
      case Clearing => p.deadline.None?
      case _ => true
  }

  ghost predicate Timed(s: State) {
    forall c: nat :: SpotTimed(s.handshakeTimeout, At(s, c))
  }

  lemma HandlerTimed(s: State, e: Step, c: nat, stage: Stage)
    requires HandlerNext(s, e, c, stage).Some? && c in s.handlers && s.handlers[c] == stage
    requires SpotOk(s, c, At(s, c)) && SpotTimed(s.handshakeTimeout, At(s, c))
    ensures SpotTimed(s.handshakeTimeout, At(HandlerNext(s, e, c, stage).value, c))
  {
    if InHandshake(e) {
      HandshakeTimed(s, e, c, stage);
    } else if InDial(e) {
      DialTimed(s, e, c, stage);
    } else if InRelay(e) {
      RelayTimed(s, e, c, stage);
    } else {
      assert WindDown(s, e, c, stage).value.deadline == s.deadline;
    }
  }

  lemma HandshakeTimed(s: State, e: Step, c: nat, stage: Stage)
    requires Handshake(s, e, c, stage).Some? && c in s.handlers && s.handlers[c] == stage
    requires SpotTimed(s.handshakeTimeout, At(s, c))
    ensures SpotTimed(s.handshakeTimeout, At(Handshake(s, e, c, stage).value, c))
  {}

  lemma DialTimed(s: State, e: Step, c: nat, stage: Stage)
    requires Dial(s, e, c, stage).Some? && c in s.handlers && s.handlers[c] == stage
    requires SpotTimed(s.handshakeTimeout, At(s, c))
    ensures SpotTimed(s.handshakeTimeout, At(Dial(s, e, c, stage).value, c))
  {}

  lemma RelayTimed(s: State, e: Step, c: nat, stage: Stage)
    requires Relay(s, e, c, stage).Some? && c in s.handlers && s.handlers[c] == stage
    requires SpotOk(s, c, At(s, c)) && SpotTimed(s.handshakeTimeout, At(s, c))
    ensures SpotTimed(s.handshakeTimeout, At(Relay(s, e, c, stage).value, c))
  {}

  lemma LocalTimed(s: State, e: Step)
    requires Inv(s) && Local(e) && Next(s, e).Some? && SpotTimed(s.handshakeTimeout, At(s, e.c))
    ensures SpotTimed(s.handshakeTimeout, At(Next(s, e).value, e.c))
  {
    assert SpotOk(s, e.c, At(s, e.c));
    if e.Track? {
      TrackTimed(s, e.c);
    } else if !e.CloseRefused? {
      HandlerTimed(s, e, e.c, s.handlers[e.c]);
    }
  }

  lemma TrackTimed(s: State, c: nat)
    requires c !in s.handlers
    ensures SpotTimed(s.handshakeTimeout, At(TrackBlock(s, c), c))
  {}

  lemma StopTimed(s: State, k: nat, force: bool, c: nat)
    requires SpotOk(s, c, At(s, c)) && SpotTimed(s.handshakeTimeout, At(s, c))
    ensures SpotTimed(s.handshakeTimeout, At(StopBlock(s, k, force), c))
  {
    var p, p' := At(s, c), At(StopBlock(s, k, force), c);
    assert p' == p.(marked := p.marked || p.handshake, deadline := if p.handshake then Some(s.now) else p.deadline);
  }

  lemma TimedStep(s: State, e: Step)
    requires Inv(s) && Timed(s) && Next(s, e).Some?
    ensures Timed(Next(s, e).value) && Next(s, e).value.handshakeTimeout == s.handshakeTimeout
  {
    var s' := Next(s, e).value;
    KeepsTimeout(s, e);
    forall c: nat
      ensures SpotTimed(s'.handshakeTimeout, At(s', c))
    {
      assert SpotOk(s, c, At(s, c)) && SpotTimed(s.handshakeTimeout, At(s, c));
      if e.Stop? {
        StopTimed(s, e.k, e.force, c);
      } else if Local(e) && e.c == c {
        LocalTimed(s, e);
      } else if Local(e) {
        LocalElsewhere(s, e, c);
      } else {
        assert s'.handlers == s.handlers && s'.deadline == s.deadline && s'.marked == s.marked;
      }
    }
  }

  lemma KeepsTimeout(s: State, e: Step)
    requires Next(s, e).Some?
    ensures Next(s, e).value.handshakeTimeout == s.handshakeTimeout
  {
    if Local(e) && !e.Track? && !e.CloseRefused? {
      HandlerFrame(s, e, e.c, s.handlers[e.c]);
    }
  }

  lemma {:induction false} RunKeepsTimed(s: State, steps: seq<Step>, s': State)
    requires Inv(s) && Timed(s) && Runs(s, steps, s')
    ensures Timed(s')
    decreases |steps|
  {
    if steps != [] {
      StepKeepsInv(s, steps[0]);
      TimedStep(s, steps[0]);
      RunKeepsTimed(Next(s, steps[0]).value, steps[1..], s');
    }
  }

  lemma ReachableTimed(s: State)
    requires Reachable(s)
    ensures Timed(s)
  {
    var start := Initial(s.maxConns, s.handshakeTimeout);
    var steps :| Runs(start, steps, s);
    InitialInv(s.maxConns, s.handshakeTimeout);
    RunKeepsTimed(start, steps, s);
  }

  /** Under a handshake timeout no request is ever read without a deadline on the client's socket. */
  lemma ReadingIsTimed(s: State, c: nat)
    requires Reachable(s) && s.handshakeTimeout && c in s.handlers && s.handlers[c].Reading?
    ensures c in s.deadline && s.deadline[c].Some?
  {
    ReachableTimed(s);
    assert SpotTimed(s.handshakeTimeout, At(s, c));
  }

  /** Past the handshake the client has no deadline but one a shutdown gave it. */
  lemma CompletedIsUntimed(s: State, c: nat)
    requires Reachable(s) && c in s.handlers && c !in s.marked
    requires s.handlers[c].Dialing? || s.handlers[c].HasRemote? || s.handlers[c].Tracked? || s.handlers[c].Clearing?
    ensures At(s, c).deadline.None?
  {
    ReachableTimed(s);
    assert SpotTimed(s.handshakeTimeout, At(s, c));
  }

  // ---- deadlines ----

  /** Once closing is set, every handshake's deadline lies between the shutdown and now. */
  lemma HandshakesAreExpired(s: State, c: nat)
    requires Reachable(s) && s.closing && c in s.handshakes
    ensures c in s.deadline && s.deadline[c].Some? && s.shutAt <= s.deadline[c].value <= s.now
  {
    ReachableInv(s);
    assert SpotOk(s, c, At(s, c));
  }

  lemma HandlerKeepsDeadline(s: State, e: Step, c: nat, stage: Stage)
    requires s.closing && HandlerNext(s, e, c, stage).Some? && !Promoted(stage)
    ensures HandlerNext(s, e, c, stage).value.deadline == s.deadline
  {
    if InHandshake(e) {
      assert Handshake(s, e, c, stage).value.deadline == s.deadline;
    } else if InDial(e) {
      assert Dial(s, e, c, stage).value.deadline == s.deadline;
    } else if InRelay(e) {
      assert Relay(s, e, c, stage).value.deadline == s.deadline;
    } else {
      assert WindDown(s, e, c, stage).value.deadline == s.deadline;
    }
  }

  lemma DeadlineStep(s: State, e: Step, c: nat)
    requires Inv(s) && s.closing && Next(s, e).Some? && c in s.handshakes && !e.Stop?
    ensures At(s, c).deadline.Some? && At(Next(s, e).value, c).deadline == At(s, c).deadline
  {
    assert SpotOk(s, c, At(s, c));
    if Local(e) && e.c != c {
      LocalElsewhere(s, e, c);
    } else if Local(e) && !e.Track? && !e.CloseRefused? {
      HandlerKeepsDeadline(s, e, c, s.handlers[c]);
    }
  }

  /** A handshake's deadline moves during shutdown exactly at a further stopAccepting after it. */
  lemma ExtendedExactly(s: State, e: Step, c: nat)
    requires Inv(s) && s.closing && Next(s, e).Some? && c in s.handshakes
    ensures At(s, c).deadline.Some?
    ensures At(Next(s, e).value, c).deadline != At(s, c).deadline <==> e.Stop? && s.now > At(s, c).deadline.value
  {
    assert SpotOk(s, c, At(s, c));
    if e.Stop? {
      assert At(StopBlock(s, e.k, e.force), c).deadline == Some(s.now);
    } else {
      DeadlineStep(s, e, c);
    }
  }

  /** Somewhere on this run stopAccepting is called after that instant. */
  ghost predicate StopsAfter(s: State, steps: seq<Step>, due: int)
    decreases |steps|
  {
    && steps != [] && Next(s, steps[0]).Some?
    && ((steps[0].Stop? && s.now > due) || StopsAfter(Next(s, steps[0]).value, steps[1..], due))
  }

  /**
   * Along any run from closing on, a connection that is still a handshake has had its deadline
   * extended if and only if stopAccepting was called again after that deadline.
   */
  lemma {:induction false} ShutdownDeadlineIsExtendedExactly(s: State, steps: seq<Step>, s': State, c: nat)
    requires Inv(s) && s.closing && Runs(s, steps, s') && c in s'.handshakes
    ensures c in s.handshakes && At(s, c).deadline.Some? && At(s', c).deadline.Some?
    ensures At(s', c).deadline.value >= At(s, c).deadline.value
    ensures At(s', c).deadline != At(s, c).deadline <==> StopsAfter(s, steps, At(s, c).deadline.value)
    decreases |steps|
  {
    NothingIsAdmittedAfterClosing(s, steps, s');
    assert SpotOk(s, c, At(s, c));
    if steps != [] {
      var e, next := steps[0], Next(s, steps[0]).value;
      var due := At(s, c).deadline.value;
      StepKeepsInv(s, e);
      ClosingShrinks(s, e);
      ExtendedExactly(s, e, c);
      ShutdownDeadlineIsExtendedExactly(next, steps[1..], s', c);
      if e.Stop? {
        assert At(StopBlock(s, e.k, e.force), c).deadline == Some(s.now);
      }
    }
  }

  /** The extension is real: a second stopAccepting, five ticks later, moves the deadline from 0 to 5. */
  lemma SecondStopExtends() returns (s: State)
    ensures Reachable(s) && s.closing && 0 in s.handshakes && At(s, 0).deadline == Some(0)
    ensures Next(s, Stop(1, true)).Some? && At(Next(s, Stop(1, true)).value, 0).deadline == Some(5)
  {
    var start := Initial(0, false);
    var s1, s2 := Next(start, Accept).value, Next(Next(start, Accept).value, Track(0)).value;
    var s3 := Next(s2, Stop(0, false)).value;
    s := Next(s3, Tick(5)).value;
    assert Runs(s, [], s);
    Prepend(s3, Tick(5), [], s);
    Prepend(s2, Stop(0, false), [Tick(5)], s);
    Prepend(s1, Track(0), [Stop(0, false)] + [Tick(5)], s);
    Prepend(start, Accept, [Track(0)] + ([Stop(0, false)] + [Tick(5)]), s);
  }

  lemma Prepend(s: State, e: Step, steps: seq<Step>, s': State)
    requires Next(s, e).Some? && Runs(Next(s, e).value, steps, s')
    ensures Runs(s, [e] + steps, s')
  {
    assert ([e] + steps)[1..] == steps;
  }

  /** The client has left the handshakes for good, without a stamp. */
  predicate PastHandshake(s: State, c: nat) {
    c < s.clients && c !in s.accepted && c !in s.handshakes && c !in s.marked
  }

  lemma PastHandshakeStep(s: State, e: Step, c: nat)
    requires Next(s, e).Some? && PastHandshake(s, c)
    ensures PastHandshake(Next(s, e).value, c)
  {
    if Local(e) && !e.Track? && !e.CloseRefused? {
      HandlerFrame(s, e, e.c, s.handlers[e.c]);
    }
  }

  lemma {:induction false} PastHandshakeRun(s: State, steps: seq<Step>, s': State, c: nat)
    requires PastHandshake(s, c) && Runs(s, steps, s')
    ensures PastHandshake(s', c)
    decreases |steps|
  {
    if steps != [] {
      PastHandshakeStep(s, steps[0], c);
      PastHandshakeRun(Next(s, steps[0]).value, steps[1..], s', c);
    }
  }

  /**
   * A connection promoted to a relay was stamped by no shutdown, and on no run from there does
   * stopAccepting touch its deadline.
   */
  lemma PromotedIsNeverStamped(s: State, steps: seq<Step>, s': State, c: nat)
    requires Reachable(s) && c in s.handlers && Promoted(s.handlers[c]) && Runs(s, steps, s')
    ensures c !in s.marked && c !in s'.marked && c !in s'.handshakes
    ensures forall k, force :: Next(s', Stop(k, force)).Some? ==>
                                 At(Next(s', Stop(k, force)).value, c).deadline == At(s', c).deadline
  {
    ReachableInv(s);
    assert SpotOk(s, c, At(s, c));
    PastHandshakeRun(s, steps, s', c);
  }
}

module ServerConns {
  import opened Options
  import opened ServerConnsSpec

  /** The server's tracking state. Each method is one lock-held block. */
  class Server {
    const maxConns: nat
    const handshakeTimeout: bool
    var closing: bool
    var conns: set<nat>
    var handshakes: set<nat>
    var remotes: set<nat>
    var wg: int
    var deadline: map<nat, Option<int>>   // what each client socket was last given
    ghost var now: int
    ghost var shutAt: int
    ghost var handlers: map<nat, Stage>
    ghost var accepted: set<nat>
    ghost var refused: set<nat>
    ghost var clients: nat
    ghost var open: set<Sock>
    ghost var marked: set<nat>
    ghost var closers: map<nat, Closer>
    ghost var swept: bool

    ghost function View(): State
      reads this
    {
      State(maxConns, handshakeTimeout, now, closing, shutAt, conns, handshakes, remotes, wg, handlers,
            accepted, refused, clients, open, deadline, marked, closers, swept)
    }

    ghost predicate Valid()
      reads this
    {
      Inv(View())
    }

    constructor (maxConns: nat, handshakeTimeout: bool)
      ensures Valid() && View() == Initial(maxConns, handshakeTimeout)
    {
      this.maxConns, this.handshakeTimeout := maxConns, handshakeTimeout;
      closing, conns, handshakes, remotes, wg, deadline := false, {}, {}, {}, 0, map[];
      now, shutAt, handlers, accepted, refused, clients := 0, 0, map[], {}, {}, 0;
      open, marked, closers, swept := {}, {}, map[], false;
    }

    method TrackConn(c: nat) returns (ok: bool)
      requires Valid() && c in accepted
      modifies this
      ensures Next(old(View()), Track(c)) == Some(View()) && Valid()
      ensures ok <==> !old(closing) && (maxConns == 0 || |old(conns)| < maxConns)
      ensures conns == (if ok then old(conns) + {c} else old(conns))
      ensures handshakes == (if ok then old(handshakes) + {c} else old(handshakes))
      ensures wg == (if ok then old(wg) + 1 else old(wg)) && (!ok ==> c in refused)
    {
      StepKeepsInv(View(), Track(c));
      TrackIsItsBlock(View(), c);
      ok := AdmitOrRefuse(c);
    }

    /** trackConn's block on its own. */
    method AdmitOrRefuse(c: nat) returns (ok: bool)
      modifies this`conns, this`handshakes, this`wg, this`deadline, this`handlers, this`accepted, this`refused
      ensures View() == TrackBlock(old(View()), c)
      ensures ok <==> !old(closing) && (maxConns == 0 || |old(conns)| < maxConns)
      ensures conns == (if ok then old(conns) + {c} else old(conns))
      ensures handshakes == (if ok then old(handshakes) + {c} else old(handshakes))
      ensures wg == (if ok then old(wg) + 1 else old(wg)) && (!ok ==> c in refused)
    {
      ok := !(closing || (maxConns > 0 && |conns| >= maxConns));
      if ok {
        Admit(c);
      } else {
        Refuse(c);
      }
    }

    method Refuse(c: nat)
      modifies this`accepted, this`refused
      ensures View() == Refused(old(View()), c) && c in refused
    {
      accepted, refused := accepted - {c}, refused + {c};
    }

    /** The admitting half of trackConn's block. */
    method Admit(c: nat)
      modifies this`conns, this`handshakes, this`wg, this`deadline, this`handlers, this`accepted
      ensures accepted == old(accepted) - {c} && conns == old(conns) + {c} && handshakes == old(handshakes) + {c}
      ensures wg == old(wg) + 1 && deadline == old(deadline)[c := None] && handlers == old(handlers)[c := Starting]
    {
      accepted, handlers := accepted - {c}, handlers[c := Starting];
      conns := conns + {c};
      handshakes := handshakes + {c};
      wg := wg + 1;
      deadline := deadline[c := None];
    }

    method UntrackConn(c: nat)
      requires Valid() && c in handlers && handlers[c].ClientUntracking?
      modifies this`conns, this`handshakes, this`handlers
      ensures Next(old(View()), Untrack(c)) == Some(View()) && Valid()
      ensures conns == old(conns) - {c} && handshakes == old(handshakes) - {c}
      ensures Client(c) !in open && c !in remotes
    {
      assert SpotOk(View(), c, At(View(), c));
      StepKeepsInv(View(), Untrack(c));
      UntrackIsItsBlock(View(), c);
      Drop(c);
    }

    /** untrackConn's block on its own. */
    method Drop(c: nat)
      modifies this`conns, this`handshakes, this`handlers
      ensures View() == Untracked(old(View()), c)
      ensures conns == old(conns) - {c} && handshakes == old(handshakes) - {c}
    {
      conns := conns - {c};
      handshakes := handshakes - {c};
      handlers := handlers[c := Departing];
    }

    /** wg.Done, after the lock is released. */
    method ReleaseWaitGroup(c: nat)
      requires Valid() && c in handlers && handlers[c].Departing?
      modifies this`wg, this`handlers
      ensures Next(old(View()), WgDone(c)) == Some(View()) && Valid()
      ensures wg == old(wg) - 1 && (wg == 0 ==> conns == {} && remotes == {})
    {
      StepKeepsInv(View(), WgDone(c));
      wg := wg - 1;
      handlers := handlers - {c};
      if wg == 0 {
        IdleWaitGroup(View());
      }
    }

    /** Refused once shutdown has begun; the handler then closes the remote itself. */
    method TrackOutbound(c: nat) returns (ok: bool)
      requires Valid() && c in handlers && handlers[c].HasRemote?
      modifies this`remotes, this`handlers
      ensures Next(old(View()), TrackRemote(c)) == Some(View()) && Valid()
      ensures ok == !closing && remotes == (if ok then old(remotes) + {c} else old(remotes))
    {
      StepKeepsInv(View(), TrackRemote(c));
      ok := !closing;
      if ok {
        remotes := remotes + {c};
      }
      handlers := handlers[c := if ok then Tracked else RemoteRefused];
    }

    method UntrackOutbound(c: nat)
      requires Valid() && c in handlers && handlers[c].Untracking?
      modifies this`remotes, this`handlers
      ensures Next(old(View()), UntrackRemote(c)) == Some(View()) && Valid()
      ensures remotes == old(remotes) - {c} && Remote(c) !in open
    {
      assert SpotOk(View(), c, At(View(), c));
      StepKeepsInv(View(), UntrackRemote(c));
      remotes := remotes - {c};
      handlers := handlers[c := ClientClosing(handlers[c].promoted)];
    }

    /** accepts is the socket's own answer to SetDeadline. */
    method SetInitialDeadline(c: nat, due: int, accepts: bool) returns (ok: bool)
      requires Valid() && handshakeTimeout && c in handlers && handlers[c].Starting?
      modifies this`deadline, this`handlers
      ensures Next(old(View()), SetHandshakeDeadline(c, due, accepts)) == Some(View()) && Valid()
      ensures ok == (!closing && accepts)
      ensures deadline == if ok then old(deadline)[c := Some(due)] else old(deadline)
    {
      StepKeepsInv(View(), SetHandshakeDeadline(c, due, accepts));
      ok := !closing && accepts;
      if ok {
        deadline := deadline[c := Some(due)];
      }
      handlers := handlers[c := if ok then Reading else ClientClosing(false)];
    }

    method ClearHandshakeDeadline(c: nat, accepts: bool) returns (ok: bool)
      requires Valid() && c in handlers && handlers[c].Reading?
      modifies this`deadline, this`handlers
      ensures Next(old(View()), CompleteHandshake(c, accepts)) == Some(View()) && Valid()
      ensures ok == (!closing && accepts)
      ensures deadline == if ok then old(deadline)[c := None] else old(deadline)
    {
      StepKeepsInv(View(), CompleteHandshake(c, accepts));
      ok := !closing && accepts;
      if ok {
        deadline := deadline[c := None];
      }
      handlers := handlers[c := if ok then Dialing else ClientClosing(false)];
    }

    method Promote(c: nat) returns (ok: bool)
      requires Valid() && c in handlers && handlers[c].Tracked?
      modifies this`handshakes, this`handlers
      ensures Next(old(View()), BeginRelay(c)) == Some(View()) && Valid()
      ensures ok == !closing && (ok ==> c !in marked)
      ensures handshakes == if ok then old(handshakes) - {c} else old(handshakes)
    {
      assert SpotOk(View(), c, At(View(), c));
      StepKeepsInv(View(), BeginRelay(c));
      ok := !closing;
      if ok {
        handshakes := handshakes - {c};
      }
      handlers := handlers[c := if ok then Clearing else RemoteClosing(false)];
    }

    /** The loop of stopAccepting: one SetDeadline per handshake. */
    method StampHandshakes(present: int)
      modifies this`deadline
      ensures deadline == Stamp(old(deadline), handshakes, present)
    {
      var rest := handshakes;
      while rest != {}
        invariant rest <= handshakes
        invariant deadline == Stamp(old(deadline), handshakes - rest, present)
        decreases rest
      {
        var c :| c in rest;
        StampOne(old(deadline), handshakes - rest, c, present);
        deadline := deadline[c := Some(present)];
        assert handshakes - (rest - {c}) == handshakes - rest + {c};
        rest := rest - {c};
      }
      assert handshakes - rest == handshakes;
    }

    /** stopAccepting's block on its own, whatever the state. */
    method RaiseClosing(ghost k: nat, ghost force: bool, present: int)
      requires present == now
      modifies this`closing, this`deadline, this`shutAt, this`marked, this`closers
      ensures View() == StopBlock(old(View()), k, force)
    {
      shutAt := if closing then shutAt else now;
      closing := true;
      StampHandshakes(present);
      marked := marked + handshakes;
      closers := closers[k := Stopped(force)];
    }

    /** stopAccepting's block: raise closing and stamp every handshake with the present instant. */
    method StopAccepting(ghost k: nat, ghost force: bool, present: int)
      requires Valid() && k !in closers && present == now
      modifies this`closing, this`deadline, this`shutAt, this`marked, this`closers
      ensures Next(old(View()), Stop(k, force)) == Some(View()) && Valid()
      ensures closing && handshakes == old(handshakes)
      ensures forall c :: c in handshakes ==> c in deadline && deadline[c] == Some(present)
      ensures forall c :: c !in handshakes ==> (c in deadline <==> c in old(deadline))
                                               && (c in deadline ==> deadline[c] == old(deadline[c]))
    {
      StepKeepsInv(View(), Stop(k, force));
      RaiseClosing(k, force, present);
    }

    /** closeActiveConns' block: the list of sockets to close after unlocking. */
    method SnapshotActive(ghost k: nat) returns (sockets: seq<Sock>)
      requires Valid() && k in closers && closers[k].Stopped?
      modifies this`closers
      ensures Next(old(View()), Snapshot(k)) == Some(View()) && Valid()
      ensures forall c: nat :: (Client(c) in sockets <==> c in conns) && (Remote(c) in sockets <==> c in remotes)
      ensures forall sock :: sock in sockets <==> sock in TrackedSocks(View())
      ensures |sockets| == |conns| + |remotes|
    {
      StepKeepsInv(View(), Snapshot(k));
      sockets := [];
      var rest := conns;
      while rest != {}
        invariant rest <= conns
        invariant forall sock :: sock in sockets <==> sock.Client? && sock.c in conns - rest
        invariant |sockets| == |conns| - |rest|
        decreases rest
      {
        var c :| c in rest;
        sockets := sockets + [Client(c)];
        rest := rest - {c};
      }
      rest := remotes;
      while rest != {}
        invariant rest <= remotes
        invariant forall sock :: sock in sockets <==>
                    (sock.Client? && sock.c in conns) || (sock.Remote? && sock.c in remotes - rest)
        invariant |sockets| == |conns| + |remotes| - |rest|
        decreases rest
      {
        var c :| c in rest;
        sockets := sockets + [Remote(c)];
        rest := rest - {c};
      }
      closers := closers[k := Sweeping(TrackedSocks(View()), closers[k].force)];
    }
  }
}
