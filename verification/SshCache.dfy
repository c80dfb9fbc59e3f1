// The SSH upstream's single cached client (internal/proxy/upstream.go): a machine over the
// lock-held blocks of sshDialer, and the class whose methods are those blocks.

module SshCacheSpec {
  import opened Options

  /** What a goroutine has left to do. c numbers transports, ch numbers dialing channels. */
  datatype Pc =
    | Entering                            // in getClient, before its first lock block
    | Waiting(ch: nat)                    // parked on another caller's dialing channel
    | Dialing(ch: nat)                    // owns the handshake
    | Dialed(ch: nat, c: nat)             // owns a live transport nobody else knows
    | DialFailed(ch: nat)
    | Evicting(c: nat, probe: bool)       // in discard, before its lock block
    | Closing(c: nat, probe: bool)        // must still close transport c
    | Probing(c: nat)                     // a revalidation probe is running
    | ProbeDone(c: nat)                   // must still clear revalidating
    | Signalling(evicted: Option<nat>, first: bool)  // in Close, after its lock block

  datatype State = State(
    client: Option<nat>, dialing: Option<nat>, closed: bool, revalidating: Option<nat>,
    signalled: bool,        // s.done is closed
    transports: nat,        // transports dialled so far: 0 .. transports - 1
    shut: set<nat>,         // transports whose Close was called
    published: set<nat>,    // transports that were ever cached
    channels: nat, closedChannels: set<nat>,
    threads: map<nat, Pc>)

  datatype Step =
    | CallGet(t: nat)
    | Enter(t: nat)
    | Wake(t: nat)
    | GiveUp(t: nat)                      // the caller's context ended while waiting
    | SeeDone(t: nat)                     // s.done closed while waiting
    | DialOk(t: nat)
    | DialErr(t: nat)
    | Publish(t: nat)
    | CallDiscard(t: nat, c: nat)
    | Evict(t: nat)
    | CloseTransport(t: nat)
    | Revalidate(t: nat, c: nat)
    | ProbeHealthy(t: nat)
    | ProbeSick(t: nat)
    | ProbeClear(t: nat)
    | CallClose(t: nat)
    | Signal(t: nat)

  function Initial(): State {
    State(None, None, false, None, false, 0, {}, {}, 0, {}, map[])
  }

  function Move(s: State, t: nat, pc: Pc): State {
    s.(threads := s.threads[t := pc])
  }

  function Finish(s: State, t: nat): State {
    s.(threads := s.threads - {t})
  }

  /** getClient's first block: fail, hand out the cached client, wait, or become the dialler. */
  function EnterBlock(s: State, t: nat): State {
    if s.closed || s.client.Some? then Finish(s, t)
    else if s.dialing.Some? then Move(s, t, Waiting(s.dialing.value))
    else Move(s.(dialing := Some(s.channels), channels := s.channels + 1), t, Dialing(s.channels))
  }

  /** getClient's second block: publish unless closed, and wake every waiter. */
  function PublishBlock(s: State, t: nat, ch: nat, c: Option<nat>): State {
    var woken := s.(dialing := None, closedChannels := s.closedChannels + {ch});
    if c.None? then Finish(woken, t)
    else if s.closed then Move(woken, t, Closing(c.value, false))
    else Finish(woken.(client := c, published := s.published + {c.value}), t)
  }

  /** revalidateAfterTimeout's block: start a probe only for the current, unprobed client. */
  function RevalidateBlock(s: State, t: nat, c: nat): State {
    if s.closed || s.client != Some(c) || s.revalidating == Some(c) then s
    else Move(s.(revalidating := Some(c)), t, Probing(c))
  }

  /**
   * One step of goroutine t. Callers, the supervisor and the probes are not told apart: any
   * goroutine may enter getClient, discard or revalidate any client that was ever handed out,
   * or Close the dialer, at any time.
   */
  function Next(s: State, e: Step): Option<State> {
    if e.t in s.threads then Continue(s, e, e.t, s.threads[e.t]) else Begin(s, e, e.t)
  }

  function Begin(s: State, e: Step, t: nat): Option<State> {
    match e
    case CallGet(_) => Some(Move(s, t, Entering))
    case CallDiscard(_, c) => if c in s.published then Some(Move(s, t, Evicting(c, false))) else None
    case Revalidate(_, c) => if c in s.published then Some(RevalidateBlock(s, t, c)) else None
    case CallClose(_) =>
      Some(Move(s.(client := None, closed := true), t, Signalling(s.client, !s.closed)))
    case _ => None
  }

  function Continue(s: State, e: Step, t: nat, pc: Pc): Option<State> {
    match (e, pc)
    case (Enter(_), Entering) => Some(EnterBlock(s, t))
    case (Wake(_), Waiting(ch)) => if ch in s.closedChannels then Some(Move(s, t, Entering)) else None
    case (GiveUp(_), Waiting(_)) => Some(Finish(s, t))
    case (SeeDone(_), Waiting(_)) => if s.signalled then Some(Finish(s, t)) else None
    case (DialOk(_), Dialing(ch)) =>
      Some(Move(s.(transports := s.transports + 1), t, Dialed(ch, s.transports)))
    case (DialErr(_), Dialing(ch)) => Some(Move(s, t, DialFailed(ch)))
    case (Publish(_), Dialed(ch, c)) => Some(PublishBlock(s, t, ch, Some(c)))
    case (Publish(_), DialFailed(ch)) => Some(PublishBlock(s, t, ch, None))
    case (Evict(_), Evicting(c, probe)) =>
      Some(Move(s.(client := if s.client == Some(c) then None else s.client), t, Closing(c, probe)))
    case (CloseTransport(_), Closing(c, probe)) =>
      var done := s.(shut := s.shut + {c});
      Some(if probe then Move(done, t, ProbeDone(c)) else Finish(done, t))
    case (ProbeHealthy(_), Probing(c)) => Some(Move(s, t, ProbeDone(c)))
    case (ProbeSick(_), Probing(c)) => Some(Move(s, t, Evicting(c, true)))
    case (ProbeClear(_), ProbeDone(c)) =>
      Some(Finish(s.(revalidating := if s.revalidating == Some(c) then None else s.revalidating), t))
    case (Signal(_), Signalling(c, first)) =>
      var told := if first then s.(signalled := true) else s;
      Some(if c.Some? then Move(told, t, Closing(c.value, false)) else Finish(told, t))
    case _ => None
  }

  ghost predicate Runs(s: State, steps: seq<Step>, s': State)
    decreases |steps|
  {
    if steps == [] then s == s'
    else Next(s, steps[0]).Some? && Runs(Next(s, steps[0]).value, steps[1..], s')
  }

  // ---- the invariant ----

  /** Goroutine t owns the handshake on channel ch. */
  ghost predicate Owns(s: State, t: nat, ch: nat) {
    && t in s.threads
    && (s.threads[t].Dialing? || s.threads[t].Dialed? || s.threads[t].DialFailed?)
    && s.threads[t].ch == ch
  }

  /** Goroutine t holds the fresh transport c and will publish or close it. */
  ghost predicate HoldsFresh(s: State, t: nat, c: nat) {
    t in s.threads && s.threads[t].Dialed? && s.threads[t].c == c
  }

  /** Goroutine t will close transport c. */
  ghost predicate WillClose(s: State, t: nat, c: nat) {
    t in s.threads && ((s.threads[t].Closing? && s.threads[t].c == c)
                       || (s.threads[t].Signalling? && s.threads[t].evicted == Some(c)))
  }

  ghost predicate InHand(s: State, t: nat, c: nat) {
    HoldsFresh(s, t, c) || WillClose(s, t, c)
  }

  /** Goroutine t is the revalidation probe of client c. */
  ghost predicate Probes(s: State, t: nat, c: nat) {
    && t in s.threads
    && match s.threads[t]
       case Probing(d) => d == c
       case ProbeDone(d) => d == c
       case Evicting(d, probe) => probe && d == c
       case Closing(d, probe) => probe && d == c
       case _ => false
  }

  ghost predicate WillSignal(s: State, t: nat) {
    t in s.threads && s.threads[t].Signalling? && s.threads[t].first
  }

  /** At most one handshake; its channel is the one waiters are parked on. */
  ghost predicate FlightOk(s: State) {
    && (s.dialing.Some? ==> s.client.None? && exists t :: Owns(s, t, s.dialing.value))
    && (forall t, ch: nat :: Owns(s, t, ch) ==> s.dialing == Some(ch))
    && (forall t, u, ch: nat :: Owns(s, t, ch) && Owns(s, u, ch) ==> t == u)
    && (forall t :: t in s.threads && s.threads[t].Waiting? ==>
                      s.dialing == Some(s.threads[t].ch) || s.threads[t].ch in s.closedChannels)
    && (forall ch :: ch in s.closedChannels ==> ch < s.channels)
    && (s.dialing.Some? ==> s.dialing.value < s.channels && s.dialing.value !in s.closedChannels)
  }

  ghost predicate ClientsOk(s: State) {
    && (s.closed ==> s.client.None?)
    && (s.client.Some? ==> s.client.value in s.published - s.shut)
    && (forall c :: c in s.published || c in s.shut ==> c < s.transports)
    && (forall t, c: nat :: HoldsFresh(s, t, c) ==> c < s.transports && c !in s.published && c !in s.shut)
    && (forall t, c: nat :: WillClose(s, t, c) ==> c < s.transports && s.client != Some(c))
    && (forall t, u, c: nat :: WillClose(s, t, c) ==> !HoldsFresh(s, u, c))
    && (forall t :: t in s.threads && (s.threads[t].Evicting? || s.threads[t].Probing?) ==>
          s.threads[t].c in s.published)
  }

  /** Every transport is closed, cached, or in the hands of a goroutine that will see to it. */
  ghost predicate Conserved(s: State) {
    forall c :: 0 <= c < s.transports ==>
      c in s.shut || s.client == Some(c) || exists t :: InHand(s, t, c)
  }

  ghost predicate ProbesOk(s: State) {
    && (forall t, u, c: nat :: Probes(s, t, c) && Probes(s, u, c) ==> t == u)
    && (forall t, c: nat :: Probes(s, t, c) ==> c in s.published && (s.client == Some(c) ==> s.revalidating == Some(c)))
  }

  ghost predicate DoneOk(s: State) {
    && (s.signalled ==> s.closed)
    && (forall t :: WillSignal(s, t) ==> s.closed)
    && (s.closed ==> s.signalled || exists t :: WillSignal(s, t))
  }

  ghost predicate Inv(s: State) {
    FlightOk(s) && ClientsOk(s) && Conserved(s) && ProbesOk(s) && DoneOk(s)
  }

  lemma InitialInv()
    ensures Inv(Initial())
  {}

  /** A handshake is handed on by its owner alone, and opened only where none is running. */
  lemma OwnsFrom(s: State, e: Step, t: nat, ch: nat)
    requires Next(s, e).Some? && Owns(Next(s, e).value, t, ch)
    ensures Owns(s, t, ch) || (e == Enter(t) && s.dialing.None? && Next(s, e).value.dialing == Some(ch))
    ensures e == Publish(t) ==> !Owns(s, t, ch)
  {}

  lemma FlightStep(s: State, e: Step)
    requires FlightOk(s) && Next(s, e).Some?
    ensures FlightOk(Next(s, e).value)
  {
    var s' := Next(s, e).value;
    assert e.Publish? ==> Owns(s, e.t, s.threads[e.t].ch);
    if s'.dialing.Some? {
      if s.dialing.Some? {
        var t :| Owns(s, t, s.dialing.value);
        assert Owns(s', t, s.dialing.value);
      } else {
        assert Owns(s', e.t, s'.dialing.value);
      }
    }
    forall t, ch: nat | Owns(s', t, ch)
      ensures s'.dialing == Some(ch)
    {
      OwnsFrom(s, e, t, ch);
    }
    forall t, u, ch: nat | Owns(s', t, ch) && Owns(s', u, ch)
      ensures t == u
    {
      OwnsFrom(s, e, t, ch);
      OwnsFrom(s, e, u, ch);
    }
    WaitersStep(s, e);
  }

  lemma WaitersStep(s: State, e: Step)
    requires FlightOk(s) && Next(s, e).Some?
    ensures var s' := Next(s, e).value;
            forall t :: t in s'.threads && s'.threads[t].Waiting? ==>
                          s'.dialing == Some(s'.threads[t].ch) || s'.threads[t].ch in s'.closedChannels
  {
    var s' := Next(s, e).value;
    assert e.Publish? ==> Owns(s, e.t, s.threads[e.t].ch);
    forall t | t in s'.threads && s'.threads[t].Waiting?
      ensures s'.dialing == Some(s'.threads[t].ch) || s'.threads[t].ch in s'.closedChannels
    {
      assert t != e.t ==> s'.threads[t] == s.threads[t];
    }
  }

  /** A fresh transport in hand was in the same hand before, or was dialled just now. */
  lemma HoldsFreshFrom(s: State, e: Step, t: nat, c: nat)
    requires Next(s, e).Some? && HoldsFresh(Next(s, e).value, t, c)
    ensures HoldsFresh(s, t, c) || (e == DialOk(t) && c == s.transports)
  {}

  /** A pending close was pending before, or comes from an eviction or a refused publication. */
  lemma WillCloseFrom(s: State, e: Step, t: nat, c: nat)
    requires Next(s, e).Some? && WillClose(Next(s, e).value, t, c)
    ensures || WillClose(s, t, c)
            || (e == Evict(t) && s.threads[t].c == c)
            || (e == CallClose(t) && s.client == Some(c))
            || (e == Publish(t) && s.closed && HoldsFresh(s, t, c))
  {}

  lemma PublisherIsAlone(s: State, e: Step)
    requires FlightOk(s) && ClientsOk(s) && Next(s, e).Some? && e.Publish?
    ensures s.client.None? && Owns(s, e.t, s.threads[e.t].ch)
    ensures s.threads[e.t].Dialed? ==> HoldsFresh(s, e.t, s.threads[e.t].c)
    ensures forall u, c: nat :: HoldsFresh(s, u, c) ==> u == e.t
  {
    assert Owns(s, e.t, s.threads[e.t].ch);
    assert s.threads[e.t].Dialed? ==> HoldsFresh(s, e.t, s.threads[e.t].c);
    forall u, c: nat | HoldsFresh(s, u, c)
      ensures u == e.t
    {
      assert Owns(s, u, s.threads[u].ch);
    }
  }

  /** A step other than a publication publishes nothing, caches nothing, and closes one transport at most. */
  lemma NothingPublished(s: State, e: Step)
    requires Next(s, e).Some? && !e.Publish?
    ensures var s' := Next(s, e).value;
            && s'.published == s.published && s.transports <= s'.transports
            && (s'.client == s.client || s'.client.None?)
            && s'.shut == (if e.CloseTransport? then s.shut + {s.threads[e.t].c} else s.shut)
            && (e.CloseTransport? ==> WillClose(s, e.t, s.threads[e.t].c))
  {}

  lemma FreshIsNew(s: State, e: Step, t: nat, c: nat)
    requires FlightOk(s) && ClientsOk(s) && Next(s, e).Some? && HoldsFresh(Next(s, e).value, t, c)
    ensures var s' := Next(s, e).value; c < s'.transports && c !in s'.published && c !in s'.shut
  {
    HoldsFreshFrom(s, e, t, c);
    if e.Publish? {
      PublisherIsAlone(s, e);
    } else {
      NothingPublished(s, e);
    }
  }

  lemma FreshIsNotClosing(s: State, e: Step, t: nat, c: nat, u: nat)
    requires FlightOk(s) && ClientsOk(s) && Next(s, e).Some? && HoldsFresh(Next(s, e).value, t, c)
    ensures !WillClose(Next(s, e).value, u, c)
  {
    HoldsFreshFrom(s, e, t, c);
    if e.Publish? {
      PublisherIsAlone(s, e);
    }
    if WillClose(Next(s, e).value, u, c) {
      WillCloseFrom(s, e, u, c);
    }
  }

  lemma FreshStep(s: State, e: Step, t: nat, c: nat)
    requires FlightOk(s) && ClientsOk(s) && Next(s, e).Some? && HoldsFresh(Next(s, e).value, t, c)
    ensures var s' := Next(s, e).value; c < s'.transports && c !in s'.published && c !in s'.shut
    ensures forall u :: !WillClose(Next(s, e).value, u, c)
  {
    FreshIsNew(s, e, t, c);
    forall u: nat
      ensures !WillClose(Next(s, e).value, u, c)
    {
      FreshIsNotClosing(s, e, t, c, u);
    }
  }

  lemma PendingCloseStep(s: State, e: Step, t: nat, c: nat)
    requires FlightOk(s) && ClientsOk(s) && Next(s, e).Some? && WillClose(Next(s, e).value, t, c)
    ensures c < Next(s, e).value.transports && Next(s, e).value.client != Some(c)
  {
    WillCloseFrom(s, e, t, c);
    if e.Publish? {
      PublisherIsAlone(s, e);
    } else {
      NothingPublished(s, e);
    }
  }

  lemma CacheStep(s: State, e: Step)
    requires FlightOk(s) && ClientsOk(s) && Next(s, e).Some?
    ensures var s' := Next(s, e).value;
            && (s'.closed ==> s'.client.None?)
            && (s'.client.Some? ==> s'.client.value in s'.published - s'.shut)
            && (forall c :: c in s'.published || c in s'.shut ==> c < s'.transports)
  {
    if e.Publish? {
      PublisherIsAlone(s, e);
    }
    assert e.CloseTransport? ==> WillClose(s, e.t, s.threads[e.t].c);
  }

  lemma ClientsStep(s: State, e: Step)
    requires FlightOk(s) && ClientsOk(s) && Next(s, e).Some?
    ensures ClientsOk(Next(s, e).value)
  {
    var s' := Next(s, e).value;
    CacheStep(s, e);
    forall t, c: nat | HoldsFresh(s', t, c)
      ensures c < s'.transports && c !in s'.published && c !in s'.shut && forall u :: !WillClose(s', u, c)
    {
      FreshStep(s, e, t, c);
    }
    forall t, c: nat | WillClose(s', t, c)
      ensures c < s'.transports && s'.client != Some(c)
    {
      PendingCloseStep(s, e, t, c);
    }
    EvictingStep(s, e);
  }

  lemma EvictingStep(s: State, e: Step)
    requires ClientsOk(s) && Next(s, e).Some?
    ensures var s' := Next(s, e).value;
            forall t :: t in s'.threads && (s'.threads[t].Evicting? || s'.threads[t].Probing?)
                        ==> s'.threads[t].c in s'.published
  {}

  /** A transport in somebody's hands is handed on to that hand, the cache, or its end. */
  lemma InHandStep(s: State, e: Step, t: nat, c: nat)
    requires Next(s, e).Some? && InHand(s, t, c)
    ensures var s' := Next(s, e).value; c in s'.shut || s'.client == Some(c) || InHand(s', t, c)
  {}

  lemma ConservedStep(s: State, e: Step)
    requires FlightOk(s) && ClientsOk(s) && Conserved(s) && Next(s, e).Some?
    ensures Conserved(Next(s, e).value)
  {
    var s' := Next(s, e).value;
    forall c | 0 <= c < s'.transports
      ensures c in s'.shut || s'.client == Some(c) || exists t :: InHand(s', t, c)
    {
      if c == s.transports {
        assert InHand(s', e.t, c);
      } else if c !in s.shut && s.client == Some(c) {
        if e.Publish? {
          PublisherIsAlone(s, e);
        }
        assert s'.client == Some(c) || InHand(s', e.t, c);
      } else if c !in s.shut {
        var t :| InHand(s, t, c);
        InHandStep(s, e, t, c);
      }
    }
  }

  lemma ProbesFrom(s: State, e: Step, t: nat, c: nat)
    requires Next(s, e).Some? && Probes(Next(s, e).value, t, c)
    ensures Probes(s, t, c) || (e == Revalidate(t, c) && s.client == Some(c) && s.revalidating != Some(c))
  {}

  lemma ProbedStep(s: State, e: Step, t: nat, c: nat)
    requires FlightOk(s) && ClientsOk(s) && ProbesOk(s) && Next(s, e).Some? && Probes(Next(s, e).value, t, c)
    ensures var s' := Next(s, e).value; c in s'.published && (s'.client == Some(c) ==> s'.revalidating == Some(c))
  {
    ProbesFrom(s, e, t, c);
    assert e.Publish? && s.threads[e.t].Dialed? ==> HoldsFresh(s, e.t, s.threads[e.t].c);
    assert e.ProbeClear? ==> Probes(s, e.t, s.threads[e.t].c);
  }

  lemma ProbesStep(s: State, e: Step)
    requires FlightOk(s) && ClientsOk(s) && ProbesOk(s) && Next(s, e).Some?
    ensures ProbesOk(Next(s, e).value)
  {
    var s' := Next(s, e).value;
    forall t, c: nat | Probes(s', t, c)
      ensures c in s'.published && (s'.client == Some(c) ==> s'.revalidating == Some(c))
    {
      ProbedStep(s, e, t, c);
    }
    forall t, u, c: nat | Probes(s', t, c) && Probes(s', u, c)
      ensures t == u
    {
      ProbesFrom(s, e, t, c);
      ProbesFrom(s, e, u, c);
    }
  }

  lemma DoneStep(s: State, e: Step)
    requires DoneOk(s) && Next(s, e).Some?
    ensures DoneOk(Next(s, e).value)
  {
    var s' := Next(s, e).value;
    if s'.closed && !s'.signalled {
      if s.closed {
        var t :| WillSignal(s, t);
        assert WillSignal(s', t);
      } else {
        assert WillSignal(s', e.t);
      }
    }
    assert e.Signal? && s.threads[e.t].first ==> WillSignal(s, e.t);
    forall t | WillSignal(s', t)
      ensures s'.closed
    {
      assert WillSignal(s, t) || e.CallClose?;
    }
  }

  lemma StepKeepsInv(s: State, e: Step)
    requires Inv(s) && Next(s, e).Some?
    ensures Inv(Next(s, e).value)
  {
    FlightStep(s, e);
    ClientsStep(s, e);
    ConservedStep(s, e);
    ProbesStep(s, e);
    DoneStep(s, e);
  }

  // ---- what holds over every run ----

  /** A client that has left the cache never comes back, and a closed dialer stays empty. */
  lemma {:induction false} RunKeepsInv(s: State, steps: seq<Step>, s': State)
    requires Inv(s) && Runs(s, steps, s')
    ensures Inv(s')
    ensures s.published <= s'.published
    ensures forall c :: c in s.published && s.client != Some(c) ==> s'.client != Some(c)
    ensures s.closed ==> s'.closed && s'.client.None?
    decreases |steps|
  {
    if steps != [] {
      StepKeepsInv(s, steps[0]);
      EvictedStaysOut(s, steps[0]);
      RunKeepsInv(Next(s, steps[0]).value, steps[1..], s');
    }
  }

  /** Some schedule leads here. */
  ghost predicate Reachable(s: State) {
    exists steps :: Runs(Initial(), steps, s)
  }

  lemma ReachableInv(s: State)
    requires Reachable(s)
    ensures Inv(s)
  {
    var steps :| Runs(Initial(), steps, s);
    RunKeepsInv(Initial(), steps, s);
  }

  lemma EvictedStaysOut(s: State, e: Step)
    requires Inv(s) && Next(s, e).Some?
    ensures var s' := Next(s, e).value;
            && s.published <= s'.published
            && (forall c :: c in s.published && s.client != Some(c) ==> s'.client != Some(c))
            && (s.closed ==> s'.closed)
  {
    if e.Publish? {
      PublisherIsAlone(s, e);
    }
  }

  /** From the start: once Close has run and every goroutine is done, no transport is left open. */
  lemma ClosedDialerLeaksNothing(s: State)
    requires Reachable(s) && s.closed && s.threads == map[]
    ensures s.client.None? && s.dialing.None? && s.signalled
    ensures forall c :: 0 <= c < s.transports ==> c in s.shut
  {
    ReachableInv(s);
    assert forall t :: !WillSignal(s, t);
    forall c | 0 <= c < s.transports
      ensures c in s.shut
    {
      assert forall t :: !InHand(s, t, c);
    }
  }

  /** Where a transport is, as four answers. */
  datatype Custody = Cached | Unpublished | ClosePending | Shut

  ghost predicate In(s: State, c: nat, place: Custody) {
    match place
    case Cached => s.client == Some(c)
    case Unpublished => exists t :: HoldsFresh(s, t, c)
    case ClosePending => c !in s.shut && exists t :: WillClose(s, t, c)
    case Shut => c in s.shut
  }

  /** In every reachable state each dialled transport is in exactly one of the four places. */
  lemma ExactlyOneCustody(s: State, c: nat)
    requires Reachable(s) && c < s.transports
    ensures exists place :: In(s, c, place)
    ensures forall p, q :: In(s, c, p) && In(s, c, q) ==> p == q
    ensures forall t, u :: HoldsFresh(s, t, c) && HoldsFresh(s, u, c) ==> t == u
  {
    ReachableInv(s);
    if c !in s.shut && s.client != Some(c) {
      var t :| InHand(s, t, c);
      assert if HoldsFresh(s, t, c) then In(s, c, Unpublished) else In(s, c, ClosePending);
    } else {
      assert In(s, c, Shut) || In(s, c, Cached);
    }
    forall t, u | HoldsFresh(s, t, c) && HoldsFresh(s, u, c)
      ensures t == u
    {
      assert Owns(s, t, s.threads[t].ch) && Owns(s, u, s.threads[u].ch);
    }
    forall p, q | In(s, c, p) && In(s, c, q)
      ensures p == q
    {
      CustodiesDisjoint(s, c, p, q);
    }
  }

  lemma CustodiesDisjoint(s: State, c: nat, p: Custody, q: Custody)
    requires Inv(s) && c < s.transports && In(s, c, p) && In(s, c, q)
    ensures p == q
  {
    if p.Unpublished? || q.Unpublished? {
      var t :| HoldsFresh(s, t, c);
    }
  }

  /** At most one handshake runs, and while one runs the cache is empty. */
  lemma SingleFlight(s: State, t: nat, u: nat, ch: nat, dh: nat)
    requires Reachable(s) && Owns(s, t, ch) && Owns(s, u, dh)
    ensures t == u && ch == dh && s.dialing == Some(ch) && s.client.None?
  {
    ReachableInv(s);
  }

  /** A publication fills an empty cache with a transport that was never there before. */
  lemma PublicationNeverOverwrites(s: State, e: Step)
    requires Reachable(s) && Next(s, e).Some? && Next(s, e).value.client.Some? && Next(s, e).value.client != s.client
    ensures e.Publish? && s.client.None? && !s.closed && Next(s, e).value.client.value !in s.published
  {
    ReachableInv(s);
    if e.Publish? {
      PublisherIsAlone(s, e);
    }
  }

  /**
   * No wakeup is lost: a waiter can go on now, or exactly one goroutine owns the handshake it
   * waits for, and that goroutine's publication lets the waiter go on.
   */
  lemma NoLostWakeup(s: State, t: nat)
    requires Reachable(s) && t in s.threads && s.threads[t].Waiting?
    ensures var ch := s.threads[t].ch;
            || Next(s, Wake(t)).Some?
            || (exists u :: Owns(s, u, ch)
                            && (Next(s, Publish(u)).Some? ==> Next(Next(s, Publish(u)).value, Wake(t)).Some?)
                            && (s.threads[u].Dialing? <==> Next(s, Publish(u)).None?))
  {
    ReachableInv(s);
    var ch := s.threads[t].ch;
    if ch !in s.closedChannels {
      var u :| Owns(s, u, ch);
      assert u != t;
    }
  }

  /**
   * Discarding a client that is no longer current only closes that client: the cache, the
   * handshake and the waiters stay, and that client never comes back.
   */
  lemma StaleDiscardIsHarmless(s: State, t: nat, steps: seq<Step>, s': State)
    requires Reachable(s) && Next(s, Evict(t)).Some? && s.client != Some(s.threads[t].c)
    requires Runs(Next(s, Evict(t)).value, steps, s')
    ensures Next(s, Evict(t)).value == s.(threads := s.threads[t := Closing(s.threads[t].c, s.threads[t].probe)])
    ensures s'.client != Some(s.threads[t].c)
  {
    ReachableInv(s);
    StepKeepsInv(s, Evict(t));
    RunKeepsInv(Next(s, Evict(t)).value, steps, s');
  }

  /** No step ever closes the cached transport, nor one that is still to be published. */
  lemma OnlyEvictedTransportsAreClosed(s: State, e: Step, c: nat)
    requires Reachable(s) && Next(s, e).Some? && c in Next(s, e).value.shut - s.shut
    ensures s.client != Some(c) && Next(s, e).value.client != Some(c)
    ensures forall t :: !HoldsFresh(s, t, c)
  {
    ReachableInv(s);
    assert WillClose(s, e.t, c);
    StepKeepsInv(s, e);
  }

  /** Revalidation starts a probe only for a client nobody is probing. */
  lemma OneProbePerClient(s: State, t: nat, c: nat)
    requires Inv(s) && Next(s, Revalidate(t, c)).Some? && Next(s, Revalidate(t, c)).value != s
    ensures s.client == Some(c) && forall u :: !Probes(s, u, c)
    ensures forall u :: Probes(Next(s, Revalidate(t, c)).value, u, c) <==> u == t
  {
    var s' := Next(s, Revalidate(t, c)).value;
    StepKeepsInv(s, Revalidate(t, c));
    assert Probes(s', t, c);
  }

  // ---- an open dialer can always be brought back ----

  /** Some run leads from s to s'. */
  ghost predicate Leads(s: State, s': State) {
    exists steps :: Runs(s, steps, s')
  }

  lemma LeadsFirst(s: State, e: Step, mid: State, s': State)
    requires Next(s, e) == Some(mid) && Leads(mid, s')
    ensures Leads(s, s')
  {
    var steps :| Runs(mid, steps, s');
    assert ([e] + steps)[1..] == steps;
    assert Runs(s, [e] + steps, s');
  }

  lemma Stays(s: State)
    ensures Leads(s, s)
  {
    assert Runs(s, [], s);
  }

  /** A goroutine that is not running yet. */
  lemma FreshThread(threads: map<nat, Pc>) returns (t: nat)
    ensures t !in threads
  {
    t := NotIn(threads.Keys);
  }

  lemma {:induction false} NotIn(keys: set<nat>) returns (t: nat)
    ensures forall k :: k in keys ==> k < t
  {
    t := 0;
    if keys != {} {
      var k :| k in keys;
      var rest := NotIn(keys - {k});
      t := if rest <= k then k + 1 else rest;
      assert forall x :: x in keys ==> x == k || x in keys - {k};
    }
  }

  /** With nothing cached and nobody dialling, the next caller becomes the dialler and may publish. */
  lemma IdleReconnects(s: State) returns (s': State)
    requires Inv(s) && !s.closed && s.client.None? && s.dialing.None?
    ensures Leads(s, s') && s'.client == Some(s.transports) && !s'.closed
  {
    var t := FreshThread(s.threads);
    var s1 := Next(s, CallGet(t)).value;
    var s2 := Next(s1, Enter(t)).value;
    assert s2.threads[t] == Dialing(s.channels) && s2.client.None? && !s2.closed;
    var s3 := Next(s2, DialOk(t)).value;
    s' := Next(s3, Publish(t)).value;
    Stays(s');
    LeadsFirst(s3, Publish(t), s', s');
    LeadsFirst(s2, DialOk(t), s3, s');
    LeadsFirst(s1, Enter(t), s2, s');
    LeadsFirst(s, CallGet(t), s1, s');
  }

  /** With a handshake under way, its owner goes on to publish, or fails and leaves room for the next. */
  lemma FlightReconnects(s: State) returns (s': State)
    requires Inv(s) && !s.closed && s.dialing.Some?
    ensures Leads(s, s') && s'.client.Some? && !s'.closed
  {
    var t :| Owns(s, t, s.dialing.value);
    if s.threads[t].DialFailed? {
      var s1 := Next(s, Publish(t)).value;
      StepKeepsInv(s, Publish(t));
      s' := IdleReconnects(s1);
      LeadsFirst(s, Publish(t), s1, s');
    } else {
      var s1 := if s.threads[t].Dialing? then Next(s, DialOk(t)).value else s;
      s' := Next(s1, Publish(t)).value;
      Stays(s');
      LeadsFirst(s1, Publish(t), s', s');
      if s.threads[t].Dialing? {
        LeadsFirst(s, DialOk(t), s1, s');
      }
    }
  }

  /** From every reachable state of an open dialer, some run ends with a client cached. */
  lemma OpenDialerReconnects(s: State) returns (s': State)
    requires Reachable(s) && !s.closed
    ensures Leads(s, s') && s'.client.Some? && !s'.closed
  {
    ReachableInv(s);
    if s.client.Some? {
      s' := s;
      Stays(s);
    } else if s.dialing.Some? {
      s' := FlightReconnects(s);
    } else {
      s' := IdleReconnects(s);
    }
  }

  /** After a discard the client that comes back is another one. */
  lemma DiscardedIsReplaced(s: State, t: nat) returns (s': State)
    requires Reachable(s) && !s.closed && Next(s, Evict(t)).Some?
    ensures Leads(Next(s, Evict(t)).value, s')
    ensures s'.client.Some? && s'.client != Some(s.threads[t].c)
  {
    ReachableInv(s);
    StepKeepsInv(s, Evict(t));
    var next := Next(s, Evict(t)).value;
    if next.client.Some? {
      s' := next;
      Stays(s');
    } else {
      if next.dialing.Some? {
        s' := FlightReconnects(next);
      } else {
        s' := IdleReconnects(next);
      }
      var steps :| Runs(next, steps, s');
      RunKeepsInv(next, steps, s');
    }
  }
}

module SshCache {
  import opened Options
  import opened SshCacheSpec

  /**
   * The shared dialer. Each method is one lock-held block, run by goroutine t; the ghost
   * fields follow the transports and the goroutines.
   */
  class SshDialer {
    var client: Option<nat>
    var dialing: Option<nat>
    var closed: bool
    var revalidating: Option<nat>
    var done: bool
    var channels: nat
    ghost var transports: nat
    ghost var shut: set<nat>
    ghost var published: set<nat>
    ghost var closedChannels: set<nat>
    ghost var threads: map<nat, Pc>

    ghost function View(): State
      reads this
    {
      State(client, dialing, closed, revalidating, done, transports, shut, published,
            channels, closedChannels, threads)
    }

    ghost predicate Valid()
      reads this
    {
      Inv(View())
    }

    constructor ()
      ensures Valid() && View() == Initial()
    {
      client, dialing, closed, revalidating, done := None, None, false, None, false;
      transports, shut, published, channels, closedChannels, threads := 0, {}, {}, 0, {}, map[];
    }

    /** getClient up to its first unlock: an answer, a channel to wait on, or the dialler's role. */
    method GetClient(ghost t: nat) returns (found: Option<nat>, wait: Option<nat>, dial: Option<nat>)
      requires Valid() && t in threads && threads[t] == Entering
      modifies this
      ensures Next(old(View()), Enter(t)) == Some(View()) && Valid()
      ensures found == (if old(closed) then None else old(client))
      ensures wait == if old(closed) || old(client).Some? then None else old(dialing)
      ensures dial.Some? <==> !old(closed) && old(client).None? && old(dialing).None?
      ensures dialing == (if dial.Some? then dial else old(dialing)) && client == old(client) && closed == old(closed)
      ensures dial.Some? ==> dial.value !in closedChannels
      ensures if wait.Some? then t in threads && threads[t] == Waiting(wait.value)
              else if dial.Some? then t in threads && threads[t] == Dialing(dial.value)
              else t !in threads
    {
      StepKeepsInv(View(), Enter(t));
      found, wait, dial := None, None, None;
      if closed {
        threads := threads - {t};
      } else if client.Some? {
        found := client;
        threads := threads - {t};
      } else if dialing.Some? {
        wait := dialing;
        threads := threads[t := Waiting(dialing.value)];
      } else {
        dialing := Some(channels);
        channels := channels + 1;
        dial := dialing;
        threads := threads[t := Dialing(dialing.value)];
      }
    }

    /** getClient's second block; a refused transport is left to its dialler to close. */
    method PublishDial(ghost t: nat, ch: nat, dialled: Option<nat>) returns (refused: bool)
      requires Valid() && t in threads
      requires threads[t] == if dialled.Some? then Dialed(ch, dialled.value) else DialFailed(ch)
      modifies this
      ensures Next(old(View()), Publish(t)) == Some(View()) && Valid()
      ensures refused == closed && dialing.None? && ch in closedChannels
      ensures client == if dialled.Some? && !refused then dialled else old(client)
      ensures dialled.Some? ==> if refused then WillClose(View(), t, dialled.value) else client == dialled
    {
      StepKeepsInv(View(), Publish(t));
      if dialled.Some? && !closed {
        client := dialled;
        published := published + {dialled.value};
      }
      refused := closed;
      dialing := None;
      closedChannels := closedChannels + {ch};
      threads := if dialled.Some? && closed then threads[t := Closing(dialled.value, false)] else threads - {t};
    }

    /** discard's block. The caller closes c afterwards in any case. */
    method Discard(ghost t: nat, c: nat)
      requires Valid() && t in threads && threads[t].Evicting? && threads[t].c == c
      modifies this`client, this`threads
      ensures Next(old(View()), Evict(t)) == Some(View()) && Valid() && WillClose(View(), t, c)
      ensures client == if old(client) == Some(c) then None else old(client)
    {
      StepKeepsInv(View(), Evict(t));
      if client == Some(c) {
        client := None;
      }
      threads := threads[t := Closing(c, threads[t].probe)];
    }

    /** revalidateAfterTimeout's block: whether to start a probe. */
    method RevalidateAfterTimeout(ghost t: nat, c: nat) returns (start: bool)
      requires Valid() && t !in threads && c in published
      modifies this`revalidating, this`threads
      ensures Next(old(View()), Revalidate(t, c)) == Some(View()) && Valid()
      ensures start <==> !closed && client == Some(c) && old(revalidating) != Some(c)
      ensures revalidating == if start then Some(c) else old(revalidating)
      ensures start <==> Probes(View(), t, c)
      ensures start ==> forall u :: !Probes(old(View()), u, c)
    {
      StepKeepsInv(View(), Revalidate(t, c));
      start := !(closed || client != Some(c) || revalidating == Some(c));
      if start {
        OneProbePerClient(View(), t, c);
        revalidating := Some(c);
        threads := threads[t := Probing(c)];
      }
    }

    /** The block a probe ends with. */
    method FinishProbe(ghost t: nat, c: nat)
      requires Valid() && t in threads && threads[t] == ProbeDone(c)
      modifies this`revalidating, this`threads
      ensures Next(old(View()), ProbeClear(t)) == Some(View()) && Valid()
      ensures revalidating == if old(revalidating) == Some(c) then None else old(revalidating)
    {
      StepKeepsInv(View(), ProbeClear(t));
      if revalidating == Some(c) {
        revalidating := None;
      }
      threads := threads - {t};
    }

    /** Close's block: the client to close, and whether this call closes the done channel. */
    method Close(ghost t: nat) returns (evicted: Option<nat>, first: bool)
      requires Valid() && t !in threads
      modifies this`client, this`closed, this`threads
      ensures Next(old(View()), CallClose(t)) == Some(View()) && Valid()
      ensures evicted == old(client) && first == !old(closed) && closed && client.None?
      ensures evicted.Some? ==> WillClose(View(), t, evicted.value)
    {
      StepKeepsInv(View(), CallClose(t));
      evicted, first := client, !closed;
      client, closed := None, true;
      threads := threads[t := Signalling(evicted, first)];
    }
  }
}
