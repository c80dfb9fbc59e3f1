// What the proxy server sets up lazily and must not leak when shutdown overtakes it
// (internal/proxy/server.go): the dialer, the lifecycle context and the listener.

module ServerSetupSpec {
  import opened Options

  datatype Context = Absent | Live | Cancelled

  datatype Pc =
    | AwaitingInit                        // wants dialerInitMu
    | Checking                            // holds dialerInitMu
    | Building                            // holds it, constructing outside the lifecycle lock
    | Built(d: nat)                       // holds it, owns an unpublished dialer
    | Orphan(d: nat)                      // holds it, must close that dialer
    | Listening(l: nat)                   // owns an unpublished listener
    | Unlisted(l: nat)                    // must close that listener
    | Serving(l: nat)
    | Stopped(cancel: bool, listener: Option<nat>)  // in stopAccepting, after its block
    | Hushing(listener: Option<nat>)      // context cancelled, listener still to close
    | Draining                            // waiting before closeDialer
    | ClosingDialer(dialer: Option<nat>)

  datatype State = State(
    closing: bool, dialer: Option<nat>, initOwner: Option<nat>, dialers: nat, openDialers: set<nat>,
    context: Context, listener: Option<nat>, listeners: nat, openListeners: set<nat>,
    finished: bool,                       // some Close or Shutdown has run closeDialer to its end
    threads: map<nat, Pc>)

  datatype Step =
    | CallInit(t: nat)
    | LockInit(t: nat)
    | Check(t: nat)
    | BuildOk(t: nat)
    | BuildErr(t: nat)
    | Install(t: nat)
    | CloseOrphan(t: nat)
    | GetContext(t: nat)
    | Listen(t: nat)
    | PublishListener(t: nat)
    | CloseUnlisted(t: nat)
    | EndServe(t: nat)
    | CallStop(t: nat)
    | CancelContext(t: nat)
    | CloseListener(t: nat)
    | ReadDialer(t: nat)
    | CloseDialer(t: nat)

  function Initial(): State {
    State(false, None, None, 0, {}, Absent, None, 0, {}, false, map[])
  }

  function Move(s: State, t: nat, pc: Pc): State {
    s.(threads := s.threads[t := pc])
  }

  function Finish(s: State, t: nat): State {
    s.(threads := s.threads - {t})
  }

  function Unlock(s: State, t: nat): State {
    Finish(s.(initOwner := None), t)
  }

  /** serverContext: create the context on first use, cancelled at once if shutdown came first. */
  function ContextBlock(s: State): State {
    if s.context.Absent? then s.(context := if s.closing then Cancelled else Live) else s
  }

  /** installDialer: publish, or leave the dialer to its constructor. */
  function InstallBlock(s: State, t: nat, d: nat): State {
    if s.closing then Move(s, t, Orphan(d)) else Unlock(s.(dialer := Some(d)), t)
  }

  function PublishBlock(s: State, t: nat, l: nat): State {
    if s.closing || s.listener.Some? then Move(s, t, Unlisted(l)) else Move(s.(listener := Some(l)), t, Serving(l))
  }

  /** stopAccepting's block: what this call will cancel and close. */
  function StopBlock(s: State, t: nat): State {
    Move(s.(closing := true), t, Stopped(!s.context.Absent?, s.listener))
  }

  function Without(s: set<nat>, x: Option<nat>): set<nat> {
    if x.Some? then s - {x.value} else s
  }

  function Next(s: State, e: Step): Option<State> {
    if e.t in s.threads then Continue(s, e, e.t, s.threads[e.t]) else Begin(s, e, e.t)
  }

  function Begin(s: State, e: Step, t: nat): Option<State> {
    match e
    case CallInit(_) => Some(Move(s, t, AwaitingInit))
    case GetContext(_) => Some(ContextBlock(s))
    case Listen(_) =>
      Some(Move(s.(listeners := s.listeners + 1, openListeners := s.openListeners + {s.listeners}),
                t, Listening(s.listeners)))
    case CallStop(_) => Some(StopBlock(s, t))
    case _ => None
  }

  function Continue(s: State, e: Step, t: nat, pc: Pc): Option<State> {
    match (e, pc)
    case (LockInit(_), AwaitingInit) =>
      if s.initOwner.None? then Some(Move(s.(initOwner := Some(t)), t, Checking)) else None
    case (Check(_), Checking) => Some(if s.closing || s.dialer.Some? then Unlock(s, t) else Move(s, t, Building))
    case (BuildOk(_), Building) =>
      Some(Move(s.(dialers := s.dialers + 1, openDialers := s.openDialers + {s.dialers}), t, Built(s.dialers)))
    case (BuildErr(_), Building) => Some(Unlock(s, t))
    case (Install(_), Built(d)) => Some(InstallBlock(s, t, d))
    case (CloseOrphan(_), Orphan(d)) => Some(Unlock(s.(openDialers := s.openDialers - {d}), t))
    case (PublishListener(_), Listening(l)) => Some(PublishBlock(s, t, l))
    case (CloseUnlisted(_), Unlisted(l)) => Some(Finish(s.(openListeners := s.openListeners - {l}), t))
    case (EndServe(_), Serving(l)) =>
      if l in s.openListeners then None   // Accept only gives up on a closed listener
      else Some(Finish(s.(listener := if s.listener == Some(l) then None else s.listener), t))
    case (CancelContext(_), Stopped(cancel, ln)) =>
      Some(Move(if cancel then s.(context := Cancelled) else s, t, Hushing(ln)))
    case (CloseListener(_), Hushing(ln)) => Some(Move(s.(openListeners := Without(s.openListeners, ln)), t, Draining))
    case (ReadDialer(_), Draining) => Some(Move(s, t, ClosingDialer(s.dialer)))
    case (CloseDialer(_), ClosingDialer(d)) =>
      Some(Finish(s.(openDialers := Without(s.openDialers, d), finished := true), t))
    case _ => None
  }

  ghost predicate Runs(s: State, steps: seq<Step>, s': State)
    decreases |steps|
  {
    if steps == [] then s == s'
    else Next(s, steps[0]).Some? && Runs(Next(s, steps[0]).value, steps[1..], s')
  }

  // ---- the invariant ----

  ghost predicate HasInit(s: State, t: nat) {
    t in s.threads && (s.threads[t].Checking? || s.threads[t].Building? || s.threads[t].Built? || s.threads[t].Orphan?)
  }

  ghost predicate Builds(s: State, t: nat) {
    t in s.threads && (s.threads[t].Building? || s.threads[t].Built?)
  }

  ghost predicate OwnsDialer(s: State, t: nat, d: nat) {
    t in s.threads && (s.threads[t].Built? || s.threads[t].Orphan?) && s.threads[t].d == d
  }

  /** One constructor at a time, so no published dialer is ever replaced. */
  ghost predicate DialerOk(s: State) {
    && (forall t: nat :: HasInit(s, t) ==> s.initOwner == Some(t))
    && (forall t: nat :: Builds(s, t) ==> s.dialer.None?)
    && (forall d :: d in s.openDialers ==> s.dialer == Some(d) || exists t :: OwnsDialer(s, t, d))
    && (forall t :: t in s.threads && s.threads[t].ClosingDialer? ==> s.threads[t].dialer == s.dialer)
    && (forall t, d: nat :: OwnsDialer(s, t, d) ==> d < s.dialers && s.dialer != Some(d))
    && (s.dialer.Some? ==> s.dialer.value < s.dialers)
    && (s.finished && s.dialer.Some? ==> s.dialer.value !in s.openDialers)
  }

  ghost predicate InShutdown(pc: Pc) {
    pc.Stopped? || pc.Hushing? || pc.Draining? || pc.ClosingDialer?
  }

  ghost predicate WillCancel(s: State, t: nat) {
    t in s.threads && s.threads[t].Stopped? && s.threads[t].cancel
  }

  /** Before closing no context is cancelled; after, a live one has a shutdown on its way to cancel it. */
  ghost predicate ContextOk(s: State) {
    && (!s.closing ==> !s.context.Cancelled?)
    && (forall t :: t in s.threads && InShutdown(s.threads[t]) ==> s.closing)
    && (s.finished ==> s.closing)
    && (s.closing && s.context.Live? ==> exists t :: WillCancel(s, t))
  }

  ghost predicate OwnsListener(s: State, t: nat, l: nat) {
    t in s.threads && (s.threads[t].Listening? || s.threads[t].Unlisted?) && s.threads[t].l == l
  }

  ghost predicate WillClose(s: State, t: nat, l: nat) {
    t in s.threads && (s.threads[t].Stopped? || s.threads[t].Hushing?) && s.threads[t].listener == Some(l)
  }

  ghost predicate ListenerOk(s: State) {
    && (forall t :: t in s.threads && s.threads[t].Serving? ==> s.listener == Some(s.threads[t].l))
    && (forall t, u :: t in s.threads && u in s.threads && s.threads[t].Serving? && s.threads[u].Serving? ==> t == u)
    && (forall l :: l in s.openListeners ==> s.listener == Some(l) || exists t :: OwnsListener(s, t, l))
    && (s.closing && s.listener.Some? && s.listener.value in s.openListeners ==>
          exists t :: WillClose(s, t, s.listener.value))
    && (forall t, l: nat :: OwnsListener(s, t, l) ==> l < s.listeners)
    && (s.listener.Some? ==> s.listener.value < s.listeners)
  }

  ghost predicate Inv(s: State) {
    DialerOk(s) && ContextOk(s) && ListenerOk(s)
  }

  lemma OwnerStep(s: State, e: Step, t: nat)
    requires DialerOk(s) && Next(s, e).Some? && HasInit(Next(s, e).value, t)
    ensures Next(s, e).value.initOwner == Some(t)
  {
    assert HasInit(s, e.t) ==> s.initOwner == Some(e.t);
    assert HasInit(s, t) || e == LockInit(t);
  }

  lemma BuildersStep(s: State, e: Step, t: nat)
    requires DialerOk(s) && Next(s, e).Some? && Builds(Next(s, e).value, t)
    ensures Next(s, e).value.dialer.None?
  {
    assert HasInit(s, e.t) ==> s.initOwner == Some(e.t);
    assert HasInit(s, t) && s.initOwner == Some(t);
    assert Builds(s, t) || e == Check(t);
  }

  lemma OpenDialerStep(s: State, e: Step, d: nat)
    requires DialerOk(s) && Next(s, e).Some? && d in Next(s, e).value.openDialers
    ensures var s' := Next(s, e).value;
            s'.dialer == Some(d) || exists t :: OwnsDialer(s', t, d)
  {
    var s' := Next(s, e).value;
    assert e.Install? ==> Builds(s, e.t);
    if d !in s.openDialers {
      assert OwnsDialer(s', e.t, d);
    } else if s.dialer != Some(d) {
      var t :| OwnsDialer(s, t, d);
      assert s'.dialer == Some(d) || OwnsDialer(s', t, d);
    }
  }

  lemma OwnedDialerStep(s: State, e: Step, t: nat, d: nat)
    requires DialerOk(s) && Next(s, e).Some? && OwnsDialer(Next(s, e).value, t, d)
    ensures var s' := Next(s, e).value; d < s'.dialers && s'.dialer != Some(d)
  {
    assert e.Install? ==> HasInit(s, e.t) && OwnsDialer(s, e.t, s.threads[e.t].d);
    assert OwnsDialer(s, t, d) || (e == BuildOk(t) && d == s.dialers);
    assert OwnsDialer(s, t, d) ==> HasInit(s, t);
  }

  lemma PublishedDialerStep(s: State, e: Step)
    requires DialerOk(s) && Next(s, e).Some?
    ensures var s' := Next(s, e).value; s'.dialer.Some? ==> s'.dialer.value < s'.dialers
  {
    assert e.Install? ==> OwnsDialer(s, e.t, s.threads[e.t].d);
  }

  lemma ClosersStep(s: State, e: Step)
    requires DialerOk(s) && ContextOk(s) && Next(s, e).Some?
    ensures var s' := Next(s, e).value;
            && (forall t :: t in s'.threads && s'.threads[t].ClosingDialer? ==> s'.threads[t].dialer == s'.dialer)
            && (s'.finished && s'.dialer.Some? ==> s'.dialer.value !in s'.openDialers)
  {
    assert e.Install? || e.BuildOk? ==> Builds(s, e.t);
  }

  lemma DialerStep(s: State, e: Step)
    requires DialerOk(s) && ContextOk(s) && Next(s, e).Some?
    ensures DialerOk(Next(s, e).value)
  {
    var s' := Next(s, e).value;
    forall t: nat | HasInit(s', t)
      ensures s'.initOwner == Some(t)
    {
      OwnerStep(s, e, t);
    }
    PublishedDialerStep(s, e);
    forall t, d: nat | OwnsDialer(s', t, d)
      ensures d < s'.dialers && s'.dialer != Some(d)
    {
      OwnedDialerStep(s, e, t, d);
    }
    ClosersStep(s, e);
    forall t: nat | Builds(s', t)
      ensures s'.dialer.None?
    {
      BuildersStep(s, e, t);
    }
    forall d | d in s'.openDialers
      ensures s'.dialer == Some(d) || exists t :: OwnsDialer(s', t, d)
    {
      OpenDialerStep(s, e, d);
    }
  }

  lemma ContextStep(s: State, e: Step)
    requires ContextOk(s) && Next(s, e).Some?
    ensures ContextOk(Next(s, e).value)
  {
    var s' := Next(s, e).value;
    if s'.closing && s'.context.Live? {
      if s.closing {
        var t :| WillCancel(s, t);
        assert WillCancel(s', t);
      } else {
        assert WillCancel(s', e.t);
      }
    }
  }

  lemma PublishedListenerStep(s: State, e: Step)
    requires ListenerOk(s) && Next(s, e).Some?
    ensures var s' := Next(s, e).value;
            && (forall t :: t in s'.threads && s'.threads[t].Serving? ==> s'.listener == Some(s'.threads[t].l))
            && (s'.listener.Some? ==> s'.listener.value < s'.listeners)
  {
    assert e.PublishListener? ==> OwnsListener(s, e.t, s.threads[e.t].l);
  }

  lemma DoomedListenerStep(s: State, e: Step)
    requires ListenerOk(s) && Next(s, e).Some?
    ensures var s' := Next(s, e).value;
            s'.closing && s'.listener.Some? && s'.listener.value in s'.openListeners ==>
              exists t :: WillClose(s', t, s'.listener.value)
  {
    var s' := Next(s, e).value;
    if s'.closing && s'.listener.Some? && s'.listener.value in s'.openListeners {
      if s.closing {
        var u :| WillClose(s, u, s.listener.value);
        assert WillClose(s', u, s'.listener.value);
      } else {
        assert WillClose(s', e.t, s'.listener.value);
      }
    }
  }

  lemma ListenerIsPassedOn(s: State, e: Step, t: nat, l: nat)
    requires Next(s, e).Some? && OwnsListener(s, t, l) && l in Next(s, e).value.openListeners
    ensures Next(s, e).value.listener == Some(l) || OwnsListener(Next(s, e).value, t, l)
  {}

  lemma OpenListenerStep(s: State, e: Step, l: nat)
    requires ListenerOk(s) && Next(s, e).Some? && l in Next(s, e).value.openListeners
    ensures var s' := Next(s, e).value;
            s'.listener == Some(l) || exists t :: OwnsListener(s', t, l)
  {
    if l !in s.openListeners {
      assert OwnsListener(Next(s, e).value, e.t, l);
    } else if s.listener != Some(l) {
      var t :| OwnsListener(s, t, l);
      ListenerIsPassedOn(s, e, t, l);
    }
  }

  lemma OwnedListenerStep(s: State, e: Step, t: nat, l: nat)
    requires ListenerOk(s) && Next(s, e).Some? && OwnsListener(Next(s, e).value, t, l)
    ensures l < Next(s, e).value.listeners
  {
    assert OwnsListener(s, t, l) || l == s.listeners;
  }

  lemma ListenerStep(s: State, e: Step)
    requires ListenerOk(s) && Next(s, e).Some?
    ensures ListenerOk(Next(s, e).value)
  {
    var s' := Next(s, e).value;
    PublishedListenerStep(s, e);
    DoomedListenerStep(s, e);
    forall l | l in s'.openListeners
      ensures s'.listener == Some(l) || exists t :: OwnsListener(s', t, l)
    {
      OpenListenerStep(s, e, l);
    }
    forall t, l: nat | OwnsListener(s', t, l)
      ensures l < s'.listeners
    {
      OwnedListenerStep(s, e, t, l);
    }
  }

  lemma StepKeepsInv(s: State, e: Step)
    requires Inv(s) && Next(s, e).Some?
    ensures Inv(Next(s, e).value)
    ensures s.closing ==> Next(s, e).value.closing
    ensures s.dialer.Some? ==> Next(s, e).value.dialer == s.dialer
  {
    DialerStep(s, e);
    ContextStep(s, e);
    ListenerStep(s, e);
    assert e.Install? ==> Builds(s, e.t);
  }

  // ---- what holds over every run ----

  /** A published dialer is the server's dialer for good. */
  lemma {:induction false} RunKeepsInv(s: State, steps: seq<Step>, s': State)
    requires Inv(s) && Runs(s, steps, s')
    ensures Inv(s')
    ensures s.closing ==> s'.closing
    ensures s.dialer.Some? ==> s'.dialer == s.dialer
    decreases |steps|
  {
    if steps != [] {
      StepKeepsInv(s, steps[0]);
      RunKeepsInv(Next(s, steps[0]).value, steps[1..], s');
    }
  }

  lemma InitialInv()
    ensures Inv(Initial())
  {}

  /** Once some shutdown has finished and no constructor is under way, every dialer is closed. */
  lemma NoDialerOutlivesShutdown(steps: seq<Step>, s: State)
    requires Runs(Initial(), steps, s) && s.finished && forall t: nat :: !HasInit(s, t)
    ensures s.openDialers == {}
  {
    RunKeepsInv(Initial(), steps, s);
    forall d | d in s.openDialers
      ensures false
    {
      forall t: nat
        ensures !OwnsDialer(s, t, d)
      {
        assert !HasInit(s, t);
      }
    }
  }

  /** Which dialer is published is settled once closing is set. */
  lemma {:induction false} DialerIsSettledByClosing(s: State, steps: seq<Step>, s': State)
    requires s.closing && Runs(s, steps, s')
    ensures s'.closing && s'.dialer == s.dialer
    decreases |steps|
  {
    if steps != [] {
      DialerIsSettledByClosing(Next(s, steps[0]).value, steps[1..], s');
    }
  }

  /**
   * A constructor that finishes after shutdown began keeps its dialer, which is never published on
   * any run from there, and its next step closes it.
   */
  lemma LateConstructorCleansUp(s: State, t: nat, d: nat, steps: seq<Step>, s': State)
    requires Inv(s) && s.closing && t in s.threads && s.threads[t] == Built(d)
    requires Runs(Next(s, Install(t)).value, steps, s')
    ensures var orphaned := Next(s, Install(t)).value;
            orphaned.threads[t] == Orphan(d) && d !in Next(orphaned, CloseOrphan(t)).value.openDialers
    ensures s'.dialer != Some(d)
  {
    assert OwnsDialer(s, t, d);
    DialerIsSettledByClosing(Next(s, Install(t)).value, steps, s');
  }

  /** An open server that nobody is initializing can get its dialer. */
  lemma OpenServerGetsDialer(s: State, t: nat) returns (steps: seq<Step>, s': State)
    requires Inv(s) && !s.closing && s.dialer.None? && s.initOwner.None? && t !in s.threads
    ensures Runs(s, steps, s') && s'.dialer == Some(s.dialers) && s.dialers in s'.openDialers && !s'.closing
  {
    var s1 := Next(s, CallInit(t)).value;
    var s2 := Next(s1, LockInit(t)).value;
    var s3 := Next(s2, Check(t)).value;
    var s4 := Next(s3, BuildOk(t)).value;
    s' := Next(s4, Install(t)).value;
    assert Runs(s', [], s');
    Prepend(s4, Install(t), [], s');
    Prepend(s3, BuildOk(t), [Install(t)], s');
    Prepend(s2, Check(t), [BuildOk(t)] + [Install(t)], s');
    Prepend(s1, LockInit(t), [Check(t)] + ([BuildOk(t)] + [Install(t)]), s');
    Prepend(s, CallInit(t), [LockInit(t)] + ([Check(t)] + ([BuildOk(t)] + [Install(t)])), s');
    steps := [CallInit(t)] + ([LockInit(t)] + ([Check(t)] + ([BuildOk(t)] + [Install(t)])));
  }

  lemma Prepend(s: State, e: Step, steps: seq<Step>, s': State)
    requires Next(s, e).Some? && Runs(Next(s, e).value, steps, s')
    ensures Runs(s, [e] + steps, s')
  {
    assert ([e] + steps)[1..] == steps;
  }

  /** Until shutdown begins, the context handed out is live. */
  lemma ContextIsLiveUntilClosing(steps: seq<Step>, s: State)
    requires Runs(Initial(), steps, s) && !s.closing
    ensures ContextBlock(s).context.Live?
  {
    RunKeepsInv(Initial(), steps, s);
  }

  /** With closing set and no shutdown between its block and its cancel, no context is live. */
  lemma NoContextOutlivesShutdown(steps: seq<Step>, s: State)
    requires Runs(Initial(), steps, s) && s.closing && forall t: nat :: !WillCancel(s, t)
    ensures !s.context.Live? && ContextBlock(s).context.Cancelled?
  {
    RunKeepsInv(Initial(), steps, s);
  }

  /** With closing set and every stop and every start past its last close, no listener is open. */
  lemma NoListenerOutlivesShutdown(steps: seq<Step>, s: State)
    requires Runs(Initial(), steps, s) && s.closing
    requires forall t :: t in s.threads ==> !s.threads[t].Stopped? && !s.threads[t].Hushing?
                                            && !s.threads[t].Listening? && !s.threads[t].Unlisted?
    ensures s.openListeners == {}
  {
    RunKeepsInv(Initial(), steps, s);
    forall l | l in s.openListeners
      ensures false
    {
      assert forall t: nat :: !OwnsListener(s, t, l) && !WillClose(s, t, l);
    }
  }

  /** No two goroutines ever serve at once. */
  lemma OneServer(steps: seq<Step>, s: State, t: nat, u: nat)
    requires Runs(Initial(), steps, s)
    requires t in s.threads && u in s.threads && s.threads[t].Serving? && s.threads[u].Serving?
    ensures t == u && s.listener == Some(s.threads[t].l)
  {
    RunKeepsInv(Initial(), steps, s);
  }
}

module ServerSetup {
  import opened Options
  import opened ServerSetupSpec

  /** The lazily built parts of the server. Each method is one lock-held block. */
  class Setup {
    var closing: bool
    var dialer: Option<nat>
    var context: Context
    var listener: Option<nat>
    ghost var initOwner: Option<nat>
    ghost var dialers: nat
    ghost var openDialers: set<nat>
    ghost var listeners: nat
    ghost var openListeners: set<nat>
    ghost var finished: bool
    ghost var threads: map<nat, Pc>

    ghost function View(): State
      reads this
    {
      State(closing, dialer, initOwner, dialers, openDialers, context, listener, listeners,
            openListeners, finished, threads)
    }

    ghost predicate Valid()
      reads this
    {
      Inv(View())
    }

    constructor ()
      ensures Valid() && View() == Initial()
    {
      closing, dialer, context, listener := false, None, Absent, None;
      initOwner, dialers, openDialers, listeners, openListeners := None, 0, {}, 0, {};
      finished, threads := false, map[];
    }

    /** installDialer's block: false leaves the dialer to its constructor to close. */
    method InstallDialer(ghost t: nat, d: nat) returns (installed: bool)
      requires Valid() && t in threads && threads[t] == Built(d)
      modifies this`dialer, this`initOwner, this`threads
      ensures Next(old(View()), Install(t)) == Some(View()) && Valid()
      ensures installed == !closing && dialer == (if installed then Some(d) else old(dialer))
      ensures !installed ==> OwnsDialer(View(), t, d)
    {
      StepKeepsInv(View(), Install(t));
      installed := !closing;
      if installed {
        dialer := Some(d);
        initOwner := None;
        threads := threads - {t};
      } else {
        threads := threads[t := Orphan(d)];
      }
    }

    /** serverContext. */
    method ServerContext(ghost t: nat) returns (cancelled: bool)
      requires Valid() && t !in threads
      modifies this`context
      ensures Next(old(View()), GetContext(t)) == Some(View()) && Valid()
      ensures cancelled == context.Cancelled?
      ensures context == if old(context).Absent? then (if closing then Cancelled else Live) else old(context)
      ensures !closing ==> context.Live?
      ensures closing ==> cancelled || exists u :: WillCancel(View(), u)
    {
      StepKeepsInv(View(), GetContext(t));
      assert ContextOk(View());
      if context.Absent? {
        context := Live;
        if closing {
          context := Cancelled;
        }
      }
      cancelled := context.Cancelled?;
    }

    /** ListenAndServe's block: whether this call may serve on its listener. */
    method Publish(ghost t: nat, l: nat) returns (serve: bool)
      requires Valid() && t in threads && threads[t] == Listening(l)
      modifies this`listener, this`threads
      ensures Next(old(View()), PublishListener(t)) == Some(View()) && Valid()
      ensures serve == (!closing && old(listener).None?) && listener == (if serve then Some(l) else old(listener))
    {
      StepKeepsInv(View(), PublishListener(t));
      serve := !closing && listener.None?;
      if serve {
        listener := Some(l);
      }
      threads := threads[t := if serve then Serving(l) else Unlisted(l)];
    }

    /** stopAccepting's block: what the caller cancels and closes after unlocking. */
    method StopAccepting(ghost t: nat) returns (cancel: bool, toClose: Option<nat>)
      requires Valid() && t !in threads
      modifies this`closing, this`threads
      ensures Next(old(View()), CallStop(t)) == Some(View()) && Valid()
      ensures closing && toClose == listener && cancel == !context.Absent?
    {
      StepKeepsInv(View(), CallStop(t));
      closing := true;
      toClose := listener;
      cancel := !context.Absent?;
      threads := threads[t := Stopped(cancel, toClose)];
    }
  }
}
