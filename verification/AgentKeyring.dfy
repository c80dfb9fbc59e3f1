// The ssh-agent keyring (internal/proxy/upstream.go): each callback dials a fresh agent
// connection and swaps it in; Close may come at any point of a callback.

module AgentKeyringSpec {
  import opened Options

  datatype Pc =
    | Dialing              // past the closed check, connecting to the agent
    | Asking(c: nat)       // owns a fresh connection, listing the signers
    | MustClose(c: nat)

  datatype State = State(conn: Option<nat>, closed: bool, dialled: nat, shut: set<nat>, threads: map<nat, Pc>)

  datatype Step =
    | CallSigners(t: nat)
    | DialOk(t: nat)
    | DialErr(t: nat)
    | SignersErr(t: nat)
    | Swap(t: nat)
    | CloseConn(t: nat)
    | CallClose(t: nat)

  function Initial(): State {
    State(None, false, 0, {}, map[])
  }

  function Finish(s: State, t: nat): State {
    s.(threads := s.threads - {t})
  }

  function MustCloseNext(s: State, t: nat, c: Option<nat>): State {
    if c.Some? then s.(threads := s.threads[t := MustClose(c.value)]) else Finish(s, t)
  }

  function Next(s: State, e: Step): Option<State> {
    if e.t in s.threads then Continue(s, e, e.t, s.threads[e.t]) else Begin(s, e, e.t)
  }

  function Begin(s: State, e: Step, t: nat): Option<State> {
    match e
    case CallSigners(_) => Some(if s.closed then s else s.(threads := s.threads[t := Dialing]))
    case CallClose(_) => Some(MustCloseNext(s.(conn := None, closed := true), t, s.conn))
    case _ => None
  }

  function Continue(s: State, e: Step, t: nat, pc: Pc): Option<State> {
    match (e, pc)
    case (DialOk(_), Dialing) => Some(s.(dialled := s.dialled + 1, threads := s.threads[t := Asking(s.dialled)]))
    case (DialErr(_), Dialing) => Some(Finish(s, t))
    case (SignersErr(_), Asking(c)) => Some(MustCloseNext(s, t, Some(c)))
    case (Swap(_), Asking(c)) =>
      Some(if s.closed then MustCloseNext(s, t, Some(c)) else MustCloseNext(s.(conn := Some(c)), t, s.conn))
    case (CloseConn(_), MustClose(c)) => Some(Finish(s.(shut := s.shut + {c}), t))
    case _ => None
  }

  ghost predicate Runs(s: State, steps: seq<Step>, s': State)
    decreases |steps|
  {
    if steps == [] then s == s'
    else Next(s, steps[0]).Some? && Runs(Next(s, steps[0]).value, steps[1..], s')
  }

  /** Goroutine t alone answers for connection c. */
  ghost predicate Holds(s: State, t: nat, c: nat) {
    t in s.threads && !s.threads[t].Dialing? && s.threads[t].c == c
  }

  /** Each dialled connection has exactly one keeper: the cache, one goroutine, or none once closed. */
  ghost predicate Inv(s: State) {
    && (s.closed ==> s.conn.None?)
    && (s.conn.Some? ==> s.conn.value < s.dialled && s.conn.value !in s.shut)
    && (forall c :: c in s.shut ==> c < s.dialled)
    && (forall t, c: nat :: Holds(s, t, c) ==> c < s.dialled && c !in s.shut && s.conn != Some(c))
    && (forall t, u, c: nat :: Holds(s, t, c) && Holds(s, u, c) ==> t == u)
    && (forall c :: 0 <= c < s.dialled ==> c in s.shut || s.conn == Some(c) || exists t :: Holds(s, t, c))
  }

  lemma HoldsFrom(s: State, e: Step, t: nat, c: nat)
    requires Next(s, e).Some? && Holds(Next(s, e).value, t, c)
    ensures || Holds(s, t, c)
            || (e == DialOk(t) && c == s.dialled)
            || ((e == Swap(t) || e == CallClose(t)) && s.conn == Some(c))
    ensures e == Swap(t) && Holds(s, t, c) ==> s.closed || s.conn == Some(c)
  {}

  lemma StepKeepsInv(s: State, e: Step)
    requires Inv(s) && Next(s, e).Some?
    ensures Inv(Next(s, e).value)
    ensures s.closed ==> Next(s, e).value.closed
  {
    var s' := Next(s, e).value;
    assert e.t in s.threads && !s.threads[e.t].Dialing? ==> Holds(s, e.t, s.threads[e.t].c);
    forall t, c: nat | Holds(s', t, c)
      ensures c < s'.dialled && c !in s'.shut && s'.conn != Some(c)
    {
      HoldsFrom(s, e, t, c);
    }
    forall t, u, c: nat | Holds(s', t, c) && Holds(s', u, c)
      ensures t == u
    {
      HoldsFrom(s, e, t, c);
      HoldsFrom(s, e, u, c);
    }
    forall c | 0 <= c < s'.dialled
      ensures c in s'.shut || s'.conn == Some(c) || exists t :: Holds(s', t, c)
    {
      if c == s.dialled || s.conn == Some(c) {
        assert s'.conn == Some(c) || Holds(s', e.t, c);
      } else if c !in s.shut {
        var t :| Holds(s, t, c);
        assert c in s'.shut || s'.conn == Some(c) || Holds(s', t, c);
      }
    }
  }

  lemma {:induction false} RunKeepsInv(s: State, steps: seq<Step>, s': State)
    requires Inv(s) && Runs(s, steps, s')
    ensures Inv(s') && (s.closed ==> s'.closed)
    decreases |steps|
  {
    if steps != [] {
      StepKeepsInv(s, steps[0]);
      RunKeepsInv(Next(s, steps[0]).value, steps[1..], s');
    }
  }

  /** After Close, once the callbacks are over, no agent connection is open. */
  lemma ClosedKeyringLeaksNothing(steps: seq<Step>, s: State)
    requires Runs(Initial(), steps, s) && s.closed && s.threads == map[]
    ensures forall c :: 0 <= c < s.dialled <==> c in s.shut
  {
    RunKeepsInv(Initial(), steps, s);
    forall c | 0 <= c < s.dialled
      ensures c in s.shut
    {
      assert forall t :: !Holds(s, t, c);
    }
  }

  /** While the keyring is open, the only open connection nobody is handling is the current one. */
  lemma OneIdleConnection(steps: seq<Step>, s: State, c: nat)
    requires Runs(Initial(), steps, s) && c < s.dialled && c !in s.shut && forall t :: !Holds(s, t, c)
    ensures s.conn == Some(c) && !s.closed
  {
    RunKeepsInv(Initial(), steps, s);
  }
}

module AgentKeyring {
  import opened Options
  import opened AgentKeyringSpec

  class Keyring {
    var conn: Option<nat>
    var closed: bool
    ghost var dialled: nat
    ghost var shut: set<nat>
    ghost var threads: map<nat, Pc>

    ghost function View(): State
      reads this
    {
      State(conn, closed, dialled, shut, threads)
    }

    ghost predicate Valid()
      reads this
    {
      Inv(View())
    }

    constructor ()
      ensures Valid() && View() == Initial()
    {
      conn, closed, dialled, shut, threads := None, false, 0, {}, map[];
    }

    /** The first check of signers: a closed keyring refuses, an open one dials. */
    method BeginSigners(ghost t: nat) returns (refused: bool)
      requires Valid() && t !in threads
      modifies this`threads
      ensures Next(old(View()), CallSigners(t)) == Some(View()) && Valid()
      ensures refused == closed && (if refused then t !in threads else t in threads && threads[t] == Dialing)
    {
      StepKeepsInv(View(), CallSigners(t));
      refused := closed;
      if !refused {
        threads := threads[t := Dialing];
      }
    }

    /** swap: the connection the caller must close, and whether Close had already come. */
    method SwapIn(ghost t: nat, offered: nat) returns (toClose: Option<nat>, replaced: bool)
      requires Valid() && t in threads && threads[t] == Asking(offered)
      modifies this`conn, this`threads
      ensures Next(old(View()), Swap(t)) == Some(View()) && Valid()
      ensures replaced == closed && toClose == (if closed then Some(offered) else old(conn))
      ensures conn == (if closed then old(conn) else Some(offered)) && closed == old(closed)
      ensures toClose.Some? ==> Holds(View(), t, toClose.value)
    {
      StepKeepsInv(View(), Swap(t));
      replaced := closed;
      if closed {
        toClose := Some(offered);
      } else {
        toClose := conn;
        conn := Some(offered);
      }
      threads := if toClose.Some? then threads[t := MustClose(toClose.value)] else threads - {t};
    }

    method Close(ghost t: nat) returns (toClose: Option<nat>)
      requires Valid() && t !in threads
      modifies this`conn, this`closed, this`threads
      ensures Next(old(View()), CallClose(t)) == Some(View()) && Valid()
      ensures toClose == old(conn) && closed && conn.None?
      ensures toClose.Some? ==> Holds(View(), t, toClose.value)
    {
      StepKeepsInv(View(), CallClose(t));
      toClose := conn;
      conn := None;
      closed := true;
      threads := if toClose.Some? then threads[t := MustClose(toClose.value)] else threads - {t};
    }
  }
}
