// The load test's lock-free latency reservoir (cmd/loadtest/main.go), as a machine over its
// single atomic operations, and the class that performs them.

module SamplerSpec {
  import opened Counting
  import opened Options

  const MAX_INT64 := 0x7FFF_FFFF_FFFF_FFFF
  const MIN_INT64 := -0x8000_0000_0000_0000

  datatype Sample = Sample(sequence: nat, value: int)

  /** One draw of the sequence counter: the measured value and the slot index it led to. */
  datatype Ticket = Ticket(value: int, slot: nat)

  /** Where one call of add stands between two of its atomic operations. */
  datatype Pc =
    | MinLoad(v: int)
    | MinCas(v: int, was: int)
    | MaxLoad(v: int)
    | MaxCas(v: int, was: int)
    | Draw(v: int)
    | SlotLoad(sample: Sample, slot: nat)
    | SlotCas(sample: Sample, slot: nat, current: Option<Sample>)

  datatype State = State(
    limit: nat, slots: seq<Option<Sample>>, seen: nat, min: int, max: int,
    threads: map<nat, Pc>, tickets: seq<Ticket>)

  datatype Step =
    | Call(t: nat, v: int)
    | LoadMin(t: nat)
    | CasMin(t: nat)
    | LoadMax(t: nat)
    | CasMax(t: nat)
    | TakeTicket(t: nat, random: nat)
    | LoadSlot(t: nat)
    | CasSlot(t: nat)

  function Initial(limit: nat): State {
    State(limit, seq(limit, _ => None), 0, MAX_INT64, 0, map[], [])
  }

  function Move(s: State, t: nat, pc: Pc): State {
    s.(threads := s.threads[t := pc])
  }

  function Finish(s: State, t: nat): State {
    s.(threads := s.threads - {t})
  }

  /** The slot a ticket is aimed at: the reservoir fills in order, then draws at random. */
  function SlotFor(limit: nat, sequence: nat, random: nat): nat
    requires sequence > 0
  {
    if sequence <= limit then sequence - 1 else random % sequence
  }

  /** One atomic operation of thread t; None when t is not at that operation. */
  function Next(s: State, e: Step): Option<State> {
    if e.Call? then
      if e.t in s.threads || !(MIN_INT64 <= e.v <= MAX_INT64) then None
      else Some(Move(s, e.t, MinLoad(e.v)))
    else if e.t !in s.threads then None
    else
      match (e, s.threads[e.t])
      case (LoadMin(t), MinLoad(v)) =>
        Some(Move(s, t, if v < s.min then MinCas(v, s.min) else MaxLoad(v)))
      case (CasMin(t), MinCas(v, was)) =>
        Some(if s.min == was then Move(s.(min := v), t, MaxLoad(v)) else Move(s, t, MinLoad(v)))
      case (LoadMax(t), MaxLoad(v)) =>
        Some(Move(s, t, if v > s.max then MaxCas(v, s.max) else Draw(v)))
      case (CasMax(t), MaxCas(v, was)) =>
        Some(if s.max == was then Move(s.(max := v), t, Draw(v)) else Move(s, t, MaxLoad(v)))
      case (TakeTicket(t, random), Draw(v)) =>
        var sequence := s.seen + 1;
        var slot := SlotFor(s.limit, sequence, random);
        var drawn := s.(seen := sequence, tickets := s.tickets + [Ticket(v, slot)]);
        Some(if slot < s.limit then Move(drawn, t, SlotLoad(Sample(sequence, v), slot)) else Finish(drawn, t))
      case (LoadSlot(t), SlotLoad(sample, slot)) =>
        if slot >= |s.slots| then None
        else
          var was := s.slots[slot];
          Some(if was.Some? && was.value.sequence > sample.sequence then Finish(s, t)
               else Move(s, t, SlotCas(sample, slot, was)))
      case (CasSlot(t), SlotCas(sample, slot, was)) =>
        if slot >= |s.slots| then None
        else Some(if s.slots[slot] == was then Finish(s.(slots := s.slots[slot := Some(sample)]), t)
                  else Move(s, t, SlotLoad(sample, slot)))
      case _ => None
  }

  ghost predicate Runs(s: State, steps: seq<Step>, s': State)
    decreases |steps|
  {
    if steps == [] then s == s'
    else Next(s, steps[0]).Some? && Runs(Next(s, steps[0]).value, steps[1..], s')
  }

  // ---- the sequential reservoir ----

  /** What one worker at a time, adding the samples in ticket order, would leave in the slots. */
  function Reservoir(limit: nat, tickets: seq<Ticket>): (slots: seq<Option<Sample>>)
    ensures |slots| == limit
  {
    if tickets == [] then seq(limit, _ => None)
    else
      var n := |tickets|;
      var before := Reservoir(limit, tickets[..n - 1]);
      var last := tickets[n - 1];
      if last.slot < limit then before[last.slot := Some(Sample(n, last.value))] else before
  }

  /** Ticket k (counted from 0) is the last one aimed at this slot. */
  ghost predicate LastAt(tickets: seq<Ticket>, slot: nat, k: nat) {
    k < |tickets| && tickets[k].slot == slot && forall j :: k < j < |tickets| ==> tickets[j].slot != slot
  }

  /** The sequential reservoir keeps in each slot exactly the last ticket aimed at it. */
  lemma {:induction false} ReservoirKeepsLast(limit: nat, tickets: seq<Ticket>, slot: nat, k: nat)
    requires slot < limit && LastAt(tickets, slot, k)
    ensures Reservoir(limit, tickets)[slot] == Some(Sample(k + 1, tickets[k].value))
  {
    var n := |tickets|;
    if k < n - 1 {
      assert tickets[n - 1].slot != slot;
      ReservoirKeepsLast(limit, tickets[..n - 1], slot, k);
    }
  }

  lemma {:induction false} ReservoirLeavesEmpty(limit: nat, tickets: seq<Ticket>, slot: nat)
    requires slot < limit && forall k :: 0 <= k < |tickets| ==> tickets[k].slot != slot
    ensures Reservoir(limit, tickets)[slot] == None
  {
    if tickets != [] {
      ReservoirLeavesEmpty(limit, tickets[..|tickets| - 1], slot);
    }
  }

  // ---- the invariant ----

  ghost predicate Fits(v: int) {
    MIN_INT64 <= v <= MAX_INT64
  }

  /** This call still holds the sample of ticket k and will write or give way. */
  ghost predicate Pending(s: State, t: nat, k: nat) {
    t in s.threads && (s.threads[t].SlotLoad? || s.threads[t].SlotCas?) && s.threads[t].sample.sequence == k + 1
  }

  ghost predicate Settled(s: State, k: nat)
    requires |s.slots| == s.limit && k < |s.tickets|
  {
    var slot := s.tickets[k].slot;
    slot < s.limit ==> s.slots[slot].Some? && s.slots[slot].value.sequence >= k + 1
  }

  /** This sample is the one ticket sample.sequence carried, and that ticket was aimed at this slot. */
  ghost predicate Issued(s: State, sample: Sample, slot: nat) {
    1 <= sample.sequence <= |s.tickets| && s.tickets[sample.sequence - 1] == Ticket(sample.value, slot)
  }

  ghost predicate SlotsOk(s: State) {
    && |s.slots| == s.limit
    && s.seen == |s.tickets|
    && (forall k :: 0 <= k < |s.tickets| && k < s.limit ==> s.tickets[k].slot == k)
    && (forall k :: 0 <= k < |s.tickets| ==> s.tickets[k].slot <= k)
    && (forall i :: 0 <= i < s.limit && s.slots[i].Some? ==> Issued(s, s.slots[i].value, i))
    && (forall k :: 0 <= k < |s.tickets| ==> Settled(s, k) || exists t :: Pending(s, t, k))
    && (forall t :: t in s.threads ==> ThreadOk(s, s.threads[t]))
  }

  ghost predicate ThreadOk(s: State, pc: Pc) {
    match pc
    case SlotLoad(sample, slot) => slot < s.limit && Issued(s, sample, slot)
    case SlotCas(sample, slot, was) =>
      slot < s.limit && Issued(s, sample, slot) && (was.Some? ==> was.value.sequence <= sample.sequence)
    case _ => true
  }

  /** Every value handed to add so far: those ticketed and those still on the way to a ticket. */
  ghost predicate Offered(s: State, v: int) {
    (exists k :: 0 <= k < |s.tickets| && s.tickets[k].value == v) || exists t :: Carries(s, t, v)
  }

  ghost predicate Carries(s: State, t: nat, v: int) {
    && t in s.threads
    && !s.threads[t].SlotLoad? && !s.threads[t].SlotCas?
    && s.threads[t].v == v
  }

  ghost predicate ExtremaOk(s: State) {
    && Fits(s.min) && 0 <= s.max
    && (s.min == MAX_INT64 || Offered(s, s.min))
    && (s.max == 0 || Offered(s, s.max))
    && (forall k :: 0 <= k < |s.tickets| ==> Fits(s.tickets[k].value) && s.min <= s.tickets[k].value <= s.max)
    && (forall t :: t in s.threads ==> ExtremaPc(s, s.threads[t]))
  }

  ghost predicate ExtremaPc(s: State, pc: Pc) {
    match pc
    case MinLoad(v) => Fits(v)
    case MinCas(v, was) => Fits(v) && v < was
    case MaxLoad(v) => Fits(v) && s.min <= v
    case MaxCas(v, was) => Fits(v) && s.min <= v && v > was
    case Draw(v) => Fits(v) && s.min <= v <= s.max
    case _ => true
  }

  ghost predicate Inv(s: State) {
    SlotsOk(s) && ExtremaOk(s)
  }

  lemma InitialInv(limit: nat)
    ensures Inv(Initial(limit))
  {}

  lemma LocalThreadStep(s: State, e: Step, t: nat)
    requires SlotsOk(s) && Next(s, e).Some? && !e.TakeTicket? && !e.CasSlot? && t in Next(s, e).value.threads
    ensures ThreadOk(Next(s, e).value, Next(s, e).value.threads[t])
  {
    assert t != e.t ==> ThreadOk(s, s.threads[t]);
    assert e.t in s.threads ==> ThreadOk(s, s.threads[e.t]);
  }

  lemma LocalPendingStep(s: State, e: Step, t: nat, k: nat)
    requires SlotsOk(s) && Next(s, e).Some? && !e.TakeTicket? && !e.CasSlot?
    requires k < |s.tickets| && Pending(s, t, k) && !Settled(s, k)
    ensures Pending(Next(s, e).value, t, k)
  {}

  /** Thread-local operations leave slots and tickets alone. */
  lemma LocalSlotsStep(s: State, e: Step)
    requires SlotsOk(s) && Next(s, e).Some? && !e.TakeTicket? && !e.CasSlot?
    ensures SlotsOk(Next(s, e).value)
  {
    var s' := Next(s, e).value;
    assert s'.slots == s.slots && s'.tickets == s.tickets && s'.limit == s.limit && s'.seen == s.seen;
    forall t | t in s'.threads
      ensures ThreadOk(s', s'.threads[t])
    {
      LocalThreadStep(s, e, t);
    }
    forall k | 0 <= k < |s'.tickets|
      ensures Settled(s', k) || exists t :: Pending(s', t, k)
    {
      if !Settled(s, k) {
        var t :| Pending(s, t, k);
        LocalPendingStep(s, e, t, k);
      }
    }
  }

  lemma TicketSlotsStep(s: State, e: Step)
    requires SlotsOk(s) && Next(s, e).Some? && e.TakeTicket?
    ensures SlotsOk(Next(s, e).value)
  {
    var s' := Next(s, e).value;
    forall t | t in s'.threads
      ensures ThreadOk(s', s'.threads[t])
    {
      assert t != e.t ==> ThreadOk(s, s.threads[t]);
    }
    forall k | 0 <= k < |s'.tickets|
      ensures Settled(s', k) || exists t :: Pending(s', t, k)
    {
      if k == |s.tickets| {
        assert Settled(s', k) || Pending(s', e.t, k);
      } else if !Settled(s, k) {
        var t :| Pending(s, t, k);
        assert Pending(s', t, k);
      }
    }
  }

  /** A swap only ever raises the sequence kept in a slot, and empties none. */
  lemma CasSlotsStep(s: State, e: Step)
    requires SlotsOk(s) && Next(s, e).Some? && e.CasSlot?
    ensures SlotsOk(Next(s, e).value)
    ensures forall i :: 0 <= i < s.limit && s.slots[i].Some? ==>
              && Next(s, e).value.slots[i].Some?
              && Next(s, e).value.slots[i].value.sequence >= s.slots[i].value.sequence
  {
    var s' := Next(s, e).value;
    var pc := s.threads[e.t];
    assert ThreadOk(s, pc);
    forall t | t in s'.threads
      ensures ThreadOk(s', s'.threads[t])
    {
      assert t != e.t ==> ThreadOk(s, s.threads[t]);
    }
    forall k | 0 <= k < |s'.tickets|
      ensures Settled(s', k) || exists t :: Pending(s', t, k)
    {
      if !Settled(s, k) {
        var t :| Pending(s, t, k);
        assert Pending(s', t, k) || Settled(s', k);
      }
    }
  }

  lemma SlotsStep(s: State, e: Step)
    requires SlotsOk(s) && Next(s, e).Some?
    ensures SlotsOk(Next(s, e).value)
  {
    if e.TakeTicket? {
      TicketSlotsStep(s, e);
    } else if e.CasSlot? {
      CasSlotsStep(s, e);
    } else {
      LocalSlotsStep(s, e);
    }
  }

  lemma ExtremaThreadStep(s: State, e: Step, t: nat)
    requires Inv(s) && Next(s, e).Some? && t in Next(s, e).value.threads
    ensures ExtremaPc(Next(s, e).value, Next(s, e).value.threads[t])
  {
    assert t != e.t ==> t in s.threads && Next(s, e).value.threads[t] == s.threads[t];
    assert e.t in s.threads ==> ExtremaPc(s, s.threads[e.t]);
  }

  lemma ExtremaStep(s: State, e: Step)
    requires Inv(s) && Next(s, e).Some?
    ensures ExtremaOk(Next(s, e).value)
  {
    var s' := Next(s, e).value;
    if Offered(s, s.min) {
      OfferedStep(s, e, s.min);
    }
    if Offered(s, s.max) {
      OfferedStep(s, e, s.max);
    }
    assert e.t in s.threads ==> ExtremaPc(s, s.threads[e.t]);
    if e.CasMin? || e.CasMax? {
      assert Carries(s', e.t, s'.threads[e.t].v);
    }
    forall t | t in s'.threads
      ensures ExtremaPc(s', s'.threads[t])
    {
      ExtremaThreadStep(s, e, t);
    }
  }

  /** A value once offered stays offered: it only moves from a call to a ticket. */
  lemma OfferedStep(s: State, e: Step, v: int)
    requires SlotsOk(s) && Next(s, e).Some? && Offered(s, v)
    ensures Offered(Next(s, e).value, v)
  {
    var s' := Next(s, e).value;
    if k :| 0 <= k < |s.tickets| && s.tickets[k].value == v {
      assert s'.tickets[k].value == v;
    } else {
      var t :| Carries(s, t, v);
      if t == e.t && e.TakeTicket? {
        assert s'.tickets[|s.tickets|].value == v;
      } else {
        assert Carries(s', t, v);
      }
    }
  }

  lemma StepKeepsInv(s: State, e: Step)
    requires Inv(s) && Next(s, e).Some?
    ensures Inv(Next(s, e).value)
  {
    SlotsStep(s, e);
    ExtremaStep(s, e);
  }

  lemma {:induction false} RunKeepsInv(s: State, steps: seq<Step>, s': State)
    requires Inv(s) && Runs(s, steps, s')
    ensures Inv(s') && s'.limit == s.limit
    decreases |steps|
  {
    if steps != [] {
      StepKeepsInv(s, steps[0]);
      RunKeepsInv(Next(s, steps[0]).value, steps[1..], s');
    }
  }

  // ---- what every schedule leaves behind ----

  lemma QuiescentTicket(s: State, j: nat)
    requires SlotsOk(s) && s.threads == map[] && j < |s.tickets|
    ensures Settled(s, j)
  {}

  lemma QuiescentSlot(s: State, i: nat)
    requires SlotsOk(s) && s.threads == map[] && i < s.limit
    ensures s.slots[i] == Reservoir(s.limit, s.tickets)[i]
  {
    forall j: nat | j < |s.tickets|
      ensures Settled(s, j)
    {
      QuiescentTicket(s, j);
    }
    if s.slots[i].Some? {
      var k: nat := s.slots[i].value.sequence - 1;
      assert forall j :: k < j < |s.tickets| && Settled(s, j) ==> s.tickets[j].slot != i;
      assert LastAt(s.tickets, i, k);
      ReservoirKeepsLast(s.limit, s.tickets, i, k);
    } else {
      assert forall k :: 0 <= k < |s.tickets| && Settled(s, k) ==> s.tickets[k].slot != i;
      ReservoirLeavesEmpty(s.limit, s.tickets, i);
    }
  }

  /**
   * Once every call has finished, the slots are the sequential reservoir of the samples in
   * ticket order, whatever the interleaving was.
   */
  lemma QuiescentSlots(s: State)
    requires Inv(s) && s.threads == map[]
    ensures s.slots == Reservoir(s.limit, s.tickets)
  {
    forall i | 0 <= i < s.limit
      ensures s.slots[i] == Reservoir(s.limit, s.tickets)[i]
    {
      QuiescentSlot(s, i);
    }
  }

  /** Exactly the first min(seen, limit) slots are filled. */
  lemma QuiescentFilled(s: State, i: nat)
    requires Inv(s) && s.threads == map[] && i < s.limit
    ensures s.slots[i].Some? <==> i < s.seen
  {
    if i < s.seen {
      assert Settled(s, i);
    } else if s.slots[i].Some? {
      assert false;
    }
  }

  ghost predicate IsMin(tickets: seq<Ticket>, m: int) {
    && (exists k :: 0 <= k < |tickets| && tickets[k].value == m)
    && (forall k :: 0 <= k < |tickets| ==> m <= tickets[k].value)
  }

  ghost predicate IsMax(tickets: seq<Ticket>, m: int) {
    && (exists k :: 0 <= k < |tickets| && tickets[k].value == m)
    && (forall k :: 0 <= k < |tickets| ==> tickets[k].value <= m)
  }

  /**
   * The stored minimum is exact once every call has finished. The stored maximum starts at
   * zero, so it is exact just when some sample is not negative.
   */
  lemma QuiescentExtrema(s: State)
    requires Inv(s) && s.threads == map[] && s.seen > 0
    ensures IsMin(s.tickets, s.min)
    ensures IsMax(s.tickets, s.max) <==> exists k :: 0 <= k < |s.tickets| && s.tickets[k].value >= 0
    ensures !IsMax(s.tickets, s.max) ==> s.max == 0
  {
    assert Fits(s.tickets[0].value) && s.min <= s.tickets[0].value;
    if s.min == MAX_INT64 {
      assert s.tickets[0].value == s.min;
    } else {
      assert Offered(s, s.min);
    }
    if s.max != 0 {
      assert Offered(s, s.max);
    }
  }

  /** The maximum does miss: one call, of -1, leaves a stored maximum of 0. */
  lemma NegativeMaximumIsMissed() returns (steps: seq<Step>, s: State)
    ensures Runs(Initial(1), steps, s) && s.threads == map[] && s.seen == 1
    ensures s.min == -1 && s.max == 0 && !IsMax(s.tickets, s.max)
  {
    var s1 := Next(Initial(1), Call(0, -1)).value;
    var s2 := Next(s1, LoadMin(0)).value;
    var s3 := Next(s2, CasMin(0)).value;
    var s4 := Next(s3, LoadMax(0)).value;
    assert s4.threads[0] == Draw(-1) && s4.min == -1 && s4.max == 0 && s4.tickets == [] && s4.slots == [None];
    var rest;
    rest, s := TicketIsKept(s4);
    Prepend(s3, LoadMax(0), rest, s);
    Prepend(s2, CasMin(0), [LoadMax(0)] + rest, s);
    Prepend(s1, LoadMin(0), [CasMin(0)] + ([LoadMax(0)] + rest), s);
    Prepend(Initial(1), Call(0, -1), [LoadMin(0)] + ([CasMin(0)] + ([LoadMax(0)] + rest)), s);
    steps := [Call(0, -1)] + ([LoadMin(0)] + ([CasMin(0)] + ([LoadMax(0)] + rest)));
    assert s.tickets[0].value == -1;
  }

  lemma TicketIsKept(s: State) returns (steps: seq<Step>, s': State)
    requires s.limit == 1 && s.slots == [None] && s.seen == 0 && s.tickets == []
    requires s.threads.Keys == {0} && s.threads[0] == Draw(-1)
    ensures Runs(s, steps, s') && s'.threads == map[] && s'.seen == 1 && s'.tickets == [Ticket(-1, 0)]
    ensures s'.min == s.min && s'.max == s.max
  {
    var s1 := Next(s, TakeTicket(0, 0)).value;
    var s2 := Next(s1, LoadSlot(0)).value;
    s' := Next(s2, CasSlot(0)).value;
    assert Runs(s', [], s');
    Prepend(s2, CasSlot(0), [], s');
    Prepend(s1, LoadSlot(0), [CasSlot(0)], s');
    Prepend(s, TakeTicket(0, 0), [LoadSlot(0)] + [CasSlot(0)], s');
    steps := [TakeTicket(0, 0)] + ([LoadSlot(0)] + [CasSlot(0)]);
  }

  lemma Prepend(s: State, e: Step, steps: seq<Step>, s': State)
    requires Next(s, e).Some? && Runs(Next(s, e).value, steps, s')
    ensures Runs(s, [e] + steps, s')
  {
    assert ([e] + steps)[1..] == steps;
  }

  // ---- nothing is lost on the way to a ticket ----

  function Calls(steps: seq<Step>): nat {
    if steps == [] then 0 else (if steps[0].Call? then 1 else 0) + Calls(steps[1..])
  }

  predicate BeforeTicket(pc: Pc) {
    !pc.SlotLoad? && !pc.SlotCas?
  }

  lemma StepDrawsTicket(s: State, e: Step)
    requires Next(s, e).Some?
    ensures var s' := Next(s, e).value;
            s'.seen + Count(s'.threads, BeforeTicket)
            == s.seen + Count(s.threads, BeforeTicket) + if e.Call? then 1 else 0
  {
    var s' := Next(s, e).value;
    if e.t in s'.threads {
      CountSet(s.threads, e.t, s'.threads[e.t], BeforeTicket);
    } else {
      CountRemove(s.threads, e.t, BeforeTicket);
    }
  }

  /** The values of all calls, in the order of the calls. */
  function CallValues(steps: seq<Step>): seq<int> {
    if steps == [] then [] else (if steps[0].Call? then [steps[0].v] else []) + CallValues(steps[1..])
  }

  /** The values on the tickets, in ticket order. */
  function TicketValues(tickets: seq<Ticket>): (values: seq<int>)
    ensures |values| == |tickets|
  {
    seq(|tickets|, i requires 0 <= i < |tickets| => tickets[i].value)
  }

  /** Calls with this value that have no ticket yet. */
  function Waiting(v: int): Pc -> bool {
    (pc: Pc) => BeforeTicket(pc) && pc.v == v
  }

  lemma StepTickets(s: State, e: Step)
    requires Next(s, e).Some?
    ensures TicketValues(Next(s, e).value.tickets) ==
              TicketValues(s.tickets) + if e.TakeTicket? then [s.threads[e.t].v] else []
  {}

  lemma StepConserves(s: State, e: Step, v: int)
    requires Next(s, e).Some?
    ensures var s' := Next(s, e).value;
            multiset(TicketValues(s'.tickets))[v] + Count(s'.threads, Waiting(v))
            == multiset(TicketValues(s.tickets))[v] + Count(s.threads, Waiting(v))
               + if e.Call? && e.v == v then 1 else 0
  {
    var s' := Next(s, e).value;
    StepTickets(s, e);
    if e.t in s'.threads {
      CountSet(s.threads, e.t, s'.threads[e.t], Waiting(v));
    } else {
      CountRemove(s.threads, e.t, Waiting(v));
    }
  }

  /** v is on as many new tickets and waiting calls as calls were made with it. */
  ghost predicate Conserves(s: State, steps: seq<Step>, s': State, v: int) {
    multiset(TicketValues(s'.tickets))[v] + Count(s'.threads, Waiting(v))
    == multiset(TicketValues(s.tickets))[v] + Count(s.threads, Waiting(v)) + multiset(CallValues(steps))[v]
  }

  /** No value is lost, doubled or made up on its way to a ticket. */
  lemma {:induction false} RunConserves(s: State, steps: seq<Step>, s': State, v: int)
    requires Runs(s, steps, s')
    ensures Conserves(s, steps, s', v)
    decreases |steps|
  {
    if steps != [] {
      StepConserves(s, steps[0], v);
      RunConserves(Next(s, steps[0]).value, steps[1..], s', v);
      var first := if steps[0].Call? then [steps[0].v] else [];
      assert multiset(CallValues(steps)) == multiset(first) + multiset(CallValues(steps[1..]));
    }
  }

  /** At rest the values on the tickets are exactly the values handed to add, each as often. */
  lemma TicketsAreTheCalls(limit: nat, steps: seq<Step>, s: State)
    requires Runs(Initial(limit), steps, s) && s.threads == map[]
    ensures multiset(TicketValues(s.tickets)) == multiset(CallValues(steps))
  {
    forall v: int
      ensures multiset(TicketValues(s.tickets))[v] == multiset(CallValues(steps))[v]
    {
      RunConserves(Initial(limit), steps, s, v);
      assert Hits(s.threads, Waiting(v)) == {} == Hits(Initial(limit).threads, Waiting(v));
    }
  }

  /** Each call of add draws exactly one ticket with its value on it, and nothing else draws any. */
  lemma {:induction false} RunDrawsOneTicketPerCall(s: State, steps: seq<Step>, s': State)
    requires Inv(s) && Runs(s, steps, s')
    ensures s'.seen + Count(s'.threads, BeforeTicket) == s.seen + Count(s.threads, BeforeTicket) + Calls(steps)
    ensures forall v :: Offered(s, v) ==> Offered(s', v)
    ensures forall k :: 0 <= k < |steps| && steps[k].Call? ==> Offered(s', steps[k].v)
    ensures forall v: int :: Conserves(s, steps, s', v)
    decreases |steps|
  {
    forall v: int
      ensures Conserves(s, steps, s', v)
    {
      RunConserves(s, steps, s', v);
    }
    if steps != [] {
      var e := steps[0];
      var next := Next(s, e).value;
      StepKeepsInv(s, e);
      forall v | Offered(s, v)
        ensures Offered(next, v)
      {
        OfferedStep(s, e, v);
      }
      if e.Call? {
        assert Carries(next, e.t, e.v);
      }
      StepDrawsTicket(s, e);
      RunDrawsOneTicketPerCall(next, steps[1..], s');
    }
  }

  /** The whole statement over runs: any schedule of add calls that has come to rest. */
  lemma EverySchedule(limit: nat, steps: seq<Step>, s: State)
    requires Runs(Initial(limit), steps, s) && s.threads == map[]
    ensures |s.tickets| == s.seen == Calls(steps)
    ensures multiset(TicketValues(s.tickets)) == multiset(CallValues(steps))
    ensures forall k :: 0 <= k < |steps| && steps[k].Call? ==>
                          exists j :: 0 <= j < s.seen && s.tickets[j].value == steps[k].v
    ensures s.slots == Reservoir(limit, s.tickets)
    ensures forall i :: 0 <= i < limit ==> (s.slots[i].Some? <==> i < s.seen)
    ensures s.seen > 0 ==> IsMin(s.tickets, s.min)
    ensures s.seen > 0 ==> (IsMax(s.tickets, s.max) <==> exists k :: 0 <= k < s.seen && s.tickets[k].value >= 0)
  {
    InitialInv(limit);
    RunKeepsInv(Initial(limit), steps, s);
    RunDrawsOneTicketPerCall(Initial(limit), steps, s);
    TicketsAreTheCalls(limit, steps, s);
    assert Hits(s.threads, BeforeTicket) == {} == Hits(Initial(limit).threads, BeforeTicket);
    QuiescentSlots(s);
    forall i | 0 <= i < limit
      ensures s.slots[i].Some? <==> i < s.seen
    {
      QuiescentFilled(s, i);
    }
    if s.seen > 0 {
      QuiescentExtrema(s);
    }
  }
}

module Sampler {
  import opened Options
  import opened SamplerSpec

  /**
   * The shared sampler. Each method is one atomic operation of a call of add running as
   * thread t; the ghost fields record where every call stands and the tickets drawn so far.
   */
  class LatencySampler {
    const limit: nat
    const slots: array<Option<Sample>>
    var seen: nat
    var min: int
    var max: int
    ghost var threads: map<nat, Pc>
    ghost var tickets: seq<Ticket>

    ghost function View(): State
      reads this, slots
    {
      State(limit, slots[..], seen, min, max, threads, tickets)
    }

    ghost predicate Valid()
      reads this, slots
    {
      Inv(View())
    }

    constructor (limit: nat)
      ensures Valid() && fresh(slots) && View() == Initial(limit)
    {
      this.limit := limit;
      slots := new Option<Sample>[limit](_ => None);
      seen, min, max := 0, MAX_INT64, 0;
      threads, tickets := map[], [];
      new;
      InitialInv(limit);
      assert slots[..] == Initial(limit).slots;
    }

    method BeginAdd(ghost t: nat, v: int)
      requires Valid() && t !in threads && MIN_INT64 <= v <= MAX_INT64
      modifies this`threads
      ensures Next(old(View()), Call(t, v)) == Some(View()) && Valid()
    {
      StepKeepsInv(View(), Call(t, v));
      threads := threads[t := MinLoad(v)];
    }

    method LoadMinimum(ghost t: nat, v: int) returns (current: int)
      requires Valid() && t in threads && threads[t] == MinLoad(v)
      modifies this`threads
      ensures Valid() && current == min && Next(old(View()), LoadMin(t)) == Some(View())
    {
      StepKeepsInv(View(), LoadMin(t));
      current := min;
      threads := threads[t := if v < current then MinCas(v, current) else MaxLoad(v)];
    }

    method SwapMinimum(ghost t: nat, v: int, current: int) returns (swapped: bool)
      requires Valid() && t in threads && threads[t] == MinCas(v, current)
      modifies this`threads, this`min
      ensures Valid() && swapped == (old(min) == current) && Next(old(View()), CasMin(t)) == Some(View())
      ensures min == if swapped then v else old(min)
    {
      StepKeepsInv(View(), CasMin(t));
      swapped := min == current;
      if swapped {
        min := v;
      }
      threads := threads[t := if swapped then MaxLoad(v) else MinLoad(v)];
    }

    method LoadMaximum(ghost t: nat, v: int) returns (current: int)
      requires Valid() && t in threads && threads[t] == MaxLoad(v)
      modifies this`threads
      ensures Valid() && current == max && Next(old(View()), LoadMax(t)) == Some(View())
    {
      StepKeepsInv(View(), LoadMax(t));
      current := max;
      threads := threads[t := if v > current then MaxCas(v, current) else SamplerSpec.Draw(v)];
    }

    method SwapMaximum(ghost t: nat, v: int, current: int) returns (swapped: bool)
      requires Valid() && t in threads && threads[t] == MaxCas(v, current)
      modifies this`threads, this`max
      ensures Valid() && swapped == (old(max) == current) && Next(old(View()), CasMax(t)) == Some(View())
      ensures max == if swapped then v else old(max)
    {
      StepKeepsInv(View(), CasMax(t));
      swapped := max == current;
      if swapped {
        max := v;
      }
      threads := threads[t := if swapped then SamplerSpec.Draw(v) else MaxLoad(v)];
    }

    /** seen.Add(1), then the worker's private choice of a slot. */
    method DrawTicket(ghost t: nat, v: int, random: nat) returns (sequence: nat, slot: nat)
      requires Valid() && t in threads && threads[t] == SamplerSpec.Draw(v)
      modifies this`threads, this`seen, this`tickets
      ensures Valid() && sequence == seen == old(seen) + 1
      ensures slot == if sequence <= limit then sequence - 1 else random % sequence
      ensures tickets == old(tickets) + [Ticket(v, slot)]
      ensures Next(old(View()), TakeTicket(t, random)) == Some(View())
    {
      StepKeepsInv(View(), TakeTicket(t, random));
      seen := seen + 1;
      sequence := seen;
      slot := sequence - 1;
      if sequence > limit {
        slot := random % sequence;
      }
      tickets := tickets + [Ticket(v, slot)];
      threads := if slot < limit then threads[t := SlotLoad(Sample(sequence, v), slot)] else threads - {t};
    }

    /** The slot's content, and whether a later sample already holds it. */
    method ReadSlot(ghost t: nat, sample: Sample, slot: nat) returns (current: Option<Sample>, outrun: bool)
      requires Valid() && t in threads && threads[t] == SlotLoad(sample, slot) && slot < limit
      modifies this`threads
      ensures Valid() && current == slots[slot] && Next(old(View()), LoadSlot(t)) == Some(View())
      ensures outrun <==> current.Some? && current.value.sequence > sample.sequence
      ensures outrun <==> t !in threads
    {
      StepKeepsInv(View(), LoadSlot(t));
      current := slots[slot];
      outrun := current.Some? && current.value.sequence > sample.sequence;
      threads := if outrun then threads - {t} else threads[t := SlotCas(sample, slot, current)];
    }

    method SwapSlot(ghost t: nat, sample: Sample, slot: nat, current: Option<Sample>) returns (swapped: bool)
      requires Valid() && t in threads && threads[t] == SlotCas(sample, slot, current) && slot < limit
      modifies this`threads, slots
      ensures Valid() && swapped == (old(slots[slot]) == current) && Next(old(View()), CasSlot(t)) == Some(View())
      ensures slots[slot] == (if swapped then Some(sample) else old(slots[slot]))
    {
      StepKeepsInv(View(), CasSlot(t));
      swapped := slots[slot] == current;
      if swapped {
        slots[slot] := Some(sample);
        threads := threads - {t};
      } else {
        threads := threads[t := SlotLoad(sample, slot)];
      }
    }

    method Extrema() returns (low: int, high: int)
      requires Valid() && threads == map[]
      ensures if tickets == [] then low == high == 0 else IsMin(tickets, low)
      ensures if exists k :: 0 <= k < |tickets| && tickets[k].value >= 0 then IsMax(tickets, high) else high == 0
    {
      if seen == 0 {
        return 0, 0;
      }
      QuiescentExtrema(View());
      return min, max;
    }

    /** The kept samples, slot by slot: the values of the sequential reservoir. */
    method Values() returns (values: seq<int>)
      requires Valid() && threads == map[]
      ensures |values| == if seen < limit then seen else limit
      ensures forall i :: 0 <= i < |values| ==>
                            var kept := Reservoir(limit, tickets)[i]; kept.Some? && values[i] == kept.value.value
    {
      QuiescentSlots(View());
      ghost var kept := if seen < limit then seen else limit;
      values := [];
      for i := 0 to slots.Length
        invariant |values| == if i < kept then i else kept
        invariant forall j :: 0 <= j < |values| ==> slots[j].Some? && values[j] == slots[j].value.value
      {
        QuiescentFilled(View(), i);
        if slots[i].Some? {
          values := values + [slots[i].value.value];
        }
      }
    }
  }
}
