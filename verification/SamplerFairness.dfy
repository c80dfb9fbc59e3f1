// The sampler's random choice (cmd/loadtest/main.go): over all random numbers, every sample is as
// likely to be in the reservoir as any other.

module SamplerFairness {
  import opened Options
  import opened SamplerSpec

  // ---- one choice ----

  /** Below the sequence number, each slot comes from exactly one random number. */
  lemma EachSlotOnce(limit: nat, sequence: nat, i: nat)
    requires limit < sequence && i < sequence
    ensures SlotFor(limit, sequence, i) == i
    ensures forall r: nat :: r < sequence && SlotFor(limit, sequence, r) == i ==> r == i
  {
    forall r: nat | r < sequence
      ensures SlotFor(limit, sequence, r) == r
    {
      SmallModulo(r, sequence);
    }
  }

  lemma SmallModulo(r: nat, m: nat)
    requires r < m
    ensures r % m == r
  {}

  /** The choice repeats with the sequence number as its period, so it is even over any whole period. */
  lemma ChoiceRepeats(limit: nat, sequence: nat, random: nat)
    requires limit < sequence
    ensures SlotFor(limit, sequence, random + sequence) == SlotFor(limit, sequence, random) < sequence
  {
    var q, m := random / sequence, random % sequence;
    assert (q + 1) * sequence + m == random + sequence;
    ModuloIsUnique(random + sequence, sequence, q + 1, m);
  }

  lemma ModuloIsUnique(x: nat, s: nat, q: nat, m: nat)
    requires m < s && x == q * s + m
    ensures x % s == m
  {
    QuotientsAgree(s, q, m, x / s, x % s);
  }

  lemma QuotientsAgree(s: nat, q: nat, m: nat, p: nat, k: nat)
    requires m < s && k < s && q * s + m == p * s + k
    ensures m == k
  {
    if q > p {
      Multiples(s, p, q);
    } else if p > q {
      Multiples(s, q, p);
    }
  }

  lemma Multiples(s: nat, p: nat, q: nat)
    requires p < q
    ensures q * s >= p * s + s
  {
    var d := q - p;
    assert q * s == p * s + d * s;
    OneMore(d, s);
    assert (d - 1) * s >= 0;
  }

  lemma OneMore(m: nat, c: nat)
    requires m > 0
    ensures m * c == (m - 1) * c + c
  {}

  /** The first samples fill the slots in order, whatever the random numbers are. */
  lemma FirstSamplesFill(limit: nat, sequence: nat, random: nat)
    requires 0 < sequence <= limit
    ensures SlotFor(limit, sequence, random) == sequence - 1 < limit
  {}

  // ---- the fate of one sample ----

  /** The tickets that n samples draw with these random numbers. */
  function Tickets(limit: nat, values: nat -> int, randoms: seq<nat>): (tickets: seq<Ticket>)
    ensures |tickets| == |randoms|
  {
    seq(|randoms|, i requires 0 <= i < |randoms| => Ticket(values(i), SlotFor(limit, i + 1, randoms[i])))
  }

  /** Sample k (counted from 1) is in the reservoir. */
  ghost predicate Kept(limit: nat, values: nat -> int, randoms: seq<nat>, k: nat) {
    exists slot :: 0 <= slot < limit && InSlot(Reservoir(limit, Tickets(limit, values, randoms))[slot], k)
  }

  predicate InSlot(content: Option<Sample>, k: nat) {
    content.Some? && content.value.sequence == k
  }

  /** It was admitted, and no later sample was aimed at its slot. */
  ghost predicate Alive(limit: nat, randoms: seq<nat>, k: nat)
    requires 0 < k <= |randoms|
  {
    var slot := SlotFor(limit, k, randoms[k - 1]);
    slot < limit && forall j: nat :: k <= j < |randoms| ==> SlotFor(limit, j + 1, randoms[j]) != slot
  }

  /** Either nothing was aimed at the slot, or there is a last ticket that was. */
  lemma {:induction false} LastTicket(tickets: seq<Ticket>, slot: nat) returns (last: Option<nat>)
    ensures last.Some? ==> LastAt(tickets, slot, last.value)
    ensures last.None? ==> forall k :: 0 <= k < |tickets| ==> tickets[k].slot != slot
  {
    if tickets == [] {
      last := None;
    } else if tickets[|tickets| - 1].slot == slot {
      last := Some(|tickets| - 1);
    } else {
      last := LastTicket(tickets[..|tickets| - 1], slot);
    }
  }

  lemma AliveIsKept(limit: nat, values: nat -> int, randoms: seq<nat>, k: nat)
    requires 0 < k <= |randoms| && Alive(limit, randoms, k)
    ensures Kept(limit, values, randoms, k)
  {
    var tickets := Tickets(limit, values, randoms);
    var own := SlotFor(limit, k, randoms[k - 1]);
    assert LastAt(tickets, own, k - 1);
    ReservoirKeepsLast(limit, tickets, own, k - 1);
    assert InSlot(Reservoir(limit, tickets)[own], k);
  }

  lemma KeptIsLast(limit: nat, tickets: seq<Ticket>, slot: nat, k: nat)
    requires slot < limit && 0 < k && InSlot(Reservoir(limit, tickets)[slot], k)
    ensures LastAt(tickets, slot, k - 1)
  {
    var last := LastTicket(tickets, slot);
    if last.None? {
      ReservoirLeavesEmpty(limit, tickets, slot);
    } else {
      ReservoirKeepsLast(limit, tickets, slot, last.value);
    }
  }

  lemma KeptIsAlive(limit: nat, values: nat -> int, randoms: seq<nat>, k: nat)
    requires 0 < k <= |randoms| && Kept(limit, values, randoms, k)
    ensures Alive(limit, randoms, k)
  {
    var tickets := Tickets(limit, values, randoms);
    var slot: nat :| slot < limit && InSlot(Reservoir(limit, tickets)[slot], k);
    KeptIsLast(limit, tickets, slot, k);
    assert forall j: nat :: k <= j < |randoms| ==> tickets[j].slot == SlotFor(limit, j + 1, randoms[j]);
  }

  lemma AliveAfterOneMore(limit: nat, randoms: seq<nat>, r: nat, k: nat)
    requires 0 < k <= |randoms|
    ensures Alive(limit, randoms + [r], k) <==>
              Alive(limit, randoms, k) && SlotFor(limit, |randoms| + 1, r) != SlotFor(limit, k, randoms[k - 1])
  {
    var more := randoms + [r];
    assert more[k - 1] == randoms[k - 1] && more[|randoms|] == r;
    assert forall j: nat :: j < |randoms| ==> more[j] == randoms[j];
    if Alive(limit, more, k) {
      assert forall j: nat :: k <= j < |randoms| ==>
                                SlotFor(limit, j + 1, randoms[j]) == SlotFor(limit, j + 1, more[j]);
    }
  }

  // ---- counting over all random numbers ----

  /** In how many of the ways to go on to n samples, sample i drawing below i, sample k ends up kept. */
  ghost function Tally(limit: nat, values: nat -> int, randoms: seq<nat>, n: nat, k: nat): nat
    requires |randoms| <= n
    decreases n - |randoms|, |randoms| + 2
  {
    if |randoms| == n then (if Kept(limit, values, randoms, k) then 1 else 0)
    else TallyBelow(limit, values, randoms, n, k, |randoms| + 1)
  }

  /** The same with the next random number below m. */
  ghost function TallyBelow(limit: nat, values: nat -> int, randoms: seq<nat>, n: nat, k: nat, m: nat): nat
    requires |randoms| < n && m <= |randoms| + 1
    decreases n - |randoms|, m
  {
    if m == 0 then 0
    else TallyBelow(limit, values, randoms, n, k, m - 1) + Tally(limit, values, randoms + [m - 1], n, k)
  }

  /** The ways in which a sample kept after i samples is still kept after n. */
  function Spared(limit: nat, i: nat, n: nat): nat
    requires i <= n
    decreases n - i
  {
    if i == n then 1 else (if i < limit then i + 1 else i) * Spared(limit, i + 1, n)
  }

  lemma {:induction false} AliveTally(limit: nat, values: nat -> int, randoms: seq<nat>, n: nat, k: nat)
    requires 0 < k <= |randoms| <= n
    ensures Tally(limit, values, randoms, n, k) ==
              if Alive(limit, randoms, k) then Spared(limit, |randoms|, n) else 0
    decreases n - |randoms|, |randoms| + 3
  {
    if |randoms| == n {
      if Alive(limit, randoms, k) {
        AliveIsKept(limit, values, randoms, k);
      } else if Kept(limit, values, randoms, k) {
        KeptIsAlive(limit, values, randoms, k);
      }
    } else {
      AliveTallyBelow(limit, values, randoms, n, k, |randoms| + 1);
    }
  }

  lemma AliveTallyOne(limit: nat, values: nat -> int, randoms: seq<nat>, n: nat, k: nat, r: nat)
    requires 0 < k <= |randoms| < n && r <= |randoms|
    ensures var own := SlotFor(limit, k, randoms[k - 1]);
            Tally(limit, values, randoms + [r], n, k) ==
              if Alive(limit, randoms, k) && (|randoms| < limit || r != own) then Spared(limit, |randoms| + 1, n) else 0
    decreases n - |randoms|, 1
  {
    AliveTally(limit, values, randoms + [r], n, k);
    AliveAfterOneMore(limit, randoms, r, k);
    if |randoms| >= limit {
      EachSlotOnce(limit, |randoms| + 1, r);
    }
  }

  /** Of the next numbers below m, all spare the sample while slots are filling, and all but one later. */
  lemma {:induction false} AliveTallyBelow(limit: nat, values: nat -> int, randoms: seq<nat>, n: nat, k: nat, m: nat)
    requires 0 < k <= |randoms| < n && m <= |randoms| + 1
    ensures var own, c := SlotFor(limit, k, randoms[k - 1]), Spared(limit, |randoms| + 1, n);
            TallyBelow(limit, values, randoms, n, k, m) ==
              if !Alive(limit, randoms, k) then 0
              else if |randoms| < limit || m <= own then m * c else (m - 1) * c
    decreases n - |randoms|, m + 1
  {
    if m > 0 {
      var c := Spared(limit, |randoms| + 1, n);
      AliveTallyBelow(limit, values, randoms, n, k, m - 1);
      AliveTallyOne(limit, values, randoms, n, k, m - 1);
      OneMore(m, c);
      if m > 1 {
        OneMore(m - 1, c);
      }
    }
  }

  /** A sample is admitted for one random number per slot, and always while slots are filling. */
  lemma FreshTally(limit: nat, values: nat -> int, randoms: seq<nat>, n: nat, r: nat)
    requires |randoms| < n && r <= |randoms|
    ensures var k := |randoms| + 1;
            Tally(limit, values, randoms + [r], n, k) == if k <= limit || r < limit then Spared(limit, k, n) else 0
  {
    var k := |randoms| + 1;
    AliveTally(limit, values, randoms + [r], n, k);
    assert (randoms + [r])[k - 1] == r;
    if k > limit {
      EachSlotOnce(limit, k, r);
    }
  }

  lemma {:induction false} FreshTallyBelow(limit: nat, values: nat -> int, randoms: seq<nat>, n: nat, m: nat)
    requires |randoms| < n && m <= |randoms| + 1
    ensures var k := |randoms| + 1;
            TallyBelow(limit, values, randoms, n, k, m) ==
              (if k <= limit || m <= limit then m else limit) * Spared(limit, k, n)
    decreases m
  {
    if m > 0 {
      var c := Spared(limit, |randoms| + 1, n);
      FreshTallyBelow(limit, values, randoms, n, m - 1);
      FreshTally(limit, values, randoms, n, m - 1);
      OneMore(m, c);
    }
  }

  function Admissions(limit: nat, k: nat): nat {
    if k <= limit then k else limit
  }

  /** The ways for samples i + 1 to j to draw their numbers. */
  function Draws(i: nat, j: nat): nat
    requires i <= j
    decreases j - i
  {
    if i == j then 1 else (i + 1) * Draws(i + 1, j)
  }

  lemma {:induction false} EarlyTally(limit: nat, values: nat -> int, randoms: seq<nat>, n: nat, k: nat)
    requires |randoms| < k <= n
    ensures Tally(limit, values, randoms, n, k) ==
              Draws(|randoms|, k - 1) * (Admissions(limit, k) * Spared(limit, k, n))
    decreases k - |randoms|, |randoms| + 2
  {
    if |randoms| == k - 1 {
      FreshTallyBelow(limit, values, randoms, n, k);
    } else {
      EarlyTallyBelow(limit, values, randoms, n, k, |randoms| + 1);
      OneDraw(|randoms|, k - 1, Admissions(limit, k) * Spared(limit, k, n));
    }
  }

  lemma OneDraw(i: nat, j: nat, rest: nat)
    requires i < j
    ensures (i + 1) * (Draws(i + 1, j) * rest) == Draws(i, j) * rest
  {
    Associates(i + 1, Draws(i + 1, j), rest);
  }

  lemma Associates(a: nat, b: nat, c: nat)
    ensures a * (b * c) == (a * b) * c
  {}

  lemma {:induction false} EarlyTallyBelow(limit: nat, values: nat -> int, randoms: seq<nat>, n: nat, k: nat, m: nat)
    requires |randoms| + 1 < k <= n && m <= |randoms| + 1
    ensures TallyBelow(limit, values, randoms, n, k, m) ==
              m * (Draws(|randoms| + 1, k - 1) * (Admissions(limit, k) * Spared(limit, k, n)))
    decreases k - |randoms|, m
  {
    if m > 0 {
      var c := Draws(|randoms| + 1, k - 1) * (Admissions(limit, k) * Spared(limit, k, n));
      EarlyTallyBelow(limit, values, randoms, n, k, m - 1);
      EarlyTally(limit, values, randoms + [m - 1], n, k);
      assert m * c == (m - 1) * c + c;
    }
  }

  // ---- every sample alike ----

  /** Earlier and later samples: what one gains in being admitted it loses in being replaced. */
  lemma NextSampleAlike(limit: nat, n: nat, k: nat)
    requires 0 < k < n
    ensures Draws(0, k - 1) * (Admissions(limit, k) * Spared(limit, k, n))
         == Draws(0, k) * (Admissions(limit, k + 1) * Spared(limit, k + 1, n))
  {
    var d, c := Draws(0, k - 1), Spared(limit, k + 1, n);
    DrawsMore(0, k - 1);
    if k < limit {
      Rearrange(d, k, k + 1, c);
    } else {
      assert Admissions(limit, k) == limit == Admissions(limit, k + 1);
      Rearrange(d, limit, k, c);
      Rearrange(d, k, limit, c);
      assert limit * k == k * limit;
    }
  }

  lemma {:induction false} DrawsMore(i: nat, j: nat)
    requires i <= j
    ensures Draws(i, j + 1) == Draws(i, j) * (j + 1)
    decreases j - i
  {
    if i < j {
      DrawsMore(i + 1, j);
      Associates(i + 1, Draws(i + 1, j), j + 1);
    }
  }

  lemma Rearrange(d: nat, a: nat, b: nat, c: nat)
    ensures d * (a * (b * c)) == (d * a) * (b * c) == d * ((a * b) * c)
  {
    Associates(d, a, b * c);
    Associates(a, b, c);
  }

  lemma {:induction false} SampleAlike(limit: nat, n: nat, k: nat)
    requires 0 < k <= n
    ensures Draws(0, k - 1) * (Admissions(limit, k) * Spared(limit, k, n)) == Draws(0, n - 1) * Admissions(limit, n)
    decreases n - k
  {
    if k < n {
      NextSampleAlike(limit, n, k);
      SampleAlike(limit, n, k + 1);
    }
  }

  /** With room for all n samples each is kept in every way, so the ways are n! in number. */
  lemma WaysInAll(values: nat -> int, n: nat, k: nat)
    requires 0 < k <= n
    ensures Tally(n, values, [], n, k) == Draws(0, n)
  {
    EverySampleAlike(n, values, n, k);
    DrawsMore(0, n - 1);
  }

  /**
   * The reservoir is fair. Of the n! ways in which n samples can draw their random numbers, each
   * sample, first or last, is kept in exactly min(limit, n) * (n - 1)!, the same share for all.
   */
  lemma EverySampleAlike(limit: nat, values: nat -> int, n: nat, k: nat)
    requires 0 < k <= n
    ensures Tally(limit, values, [], n, k) == Draws(0, n - 1) * (if n <= limit then n else limit)
  {
    EarlyTally(limit, values, [], n, k);
    SampleAlike(limit, n, k);
  }
}
