// One admin endpoint for many instances (main.go).

module AdminMergeSpec {
  import opened Options

  const DEFAULT_LOG_MAX := 1000

  /** What an instance declares about each admin option, if anything. */
  datatype Declares<!I, A> = Declares(stats: I -> Option<A>, web: I -> Option<A>, logMax: I -> Option<int>)

  datatype Admin<A> = Admin(stats: Option<A>, web: Option<A>, logMax: int)

  datatype Field = Stats | Web | LogMax

  datatype Result<A> = Merged(admin: Admin<A>) | Conflict(field: Field)

  /** Two instances declare the option and differ. */
  ghost predicate Clash<I, A>(x: I, y: I, f: I -> Option<A>) {
    f(x).Some? && f(y).Some? && f(x) != f(y)
  }

  /** All instances that declare the option declare the same. */
  ghost predicate Agreed<I(!new), A>(instances: seq<I>, f: I -> Option<A>) {
    forall x, y :: x in instances && y in instances ==> !Clash(x, y, f)
  }

  ghost predicate Declared<I(!new), A>(instances: seq<I>, f: I -> Option<A>) {
    exists x :: x in instances && f(x).Some?
  }

  /** Addresses must agree; log capacities only if somebody asks for a web panel. */
  ghost predicate Mergeable<I(!new), A>(instances: seq<I>, d: Declares<I, A>) {
    && Agreed(instances, d.stats)
    && Agreed(instances, d.web)
    && (Declared(instances, d.web) ==> Agreed(instances, d.logMax))
  }

  /** The first declaration of an option. */
  function First<I, A>(instances: seq<I>, f: I -> Option<A>): Option<A> {
    if instances == [] then None
    else if f(instances[0]).Some? then f(instances[0])
    else First(instances[1..], f)
  }

  function LogMax(kept: Option<int>): int {
    if kept.Some? then kept.value else DEFAULT_LOG_MAX
  }

  /** Instance k is the first whose declaration differs from an earlier one. */
  ghost predicate ClashesAt<I(!new), A>(instances: seq<I>, k: nat, f: I -> Option<A>) {
    k < |instances| && Agreed(instances[..k], f) && !Agreed(instances[..k + 1], f)
  }

  /**
   * What a merge must come to: it succeeds just when the instances agree, and then with what they
   * agree on; a refusal names the option whose clash comes first, and the log capacity last of all.
   */
  ghost predicate Merges<I(!new), A>(instances: seq<I>, d: Declares<I, A>, r: Result<A>) {
    match r
    case Merged(admin) =>
      && Mergeable(instances, d)
      && admin.stats == First(instances, d.stats)
      && admin.web == First(instances, d.web)
      && admin.logMax == LogMax(First(instances, d.logMax))
    case Conflict(Stats) => exists k: nat :: ClashesAt(instances, k, d.stats) && Agreed(instances[..k], d.web)
    case Conflict(Web) => exists k: nat :: ClashesAt(instances, k, d.web) && Agreed(instances[..k + 1], d.stats)
    case Conflict(LogMax) =>
      && Agreed(instances, d.stats) && Agreed(instances, d.web)
      && Declared(instances, d.web) && !Agreed(instances, d.logMax)
  }

  /** The source's answer is settled by the order: no two results fit one list of instances. */
  lemma OneResult<I(!new), A>(instances: seq<I>, d: Declares<I, A>, r: Result<A>, q: Result<A>)
    requires Merges(instances, d, r) && Merges(instances, d, q)
    ensures r == q
  {
    ClashIsForGood(instances, d.stats);
    ClashIsForGood(instances, d.web);
  }

  lemma ClashIsForGood<I(!new), A>(instances: seq<I>, f: I -> Option<A>)
    ensures forall k: nat :: ClashesAt(instances, k, f) ==> !Agreed(instances, f)
    ensures forall k: nat, n: nat :: ClashesAt(instances, k, f) && k < n <= |instances| ==> !Agreed(instances[..n], f)
  {
    forall k: nat, n: nat | ClashesAt(instances, k, f) && k < n <= |instances|
      ensures !Agreed(instances[..n], f)
    {
      assert instances[..n][..k + 1] == instances[..k + 1];
      if Agreed(instances[..n], f) {
        FewerAgree(instances[..n], k + 1, f);
      }
    }
    assert instances[..|instances|] == instances;
  }

  lemma {:induction false} FirstIsDeclared<I(!new), A>(instances: seq<I>, f: I -> Option<A>)
    ensures First(instances, f).Some? <==> Declared(instances, f)
    ensures First(instances, f).Some? ==> exists x :: x in instances && f(x) == First(instances, f)
  {
    if instances != [] {
      assert instances == [instances[0]] + instances[1..];
      if f(instances[0]).None? {
        FirstIsDeclared(instances[1..], f);
      }
    }
  }

  /** Two orders of the same instances. */
  lemma SameMembers<I(!new)>(a: seq<I>, b: seq<I>)
    requires multiset(a) == multiset(b)
    ensures forall x :: x in a <==> x in b
  {
    forall x
      ensures x in a <==> x in b
    {
      assert x in a <==> x in multiset(a);
      assert x in b <==> x in multiset(b);
    }
  }

  lemma AgreedInAnyOrder<I(!new), A>(a: seq<I>, b: seq<I>, f: I -> Option<A>)
    requires forall x :: x in a <==> x in b
    ensures Agreed(a, f) <==> Agreed(b, f)
    ensures Declared(a, f) <==> Declared(b, f)
    ensures Agreed(a, f) ==> First(a, f) == First(b, f)
  {
    FirstIsDeclared(a, f);
    FirstIsDeclared(b, f);
  }

  /** Success, the addresses, and a log capacity that a web panel uses do not depend on the order. */
  lemma OrderDoesNotMatter<I(!new), A>(a: seq<I>, b: seq<I>, d: Declares<I, A>, ra: Result<A>, rb: Result<A>)
    requires multiset(a) == multiset(b) && Merges(a, d, ra) && Merges(b, d, rb)
    ensures ra.Merged? <==> rb.Merged?
    ensures ra.Merged? ==> ra.admin.stats == rb.admin.stats && ra.admin.web == rb.admin.web
    ensures ra.Merged? && ra.admin.web.Some? ==> ra.admin.logMax == rb.admin.logMax
  {
    SameMembers(a, b);
    AgreedInAnyOrder(a, b, d.stats);
    AgreedInAnyOrder(a, b, d.web);
    AgreedInAnyOrder(a, b, d.logMax);
    FirstIsDeclared(a, d.web);
    ClashIsForGood(a, d.stats);
    ClashIsForGood(a, d.web);
    ClashIsForGood(b, d.stats);
    ClashIsForGood(b, d.web);
  }

  /** The same instances with x in front. */
  lemma InFront<I(!new)>(a: seq<I>, x: I) returns (rest: seq<I>)
    requires x in a
    ensures multiset([x] + rest) == multiset(a) && forall y :: y in a && y != x ==> y in rest
  {
    var i :| 0 <= i < |a| && a[i] == x;
    rest := a[..i] + a[i + 1..];
    assert a == a[..i] + [x] + a[i + 1..];
  }

  /** A capacity that no web panel uses comes out the same in every order just when all agree on it. */
  lemma UnusedCapacityFollowsOrder<I(!new), A>(a: seq<I>, d: Declares<I, A>, ra: Result<A>)
    requires Merges(a, d, ra) && ra.Merged? && !Declared(a, d.web)
    ensures (forall b, rb :: multiset(b) == multiset(a) && Merges(b, d, rb) ==> rb == ra) <==> Agreed(a, d.logMax)
  {
    if Agreed(a, d.logMax) {
      forall b, rb | multiset(b) == multiset(a) && Merges(b, d, rb)
        ensures rb == ra
      {
        OrderDoesNotMatter(a, b, d, ra, rb);
        SameMembers(a, b);
        AgreedInAnyOrder(a, b, d.logMax);
      }
    } else {
      var x, y :| x in a && y in a && d.logMax(x).Some? && d.logMax(y).Some? && d.logMax(x) != d.logMax(y);
      var other := if d.logMax(x) == First(a, d.logMax) then y else x;
      var rest := InFront(a, other);
      var b := [other] + rest;
      SameMembers(a, b);
      AgreedInAnyOrder(a, b, d.stats);
      AgreedInAnyOrder(a, b, d.web);
      FirstIsDeclared(a, d.logMax);
      var rb := Merged(Admin(First(b, d.stats), First(b, d.web), LogMax(First(b, d.logMax))));
      assert Merges(b, d, rb) && First(b, d.logMax) == d.logMax(other);
    }
  }

  /** Some order is refused over the stats address just when two instances differ on it. */
  lemma RefusedOverStats<I(!new), A>(a: seq<I>, d: Declares<I, A>)
    ensures (exists b: seq<I> :: multiset(b) == multiset(a) && Merges(b, d, Conflict(Stats))) <==> !Agreed(a, d.stats)
  {
    forall b: seq<I> | multiset(b) == multiset(a) && Merges(b, d, Conflict(Stats))
      ensures !Agreed(a, d.stats)
    {
      SameMembers(a, b);
      ClashIsForGood(b, d.stats);
      AgreedInAnyOrder(a, b, d.stats);
    }
    if x, y :| x in a && y in a && Clash(x, y, d.stats) {
      var b := ClashInFront(a, x, y, d.stats);
      assert Merges(b, d, Conflict(Stats));
    }
  }

  /**
   * Some order is refused over the web address just when two instances differ on it and not on the
   * stats address too: which option a refusal names does depend on the order.
   */
  lemma RefusedOverWeb<I(!new), A>(a: seq<I>, d: Declares<I, A>)
    ensures (exists b: seq<I> :: multiset(b) == multiset(a) && Merges(b, d, Conflict(Web)))
       <==> exists x, y :: x in a && y in a && Clash(x, y, d.web) && !Clash(x, y, d.stats)
  {
    forall b: seq<I> | multiset(b) == multiset(a) && Merges(b, d, Conflict(Web))
      ensures exists x, y :: x in a && y in a && Clash(x, y, d.web) && !Clash(x, y, d.stats)
    {
      SameMembers(a, b);
      var k: nat :| ClashesAt(b, k, d.web) && Agreed(b[..k + 1], d.stats);
      assert exists x, y :: x in b[..k + 1] && y in b[..k + 1] && Clash(x, y, d.web);
      var x, y :| x in b[..k + 1] && y in b[..k + 1] && Clash(x, y, d.web);
      assert x in a && y in a && !Clash(x, y, d.stats);
    }
    if x, y :| x in a && y in a && Clash(x, y, d.web) && !Clash(x, y, d.stats) {
      var b := ClashInFront(a, x, y, d.web);
      assert Agreed(b[..2], d.stats);
      assert Merges(b, d, Conflict(Web));
    }
  }

  lemma ClashInFront<I(!new), A>(a: seq<I>, x: I, y: I, f: I -> Option<A>) returns (b: seq<I>)
    requires x in a && y in a && Clash(x, y, f)
    ensures multiset(b) == multiset(a) && |b| >= 2 && b[..2] == [x, y] && b[..1] == [x] && ClashesAt(b, 1, f)
  {
    var rest := InFront(a, x);
    var more := InFront(rest, y);
    b := [x] + ([y] + more);
    assert multiset(b) == multiset([x]) + multiset([y] + more) == multiset([x] + rest);
    assert b[..2] == [x, y] && b[..1] == [x];
    assert b[..2][0] == x && b[..2][1] == y;
  }

  /** What every instance that declares an option finds in a successful merge, and who is to blame for a refusal. */
  lemma MergesForEach<I(!new), A>(instances: seq<I>, d: Declares<I, A>, r: Result<A>)
    requires Merges(instances, d, r)
    ensures r.Merged? ==> forall i :: i in instances ==>
              && (d.stats(i).Some? ==> r.admin.stats == d.stats(i))
              && (d.web(i).Some? ==> r.admin.web == d.web(i))
              && (d.logMax(i).Some? && r.admin.web.Some? ==> r.admin.logMax == d.logMax(i).value)
    ensures r.Merged? ==>
              && (r.admin.stats.Some? ==> exists i :: i in instances && d.stats(i).Some?)
              && (r.admin.web.Some? ==> exists i :: i in instances && d.web(i).Some?)
              && (|| r.admin.logMax == DEFAULT_LOG_MAX
                  || exists i :: i in instances && d.logMax(i) == Some(r.admin.logMax))
    ensures r == Conflict(Stats) ==> exists i, j :: i in instances && j in instances && Clash(i, j, d.stats)
    ensures r == Conflict(Web) ==> exists i, j :: i in instances && j in instances && Clash(i, j, d.web)
    ensures r.Conflict? && r.field.LogMax? ==> exists i, j :: i in instances && j in instances && Clash(i, j, d.logMax)
    ensures r.Conflict? && r.field.LogMax? ==> exists i :: i in instances && d.web(i).Some?
  {
    FirstIsDeclared(instances, d.stats);
    FirstIsDeclared(instances, d.web);
    FirstIsDeclared(instances, d.logMax);
    ClashIsForGood(instances, d.stats);
    ClashIsForGood(instances, d.web);
  }

  // ---- one more instance ----

  lemma {:induction false} FirstOfMore<I, A>(instances: seq<I>, x: I, f: I -> Option<A>)
    ensures First(instances + [x], f) == if First(instances, f).Some? then First(instances, f) else f(x)
  {
    if instances == [] {
      assert instances + [x] == [x];
    } else {
      assert (instances + [x])[1..] == instances[1..] + [x];
      FirstOfMore(instances[1..], x, f);
    }
  }

  lemma AgreedWithMore<I(!new), A>(instances: seq<I>, x: I, f: I -> Option<A>)
    requires Agreed(instances, f)
    ensures Agreed(instances + [x], f) <==> (f(x).Some? && First(instances, f).Some? ==> First(instances, f) == f(x))
  {
    FirstIsDeclared(instances, f);
    assert x in instances + [x];
    assert forall y :: y in instances ==> y in instances + [x];
  }

  lemma FewerAgree<I(!new), A>(instances: seq<I>, k: nat, f: I -> Option<A>)
    requires k <= |instances| && Agreed(instances, f)
    ensures Agreed(instances[..k], f)
  {
  }
}

module AdminMerge {
  import opened AdminMergeSpec
  import opened Options

  function Named(s: string): Option<string> {
    if s == "" then None else Some(s)
  }

  // ---- forward instances ----

  datatype Forward = Forward(statsAddr: string, webAddr: string, webLogMax: int, webLogMaxSet: bool)

  function DeclaredLogMax(set_: bool, max: int): Option<int> {
    if set_ then Some(max) else None
  }

  function ForwardDeclares(trim: string -> string): Declares<Forward, string> {
    Declares((i: Forward) => Named(trim(i.statsAddr)),
             (i: Forward) => Named(trim(i.webAddr)),
             (i: Forward) => DeclaredLogMax(i.webLogMaxSet, i.webLogMax))
  }

  /** The log capacity seen so far: the first one, and whether a different one came later. */
  ghost predicate LogSoFar<I(!new)>(seen: seq<I>, f: I -> Option<int>, max: int, known: bool, conflict: bool) {
    && First(seen, f) == DeclaredLogMax(known, max)
    && (!known ==> max == DEFAULT_LOG_MAX)
    && (conflict <==> !Agreed(seen, f))
  }

  lemma LogWithMore<I(!new)>(seen: seq<I>, x: I, f: I -> Option<int>, max: int, known: bool, conflict: bool)
    requires LogSoFar(seen, f, max, known, conflict)
    ensures f(x).None? ==> LogSoFar(seen + [x], f, max, known, conflict)
    ensures f(x).Some? && known && max != f(x).value ==> LogSoFar(seen + [x], f, max, known, true)
    ensures f(x).Some? && !(known && max != f(x).value) ==> LogSoFar(seen + [x], f, f(x).value, true, conflict)
  {
    FirstOfMore(seen, x, f);
    if conflict {
      assert (seen + [x])[..|seen|] == seen;
      if Agreed(seen + [x], f) {
        FewerAgree(seen + [x], |seen|, f);
      }
    } else {
      AgreedWithMore(seen, x, f);
    }
  }

  /** What one more instance does to the addresses, and where it clashes with them. */
  lemma OneMore<I(!new), A>(instances: seq<I>, k: nat, d: Declares<I, A>)
    requires k < |instances| && Agreed(instances[..k], d.stats) && Agreed(instances[..k], d.web)
    ensures instances[..k + 1] == instances[..k] + [instances[k]]
    ensures Settles(instances, k, d.stats) && Settles(instances, k, d.web)
  {
    assert instances[..k + 1] == instances[..k] + [instances[k]];
    SettlesOne(instances, k, d.stats);
    SettlesOne(instances, k, d.web);
  }

  ghost predicate Settles<I(!new), A>(instances: seq<I>, k: nat, f: I -> Option<A>)
    requires k < |instances|
  {
    var before, now := First(instances[..k], f), f(instances[k]);
    if now.Some? && before.Some? && now != before then ClashesAt(instances, k, f)
    else Agreed(instances[..k + 1], f) && First(instances[..k + 1], f) == if before.Some? then before else now
  }

  lemma SettlesOne<I(!new), A>(instances: seq<I>, k: nat, f: I -> Option<A>)
    requires k < |instances| && Agreed(instances[..k], f)
    ensures Settles(instances, k, f)
  {
    assert instances[..k + 1] == instances[..k] + [instances[k]];
    FirstOfMore(instances[..k], instances[k], f);
    AgreedWithMore(instances[..k], instances[k], f);
  }

  /** Three forwarders, refused over the stats address in one order and over the web address in another. */
  lemma RefusalFollowsOrder(trim: string -> string) returns (a: seq<Forward>, b: seq<Forward>)
    requires trim("") == "" && trim("1") == "1" && trim("2") == "2"
    ensures multiset(a) == multiset(b)
    ensures Merges(a, ForwardDeclares(trim), Conflict(Stats)) && Merges(b, ForwardDeclares(trim), Conflict(Web))
  {
    var d := ForwardDeclares(trim);
    var both := Forward("1", "1", 0, false);
    var web, stats := Forward("", "2", 0, false), Forward("2", "", 0, false);
    var all := [both, web, stats];
    assert both in all && web in all && stats in all;
    assert "1"[0] != "2"[0];
    assert Clash(both, stats, d.stats) && Clash(both, web, d.web) && !Clash(both, web, d.stats);
    RefusedOverStats(all, d);
    RefusedOverWeb(all, d);
    a :| multiset(a) == multiset(all) && Merges(a, d, Conflict(Stats));
    b :| multiset(b) == multiset(all) && Merges(b, d, Conflict(Web));
  }

  /** The result, as each forwarder finds it: its own addresses, and its log capacity if a web panel uses it. */
  ghost predicate ForwardsServed(instances: seq<Forward>, trim: string -> string, admin: Admin<string>) {
    && (forall i :: i in instances ==>
          && (trim(i.statsAddr) != "" ==> admin.stats == Some(trim(i.statsAddr)))
          && (trim(i.webAddr) != "" ==> admin.web == Some(trim(i.webAddr)))
          && (i.webLogMaxSet && admin.web.Some? ==> admin.logMax == i.webLogMax))
    && (admin.stats.Some? ==> exists i :: i in instances && trim(i.statsAddr) != "")
    && (admin.web.Some? ==> exists i :: i in instances && trim(i.webAddr) != "")
    && (admin.logMax == 1000 || exists i :: i in instances && i.webLogMaxSet && i.webLogMax == admin.logMax)
  }

  /** Two forwarders that the refusal is about. */
  predicate ForwardsDiffer(i: Forward, j: Forward, trim: string -> string, field: Field) {
    match field
    case Stats => trim(i.statsAddr) != trim(j.statsAddr) && trim(i.statsAddr) != "" && trim(j.statsAddr) != ""
    case Web => trim(i.webAddr) != trim(j.webAddr) && trim(i.webAddr) != "" && trim(j.webAddr) != ""
    case LogMax => i.webLogMaxSet && j.webLogMaxSet && i.webLogMax != j.webLogMax
  }

  ghost predicate ForwardsTold(instances: seq<Forward>, trim: string -> string, r: Result<string>) {
    match r
    case Merged(admin) => ForwardsServed(instances, trim, admin)
    case Conflict(field) =>
      && (exists i, j :: i in instances && j in instances && ForwardsDiffer(i, j, trim, field))
      && (field.LogMax? ==> exists i :: i in instances && trim(i.webAddr) != "")
  }

  /** What CollectForward promises, said of the forwarders themselves. */
  lemma ForwardsAreTold(instances: seq<Forward>, trim: string -> string, r: Result<string>)
    requires Merges(instances, ForwardDeclares(trim), r)
    ensures ForwardsTold(instances, trim, r)
  {
    var d := ForwardDeclares(trim);
    MergesForEach(instances, d, r);
    if r.Merged? {
      assert forall i :: i in instances ==> d.stats(i) == Named(trim(i.statsAddr));
      assert forall i :: i in instances ==> d.web(i) == Named(trim(i.webAddr));
      assert forall i :: i in instances ==> d.logMax(i) == DeclaredLogMax(i.webLogMaxSet, i.webLogMax);
    } else {
      var f := if r.field.Stats? then d.stats else d.web;
      var i, j :| i in instances && j in instances && if r.field.LogMax? then Clash(i, j, d.logMax) else Clash(i, j, f);
      assert ForwardsDiffer(i, j, trim, r.field);
    }
  }

  /** collectForwardAdminOptions. */
  method CollectForward(instances: seq<Forward>, trim: string -> string) returns (r: Result<string>)
    ensures Merges(instances, ForwardDeclares(trim), r)
  {
    ghost var d := ForwardDeclares(trim);
    var statsAddr, webAddr := "", "";
    var webLogMax, webLogMaxSet, conflict := DEFAULT_LOG_MAX, false, false;
    for k := 0 to |instances|
      invariant Agreed(instances[..k], d.stats) && Named(statsAddr) == First(instances[..k], d.stats)
      invariant Agreed(instances[..k], d.web) && Named(webAddr) == First(instances[..k], d.web)
      invariant LogSoFar(instances[..k], d.logMax, webLogMax, webLogMaxSet, conflict)
    {
      var opt := instances[k];
      OneMore(instances, k, d);
      LogWithMore(instances[..k], opt, d.logMax, webLogMax, webLogMaxSet, conflict);
      var stats := trim(opt.statsAddr);
      if stats != "" {
        if statsAddr != "" && statsAddr != stats {
          return Conflict(Stats);
        }
        statsAddr := stats;
      }
      var web := trim(opt.webAddr);
      if web != "" {
        if webAddr != "" && webAddr != web {
          return Conflict(Web);
        }
        webAddr := web;
      }
      if opt.webLogMaxSet {
        if webLogMaxSet && webLogMax != opt.webLogMax {
          conflict := true;
          continue;
        }
        webLogMax, webLogMaxSet := opt.webLogMax, true;
      }
    }
    assert instances[..|instances|] == instances;
    FirstIsDeclared(instances, d.web);
    if webAddr != "" && conflict {
      return Conflict(LogMax);
    }
    return Merged(Admin(Named(statsAddr), Named(webAddr), webLogMax));
  }

  // ---- proxy instances ----

  datatype Proxy = Proxy(
    statsAddr: string, statsAllowPublic: bool,
    webAddr: string, webAllowPublic: bool,
    webLogMax: int, webLogMaxSet: bool)

  function Open(addr: string, public: bool): Option<(string, bool)> {
    if addr == "" then None else Some((addr, public))
  }

  function ProxyDeclares(trim: string -> string): Declares<Proxy, (string, bool)> {
    Declares((i: Proxy) => Open(trim(i.statsAddr), i.statsAllowPublic),
             (i: Proxy) => Open(trim(i.webAddr), i.webAllowPublic),
             (i: Proxy) => DeclaredLogMax(i.webLogMaxSet, i.webLogMax))
  }

  /** The result, as each proxy finds it: its own addresses, each with its own access flag. */
  ghost predicate ProxiesServed(instances: seq<Proxy>, trim: string -> string, admin: Admin<(string, bool)>) {
    && (forall i :: i in instances ==>
          && (trim(i.statsAddr) != "" ==> admin.stats == Some((trim(i.statsAddr), i.statsAllowPublic)))
          && (trim(i.webAddr) != "" ==> admin.web == Some((trim(i.webAddr), i.webAllowPublic)))
          && (i.webLogMaxSet && admin.web.Some? ==> admin.logMax == i.webLogMax))
    && (admin.stats.Some? ==> exists i :: i in instances && trim(i.statsAddr) != "")
    && (admin.web.Some? ==> exists i :: i in instances && trim(i.webAddr) != "")
    && (admin.logMax == 1000 || exists i :: i in instances && i.webLogMaxSet && i.webLogMax == admin.logMax)
  }

  /** Two proxies that the refusal is about: addresses set in both that differ, or differ in who may use them. */
  predicate ProxiesDiffer(i: Proxy, j: Proxy, trim: string -> string, field: Field) {
    match field
    case Stats =>
      && trim(i.statsAddr) != "" && trim(j.statsAddr) != ""
      && (trim(i.statsAddr) != trim(j.statsAddr) || i.statsAllowPublic != j.statsAllowPublic)
    case Web =>
      && trim(i.webAddr) != "" && trim(j.webAddr) != ""
      && (trim(i.webAddr) != trim(j.webAddr) || i.webAllowPublic != j.webAllowPublic)
    case LogMax => i.webLogMaxSet && j.webLogMaxSet && i.webLogMax != j.webLogMax
  }

  ghost predicate ProxiesTold(instances: seq<Proxy>, trim: string -> string, r: Result<(string, bool)>) {
    match r
    case Merged(admin) => ProxiesServed(instances, trim, admin)
    case Conflict(field) =>
      && (exists i, j :: i in instances && j in instances && ProxiesDiffer(i, j, trim, field))
      && (field.LogMax? ==> exists i :: i in instances && trim(i.webAddr) != "")
  }

  /** What CollectProxy promises, said of the proxies themselves. */
  lemma ProxiesAreTold(instances: seq<Proxy>, trim: string -> string, r: Result<(string, bool)>)
    requires Merges(instances, ProxyDeclares(trim), r)
    ensures ProxiesTold(instances, trim, r)
  {
    var d := ProxyDeclares(trim);
    MergesForEach(instances, d, r);
    if r.Merged? {
      assert forall i :: i in instances ==> d.stats(i) == Open(trim(i.statsAddr), i.statsAllowPublic);
      assert forall i :: i in instances ==> d.web(i) == Open(trim(i.webAddr), i.webAllowPublic);
      assert forall i :: i in instances ==> d.logMax(i) == DeclaredLogMax(i.webLogMaxSet, i.webLogMax);
    } else {
      var f := if r.field.Stats? then d.stats else d.web;
      var i, j :| i in instances && j in instances && if r.field.LogMax? then Clash(i, j, d.logMax) else Clash(i, j, f);
      assert ProxiesDiffer(i, j, trim, r.field);
    }
  }

  datatype Mismatch = NoClash | AddrClash | PublicClash

  /** The fields that mergeProxyAdminEndpoint writes through its pointers. */
  class Endpoint {
    var addr: string
    var public: bool
    var configured: bool

    ghost predicate Valid()
      reads this
    {
      configured <==> addr != ""
    }

    constructor ()
      ensures Valid() && View() == None
    {
      addr, public, configured := "", false, false;
    }

    function View(): Option<(string, bool)>
      reads this
    {
      if configured then Some((addr, public)) else None
    }

    /** mergeProxyAdminEndpoint: keeps the first declaration, and names the part a later one differs in. */
    method Merge(value: string, allow: bool, trim: string -> string) returns (clash: Mismatch)
      requires Valid()
      modifies this
      ensures Valid()
      ensures var now := Open(trim(value), allow);
              && View() == (if old(View()).Some? then old(View()) else now)
              && (clash.NoClash? <==> (now.Some? && old(View()).Some? ==> now == old(View())))
              && (clash.AddrClash? ==> now.value.0 != old(View()).value.0)
              && (clash.PublicClash? ==> now.value.0 == old(View()).value.0 && now.value.1 != old(View()).value.1)
    {
      var trimmed := trim(value);
      if trimmed == "" {
        return NoClash;
      }
      if configured && addr != trimmed {
        return AddrClash;
      }
      if configured && public != allow {
        return PublicClash;
      }
      addr, public, configured := trimmed, allow, true;
      return NoClash;
    }
  }

  /** collectProxyAdminOptions. */
  method CollectProxy(instances: seq<Proxy>, trim: string -> string) returns (r: Result<(string, bool)>)
    ensures Merges(instances, ProxyDeclares(trim), r)
  {
    ghost var d := ProxyDeclares(trim);
    var stats := new Endpoint();
    var web := new Endpoint();
    var webLogMax, webLogMaxSet, conflict := DEFAULT_LOG_MAX, false, false;
    for k := 0 to |instances|
      invariant Agreed(instances[..k], d.stats) && stats.View() == First(instances[..k], d.stats)
      invariant Agreed(instances[..k], d.web) && web.View() == First(instances[..k], d.web)
      invariant LogSoFar(instances[..k], d.logMax, webLogMax, webLogMaxSet, conflict)
      invariant stats.Valid() && web.Valid()
      modifies stats, web
    {
      var opt := instances[k];
      OneMore(instances, k, d);
      LogWithMore(instances[..k], opt, d.logMax, webLogMax, webLogMaxSet, conflict);
      var clash := stats.Merge(opt.statsAddr, opt.statsAllowPublic, trim);
      if !clash.NoClash? {
        return Conflict(Stats);
      }
      clash := web.Merge(opt.webAddr, opt.webAllowPublic, trim);
      if !clash.NoClash? {
        return Conflict(Web);
      }
      if opt.webLogMaxSet {
        if webLogMaxSet && webLogMax != opt.webLogMax {
          conflict := true;
          continue;
        }
        webLogMax, webLogMaxSet := opt.webLogMax, true;
      }
    }
    assert instances[..|instances|] == instances;
    FirstIsDeclared(instances, d.web);
    if web.addr != "" && conflict {
      return Conflict(LogMax);
    }
    return Merged(Admin(stats.View(), web.View(), webLogMax));
  }
}
