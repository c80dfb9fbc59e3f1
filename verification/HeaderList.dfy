// Splitting header lists and dropping one member (internal/proxy/http.go).

module HeaderListSpec {
  import opened Bytes

  /** Outside quotes, inside them, or right after a backslash inside them. */
  datatype Scan = Plain | Quoted | Escaped

  function After(st: Scan, c: char): Scan {
    match st
    case Escaped => Quoted
    case Quoted => if c == '\\' then Escaped else if c == '"' then Plain else Quoted
    case Plain => if c == '"' then Quoted else Plain
  }

  function End(st: Scan, s: string): Scan
    decreases |s|
  {
    if s == "" then st else End(After(st, s[0]), s[1..])
  }

  /** No comma of s, read from st, stands outside quotes. */
  predicate Uncut(st: Scan, s: string)
    decreases |s|
  {
    s == "" || (!(st.Plain? && s[0] == ',') && Uncut(After(st, s[0]), s[1..]))
  }

  /** The pieces between the commas outside quotes. */
  function RawSplit(st: Scan, s: string): (pieces: seq<string>)
    ensures pieces != []
    decreases |s|
  {
    if s == "" then [""]
    else if st.Plain? && s[0] == ',' then [""] + RawSplit(Plain, s[1..])
    else
      var rest := RawSplit(After(st, s[0]), s[1..]);
      [[s[0]] + rest[0]] + rest[1..]
  }

  function Join(sep: string, members: seq<string>): string {
    if members == [] then "" else if |members| == 1 then members[0]
    else members[0] + sep + Join(sep, members[1..])
  }

  /** Members a join can be split back into: none is cut, and only the last may leave a quote open. */
  predicate Splittable(members: seq<string>) {
    && (forall i :: 0 <= i < |members| ==> Uncut(Plain, members[i]))
    && (forall i :: 0 <= i < |members| - 1 ==> End(Plain, members[i]).Plain?)
  }

  // ---- what RawSplit computes, said without it ----

  lemma {:induction false} JoinOfRawSplit(st: Scan, s: string)
    ensures Join(",", RawSplit(st, s)) == s
    decreases |s|
  {
    if s != "" {
      var next := After(st, s[0]);
      var rest := RawSplit(next, s[1..]);
      JoinOfRawSplit(next, s[1..]);
      if st.Plain? && s[0] == ',' {
        assert ([""] + rest)[1..] == rest;
        assert "" + "," + s[1..] == s;
      } else {
        assert ([[s[0]] + rest[0]] + rest[1..])[1..] == rest[1..];
        assert s == [s[0]] + Join(",", rest);
        if |rest| > 1 {
          assert [s[0]] + (rest[0] + "," + Join(",", rest[1..])) == [s[0]] + rest[0] + "," + Join(",", rest[1..]);
        }
      }
    }
  }

  /** The first piece is uncut as read from st, and closed if another follows it. */
  predicate Opens(st: Scan, pieces: seq<string>)
    requires pieces != []
  {
    Uncut(st, pieces[0]) && (|pieces| > 1 ==> End(st, pieces[0]).Plain?)
  }

  lemma OpensFirst(pieces: seq<string>)
    requires pieces != [] && Opens(Plain, pieces) && Splittable(pieces[1..])
    ensures Splittable(pieces)
  {
    var rest := pieces[1..];
    forall i | 0 <= i < |pieces|
      ensures Uncut(Plain, pieces[i]) && (i < |pieces| - 1 ==> End(Plain, pieces[i]).Plain?)
    {
      assert i > 0 ==> pieces[i] == rest[i - 1];
    }
  }

  lemma {:induction false} RawSplitIsMaximal(st: Scan, s: string)
    ensures Opens(st, RawSplit(st, s)) && Splittable(RawSplit(st, s)[1..])
    decreases |s|
  {
    if s != "" {
      var next := After(st, s[0]);
      var rest := RawSplit(next, s[1..]);
      RawSplitIsMaximal(next, s[1..]);
      if st.Plain? && s[0] == ',' {
        assert ([""] + rest)[1..] == rest;
        OpensFirst(rest);
      } else {
        assert ([[s[0]] + rest[0]] + rest[1..])[1..] == rest[1..];
        assert ([s[0]] + rest[0])[1..] == rest[0];
      }
    }
  }

  /** The pieces joined with commas are the text, and each is a maximal uncut stretch. */
  lemma RawSplitIsExact(s: string)
    ensures Join(",", RawSplit(Plain, s)) == s && Splittable(RawSplit(Plain, s))
  {
    JoinOfRawSplit(Plain, s);
    RawSplitIsMaximal(Plain, s);
    OpensFirst(RawSplit(Plain, s));
  }

  lemma {:induction false} UncutPrefix(st: Scan, m: string, tail: string)
    requires Uncut(st, m)
    ensures RawSplit(st, m + tail) == [m + RawSplit(End(st, m), tail)[0]] + RawSplit(End(st, m), tail)[1..]
    decreases |m|
  {
    if m == "" {
      assert m + tail == tail;
      var r := RawSplit(st, tail);
      assert "" + r[0] == r[0] && [r[0]] + r[1..] == r;
    } else {
      assert (m + tail)[1..] == m[1..] + tail;
      UncutPrefix(After(st, m[0]), m[1..], tail);
      var r := RawSplit(End(st, m), tail);
      assert [m[0]] + (m[1..] + r[0]) == m + r[0];
    }
  }

  /** The converse: pieces that are uncut and closed are exactly what their join splits into. */
  lemma {:induction false} SplitOfJoin(members: seq<string>)
    requires members != [] && Splittable(members)
    ensures RawSplit(Plain, Join(",", members)) == members
  {
    var m := members[0];
    if |members| == 1 {
      UncutPrefix(Plain, m, "");
      assert m + "" == m;
    } else {
      var rest := members[1..];
      assert Splittable(rest);
      SplitOfJoin(rest);
      var tail := "," + Join(",", rest);
      assert m + "," + Join(",", rest) == m + tail;
      UncutPrefix(Plain, m, tail);
      assert tail[1..] == Join(",", rest);
      assert m + "" == m && members == [m] + rest;
    }
  }

  // ---- what the scanner takes for quoted, said by a grammar (section 5.6.4 of RFC 9110) ----

  /** A character inside quotes: one by itself, or one after a backslash. */
  datatype Bit = Char(c: char) | Pair(c: char)

  /** Text as characters and quoted strings; Unclosed is a quote left open, perhaps after a lone backslash. */
  datatype Text =
    | Empty
    | Bare(c: char, rest: Text)
    | Quotes(bits: seq<Bit>, rest: Text)
    | Unclosed(bits: seq<Bit>, dangling: bool)
  {
    /** No quoted string is shorter than it looks, and no comma stands outside them. */
    predicate Valid() {
      match this
      case Empty => true
      case Bare(c, rest) => c != '"' && c != ',' && rest.Valid()
      case Quotes(bits, rest) => ValidBits(bits) && rest.Valid()
      case Unclosed(bits, _) => ValidBits(bits)
    }

    predicate Closed() {
      match this
      case Empty => true
      case Bare(_, rest) => rest.Closed()
      case Quotes(_, rest) => rest.Closed()
      case Unclosed(_, _) => false
    }

    predicate StartsQuoted() {
      Quotes? || Unclosed?
    }

    function Render(): string
      decreases this, 1
    {
      if Empty? then "" else if Bare? then [c] + rest.Render() else ['"'] + Inner()
    }

    /** What follows the opening quote. */
    function Inner(): string
      requires StartsQuoted()
      decreases this, 0
    {
      RenderBits(bits) + if Quotes? then ['"'] + rest.Render() else if dangling then ['\\'] else []
    }
  }

  predicate ValidBit(bit: Bit) {
    bit.Char? ==> bit.c != '"' && bit.c != '\\'
  }

  predicate ValidBits(bits: seq<Bit>) {
    forall i :: 0 <= i < |bits| ==> ValidBit(bits[i])
  }

  function RenderBit(bit: Bit): string {
    if bit.Char? then [bit.c] else ['\\', bit.c]
  }

  function RenderBits(bits: seq<Bit>): string {
    if bits == [] then "" else RenderBit(bits[0]) + RenderBits(bits[1..])
  }

  lemma OneBit(bit: Bit)
    requires ValidBit(bit)
    ensures End(Quoted, RenderBit(bit)) == Quoted && Uncut(Quoted, RenderBit(bit))
  {
    var shown := RenderBit(bit);
    var next := After(Quoted, shown[0]);
    assert bit.Char? ==> shown[1..] == "";
    assert bit.Pair? ==> shown[1..] == [bit.c] && [bit.c][1..] == "";
    assert End(Quoted, shown) == End(next, shown[1..]);
  }

  lemma {:induction false} BitsStayQuoted(bits: seq<Bit>, tail: string)
    requires ValidBits(bits)
    ensures End(Quoted, RenderBits(bits) + tail) == End(Quoted, tail)
    ensures Uncut(Quoted, RenderBits(bits) + tail) <==> Uncut(Quoted, tail)
  {
    if bits == [] {
      assert RenderBits(bits) + tail == tail;
    } else {
      BitsStayQuoted(bits[1..], tail);
      OneBit(bits[0]);
      Regroup(RenderBit(bits[0]), RenderBits(bits[1..]), tail);
      EndOfConcat(Quoted, RenderBit(bits[0]), RenderBits(bits[1..]) + tail);
    }
  }

  lemma {:induction false} RenderedIsUncut(t: Text)
    requires t.Valid()
    ensures Uncut(Plain, t.Render()) && (End(Plain, t.Render()).Plain? <==> t.Closed())
  {
    var s := t.Render();
    match t
    case Empty =>
    case Bare(c, rest) =>
      RenderedIsUncut(rest);
      assert s[1..] == rest.Render();
    case Quotes(bits, rest) =>
      RenderedIsUncut(rest);
      BitsStayQuoted(bits, ['"'] + rest.Render());
      assert s[1..] == t.Inner() && (['"'] + rest.Render())[1..] == rest.Render();
    case Unclosed(bits, dangling) =>
      BitsStayQuoted(bits, if dangling then ['\\'] else []);
      assert s[1..] == t.Inner() && (dangling ==> ['\\'][1..] == []);
  }

  lemma {:induction false} TextOf(s: string) returns (t: Text)
    requires Uncut(Plain, s)
    ensures t.Valid() && t.Render() == s
    decreases |s|
  {
    if s == "" {
      t := Empty;
    } else if s[0] == '"' {
      t := QuotedTextOf(s[1..]);
    } else {
      var rest := TextOf(s[1..]);
      t := Bare(s[0], rest);
    }
  }

  /** Text that opens with a quote, with one more character inside it. */
  function AddBit(bit: Bit, t: Text): Text
    requires t.StartsQuoted()
  {
    if t.Quotes? then Quotes([bit] + t.bits, t.rest) else Unclosed([bit] + t.bits, t.dangling)
  }

  lemma AddedBit(bit: Bit, t: Text)
    requires t.StartsQuoted() && t.Valid() && ValidBit(bit)
    ensures AddBit(bit, t).Valid() && AddBit(bit, t).Inner() == RenderBit(bit) + t.Inner()
  {
    var bits := [bit] + t.bits;
    assert bits[1..] == t.bits;
    Regroup(RenderBit(bit), RenderBits(t.bits), t.Inner()[|RenderBits(t.bits)|..]);
  }

  lemma {:induction false} QuotedTextOf(s: string) returns (t: Text)
    requires Uncut(Quoted, s)
    ensures t.StartsQuoted() && t.Valid() && t.Inner() == s
    decreases |s|
  {
    if s == "" {
      t := Unclosed([], false);
    } else if s[0] == '"' {
      var rest := TextOf(s[1..]);
      t := Quotes([], rest);
    } else if s == "\\" {
      t := Unclosed([], true);
    } else {
      var k := if s[0] == '\\' then 2 else 1;
      var bit := if k == 2 then Pair(s[1]) else Char(s[0]);
      UncutPast(s, k);
      t := QuotedTextOf(s[k..]);
      AddedBit(bit, t);
      t := AddBit(bit, t);
      assert s == s[..k] + s[k..] && s[..k] == RenderBit(bit);
    }
  }

  /** Past one character inside quotes, the text is still inside them. */
  lemma UncutPast(s: string, k: nat)
    requires 0 < k <= |s| && Uncut(Quoted, s) && s[0] != '"' && k == if s[0] == '\\' then 2 else 1
    ensures Uncut(Quoted, s[k..])
  {
    if k == 2 {
      assert Uncut(Escaped, s[1..]) && s[1..][1..] == s[2..];
    }
  }

  predicate IsText(s: string, t: Text) {
    t.Valid() && t.Render() == s
  }

  /**
   * A piece is uncut exactly if it consists of quoted strings and of characters that are neither a
   * quote nor a comma; it is closed exactly if its last quoted string is.
   */
  lemma UncutIsText(s: string)
    ensures Uncut(Plain, s) <==> exists t :: IsText(s, t)
    ensures forall t :: IsText(s, t) ==> (End(Plain, s).Plain? <==> t.Closed())
  {
    if Uncut(Plain, s) {
      var t := TextOf(s);
      assert IsText(s, t);
    }
    forall t | IsText(s, t)
      ensures Uncut(Plain, s) && (End(Plain, s).Plain? <==> t.Closed())
    {
      RenderedIsUncut(t);
    }
  }

  // ---- trimming ----

  predicate IsSpace(c: char) {
    c == ' ' || c == '\t' || c == '\n' || c == '\r'
  }

  function TrimLeft(s: string): string {
    if s != "" && IsSpace(s[0]) then TrimLeft(s[1..]) else s
  }

  function TrimRight(s: string): string {
    if s != "" && IsSpace(s[|s| - 1]) then TrimRight(s[..|s| - 1]) else s
  }

  function Trim(s: string): string {
    TrimRight(TrimLeft(s))
  }

  predicate Trimmed(s: string) {
    s != "" ==> !IsSpace(s[0]) && !IsSpace(s[|s| - 1])
  }

  lemma {:induction false} TrimLeftKeepsScan(s: string)
    ensures TrimLeft(s) == "" || !IsSpace(TrimLeft(s)[0])
    ensures End(Plain, TrimLeft(s)) == End(Plain, s)
    ensures Uncut(Plain, s) ==> Uncut(Plain, TrimLeft(s))
  {
    if s != "" && IsSpace(s[0]) {
      TrimLeftKeepsScan(s[1..]);
    }
  }

  lemma {:induction false} EndOfConcat(st: Scan, a: string, b: string)
    ensures End(st, a + b) == End(End(st, a), b)
    ensures Uncut(st, a + b) <==> Uncut(st, a) && Uncut(End(st, a), b)
    decreases |a|
  {
    if a == "" {
      assert a + b == b;
    } else {
      assert (a + b)[1..] == a[1..] + b;
      EndOfConcat(After(st, a[0]), a[1..], b);
    }
  }

  lemma {:induction false} TrimRightKeepsScan(s: string)
    ensures TrimRight(s) <= s
    ensures TrimRight(s) != "" ==> !IsSpace(TrimRight(s)[|TrimRight(s)| - 1])
    ensures Uncut(Plain, s) ==> Uncut(Plain, TrimRight(s))
    ensures End(Plain, s).Plain? ==> End(Plain, TrimRight(s)).Plain?
  {
    if s != "" && IsSpace(s[|s| - 1]) {
      var front := s[..|s| - 1];
      assert s == front + [s[|s| - 1]];
      EndOfConcat(Plain, front, [s[|s| - 1]]);
      assert [s[|s| - 1]][1..] == "";
      assert End(End(Plain, front), [s[|s| - 1]]) == After(End(Plain, front), s[|s| - 1]);
      TrimRightKeepsScan(front);
    }
  }

  /** Trimming a piece leaves an uncut member, closed if the piece was. */
  lemma TrimKeepsScan(s: string)
    ensures Trimmed(Trim(s))
    ensures Uncut(Plain, s) ==> Uncut(Plain, Trim(s))
    ensures End(Plain, s).Plain? ==> End(Plain, Trim(s)).Plain?
  {
    TrimLeftKeepsScan(s);
    TrimRightKeepsScan(TrimLeft(s));
  }

  lemma TrimOfTrimmed(t: string)
    requires Trimmed(t)
    ensures Trim(t) == t
  {
    assert TrimLeft(t) == t;
  }

  lemma TrimUndoesOneSpace(t: string)
    requires Trimmed(t) && t != ""
    ensures Trim(" " + t) == t
  {
    TrimOfTrimmed(t);
    assert (" " + t)[0] == ' ' && (" " + t)[1..] == t;
    assert TrimLeft(" " + t) == TrimLeft(t) == t;
  }

  /** t is the stretch of s from i to j, with nothing but spaces on either side. */
  predicate Inside(s: string, i: nat, j: nat, t: string) {
    && i <= j <= |s| && t == s[i..j]
    && (forall k :: 0 <= k < i ==> IsSpace(s[k]))
    && (forall k :: j <= k < |s| ==> IsSpace(s[k]))
  }

  /** t is what is left of s without its outer spaces. */
  ghost predicate IsTrimOf(t: string, s: string) {
    Trimmed(t) && exists i: nat, j: nat :: Inside(s, i, j, t)
  }

  lemma {:induction false} TrimLeftFrom(s: string) returns (i: nat)
    ensures Inside(s, i, |s|, TrimLeft(s))
  {
    i := 0;
    if s != "" && IsSpace(s[0]) {
      i := TrimLeftFrom(s[1..]);
      assert forall k :: 0 < k < i + 1 ==> s[k] == s[1..][k - 1];
      i := i + 1;
    }
  }

  lemma {:induction false} TrimRightTo(s: string) returns (j: nat)
    ensures Inside(s, 0, j, TrimRight(s))
  {
    j := |s|;
    if s != "" && IsSpace(s[j - 1]) {
      j := TrimRightTo(s[..j - 1]);
    }
  }

  lemma InsideOfInside(s: string, i: nat, m: string, j: nat, t: string)
    requires Inside(s, i, |s|, m) && Inside(m, 0, j, t)
    ensures Inside(s, i, i + j, t)
  {
    assert m == s[i..] && t == m[..j] == s[i..i + j];
    forall k | i + j <= k < |s|
      ensures IsSpace(s[k])
    {
      assert s[k] == m[k - i];
    }
  }

  lemma OneInside(s: string, i: nat, j: nat, t: string, i': nat, j': nat, t': string)
    requires Inside(s, i, j, t) && Trimmed(t) && Inside(s, i', j', t') && Trimmed(t')
    ensures t == t'
  {
    assert t != "" ==> t[0] == s[i] && t[|t| - 1] == s[j - 1];
    assert t' != "" ==> t'[0] == s[i'] && t'[|t'| - 1] == s[j' - 1];
  }

  /** Trimming drops the outer spaces, all of them and nothing else. */
  lemma TrimIsTheInside(s: string, t: string)
    ensures t == Trim(s) <==> IsTrimOf(t, s)
    ensures Trim(s) == "" <==> forall k :: 0 <= k < |s| ==> IsSpace(s[k])
  {
    var i := TrimLeftFrom(s);
    var j := TrimRightTo(TrimLeft(s));
    TrimKeepsScan(s);
    InsideOfInside(s, i, TrimLeft(s), j, Trim(s));
    assert Trim(s) != "" ==> Trim(s)[0] == s[i];
    if IsTrimOf(t, s) {
      var i': nat, j': nat :| Inside(s, i', j', t);
      OneInside(s, i', j', t, i, i + j, Trim(s));
    }
  }

  // ---- splitting and dropping ----

  function TrimAll(pieces: seq<string>): (members: seq<string>)
    ensures |members| == |pieces| && forall i :: 0 <= i < |pieces| ==> members[i] == Trim(pieces[i])
  {
    seq(|pieces|, i requires 0 <= i < |pieces| => Trim(pieces[i]))
  }

  /** splitHeaderList: the members of a list, trimmed. */
  function Split(value: string): seq<string> {
    TrimAll(RawSplit(Plain, value))
  }

  function Lower(c: char): char {
    if 'A' <= c <= 'Z' then c - 'A' + 'a' else c
  }

  /** Equality up to ASCII case. */
  predicate EqualFold(a: string, b: string) {
    |a| == |b| && forall i :: 0 <= i < |a| ==> Lower(a[i]) == Lower(b[i])
  }

  /** A letter and its other case are 32 apart. */
  predicate OtherCase(small: char, big: char) {
    'a' <= small <= 'z' && small as int == big as int + 32
  }

  lemma EqualUpToCase(a: string, b: string)
    ensures EqualFold(a, b) <==>
            |a| == |b| && forall i :: 0 <= i < |a| ==> a[i] == b[i] || OtherCase(a[i], b[i]) || OtherCase(b[i], a[i])
  {
    forall i | 0 <= i < |a| && i < |b|
      ensures Lower(a[i]) == Lower(b[i]) <==> a[i] == b[i] || OtherCase(a[i], b[i]) || OtherCase(b[i], a[i])
    {
    }
  }

  predicate Matches(token: string, want: string) {
    token != "" && EqualFold(token, want)
  }

  /** The members to keep: not empty, not the unwanted one, in order. */
  function Kept(members: seq<string>, want: string): seq<string> {
    if members == [] then []
    else (if members[0] == "" || EqualFold(members[0], want) then [] else [members[0]]) + Kept(members[1..], want)
  }

  predicate AnyMatches(members: seq<string>, want: string) {
    exists t :: t in members && Matches(t, want)
  }

  predicate Found(values: seq<string>, want: string) {
    exists i :: 0 <= i < |values| && AnyMatches(Split(values[i]), want)
  }

  /** The rewritten values of the header: one per value that keeps a member. */
  function Rebuilt(values: seq<string>, want: string): seq<string> {
    if values == [] then []
    else
      var kept := Kept(Split(values[0]), want);
      (if kept == [] then [] else [Join(", ", kept)]) + Rebuilt(values[1..], want)
  }

  /** All members of all values, in order. */
  function Members(values: seq<string>): seq<string> {
    if values == [] then [] else Split(values[0]) + Members(values[1..])
  }

  /** The text is cut into these pieces, and the members are the pieces without their outer spaces. */
  ghost predicate CutAndTrimmed(value: string, pieces: seq<string>, members: seq<string>) {
    && pieces != [] && Join(",", pieces) == value && Splittable(pieces)
    && |members| == |pieces|
    && forall i :: 0 <= i < |pieces| ==> IsTrimOf(members[i], pieces[i])
  }

  /** What splitHeaderList returns, said on the text alone. */
  lemma SplitExactly(value: string, members: seq<string>)
    ensures members == Split(value) <==> exists pieces :: CutAndTrimmed(value, pieces, members)
  {
    var raw := RawSplit(Plain, value);
    RawSplitIsExact(value);
    forall i | 0 <= i < |raw|
      ensures IsTrimOf(Trim(raw[i]), raw[i])
    {
      TrimIsTheInside(raw[i], Trim(raw[i]));
    }
    assert CutAndTrimmed(value, raw, Split(value));
    if pieces :| CutAndTrimmed(value, pieces, members) {
      SplitOfJoin(pieces);
      forall i | 0 <= i < |pieces|
        ensures members[i] == Split(value)[i]
      {
        TrimIsTheInside(pieces[i], members[i]);
      }
    }
  }

  lemma SplitIsSplittable(value: string)
    ensures Splittable(Split(value)) && forall i :: 0 <= i < |Split(value)| ==> Trimmed(Split(value)[i])
  {
    var pieces := RawSplit(Plain, value);
    RawSplitIsExact(value);
    forall i | 0 <= i < |pieces|
      ensures Trimmed(Trim(pieces[i])) && Uncut(Plain, Trim(pieces[i]))
      ensures i < |pieces| - 1 ==> End(Plain, Trim(pieces[i])).Plain?
    {
      TrimKeepsScan(pieces[i]);
    }
  }

  lemma {:induction false} KeptIsSplittable(members: seq<string>, want: string)
    requires Splittable(members) && forall i :: 0 <= i < |members| ==> Trimmed(members[i])
    ensures Splittable(Kept(members, want))
    ensures forall t :: t in Kept(members, want) ==> t != "" && Trimmed(t) && !EqualFold(t, want)
    ensures Kept(members, want) != [] ==> members != []
  {
    if members != [] {
      KeptIsSplittable(members[1..], want);
      var kept := Kept(members, want);
      var rest := Kept(members[1..], want);
      if kept != rest {
        assert kept == [members[0]] + rest;
        assert forall i :: 0 < i < |kept| ==> kept[i] == rest[i - 1];
      }
    }
  }

  /** The pieces between the commas of a join with comma and space. */
  function Spaced(members: seq<string>): (pieces: seq<string>)
    ensures |pieces| == |members|
  {
    seq(|members|, i requires 0 <= i < |members| => if i == 0 then members[0] else " " + members[i])
  }

  lemma {:induction false} JoinSpaced(members: seq<string>)
    requires members != []
    ensures Join(", ", members) == Join(",", Spaced(members))
  {
    if |members| > 1 {
      var rest := members[1..];
      JoinSpaced(rest);
      assert |Spaced(rest)| == |rest|;
      var tail := Spaced(members)[1..];
      assert tail[0] == " " + rest[0] && tail[1..] == Spaced(rest)[1..];
      assert Join(",", tail) == " " + Join(",", Spaced(rest)) by {
        if |rest| > 1 {
          assert " " + rest[0] + "," + Join(",", tail[1..]) == " " + (rest[0] + "," + Join(",", tail[1..]));
        }
      }
      assert members[0] + ", " + Join(", ", rest) == members[0] + "," + (" " + Join(", ", rest));
    }
  }

  /** Splitting a join of kept members gives them back. */
  lemma SplitOfSpacedJoin(members: seq<string>)
    requires members != [] && Splittable(members)
    requires forall t :: t in members ==> t != "" && Trimmed(t)
    ensures Split(Join(", ", members)) == members
  {
    var pieces := Spaced(members);
    forall i | 0 <= i < |members|
      ensures Uncut(Plain, pieces[i]) && Trim(pieces[i]) == members[i]
      ensures i < |members| - 1 ==> End(Plain, pieces[i]).Plain?
    {
      assert members[i] in members;
      TrimOfTrimmed(members[i]);
      TrimUndoesOneSpace(members[i]);
      assert (" " + members[i])[1..] == members[i];
    }
    JoinSpaced(members);
    SplitOfJoin(pieces);
    assert Split(Join(", ", members)) == members;
  }

  lemma {:induction false} KeptOfConcat(a: seq<string>, b: seq<string>, want: string)
    ensures Kept(a + b, want) == Kept(a, want) + Kept(b, want)
  {
    if a == [] {
      assert a + b == b;
    } else {
      assert (a + b)[1..] == a[1..] + b;
      KeptOfConcat(a[1..], b, want);
    }
  }

  /**
   * The round trip: reading the rewritten header gives the original members, in order, without
   * the empty ones and without those that match.
   */
  lemma {:induction false} RebuiltKeepsMembers(values: seq<string>, want: string)
    ensures Members(Rebuilt(values, want)) == Kept(Members(values), want)
  {
    if values != [] {
      var members := Split(values[0]);
      var kept := Kept(members, want);
      RebuiltKeepsMembers(values[1..], want);
      KeptOfConcat(members, Members(values[1..]), want);
      SplitIsSplittable(values[0]);
      KeptIsSplittable(members, want);
      if kept != [] {
        SplitOfSpacedJoin(kept);
        assert Rebuilt(values, want) == [Join(", ", kept)] + Rebuilt(values[1..], want);
        assert Rebuilt(values, want)[1..] == Rebuilt(values[1..], want);
      } else {
        assert Rebuilt(values, want) == Rebuilt(values[1..], want);
      }
    }
  }

  lemma {:induction false} MembersOf(values: seq<string>, t: string)
    ensures t in Members(values) <==> exists i :: 0 <= i < |values| && t in Split(values[i])
  {
    if values != [] {
      MembersOf(values[1..], t);
      if i :| 0 <= i < |values| && t in Split(values[i]) {
        assert i > 0 ==> values[1..][i - 1] == values[i];
      }
      if t in Members(values[1..]) {
        var i :| 0 <= i < |values[1..]| && t in Split(values[1..][i]);
        assert t in Split(values[i + 1]);
      }
    }
  }

  lemma {:induction false} KeptHasNoMatch(members: seq<string>, want: string, t: string)
    ensures t in Kept(members, want) <==> t in members && t != "" && !EqualFold(t, want)
  {
    if members != [] {
      KeptHasNoMatch(members[1..], want, t);
    }
  }

  /** A second removal finds nothing left to remove. */
  lemma SecondRemovalFindsNothing(values: seq<string>, want: string)
    ensures !Found(Rebuilt(values, want), want)
  {
    var rebuilt := Rebuilt(values, want);
    forall i, t | 0 <= i < |rebuilt| && t in Split(rebuilt[i])
      ensures !Matches(t, want)
    {
      MembersOf(rebuilt, t);
      RebuiltKeepsMembers(values, want);
      KeptHasNoMatch(Members(values), want, t);
    }
  }
}

module HeaderList {
  import opened Bytes
  import opened HeaderListSpec

  /** The scanner's flags as a state. */
  function ScanOf(quoted: bool, escaped: bool): Scan {
    if escaped then Escaped else if quoted then Quoted else Plain
  }

  /** Text already read, put in front of the pieces still to come. */
  function Glue(head: string, rest: seq<string>): seq<string>
    requires rest != []
  {
    [head + rest[0]] + rest[1..]
  }

  lemma ReadOne(st: Scan, value: string, start: nat, i: nat)
    requires start <= i < |value| && !(st.Plain? && value[i] == ',')
    ensures Glue(value[start..i], RawSplit(st, value[i..]))
         == Glue(value[start..i + 1], RawSplit(After(st, value[i]), value[i + 1..]))
  {
    var text := value[i..];
    assert text != "" && text[0] == value[i] && text[1..] == value[i + 1..];
    var rest := RawSplit(After(st, text[0]), text[1..]);
    assert RawSplit(st, text) == [[text[0]] + rest[0]] + rest[1..];
    assert value[start..i + 1] == value[start..i] + [value[i]];
    assert value[start..i] + ([value[i]] + rest[0]) == value[start..i + 1] + rest[0];
  }

  lemma CutOne(value: string, start: nat, i: nat)
    requires start <= i < |value| && value[i] == ','
    ensures Glue(value[start..i], RawSplit(Plain, value[i..]))
         == [value[start..i]] + Glue(value[i + 1..i + 1], RawSplit(Plain, value[i + 1..]))
  {
    var rest := RawSplit(Plain, value[i + 1..]);
    assert value[i..][0] == value[i] && value[i..][1..] == value[i + 1..];
    assert RawSplit(Plain, value[i..]) == [""] + rest;
    assert value[start..i] + "" == value[start..i];
    assert value[i + 1..i + 1] + rest[0] == rest[0] && [rest[0]] + rest[1..] == rest;
  }

  /** The pieces cut so far, and the piece being read with those still to come, make up the whole split. */
  predicate Scanned(value: string, start: nat, i: nat, st: Scan, pieces: seq<string>)
    requires start <= i <= |value|
  {
    RawSplit(Plain, value) == pieces + Glue(value[start..i], RawSplit(st, value[i..]))
  }

  lemma ScanOne(value: string, start: nat, i: nat, st: Scan, pieces: seq<string>)
    requires start <= i < |value| && Scanned(value, start, i, st, pieces)
    ensures if st.Plain? && value[i] == ',' then Scanned(value, i + 1, i + 1, Plain, pieces + [value[start..i]])
            else Scanned(value, start, i + 1, After(st, value[i]), pieces)
  {
    if st.Plain? && value[i] == ',' {
      CutOne(value, start, i);
      Regroup(pieces, [value[start..i]], Glue(value[i + 1..i + 1], RawSplit(Plain, value[i + 1..])));
    } else {
      ReadOne(st, value, start, i);
    }
  }

  lemma ScanStarts(value: string)
    ensures Scanned(value, 0, 0, Plain, [])
  {
    var all := RawSplit(Plain, value);
    assert value[0..0] + all[0] == all[0] && value[0..] == value && [all[0]] + all[1..] == all;
  }

  lemma ScanEnds(value: string, start: nat, st: Scan, pieces: seq<string>)
    requires start <= |value| && Scanned(value, start, |value|, st, pieces)
    ensures Split(value) == TrimAll(pieces) + [Trim(value[start..])]
  {
    assert value[start..|value|] + "" == value[start..];
    assert RawSplit(Plain, value) == pieces + [value[start..]];
  }

  /** splitHeaderList: one pass that cuts at each comma outside quotes. */
  method SplitHeaderList(value: string) returns (members: seq<string>)
    ensures members == Split(value)
  {
    members := [];
    var start, quoted, escaped := 0, false, false;
    ghost var pieces: seq<string> := [];
    ScanStarts(value);
    for i := 0 to |value|
      invariant 0 <= start <= i && (escaped ==> quoted)
      invariant members == TrimAll(pieces)
      invariant Scanned(value, start, i, ScanOf(quoted, escaped), pieces)
    {
      ScanOne(value, start, i, ScanOf(quoted, escaped), pieces);
      if escaped {
        escaped := false;
      } else if quoted && value[i] == '\\' {
        escaped := true;
      } else if value[i] == '"' {
        quoted := !quoted;
      } else if value[i] == ',' && !quoted {
        members := members + [Trim(value[start..i])];
        pieces := pieces + [value[start..i]];
        start := i + 1;
      }
    }
    ScanEnds(value, start, ScanOf(quoted, escaped), pieces);
    members := members + [Trim(value[start..])];
  }

  lemma AnyMatchesFirst(members: seq<string>, want: string)
    requires members != []
    ensures AnyMatches(members, want) <==> Matches(members[0], want) || AnyMatches(members[1..], want)
  {
    assert members == [members[0]] + members[1..];
  }

  lemma KeptFirst(members: seq<string>, j: nat, want: string)
    requires j < |members|
    ensures var rest := Kept(members[j + 1..], want);
            Kept(members[j..], want) ==
              if members[j] == "" || EqualFold(members[j], want) then rest else [members[j]] + rest
    ensures AnyMatches(members[j..], want) <==> Matches(members[j], want) || AnyMatches(members[j + 1..], want)
  {
    assert members[j..][1..] == members[j + 1..];
    AnyMatchesFirst(members[j..], want);
  }

  lemma FoundFirst(values: seq<string>, want: string)
    requires values != []
    ensures Found(values, want) <==> AnyMatches(Split(values[0]), want) || Found(values[1..], want)
  {
    if Found(values, want) {
      var i :| 0 <= i < |values| && AnyMatches(Split(values[i]), want);
      assert i > 0 ==> values[1..][i - 1] == values[i];
    }
    if Found(values[1..], want) {
      var i :| 0 <= i < |values[1..]| && AnyMatches(Split(values[1..][i]), want);
      assert values[i + 1] == values[1..][i];
    }
  }

  /** The first j members have been gone through: what is kept of them, and whether one matched. */
  predicate KeptSoFar(tokens: seq<string>, j: nat, want: string, kept: seq<string>, hit: bool)
    requires j <= |tokens|
  {
    && kept + Kept(tokens[j..], want) == Kept(tokens, want)
    && (hit || AnyMatches(tokens[j..], want) <==> AnyMatches(tokens, want))
  }

  lemma KeepOne(tokens: seq<string>, j: nat, want: string, kept: seq<string>, hit: bool)
    requires j < |tokens| && KeptSoFar(tokens, j, want, kept, hit)
    ensures if tokens[j] == "" then KeptSoFar(tokens, j + 1, want, kept, hit)
            else if EqualFold(tokens[j], want) then KeptSoFar(tokens, j + 1, want, kept, true)
            else KeptSoFar(tokens, j + 1, want, kept + [tokens[j]], hit)
  {
    KeptFirst(tokens, j, want);
    Regroup(kept, [tokens[j]], Kept(tokens[j + 1..], want));
  }

  /** The members of one value that stay, and whether one was dropped for matching. */
  method KeepTokens(value: string, want: string) returns (kept: seq<string>, hit: bool)
    ensures kept == Kept(Split(value), want)
    ensures hit <==> AnyMatches(Split(value), want)
  {
    kept, hit := [], false;
    var tokens := SplitHeaderList(value);
    SplitIsSplittable(value);
    assert tokens[0..] == tokens;
    for j := 0 to |tokens|
      invariant KeptSoFar(tokens, j, want, kept, hit)
    {
      var token := Trim(tokens[j]);
      TrimOfTrimmed(tokens[j]);
      KeepOne(tokens, j, want, kept, hit);
      if token == "" {
        continue;
      }
      if EqualFold(token, want) {
        hit := true;
        continue;
      }
      kept := kept + [token];
    }
  }

  lemma RebuiltFirst(values: seq<string>, k: nat, want: string)
    requires k < |values|
    ensures var kept, rest := Kept(Split(values[k]), want), Rebuilt(values[k + 1..], want);
            Rebuilt(values[k..], want) == if kept == [] then rest else [Join(", ", kept)] + rest
    ensures Found(values[k..], want) <==> AnyMatches(Split(values[k]), want) || Found(values[k + 1..], want)
  {
    assert values[k..][1..] == values[k + 1..];
    FoundFirst(values[k..], want);
  }

  /** The values that stay, rewritten, and whether a member was dropped for matching. */
  method KeepValues(values: seq<string>, want: string) returns (keptValues: seq<string>, found: bool)
    ensures keptValues == Rebuilt(values, want)
    ensures found <==> Found(values, want)
  {
    keptValues, found := [], false;
    for k := 0 to |values|
      invariant keptValues + Rebuilt(values[k..], want) == Rebuilt(values, want)
      invariant found || Found(values[k..], want) <==> Found(values, want)
    {
      RebuiltFirst(values, k, want);
      var keptTokens, hit := KeepTokens(values[k], want);
      found := found || hit;
      if |keptTokens| > 0 {
        var joined := Join(", ", keptTokens);
        Regroup(keptValues, [joined], Rebuilt(values[k + 1..], want));
        keptValues := keptValues + [joined];
      }
    }
  }

  /** A header map that holds exactly these values under the name: no key when there are none. */
  function With(fields: map<string, seq<string>>, name: string, values: seq<string>): map<string, seq<string>> {
    if values == [] then fields - {name} else fields[name := values]
  }

  /** The header map, keyed by canonical names. */
  class Header {
    var fields: map<string, seq<string>>

    function Values(name: string): seq<string>
      reads this
    {
      if name in fields then fields[name] else []
    }

    method Del(name: string)
      modifies this
      ensures fields == old(fields) - {name}
    {
      fields := fields - {name};
    }

    method Add(name: string, value: string)
      modifies this
      ensures fields == old(fields)[name := old(Values(name)) + [value]]
    {
      fields := fields[name := Values(name) + [value]];
    }

    /** Removes the header, then adds the values one by one. */
    method Replace(name: string, values: seq<string>)
      modifies this
      ensures fields == With(old(fields), name, values)
    {
      Del(name);
      for k := 0 to |values|
        invariant fields == With(old(fields), name, values[..k])
      {
        assert values[..k] + [values[k]] == values[..k + 1];
        Add(name, values[k]);
      }
      assert values[..|values|] == values;
    }

    /** removeHeaderToken: drops every member equal to want, touching the map only if there was one. */
    method RemoveToken(name: string, want: string) returns (found: bool)
      modifies this
      ensures found <==> Found(old(Values(name)), want)
      ensures fields == if found then With(old(fields), name, Rebuilt(old(Values(name)), want)) else old(fields)
    {
      var keptValues;
      keptValues, found := KeepValues(Values(name), want);
      if !found {
        return;
      }
      Replace(name, keptValues);
    }
  }
}
