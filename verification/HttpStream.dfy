// Reading HTTP heads off a buffered connection and putting them back (internal/proxy/http.go).

/** What a head is, said of the byte stream alone. */
module HttpHead {
  import opened Bytes
  import opened Options

  /** The line that ends at n is empty: a bare LF, or CR LF, right after a line end or the start. */
  predicate EndsBlank(s: seq<byte>, n: nat) {
    && 1 <= n <= |s| && s[n - 1] == LF
    && (|| n == 1
        || s[n - 2] == LF
        || (s[n - 2] == CR && (n == 2 || s[n - 3] == LF)))
  }

  datatype Outcome = Head(bytes: seq<byte>) | TooLarge | Ended

  /** The end of the first blank line at or after n. */
  function FirstBlank(s: seq<byte>, n: nat): (r: Option<nat>)
    ensures r.Some? ==> n <= r.value <= |s|
    decreases |s| - n
  {
    if n > |s| then None else if EndsBlank(s, n) then Some(n) else FirstBlank(s, n + 1)
  }

  /** What reading a head of at most limit bytes from this stream must yield. */
  function Framed(s: seq<byte>, limit: nat): Outcome {
    match FirstBlank(s, 0)
    case Some(n) => if n <= limit then Head(s[..n]) else TooLarge
    case None => if |s| <= limit then Ended else TooLarge
  }

  lemma {:induction false} FirstBlankIsFirst(s: seq<byte>, n: nat)
    ensures match FirstBlank(s, n)
            case Some(k) => n <= k && EndsBlank(s, k) && forall j :: n <= j < k ==> !EndsBlank(s, j)
            case None => forall j: nat :: n <= j ==> !EndsBlank(s, j)
    decreases |s| - n
  {
    if n <= |s| && !EndsBlank(s, n) {
      FirstBlankIsFirst(s, n + 1);
    }
  }

  /** The three outcomes, told apart by the stream: exactly one of them applies. */
  lemma FramedExactly(s: seq<byte>, limit: nat, n: nat)
    ensures EndsBlank(s, n) && (forall k :: 0 <= k < n ==> !EndsBlank(s, k)) ==>
              Framed(s, limit) == if n <= limit then Head(s[..n]) else TooLarge
    ensures (forall k: nat :: !EndsBlank(s, k)) ==> Framed(s, limit) == if |s| <= limit then Ended else TooLarge
    ensures Framed(s, limit).TooLarge? <==>
              |s| > limit && forall k: nat :: k <= limit ==> !EndsBlank(s, k)
  {
    FirstBlankIsFirst(s, 0);
  }

  /** How a fragment of the stream ended: with a line end, a full buffer, or the source's end. */
  datatype Slice = Line | BufferFull | SourceEnded

  ghost predicate SliceOk(fragment: seq<byte>, how: Slice, size: nat) {
    match how
    case Line => fragment != [] && fragment[|fragment| - 1] == LF && LF !in fragment[..|fragment| - 1]
    case BufferFull => |fragment| == size && LF !in fragment
    case SourceEnded => LF !in fragment
  }

  predicate LooksBlank(fragment: seq<byte>) {
    fragment == [CR, LF] || fragment == [LF]
  }

  /** What is known of the bytes read so far, between two fragments. */
  ghost predicate SoFar(s: seq<byte>, n: nat, continued: bool) {
    NoneYet(s, n) && if continued then MidLine(s, n) else AtLineStart(s, n)
  }

  lemma NextLine(s: seq<byte>, n: nat, m: nat, continued: bool, limit: nat)
    requires n < m <= |s| && s[m - 1] == LF && LF !in s[n..m - 1] && SoFar(s, n, continued)
    ensures if m > limit then Framed(s, limit) == TooLarge
            else if !continued && LooksBlank(s[n..m]) then Framed(s, limit) == Head(s[..m])
            else SoFar(s, m, false)
  {
    LineEndsBlankOrNot(s, n, m);
    FramedExactly(s, limit, m);
  }

  lemma NextCut(s: seq<byte>, n: nat, m: nat, limit: nat)
    requires n <= m <= |s| && LF !in s[n..m] && NoneYet(s, n)
    ensures NoneYet(s, m)
    ensures m > limit ==> Framed(s, limit) == TooLarge
    ensures m <= limit && m == |s| ==> Framed(s, limit) == Ended
  {
    FragmentHasNoBlank(s, n, m);
    FramedExactly(s, limit, m);
    if m == |s| {
      AllStream(s, m, limit);
    }
  }

  /** What one more fragment settles. Fragments cut off by a full buffer have at least two bytes. */
  lemma NextFragment(head: seq<byte>, fragment: seq<byte>, rest: seq<byte>, how: Slice, size: nat,
                     continued: bool, limit: nat)
    requires SliceOk(fragment, how, size) && size >= 2
    requires SoFar(head + fragment + rest, |head|, continued) && (how.SourceEnded? ==> rest == [])
    ensures var s := head + fragment + rest;
            var m := |head| + |fragment|;
            if m > limit then Framed(s, limit) == TooLarge
            else match how
              case BufferFull => SoFar(s, m, true)
              case SourceEnded => Framed(s, limit) == Ended
              case Line =>
                if !continued && LooksBlank(fragment) then Framed(s, limit) == Head(head + fragment)
                else SoFar(s, m, false)
  {
    var s := head + fragment + rest;
    var n, m := |head|, |head| + |fragment|;
    assert s[n..m] == fragment && s[..m] == head + fragment;
    if how.Line? {
      assert s[n..m - 1] == fragment[..|fragment| - 1] && s[m - 1] == fragment[|fragment| - 1];
      NextLine(s, n, m, continued, limit);
    } else {
      NextCut(s, n, m, limit);
    }
  }

  lemma AllStream(s: seq<byte>, m: nat, limit: nat)
    requires NoneYet(s, |s|) && m == |s|
    ensures Framed(s, limit) == if m <= limit then Ended else TooLarge
  {
    FramedExactly(s, limit, 0);
  }

  /** A head ends in a blank line, has no earlier one, and does not depend on what follows it. */
  lemma HeadIgnoresWhatFollows(s: seq<byte>, rest: seq<byte>, limit: nat)
    requires Framed(s, limit).Head?
    ensures Framed(s + rest, limit) == Framed(s, limit)
    ensures Framed(Framed(s, limit).bytes, limit) == Framed(s, limit)
  {
    FirstBlankIsFirst(s, 0);
    var n := FirstBlank(s, 0).value;
    assert forall k: nat :: k <= n ==> (EndsBlank(s + rest, k) <==> EndsBlank(s, k));
    assert forall k: nat :: k <= n ==> (EndsBlank(s[..n], k) <==> EndsBlank(s, k));
    FramedExactly(s + rest, limit, n);
    FramedExactly(s[..n], limit, n);
    assert (s + rest)[..n] == s[..n] == s[..n][..n];
  }

  /** No blank line ends in the n bytes read so far. */
  ghost predicate NoneYet(s: seq<byte>, n: nat) {
    n <= |s| && forall k: nat :: k <= n ==> !EndsBlank(s, k)
  }

  /** The n bytes read so far end inside a line of which at least two bytes have been read. */
  ghost predicate MidLine(s: seq<byte>, n: nat) {
    2 <= n <= |s| && s[n - 1] != LF && s[n - 2] != LF
  }

  /** The n bytes read so far end with a line end, or are none. */
  predicate AtLineStart(s: seq<byte>, n: nat) {
    n <= |s| && (n == 0 || s[n - 1] == LF)
  }

  /** A fragment without a line end brings no blank line. */
  lemma FragmentHasNoBlank(s: seq<byte>, n: nat, m: nat)
    requires NoneYet(s, n) && n <= m <= |s| && LF !in s[n..m]
    ensures NoneYet(s, m)
  {
    forall k: nat | n < k <= m
      ensures !EndsBlank(s, k)
    {
      assert s[n..m][k - 1 - n] == s[k - 1];
    }
  }

  /** A fragment that ends a line ends a blank one just when it is the whole line and looks blank. */
  lemma LineEndsBlankOrNot(s: seq<byte>, n: nat, m: nat)
    requires NoneYet(s, n) && n < m <= |s| && s[m - 1] == LF && LF !in s[n..m - 1]
    requires AtLineStart(s, n) || MidLine(s, n)
    ensures EndsBlank(s, m) <==> AtLineStart(s, n) && (s[n..m] == [LF] || s[n..m] == [CR, LF])
    ensures forall k: nat :: k < m ==> !EndsBlank(s, k)
  {
    assert forall i :: n <= i < m - 1 ==> s[n..m - 1][i - n] == s[i];
    FragmentHasNoBlank(s, n, m - 1);
    if AtLineStart(s, n) {
      assert s[n..m] == [LF] <==> m == n + 1;
      assert s[n..m] == [CR, LF] <==> m == n + 2 && s[n] == CR;
    }
  }
}

module HttpStream {
  import opened Bytes
  import opened HttpHead

  const MAX_REQUEST_HEAD: nat := 0x10_0000    // maxProxyRequestHeaderBytes
  const MAX_RESPONSE_HEAD: nat := 0xA0_0000   // maxProxyResponseHeaderBytes

  /**
   * A bufio.Reader of the given size over a replayReader: buf is what it has buffered, prefix
   * what the replayReader will deliver first, chunks what the source's reads will deliver, one
   * nonempty chunk a read, before it ends.
   */
  class Reader {
    const size: nat
    var buf: seq<byte>
    var prefix: seq<byte>
    var chunks: seq<seq<byte>>

    ghost predicate Valid()
      reads this
    {
      size >= 2 && |buf| <= size && forall i :: 0 <= i < |chunks| ==> chunks[i] != []
    }

    /** Everything not yet handed out, in order. */
    ghost function Unread(): seq<byte>
      reads this
    {
      buf + prefix + Flatten(chunks)
    }

    /** Replayed bytes are bounded, however often heads have been put back. */
    ghost predicate Bounded(limit: nat)
      reads this
    {
      prefix != [] ==> |buf| + |prefix| <= limit + size
    }

    constructor (size: nat, prefix: seq<byte>, chunks: seq<seq<byte>>)
      requires size >= 2 && forall i :: 0 <= i < |chunks| ==> chunks[i] != []
      ensures Valid() && this.size == size && Unread() == prefix + Flatten(chunks)
      ensures buf == [] && this.prefix == prefix && this.chunks == chunks
    {
      this.size, this.prefix, this.chunks, buf := size, prefix, chunks, [];
    }

    /** replayReader.Read into a nonempty space: the prefix first, then the source. */
    method ReadSource(space: nat) returns (got: seq<byte>, ok: bool)
      requires Valid() && space > 0
      modifies this`prefix, this`chunks
      ensures Valid() && |got| <= space && ok == (got != [])
      ensures old(prefix + Flatten(chunks)) == got + prefix + Flatten(chunks)
      ensures prefix != [] ==> old(prefix) != [] && chunks == old(chunks)
      ensures !ok ==> prefix == [] && chunks == []
    {
      if |prefix| > 0 {
        var n := if space < |prefix| then space else |prefix|;
        got, ok := prefix[..n], true;
        prefix := prefix[n..];
      } else if chunks == [] {
        got, ok := [], false;
      } else if |chunks[0]| <= space {
        got, ok := chunks[0], true;
        chunks := chunks[1..];
      } else {
        got, ok := chunks[0][..space], true;
        assert chunks[0] == chunks[0][..space] + chunks[0][space..];
        chunks := [chunks[0][space..]] + chunks[1..];
      }
    }

    /** bufio's fill. */
    method Fill() returns (ok: bool)
      requires Valid() && |buf| < size
      modifies this
      ensures Valid() && Unread() == old(Unread()) && |buf| <= size
      ensures old(buf) <= buf && ok == (buf != old(buf))
      ensures !ok ==> prefix == [] && chunks == []
      ensures prefix != [] ==> old(prefix) != [] && chunks == old(chunks)
    {
      var got;
      got, ok := ReadSource(size - |buf|);
      assert buf + (got + prefix + Flatten(chunks)) == buf + got + prefix + Flatten(chunks);
      buf := buf + got;
    }

    /** Hand out the first n buffered bytes. */
    method Take(n: nat) returns (taken: seq<byte>)
      requires Valid() && n <= |buf|
      modifies this`buf
      ensures Valid() && taken == old(buf[..n]) && buf == old(buf[n..])
      ensures old(Unread()) == taken + Unread()
    {
      taken := buf[..n];
      assert buf + prefix + Flatten(chunks) == taken + (buf[n..] + prefix + Flatten(chunks));
      buf := buf[n..];
    }

    /** bufio's Read into a nonempty space: the buffer first; a space as large as the buffer bypasses it. */
    method Read(space: nat) returns (got: seq<byte>, ok: bool)
      requires Valid() && space > 0
      modifies this
      ensures Valid() && old(Unread()) == got + Unread() && |got| <= space
      ensures ok == (got != []) && (!ok ==> Unread() == [])
      ensures prefix != [] ==> old(prefix) != [] && chunks == old(chunks)
    {
      if buf == [] {
        if space >= size {
          got, ok := ReadSource(space);
          assert got + (buf + prefix + Flatten(chunks)) == got + prefix + Flatten(chunks);
          return;
        }
        ok := Fill();
        if !ok {
          return [], false;
        }
      }
      ok := true;
      got := Take(if space < |buf| then space else |buf|);
    }

    /** io.ReadFull: n bytes, or all there are when there are fewer. */
    method ReadFull(n: nat) returns (got: seq<byte>, ok: bool)
      requires Valid()
      modifies this
      ensures Valid() && old(Unread()) == got + Unread()
      ensures if ok then |got| == n else |got| < n && Unread() == []
    {
      got, ok := [], true;
      while |got| < n
        invariant Valid() && old(Unread()) == got + Unread() && |got| <= n
      {
        var more;
        more, ok := Read(n - |got|);
        assert got + (more + Unread()) == (got + more) + Unread();
        got := got + more;
        if !ok {
          return;
        }
      }
      ok := true;
    }

    /** The position of the first line end in the buffer, or its length. */
    method FindLF(from: nat) returns (i: nat)
      requires from <= |buf| && LF !in buf[..from]
      ensures i <= |buf| && LF !in buf[..i] && (i < |buf| ==> buf[i] == LF)
    {
      i := from;
      while i < |buf| && buf[i] != LF
        invariant i <= |buf| && LF !in buf[..i]
      {
        i := i + 1;
      }
    }

    /** bufio's ReadSlice for a line end. */
    method ReadSlice() returns (fragment: seq<byte>, how: Slice)
      requires Valid()
      modifies this
      ensures Valid() && old(Unread()) == fragment + Unread()
      ensures SliceOk(fragment, how, size) && (how.SourceEnded? ==> Unread() == [])
      ensures prefix != [] ==> old(prefix) != [] && chunks == old(chunks)
    {
      var searched := 0;
      while true
        invariant Valid() && Unread() == old(Unread())
        invariant searched <= |buf| && LF !in buf[..searched]
        invariant prefix != [] ==> old(prefix) != [] && chunks == old(chunks)
        decreases size - |buf|
      {
        var i := FindLF(searched);
        if i < |buf| {
          fragment := Take(i + 1);
          how := Line;
          return;
        }
        assert buf[..i] == buf;
        if |buf| >= size {
          fragment := Take(|buf|);
          how := BufferFull;
          return;
        }
        searched := |buf|;
        ghost var before := buf;
        var ok := Fill();
        assert buf[..searched] == before;
        if !ok {
          fragment := Take(|buf|);
          how := SourceEnded;
          return;
        }
      }
    }

    /** One turn of the head loop: one more fragment, and what it settles. */
    method ReadPart(head: seq<byte>, continued: bool, limit: nat, ghost stream: seq<byte>)
      returns (longer: seq<byte>, more: bool, over: bool, r: Outcome)
      requires Valid() && stream == head + Unread() && |head| <= limit && SoFar(stream, |head|, continued)
      modifies this
      ensures Valid() && (prefix != [] ==> old(prefix) != [] && chunks == old(chunks))
      ensures over ==> r == Framed(stream, limit) && (r.Head? ==> stream == r.bytes + Unread())
      ensures over ==> |Unread()| <= |old(Unread())|
      ensures !over ==> stream == longer + Unread() && |longer| <= limit && SoFar(stream, |longer|, more)
      ensures !over ==> |Unread()| < |old(Unread())|
    {
      var fragment, how := ReadSlice();
      assert stream == head + fragment + Unread();
      NextFragment(head, fragment, Unread(), how, size, continued, limit);
      longer, more, over, r := head + fragment, false, true, TooLarge;
      if |head| + |fragment| > limit {
        return;
      }
      if how.BufferFull? {
        more, over := true, false;
        return;
      }
      if how.SourceEnded? {
        r := Ended;
        return;
      }
      if !continued && LooksBlank(fragment) {
        r := Head(longer);
        return;
      }
      over := false;
    }

    /**
     * readRequestHead and readResponseHead: the outcome is the one the stream alone dictates,
     * whatever the chunks and the buffer size; after a head, exactly the rest is left unread.
     */
    method ReadHead(limit: nat) returns (r: Outcome)
      requires Valid()
      modifies this
      ensures Valid() && r == Framed(old(Unread()), limit)
      ensures r.Head? ==> old(Unread()) == r.bytes + Unread()
      ensures |Unread()| <= |old(Unread())|
      ensures prefix != [] ==> old(prefix) != [] && chunks == old(chunks)
    {
      ghost var stream := Unread();
      var head: seq<byte> := [];
      var continued := false;
      while true
        invariant Valid() && stream == head + Unread() && |head| <= limit
        invariant SoFar(stream, |head|, continued)
        invariant prefix != [] ==> old(prefix) != [] && chunks == old(chunks)
        decreases |Unread()|
      {
        var over;
        head, continued, over, r := ReadPart(head, continued, limit, stream);
        if over {
          return;
        }
      }
    }

    /** prepend and Reset: the head, then everything buffered, in front of what was put back before. */
    method Prepend(head: seq<byte>)
      requires Valid()
      modifies this`buf, this`prefix
      ensures Valid() && buf == [] && prefix == head + old(buf) + old(prefix)
      ensures Unread() == head + old(Unread())
    {
      var buffered := Take(|buf|);
      prefix := head + buffered + prefix;
    }

    /**
     * The first half of proxyResponseReader.read: read a head, then put it and everything the
     * buffer still holds back in front, so that net/http sees the head again. The stream of
     * unread bytes comes out exactly as it went in.
     */
    method PutBackHead(limit: nat) returns (r: Outcome)
      requires Valid() && Bounded(limit)
      modifies this
      ensures Valid() && Bounded(limit) && r == Framed(old(Unread()), limit)
      ensures r.Head? ==> Unread() == old(Unread()) && buf == [] && r.bytes <= prefix
    {
      assert |Unread()| == |buf| + |prefix| + |Flatten(chunks)|;
      r := ReadHead(limit);
      assert |Unread()| == |buf| + |prefix| + |Flatten(chunks)|;
      if r.Head? {
        Prepend(r.bytes);
      }
    }

    /**
     * Any use of the reader: refills, consumption by whoever parses and copies, reads into a caller's
     * own space, which may bypass the buffer, and heads put back, in any order and number. Until a
     * head is refused nothing is lost, doubled or reordered, and the bytes held stay within one head
     * and one buffer.
     */
    method Drive(uses: seq<Use>, limit: nat) returns (consumed: seq<byte>, refused: bool)
      requires Valid() && Bounded(limit)
      modifies this
      ensures Valid() && Bounded(limit) && |buf| + |prefix| <= limit + size
      ensures !refused ==> old(Unread()) == consumed + Unread()
    {
      consumed, refused := [], false;
      for i := 0 to |uses|
        invariant Valid() && Bounded(limit) && old(Unread()) == consumed + Unread()
      {
        match uses[i]
        case Refill =>
          if |buf| < size {
            assert |Unread()| == |buf| + |prefix| + |Flatten(chunks)|;
            var ok := Fill();
            assert |Unread()| == |buf| + |prefix| + |Flatten(chunks)|;
          }
        case Consume(n) =>
          var taken := Take(if n < |buf| then n else |buf|);
          assert consumed + (taken + Unread()) == consumed + taken + Unread();
          consumed := consumed + taken;
        case ReadInto(space) =>
          if space > 0 {
            assert |Unread()| == |buf| + |prefix| + |Flatten(chunks)|;
            var got, ok := Read(space);
            assert |Unread()| == |buf| + |prefix| + |Flatten(chunks)|;
            Regroup(consumed, got, Unread());
            consumed := consumed + got;
          }
        case PutBack =>
          var r := PutBackHead(limit);
          if !r.Head? {
            return consumed, true;
          }
      }
    }
  }

  datatype Use = Refill | Consume(n: nat) | ReadInto(space: nat) | PutBack

  /**
   * readProxyRequest up to net/http: the bounded head, and a second reader, of whatever size,
   * that delivers the very stream the first one had.
   */
  method ReadProxyRequest(reader: Reader, size: nat) returns (r: Outcome, replay: Reader?)
    requires reader.Valid() && size >= 2
    modifies reader
    ensures r == Framed(old(reader.Unread()), MAX_REQUEST_HEAD)
    ensures r.Head? <==> replay != null
    ensures replay != null ==> fresh(replay) && replay.Valid() && replay.Unread() == old(reader.Unread())
  {
    replay := null;
    r := reader.ReadHead(MAX_REQUEST_HEAD);
    if r.Head? {
      var rest := reader.chunks;
      if reader.prefix != [] {
        rest := [reader.prefix] + rest;
      }
      if reader.buf != [] {
        rest := [reader.buf] + rest;
      }
      assert Flatten(rest) == reader.Unread();
      replay := new Reader(size, r.bytes, rest);
    }
  }

  /** proxyResponseReader.read up to net/http. */
  method ReadProxyResponse(reader: Reader) returns (r: Outcome)
    requires reader.Valid() && reader.Bounded(MAX_RESPONSE_HEAD)
    modifies reader
    ensures reader.Valid() && reader.Bounded(MAX_RESPONSE_HEAD)
    ensures r == Framed(old(reader.Unread()), MAX_RESPONSE_HEAD)
    ensures r.Head? ==> reader.Unread() == old(reader.Unread())
  {
    r := reader.PutBackHead(MAX_RESPONSE_HEAD);
  }
}
