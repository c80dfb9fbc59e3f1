// Reading a SOCKS5 request, as in sections 3 to 5 of RFC 1928 (internal/proxy/socks5.go).

module Socks5Spec {
  import opened Bytes
  import opened Options

  const VERSION: byte := 0x05
  const AUTH_NONE: byte := 0x00
  const AUTH_NO_ACCEPTABLE: byte := 0xFF
  const CMD_CONNECT: byte := 0x01
  const ADDR_IPV4: byte := 0x01
  const ADDR_DOMAIN: byte := 0x03
  const ADDR_IPV6: byte := 0x04
  const REP_CMD_NOT_SUPPORTED: byte := 0x07
  const REP_ADDR_NOT_SUPPORTED: byte := 0x08

  /** A destination host, kept as the bytes on the wire. */
  datatype Addr = IPv4(octets: seq<byte>) | Domain(name: seq<byte>) | IPv6(groups: seq<byte>)
  {
    predicate Valid() {
      match this
      case IPv4(b) => |b| == 4
      case Domain(b) => |b| <= 255
      case IPv6(b) => |b| == 16
    }
  }

  type port = p: int | 0 <= p < 65536

  datatype Failure =
    | NoMethodCount | NoMethods | NoAcceptableMethod | MethodReplyLost
    | NoHeader | BadVersion | BadAddress | NoPort | BadCommand

  datatype Outcome = Connect(addr: Addr, port: port) | Failed(why: Failure)

  /** A whole exchange: what came of it, the replies written, and the bytes left for the relay. */
  datatype Exchange = Exchange(outcome: Outcome, replies: seq<seq<byte>>, rest: seq<byte>)

  // ---- what a client sends ----

  function EncodeAddr(addr: Addr): seq<byte>
    requires addr.Valid()
  {
    match addr
    case IPv4(b) => [ADDR_IPV4] + b
    case Domain(b) => [ADDR_DOMAIN, |b|] + b
    case IPv6(b) => [ADDR_IPV6] + b
  }

  function EncodePort(p: port): seq<byte> {
    [p / 256, p % 256]
  }

  function DecodePort(b: seq<byte>): port
    requires |b| == 2
  {
    b[0] as int * 256 + b[1] as int
  }

  function EncodeRequest(cmd: byte, reserved: byte, addr: Addr, p: port): seq<byte>
    requires addr.Valid()
  {
    [VERSION, cmd, reserved] + EncodeAddr(addr) + EncodePort(p)
  }

  /** The negotiation and the request, without the version byte that protocol detection consumed. */
  function Encode(methods: seq<byte>, cmd: byte, reserved: byte, addr: Addr, p: port): seq<byte>
    requires |methods| <= 255 && addr.Valid()
  {
    [|methods|] + methods + EncodeRequest(cmd, reserved, addr, p)
  }

  // ---- what the server does with a stream ----

  function MethodReply(method_: byte): seq<byte> {
    [VERSION, method_]
  }

  /** sendSOCKSReply: the bound address is always 0.0.0.0:0. */
  function Reply(rep: byte): seq<byte> {
    [VERSION, rep, 0, ADDR_IPV4, 0, 0, 0, 0, 0, 0]
  }

  /** A value read off the front of a stream, if there was enough of it, and what is left. */
  datatype Read<T> = Read(value: Option<T>, rest: seq<byte>)

  function Exactly(s: seq<byte>, n: nat): Read<seq<byte>> {
    if |s| < n then Read(None, []) else Read(Some(s[..n]), s[n..])
  }

  function ReadAddr(s: seq<byte>, atyp: byte): Read<Addr> {
    if atyp == ADDR_IPV4 then
      var r := Exactly(s, 4);
      Read(if r.value.Some? then Some(IPv4(r.value.value)) else None, r.rest)
    else if atyp == ADDR_IPV6 then
      var r := Exactly(s, 16);
      Read(if r.value.Some? then Some(IPv6(r.value.value)) else None, r.rest)
    else if atyp == ADDR_DOMAIN then
      if s == [] then Read(None, [])
      else
        var r := Exactly(s[1..], s[0]);
        Read(if r.value.Some? then Some(Domain(r.value.value)) else None, r.rest)
    else
      Read(None, s)
  }

  /** The port and the command, once the address has been read. */
  function ServePort(cmd: byte, addr: Addr, s: seq<byte>): Exchange {
    var greeting := MethodReply(AUTH_NONE);
    var p := Exactly(s, 2);
    if p.value.None? then
      Exchange(Failed(NoPort), [greeting], [])
    else if cmd != CMD_CONNECT then
      Exchange(Failed(BadCommand), [greeting, Reply(REP_CMD_NOT_SUPPORTED)], p.rest)
    else
      Exchange(Connect(addr, DecodePort(p.value.value)), [greeting], p.rest)
  }

  /** The request, after the method reply has been written. */
  function ServeRequest(s: seq<byte>): Exchange {
    var greeting := MethodReply(AUTH_NONE);
    if |s| < 4 then
      Exchange(Failed(NoHeader), [greeting], [])
    else if s[0] != VERSION then
      Exchange(Failed(BadVersion), [greeting], s[4..])
    else
      var addr := ReadAddr(s[4..], s[3]);
      if addr.value.None? then
        Exchange(Failed(BadAddress), [greeting, Reply(REP_ADDR_NOT_SUPPORTED)], addr.rest)
      else
        ServePort(s[1], addr.value.value, addr.rest)
  }

  /** readSOCKSRequest on a stream; replyLost says whether writing the method reply fails. */
  function Serve(s: seq<byte>, replyLost: bool): Exchange {
    if s == [] then
      Exchange(Failed(NoMethodCount), [], [])
    else if |s| - 1 < s[0] then
      Exchange(Failed(NoMethods), [], [])
    else if AUTH_NONE !in s[1..1 + s[0]] then
      Exchange(Failed(NoAcceptableMethod), [MethodReply(AUTH_NO_ACCEPTABLE)], s[1 + s[0]..])
    else if replyLost then
      Exchange(Failed(MethodReplyLost), [], s[1 + s[0]..])
    else
      ServeRequest(s[1 + s[0]..])
  }

  // ---- reading inverts encoding ----

  lemma AddrRoundTrip(addr: Addr, rest: seq<byte>)
    requires addr.Valid()
    ensures ReadAddr(EncodeAddr(addr)[1..] + rest, EncodeAddr(addr)[0]) == Read(Some(addr), rest)
  {
    var s := EncodeAddr(addr)[1..] + rest;
    match addr
    case IPv4(b) => assert s[..4] == b && s[4..] == rest;
    case Domain(b) =>
      assert EncodeAddr(addr)[1..] == [|b|] + b;
      assert s[1..] == b + rest && s[1..][..|b|] == b && s[1..][|b|..] == rest;
    case IPv6(b) => assert s[..16] == b && s[16..] == rest;
  }

  lemma AddrConverse(s: seq<byte>, atyp: byte)
    requires ReadAddr(s, atyp).value.Some?
    ensures var r := ReadAddr(s, atyp);
            var addr := r.value.value;
            addr.Valid() && [atyp] + s == EncodeAddr(addr) + r.rest
  {
    var addr := ReadAddr(s, atyp).value.value;
    match addr
    case IPv4(b) => assert s == s[..4] + s[4..];
    case IPv6(b) => assert s == s[..16] + s[16..];
    case Domain(b) => assert s == [s[0]] + s[1..][..s[0]] + s[1..][s[0]..];
  }

  lemma PortRoundTrip(p: port)
    ensures DecodePort(EncodePort(p)) == p
  {}

  lemma PortConverse(b: seq<byte>)
    requires |b| == 2
    ensures EncodePort(DecodePort(b)) == b
  {}

  lemma ServePortRoundTrip(cmd: byte, addr: Addr, p: port, rest: seq<byte>)
    ensures ServePort(cmd, addr, EncodePort(p) + rest) ==
              if cmd == CMD_CONNECT then Exchange(Connect(addr, p), [MethodReply(AUTH_NONE)], rest)
              else Exchange(Failed(BadCommand), [MethodReply(AUTH_NONE), Reply(REP_CMD_NOT_SUPPORTED)], rest)
  {
    PortRoundTrip(p);
    assert (EncodePort(p) + rest)[..2] == EncodePort(p) && (EncodePort(p) + rest)[2..] == rest;
  }

  /** The first four bytes of a request, and what follows them. */
  lemma HeaderFirst(cmd: byte, reserved: byte, host: seq<byte>, port: seq<byte>, rest: seq<byte>)
    requires host != []
    ensures var s := [VERSION, cmd, reserved] + host + port + rest;
            |s| >= 4 && s[..4] == [VERSION, cmd, reserved, host[0]] && s[4..] == host[1..] + (port + rest)
  {
    var s := [VERSION, cmd, reserved] + host + port + rest;
    assert s == [VERSION, cmd, reserved, host[0]] + (host[1..] + (port + rest));
  }

  lemma RequestRoundTrip(cmd: byte, reserved: byte, addr: Addr, p: port, rest: seq<byte>)
    requires addr.Valid()
    ensures ServeRequest(EncodeRequest(cmd, reserved, addr, p) + rest) == ServePort(cmd, addr, EncodePort(p) + rest)
  {
    var s, host := EncodeRequest(cmd, reserved, addr, p) + rest, EncodeAddr(addr);
    HeaderFirst(cmd, reserved, host, EncodePort(p), rest);
    assert s[0] == s[..4][0] && s[1] == s[..4][1] && s[3] == s[..4][3];
    AddrRoundTrip(addr, EncodePort(p) + rest);
  }

  lemma NegotiationRoundTrip(methods: seq<byte>, tail: seq<byte>)
    requires |methods| <= 255
    ensures Serve([|methods|] + methods + tail, false) ==
              if AUTH_NONE in methods then ServeRequest(tail)
              else Exchange(Failed(NoAcceptableMethod), [MethodReply(AUTH_NO_ACCEPTABLE)], tail)
  {
    var s := [|methods|] + methods + tail;
    assert s[1..1 + s[0]] == methods && s[1 + s[0]..] == tail;
  }

  /**
   * Whatever methods are offered, and whatever follows on the stream: a CONNECT that offers "no
   * authentication" is understood, and exactly its bytes are consumed.
   */
  lemma RoundTrip(methods: seq<byte>, cmd: byte, reserved: byte, addr: Addr, p: port, rest: seq<byte>)
    requires |methods| <= 255 && addr.Valid()
    ensures var x := Serve(Encode(methods, cmd, reserved, addr, p) + rest, false);
            if AUTH_NONE !in methods then
              x == Exchange(Failed(NoAcceptableMethod), [MethodReply(AUTH_NO_ACCEPTABLE)],
                            EncodeRequest(cmd, reserved, addr, p) + rest)
            else if cmd == CMD_CONNECT then
              x == Exchange(Connect(addr, p), [MethodReply(AUTH_NONE)], rest)
            else
              x == Exchange(Failed(BadCommand), [MethodReply(AUTH_NONE), Reply(REP_CMD_NOT_SUPPORTED)], rest)
  {
    var tail := EncodeRequest(cmd, reserved, addr, p) + rest;
    assert Encode(methods, cmd, reserved, addr, p) + rest == [|methods|] + methods + tail;
    NegotiationRoundTrip(methods, tail);
    RequestRoundTrip(cmd, reserved, addr, p, rest);
    ServePortRoundTrip(cmd, addr, p, rest);
  }

  lemma RequestConverse(s: seq<byte>)
    requires ServeRequest(s).outcome.Connect?
    ensures var x := ServeRequest(s);
            && x.outcome.addr.Valid() && |s| >= 4
            && s == EncodeRequest(CMD_CONNECT, s[2], x.outcome.addr, x.outcome.port) + x.rest
  {
    var r := ReadAddr(s[4..], s[3]);
    AddrConverse(s[4..], s[3]);
    PortConverse(r.rest[..2]);
    assert r.rest == r.rest[..2] + r.rest[2..];
    var host, p := EncodeAddr(r.value.value), EncodePort(DecodePort(r.rest[..2]));
    Regroup(host, p, r.rest[2..]);
    Regroup([s[0], s[1], s[2]], host + p, r.rest[2..]);
    Regroup([s[0], s[1], s[2]], host, p);
    assert s[..3] == [s[0], s[1], s[2]] && s[3..] == [s[3]] + s[4..] && s == s[..3] + s[3..];
  }

  lemma NegotiationConverse(s: seq<byte>, replyLost: bool)
    requires Serve(s, replyLost).outcome.Connect?
    ensures !replyLost && s != [] && |s| - 1 >= s[0] && AUTH_NONE in s[1..1 + s[0]]
    ensures Serve(s, replyLost) == ServeRequest(s[1 + s[0]..])
    ensures s == [s[0]] + s[1..1 + s[0]] + s[1 + s[0]..]
  {}

  /** The converse: nothing but an encoded CONNECT that offers "no authentication" is accepted. */
  lemma AcceptedIsEncoded(s: seq<byte>, replyLost: bool)
    returns (methods: seq<byte>, reserved: byte)
    requires Serve(s, replyLost).outcome.Connect?
    ensures var x := Serve(s, replyLost);
            && !replyLost && |methods| <= 255 && AUTH_NONE in methods && x.outcome.addr.Valid()
            && s == Encode(methods, CMD_CONNECT, reserved, x.outcome.addr, x.outcome.port) + x.rest
  {
    NegotiationConverse(s, replyLost);
    methods := s[1..1 + s[0]];
    var tail := s[1 + s[0]..];
    var x := ServeRequest(tail);
    RequestConverse(tail);
    reserved := tail[2];
    Regroup([s[0]] + methods, EncodeRequest(CMD_CONNECT, reserved, x.outcome.addr, x.outcome.port), x.rest);
  }

  /** The round trip of an acceptable request. */
  lemma Recovered(methods: seq<byte>, reserved: byte, addr: Addr, p: port, rest: seq<byte>)
    requires |methods| <= 255 && addr.Valid() && AUTH_NONE in methods
    ensures Serve(Encode(methods, CMD_CONNECT, reserved, addr, p) + rest, false)
         == Exchange(Connect(addr, p), [MethodReply(AUTH_NONE)], rest)
  {
    RoundTrip(methods, CMD_CONNECT, reserved, addr, p, rest);
  }

  /** Bytes that arrive after an accepted request change nothing but what is left. */
  lemma AcceptedWithMore(s: seq<byte>, more: seq<byte>)
    requires Serve(s, false).outcome.Connect?
    ensures Serve(s + more, false) == Serve(s, false).(rest := Serve(s, false).rest + more)
  {
    var methods, reserved := AcceptedIsEncoded(s, false);
    var Exchange(Connect(addr, p), _, rest) := Serve(s, false);
    Recovered(methods, reserved, addr, p, rest);
    Recovered(methods, reserved, addr, p, rest + more);
    Regroup(Encode(methods, CMD_CONNECT, reserved, addr, p), rest, more);
  }

  lemma AddrCutShort(addr: Addr, n: nat)
    requires addr.Valid() && n < |EncodeAddr(addr)| - 1
    ensures ReadAddr(EncodeAddr(addr)[1..][..n], EncodeAddr(addr)[0]).value.None?
  {
    var s := EncodeAddr(addr)[1..][..n];
    if addr.Domain? && s != [] {
      assert s[0] == |addr.name| && |s[1..]| < |addr.name|;
    }
  }

  lemma RequestCutShort(cmd: byte, reserved: byte, addr: Addr, p: port, n: nat)
    requires addr.Valid() && n < |EncodeRequest(cmd, reserved, addr, p)|
    ensures var all := EncodeRequest(cmd, reserved, addr, p);
            ServeRequest(all[..n]).outcome ==
              Failed(if n < 4 then NoHeader else if n < |all| - 2 then BadAddress else NoPort)
  {
    var all, host := EncodeRequest(cmd, reserved, addr, p), EncodeAddr(addr);
    HeaderFirst(cmd, reserved, host, EncodePort(p), []);
    assert all + [] == all && EncodePort(p) + [] == EncodePort(p);
    if 4 <= n {
      assert all[..n][4..] == all[4..][..n - 4];
      assert all[..n][0] == all[..4][0] && all[..n][3] == all[..4][3];
      if n < |all| - 2 {
        assert all[4..][..n - 4] == host[1..][..n - 4];
        AddrCutShort(addr, n - 4);
      } else {
        var left := EncodePort(p)[..n - (|all| - 2)];
        assert all[4..][..n - 4] == host[1..] + left;
        AddrRoundTrip(addr, left);
      }
    }
  }

  /** Where a request is cut short decides what it is refused for. */
  lemma CutShort(methods: seq<byte>, cmd: byte, reserved: byte, addr: Addr, p: port, n: nat)
    requires |methods| <= 255 && addr.Valid() && n < |Encode(methods, cmd, reserved, addr, p)|
    ensures var all := Encode(methods, cmd, reserved, addr, p);
            Serve(all[..n], false).outcome ==
              Failed(if n == 0 then NoMethodCount
                     else if n < 1 + |methods| then NoMethods
                     else if AUTH_NONE !in methods then NoAcceptableMethod
                     else if n < 5 + |methods| then NoHeader
                     else if n < |all| - 2 then BadAddress
                     else NoPort)
  {
    var all, request := Encode(methods, cmd, reserved, addr, p), EncodeRequest(cmd, reserved, addr, p);
    var k := n - 1 - |methods|;
    if k >= 0 {
      assert all[..n] == [|methods|] + methods + request[..k];
      NegotiationRoundTrip(methods, request[..k]);
      if AUTH_NONE in methods {
        RequestCutShort(cmd, reserved, addr, p, k);
      }
    }
  }

  /** A request cut short anywhere is refused. */
  lemma OnlyTheWholeIsAccepted(methods: seq<byte>, cmd: byte, reserved: byte, addr: Addr, p: port, n: nat)
    requires |methods| <= 255 && addr.Valid() && n <= |Encode(methods, cmd, reserved, addr, p)|
    ensures var all := Encode(methods, cmd, reserved, addr, p);
            Serve(all[..n], false).outcome.Connect? <==>
              n == |all| && AUTH_NONE in methods && cmd == CMD_CONNECT
  {
    var all := Encode(methods, cmd, reserved, addr, p);
    if n < |all| {
      CutShort(methods, cmd, reserved, addr, p, n);
    } else {
      RoundTrip(methods, cmd, reserved, addr, p, []);
      assert all + [] == all == all[..n];
    }
  }

  /** A header of another version, or with an address type nobody knows, is refused as it stands. */
  lemma BadHeader(methods: seq<byte>, version: byte, cmd: byte, reserved: byte, atyp: byte, tail: seq<byte>)
    requires |methods| <= 255 && AUTH_NONE in methods
    requires version != 5 || (atyp != 1 && atyp != 3 && atyp != 4)
    ensures var x := Serve([|methods|] + methods + ([version, cmd, reserved, atyp] + tail), false);
            x.outcome == Failed(if version != 5 then BadVersion else BadAddress) && x.rest == tail
  {
    var request := [version, cmd, reserved, atyp] + tail;
    NegotiationRoundTrip(methods, request);
    assert request[4..] == tail;
  }

  // ---- the bytes on the wire ----

  /** What the client has been sent for each outcome, byte by byte (sections 3 and 6 of RFC 1928). */
  function Sent(outcome: Outcome): seq<seq<byte>> {
    match outcome
    case Connect(_, _) => [[5, 0]]
    case Failed(NoMethodCount) => []
    case Failed(NoMethods) => []
    case Failed(MethodReplyLost) => []
    case Failed(NoAcceptableMethod) => [[5, 255]]
    case Failed(NoHeader) => [[5, 0]]
    case Failed(BadVersion) => [[5, 0]]
    case Failed(NoPort) => [[5, 0]]
    case Failed(BadAddress) => [[5, 0], [5, 8, 0, 1, 0, 0, 0, 0, 0, 0]]
    case Failed(BadCommand) => [[5, 0], [5, 7, 0, 1, 0, 0, 0, 0, 0, 0]]
  }

  lemma RepliesOnTheWire(s: seq<byte>, replyLost: bool)
    ensures Serve(s, replyLost).replies == Sent(Serve(s, replyLost).outcome)
  {}

  /** An encoded request, byte by byte (sections 3 to 5 of RFC 1928); the port is big-endian. */
  lemma RequestOnTheWire(methods: seq<byte>, cmd: byte, reserved: byte, addr: Addr, p: port)
    returns (hi: byte, lo: byte)
    requires |methods| <= 255 && addr.Valid()
    ensures p == 256 * hi + lo
    ensures Encode(methods, cmd, reserved, addr, p) ==
              [|methods|] + methods +
              match addr
              case IPv4(b) => [5, cmd, reserved, 1, b[0], b[1], b[2], b[3], hi, lo]
              case Domain(b) => [5, cmd, reserved, 3, |b|] + b + [hi, lo]
              case IPv6(b) => [5, cmd, reserved, 4] + b + [hi, lo]
  {
    hi, lo := p / 256, p % 256;
    HostOnTheWire(cmd, reserved, addr);
    var front := [5, cmd, reserved] + EncodeAddr(addr);
    if addr.IPv4? {
      assert front + [hi, lo] == front[..4] + addr.octets + [hi, lo];
    }
  }

  lemma HostOnTheWire(cmd: byte, reserved: byte, addr: Addr)
    requires addr.Valid()
    ensures [5, cmd, reserved] + EncodeAddr(addr) ==
              match addr
              case IPv4(b) => [5, cmd, reserved, 1, b[0], b[1], b[2], b[3]]
              case Domain(b) => [5, cmd, reserved, 3, |b|] + b
              case IPv6(b) => [5, cmd, reserved, 4] + b
  {
    match addr
    case IPv4(b) => assert b == [b[0], b[1], b[2], b[3]];
    case Domain(b) => assert [5, cmd, reserved] + ([3, |b|] + b) == [5, cmd, reserved, 3, |b|] + b;
    case IPv6(b) => assert [5, cmd, reserved] + ([4] + b) == [5, cmd, reserved, 4] + b;
  }

  lemma AddrRestIsASuffix(s: seq<byte>, atyp: byte)
    ensures var rest := ReadAddr(s, atyp).rest;
            |rest| <= |s| && s[|s| - |rest|..] == rest
  {}

  lemma RequestRestIsASuffix(s: seq<byte>)
    ensures var rest := ServeRequest(s).rest;
            |rest| <= |s| && s[|s| - |rest|..] == rest
  {
    if |s| >= 4 && s[0] == VERSION {
      AddrRestIsASuffix(s[4..], s[3]);
    }
  }

  /** Nothing is invented, refused or not: what is left is always a suffix of what came in. */
  lemma RestIsASuffix(s: seq<byte>, replyLost: bool)
    ensures var rest := Serve(s, replyLost).rest;
            |rest| <= |s| && s[|s| - |rest|..] == rest
  {
    if s != [] && |s| - 1 >= s[0] {
      RequestRestIsASuffix(s[1 + s[0]..]);
    }
  }
}

module Socks5 {
  import opened Bytes
  import opened HttpStream
  import opened Options
  import opened Socks5Spec

  method ContainsByte(bs: seq<byte>, target: byte) returns (found: bool)
    ensures found <==> target in bs
  {
    for i := 0 to |bs|
      invariant target !in bs[..i]
    {
      if bs[i] == target {
        return true;
      }
    }
    return false;
  }

  /** readSOCKSAddr, off a buffered reader. */
  method TakeAddr(reader: Reader, atyp: byte) returns (addr: Option<Addr>)
    requires reader.Valid()
    modifies reader
    ensures reader.Valid() && Read(addr, reader.Unread()) == ReadAddr(old(reader.Unread()), atyp)
  {
    if atyp == ADDR_IPV4 {
      var b, ok := reader.ReadFull(4);
      addr := if ok then Some(IPv4(b)) else None;
    } else if atyp == ADDR_IPV6 {
      var b, ok := reader.ReadFull(16);
      addr := if ok then Some(IPv6(b)) else None;
    } else if atyp == ADDR_DOMAIN {
      var n, ok := reader.ReadFull(1);
      if !ok {
        return None;
      }
      assert old(reader.Unread())[1..] == reader.Unread();
      var b;
      b, ok := reader.ReadFull(n[0]);
      addr := if ok then Some(Domain(b)) else None;
    } else {
      addr := None;
    }
  }

  /** The request half of readSOCKSRequest. */
  method TakeRequest(reader: Reader) returns (outcome: Outcome, replies: seq<seq<byte>>)
    requires reader.Valid()
    modifies reader
    ensures reader.Valid()
    ensures Exchange(outcome, [MethodReply(AUTH_NONE)] + replies, reader.Unread()) == ServeRequest(old(reader.Unread()))
  {
    replies := [];
    var header, ok := reader.ReadFull(4);
    if !ok {
      return Failed(NoHeader), replies;
    }
    assert header == old(reader.Unread())[..4] && reader.Unread() == old(reader.Unread())[4..];
    if header[0] != VERSION {
      return Failed(BadVersion), replies;
    }
    var addr := TakeAddr(reader, header[3]);
    if addr.None? {
      return Failed(BadAddress), [Reply(REP_ADDR_NOT_SUPPORTED)];
    }
    ghost var after := reader.Unread();
    var p;
    p, ok := reader.ReadFull(2);
    if !ok {
      return Failed(NoPort), replies;
    }
    assert p == after[..2] && reader.Unread() == after[2..];
    if header[1] != CMD_CONNECT {
      return Failed(BadCommand), [Reply(REP_CMD_NOT_SUPPORTED)];
    }
    outcome := Connect(addr.value, DecodePort(p));
  }

  /**
   * readSOCKSRequest: step by step off the reader, for any chunking of the source, it comes to
   * what the stream alone dictates, and leaves the rest of the stream for the relay.
   */
  method TakeNegotiationAndRequest(reader: Reader, replyLost: bool)
    returns (outcome: Outcome, replies: seq<seq<byte>>)
    requires reader.Valid()
    modifies reader
    ensures reader.Valid()
    ensures Exchange(outcome, replies, reader.Unread()) == Serve(old(reader.Unread()), replyLost)
    ensures replies == Sent(outcome)
  {
    RepliesOnTheWire(reader.Unread(), replyLost);
    var n, ok := reader.ReadFull(1);
    if !ok {
      return Failed(NoMethodCount), [];
    }
    ghost var s := old(reader.Unread());
    assert reader.Unread() == s[1..] && n[0] == s[0];
    var methods;
    methods, ok := reader.ReadFull(n[0]);
    if !ok {
      return Failed(NoMethods), [];
    }
    assert methods == s[1..1 + s[0]] && reader.Unread() == s[1 + s[0]..];
    var none := ContainsByte(methods, AUTH_NONE);
    if !none {
      return Failed(NoAcceptableMethod), [MethodReply(AUTH_NO_ACCEPTABLE)];
    }
    if replyLost {
      return Failed(MethodReplyLost), [];
    }
    outcome, replies := TakeRequest(reader);
    replies := [MethodReply(AUTH_NONE)] + replies;
  }
}
