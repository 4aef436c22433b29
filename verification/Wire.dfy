/** The request format: what the client writes (Client/request.cpp) and what the server reads
    (Server/request.py). Numbers are little endian. */
module Wire {
  import opened Octets
  import opened Text

  const VERSION: nat := 3
  const CLIENT_ID_SIZE: nat := 16
  const NAME_SIZE: nat := 255
  const PUBLIC_KEY_SIZE: nat := 160
  const HEADER_SIZE: nat := 23
  const PACKET_FIELDS_SIZE: nat := 267
  const PACKET_MAX_SIZE: nat := 4096
  const MAX_PACKETS: nat := 65535

  function LittleEndian(n: nat, size: nat): (b: Bytes)
    ensures |b| == size
    decreases size
  {
    if size == 0 then [] else [OctetOf(n % 256)] + LittleEndian(n / 256, size - 1)
  }

  function NumberOf(b: Bytes): nat {
    if b == [] then 0 else Value(b[0]) + 256 * NumberOf(b[1..])
  }

  function Capacity(size: nat): (c: nat)
    ensures c > 0
  {
    if size == 0 then 1 else 256 * Capacity(size - 1)
  }

  lemma {:induction false} NumberRoundTrip(n: nat, size: nat)
    ensures NumberOf(LittleEndian(n, size)) == n % Capacity(size)
    decreases size
  {
    if size > 0 {
      NumberRoundTrip(n / 256, size - 1);
      ValueOfOctet(n % 256);
      var b := LittleEndian(n, size);
      assert b[1..] == LittleEndian(n / 256, size - 1);
      ModDigits(n, Capacity(size - 1));
    }
  }

  lemma ModDigits(n: nat, c: nat)
    requires c > 0
    ensures n % (256 * c) == n % 256 + 256 * ((n / 256) % c)
  {
    var q, r := (n / 256) / c, (n / 256) % c;
    assert n / 256 == c * q + r;
    assert n == 256 * c * q + (256 * r + n % 256);
    var m, s := 256 * c, 256 * r + n % 256;
    assert 0 <= s < m;
    RemainderIs(n, m, q, s);
  }

  lemma RemainderIs(n: int, m: int, q: int, s: int)
    requires m > 0 && n == m * q + s && 0 <= s < m
    ensures n % m == s
  {
    var d := n / m - q;
    assert n == m * (n / m) + n % m;
    assert m * d == s - n % m;
    Multiples(m, d);
  }

  lemma Multiples(m: int, d: int)
    requires m > 0
    ensures d >= 1 ==> m * d >= m
    ensures d <= -1 ==> m * d <= -m
  {
  }

  lemma Capacities()
    ensures Capacity(1) == 256 && Capacity(2) == 65536 && Capacity(4) == 0x1_0000_0000
  {
    assert Capacity(0) == 1 && Capacity(3) == 256 * Capacity(2);
  }

  /** A request as its fields. Names are the fixed-width fields, padding included. `Invalid` is a
      request that the server rejects before it looks at any client. */
  datatype Request =
    | Register(id: Bytes, name: Bytes)
    | Reconnect(id: Bytes, name: Bytes)
    | PublicKey(id: Bytes, name: Bytes, key: Bytes)
    | Packet(id: Bytes, contentSize: nat, origSize: nat, number: nat, total: nat, name: Bytes, content: Bytes)
    | Verdict(id: Bytes, code: nat, name: Bytes)
    | Invalid(id: Bytes)

  function Code(r: Request): nat {
    match r
    case Register(_, _) => 825
    case Reconnect(_, _) => 827
    case PublicKey(_, _, _) => 826
    case Packet(_, _, _, _, _, _, _) => 828
    case Verdict(_, code, _) => code
    case Invalid(_) => 0
  }

  function Payload(r: Request): Bytes {
    match r
    case Register(_, name) => name
    case Reconnect(_, name) => name
    case PublicKey(_, name, key) => name + key
    case Packet(_, contentSize, origSize, number, total, name, content) =>
      PacketFields(contentSize, origSize, number, total, name) + content
    case Verdict(_, _, name) => name
    case Invalid(_) => []
  }

  function PacketFields(contentSize: nat, origSize: nat, number: nat, total: nat, name: Bytes): Bytes {
    LittleEndian(contentSize, 4) + LittleEndian(origSize, 4)
    + LittleEndian(number, 2) + LittleEndian(total, 2) + name
  }

  function Header(id: Bytes, version: nat, code: nat, size: nat): Bytes {
    id + LittleEndian(version, 1) + LittleEndian(code, 2) + LittleEndian(size, 4)
  }

  /** The octets of a request; its header announces the size of its payload. */
  function Encode(r: Request): Bytes {
    Header(r.id, VERSION, Code(r), |Payload(r)|) + Payload(r)
  }

  function EncodeAll(rs: seq<Request>): Bytes {
    if rs == [] then [] else Encode(rs[0]) + EncodeAll(rs[1..])
  }

  predicate WellFormed(r: Request) {
    && |r.id| == CLIENT_ID_SIZE
    && !r.Invalid?
    && |r.name| == NAME_SIZE
    && (r.PublicKey? ==> |r.key| == PUBLIC_KEY_SIZE)
    && (r.Verdict? ==> r.code == 900 || r.code == 901 || r.code == 902)
    && (r.Packet? ==>
          && r.contentSize < 0x1_0000_0000 && r.origSize < 0x1_0000_0000
          && r.number < 0x1_0000 && r.total < 0x1_0000
          && |r.content| < 0x1_0000_0000 - PACKET_FIELDS_SIZE)
  }

  // ---- Reading ----

  /** What every request read from a stream satisfies: fields of fixed width have that width, and
      the code selects one of the handlers. */
  predicate Readable(r: Request) {
    && |r.id| == CLIENT_ID_SIZE
    && (!r.Invalid? ==> |r.name| == NAME_SIZE)
    && (r.Verdict? ==> r.code == 900 || r.code == 901 || r.code == 902)
  }

  datatype Decoded = Closed | Incomplete | Read(request: Request, rest: Bytes)

  /** What the server reads from the front of a stream, taking each field with exact reads.
      A wrong version, an unknown code or a packet shorter than its fields is an error. */
  function Decode(s: Bytes): (d: Decoded)
    ensures d.Read? ==> |d.rest| < |s| && Readable(d.request)
  {
    if s == [] then Closed
    else if |s| < HEADER_SIZE then Incomplete
    else
      var id, version := s[..16], NumberOf(s[16..17]);
      var code, size, body := NumberOf(s[17..19]), NumberOf(s[19..23]), s[23..];
      if version != VERSION then Read(Invalid(id), body)
      else DecodeBody(id, code, size, body)
  }

  /** What the handler of the request reads after the header. */
  function DecodeBody(id: Bytes, code: nat, size: nat, body: Bytes): (d: Decoded)
    requires |id| == CLIENT_ID_SIZE
    ensures d.Read? ==> |d.rest| <= |body| && Readable(d.request)
    ensures !d.Closed? && (d.Read? ==> (d.request.Register? <==> code == 825))
  {
    if code == 825 then
      if |body| < 255 then Incomplete else Read(Register(id, body[..255]), body[255..])
    else if code == 827 then
      if |body| < 255 then Incomplete else Read(Reconnect(id, body[..255]), body[255..])
    else if code == 826 then
      if |body| < 415 then Incomplete else Read(PublicKey(id, body[..255], body[255..415]), body[415..])
    else if code == 828 then DecodePacket(id, size, body)
    else if code == 900 || code == 901 || code == 902 then
      if |body| < 255 then Incomplete else Read(Verdict(id, code, body[..255]), body[255..])
    else Read(Invalid(id), body)
  }

  function DecodePacket(id: Bytes, size: nat, body: Bytes): (d: Decoded)
    requires |id| == CLIENT_ID_SIZE
    ensures d.Read? ==> |d.rest| <= |body| && Readable(d.request)
    ensures d.Read? ==> d.request.Packet? || d.request.Invalid?
    ensures !d.Closed?
  {
    if |body| < PACKET_FIELDS_SIZE then Incomplete
    else if size < PACKET_FIELDS_SIZE then Read(Invalid(id), body[267..])
    else if |body| < size then Incomplete
    else
      Read(Packet(id, NumberOf(body[..4]), NumberOf(body[4..8]), NumberOf(body[8..10]), NumberOf(body[10..12]),
                  body[12..267], body[267..size]),
           body[size..])
  }

  function DecodeAll(s: Bytes): Option<seq<Request>>
    decreases |s|
  {
    match Decode(s)
    case Closed => Some([])
    case Incomplete => None
    case Read(r, rest) =>
      match DecodeAll(rest)
      case None => None
      case Some(rs) => Some([r] + rs)
  }

  // ---- Round trip ----

  lemma Cut(a: Bytes, b: Bytes)
    ensures (a + b)[..|a|] == a && (a + b)[|a|..] == b
  {
  }

  lemma Cut5(a: Bytes, b: Bytes, c: Bytes, d: Bytes, tail: Bytes)
    ensures var s := a + b + c + d + tail;
            var i, j, k := |a|, |a| + |b|, |a| + |b| + |c|;
            && s[..i] == a && s[i..j] == b && s[j..k] == c && s[k..k + |d|] == d && s[k + |d|..] == tail
  {
  }

  lemma HeaderRoundTrip(id: Bytes, code: nat, size: nat, tail: Bytes)
    requires |id| == 16 && code < 0x1_0000 && size < 0x1_0000_0000
    ensures var s := Header(id, VERSION, code, size) + tail;
            && |s| == 23 + |tail| && s[..16] == id && NumberOf(s[16..17]) == VERSION
            && NumberOf(s[17..19]) == code && NumberOf(s[19..23]) == size && s[23..] == tail
  {
    hide LittleEndian, NumberOf, Capacity;
    Capacities();
    NumberRoundTrip(VERSION, 1);
    NumberRoundTrip(code, 2);
    NumberRoundTrip(size, 4);
    Cut5(id, LittleEndian(VERSION, 1), LittleEndian(code, 2), LittleEndian(size, 4), tail);
  }

  lemma PacketRoundTrip(r: Request, tail: Bytes)
    requires WellFormed(r) && r.Packet?
    ensures DecodePacket(r.id, |Payload(r)|, Payload(r) + tail) == Read(r, tail)
  {
    hide LittleEndian, NumberOf, Capacity;
    Capacities();
    NumberRoundTrip(r.contentSize, 4);
    NumberRoundTrip(r.origSize, 4);
    NumberRoundTrip(r.number, 2);
    NumberRoundTrip(r.total, 2);
    var a, b := LittleEndian(r.contentSize, 4), LittleEndian(r.origSize, 4);
    var c, d := LittleEndian(r.number, 2), LittleEndian(r.total, 2);
    CutPacket(a, b, c, d, r.name, r.content, tail);
  }

  lemma CutPacket(a: Bytes, b: Bytes, c: Bytes, d: Bytes, name: Bytes, content: Bytes, tail: Bytes)
    requires |a| == |b| == 4 && |c| == |d| == 2 && |name| == 255
    ensures var s := a + b + c + d + name + content + tail;
            var n := 267 + |content|;
            && |s| == n + |tail|
            && s[..4] == a && s[4..8] == b && s[8..10] == c && s[10..12] == d
            && s[12..267] == name && s[267..n] == content && s[n..] == tail
  {
    var rest := name + content + tail;
    var s := a + b + c + d + rest;
    Cut5(a, b, c, d, rest);
    assert s == a + b + c + d + name + content + tail;
    Cut5([], [], name, content, tail);
    assert [] + [] + name + content + tail == rest;
    assert s[12..267] == rest[..255];
    assert s[267..267 + |content|] == rest[255..255 + |content|];
    assert s[267 + |content|..] == rest[255 + |content|..];
  }

  lemma PayloadSize(r: Request)
    requires WellFormed(r)
    ensures |Payload(r)| < 0x1_0000_0000
  {
    hide LittleEndian;
  }

  /** The server recovers a request from its octets and leaves what follows them. */
  lemma DecodeEncode(r: Request, tail: Bytes)
    requires WellFormed(r)
    ensures Decode(Encode(r) + tail) == Read(r, tail)
  {
    hide LittleEndian, NumberOf, Header, DecodePacket, Encode, Decode, PacketFields;
    var body := Payload(r) + tail;
    assert Code(r) < 0x1_0000;
    assert |Payload(r)| < 0x1_0000_0000 by { PayloadSize(r); }
    DecodeHeader(r, tail);
    match r
    case Packet(_, _, _, _, _, _, _) =>
      PacketRoundTrip(r, tail);
    case PublicKey(_, name, key) =>
      Cut5([], [], name, key, tail);
      assert [] + [] + name + key + tail == body;
    case _ =>
      Cut(r.name, tail);
  }

  lemma DecodeHeader(r: Request, tail: Bytes)
    requires |r.id| == 16 && !r.Invalid? && Code(r) < 0x1_0000 && |Payload(r)| < 0x1_0000_0000
    ensures Decode(Encode(r) + tail) == DecodeBody(r.id, Code(r), |Payload(r)|, Payload(r) + tail)
  {
    hide Payload, LittleEndian, NumberOf, DecodeBody;
    var h := Header(r.id, VERSION, Code(r), |Payload(r)|);
    HeaderRoundTrip(r.id, Code(r), |Payload(r)|, Payload(r) + tail);
    assert Encode(r) + tail == h + (Payload(r) + tail);
    hide Header;
  }

  /** Framing: whatever requests are sent one after the other, exactly those are read. */
  lemma {:induction false} DecodeEncodeAll(rs: seq<Request>)
    requires forall r :: r in rs ==> WellFormed(r)
    ensures DecodeAll(EncodeAll(rs)) == Some(rs)
  {
    hide Decode, Encode, WellFormed;
    if rs == [] {
      DecodeNothing();
    } else {
      DecodeEncode(rs[0], EncodeAll(rs[1..]));
      DecodeEncodeAll(rs[1..]);
      assert rs == [rs[0]] + rs[1..];
    }
  }

  lemma DecodeNothing()
    ensures Decode([]) == Closed
  {
  }

  /** The server reads a public key of 160 octets whatever size the header announces: request 826
      is framed correctly exactly for keys of that size. */
  lemma PublicKeyFraming(id: Bytes, name: Bytes, key: Bytes, size: nat, tail: Bytes)
    requires |id| == 16 && |name| == 255 && size < 0x1_0000_0000
    requires |key| + |tail| >= 160
    ensures Decode(Header(id, VERSION, 826, size) + (name + key + tail)) == Read(PublicKey(id, name, key), tail)
            <==> |key| == PUBLIC_KEY_SIZE
  {
    hide LittleEndian, NumberOf, Header, DecodePacket;
    var body := name + key + tail;
    HeaderRoundTrip(id, 826, size, body);
    Cut5([], [], name, key, tail);
    assert [] + [] + name + key + tail == body;
    assert |body[255..415]| == 160;
  }
}
