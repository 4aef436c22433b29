/** The octets of requests and answers one by one, and exactly what each parser accepts. */
module Layouts {
  import opened Octets
  import opened Text
  import opened Wire
  import opened ClientModel
  import ServerModel
  import AnswerFormat
  import Checksum

  // ---- Numbers ----

  /** The i-th octet is the i-th digit in base 256, the least significant one first. */
  lemma {:induction false} DigitAt(n: nat, size: nat, i: nat)
    requires i < size
    ensures Value(LittleEndian(n, size)[i]) == n / Capacity(i) % 256
    decreases i
  {
    hide Value, OctetOf;
    if i == 0 {
      ValueOfOctet(n % 256);
    } else {
      DigitAt(n / 256, size - 1, i - 1);
      DivideTwice(n, Capacity(i - 1));
    }
  }

  lemma DivideTwice(n: nat, c: nat)
    requires c > 0
    ensures n / 256 / c == n / (256 * c)
  {
    var q, r := n / 256 / c, n / 256 % c;
    assert n / 256 == c * q + r;
    assert n == 256 * (c * q + r) + n % 256;
    assert 256 * (c * q) == (256 * c) * q;
    var s := 256 * r + n % 256;
    assert 0 <= s < 256 * c;
    QuotientIs(n, 256 * c, q, s);
  }

  lemma QuotientIs(n: nat, m: nat, q: nat, s: nat)
    requires m > 0 && n == m * q + s && s < m
    ensures n / m == q
  {
    var d := n / m - q;
    assert m * d == s - n % m;
    Multiples(m, d);
  }

  lemma Number1(s: Bytes)
    requires |s| == 1
    ensures NumberOf(s) == Value(s[0])
  {
    hide Value;
    assert s[1..] == [];
  }

  lemma Number2(s: Bytes)
    requires |s| == 2
    ensures NumberOf(s) == Value(s[0]) + 256 * Value(s[1])
  {
    Number1(s[1..]);
    hide Value;
  }

  lemma Number4(s: Bytes)
    requires |s| == 4
    ensures NumberOf(s) == Number(Value(s[3]), Value(s[2]), Value(s[1]), Value(s[0]))
  {
    Number2(s[2..]);
    hide Value;
    assert s[1..][1..] == s[2..];
    assert NumberOf(s[1..]) == Value(s[1]) + 256 * NumberOf(s[2..]);
  }

  // ---- Requests ----

  function CodeAt(s: Bytes, i: nat): nat
    requires i + 2 <= |s|
  {
    Value(s[i]) + 256 * Value(s[i + 1])
  }

  function WordAt(s: Bytes, i: nat): nat
    requires i + 4 <= |s|
  {
    Number(Value(s[i + 3]), Value(s[i + 2]), Value(s[i + 1]), Value(s[i]))
  }

  lemma NumbersAt(s: Bytes)
    ensures forall i: nat :: i + 1 <= |s| ==> NumberOf(s[i..i + 1]) == Value(s[i])
    ensures forall i: nat :: i + 2 <= |s| ==> NumberOf(s[i..i + 2]) == CodeAt(s, i)
    ensures forall i: nat :: i + 4 <= |s| ==> NumberOf(s[i..i + 4]) == WordAt(s, i)
  {
    hide Value, Number, NumberOf;
    forall i: nat | i + 1 <= |s| ensures NumberOf(s[i..i + 1]) == Value(s[i]) { Number1(s[i..i + 1]); }
    forall i: nat | i + 2 <= |s| ensures NumberOf(s[i..i + 2]) == CodeAt(s, i) { Number2(s[i..i + 2]); }
    forall i: nat | i + 4 <= |s| ensures NumberOf(s[i..i + 4]) == WordAt(s, i) { Number4(s[i..i + 4]); }
  }

  /** How many octets the server takes for a request, by its header: the header alone for a wrong
      version or an unknown code, and else the fields of the code. */
  function Needed(s: Bytes): nat
    requires |s| >= 23
  {
    if Value(s[16]) != 3 then 23
    else
      match CodeAt(s, 17)
      case 825 => 23 + 255
      case 827 => 23 + 255
      case 900 => 23 + 255
      case 901 => 23 + 255
      case 902 => 23 + 255
      case 826 => 23 + 255 + 160
      case 828 => 23 + if WordAt(s, 19) < 267 then 267 else WordAt(s, 19)
      case _ => 23
  }

  /** What the server makes of these octets, if there are enough of them. */
  function Meant(s: Bytes): Request
    requires |s| >= 23 && |s| >= Needed(s)
  {
    if Value(s[16]) != 3 then Invalid(s[..16])
    else
      var code := CodeAt(s, 17);
      if code == 825 then Register(s[..16], s[23..278])
      else if code == 827 then Reconnect(s[..16], s[23..278])
      else if code == 826 then PublicKey(s[..16], s[23..278], s[278..438])
      else if code == 900 || code == 901 || code == 902 then Verdict(s[..16], code, s[23..278])
      else if code == 828 && WordAt(s, 19) >= 267 then
        Packet(s[..16], WordAt(s, 23), WordAt(s, 27), CodeAt(s, 31), CodeAt(s, 33), s[35..290],
               s[290..23 + WordAt(s, 19)])
      else Invalid(s[..16])
  }

  /** The parser: nothing, not enough, or the request that the octets mean and what follows it. */
  lemma DecodeExactly(s: Bytes)
    ensures Decode(s) ==
              if s == [] then Closed
              else if |s| < 23 || |s| < Needed(s) then Incomplete
              else Read(Meant(s), s[Needed(s)..])
  {
    if |s| >= 23 {
      NumbersAt(s);
      hide NumberOf, Value, Number, DecodeBody;
      var body := s[23..];
      assert Decode(s) == if Value(s[16]) != 3 then Read(Invalid(s[..16]), body)
                          else DecodeBody(s[..16], CodeAt(s, 17), WordAt(s, 19), body);
      if Value(s[16]) == 3 { BodyExactly(s); }
    }
  }

  lemma BodyExactly(s: Bytes)
    requires |s| >= 23 && Value(s[16]) == 3
    ensures DecodeBody(s[..16], CodeAt(s, 17), WordAt(s, 19), s[23..])
         == if |s| < Needed(s) then Incomplete else Read(Meant(s), s[Needed(s)..])
  {
    if CodeAt(s, 17) == 828 {
      PacketExactly(s);
      hide DecodePacket, Value, Number;
    } else {
      hide DecodePacket, Value, Number;
      SlicesFrom23(s);
    }
  }

  lemma SlicesFrom23(s: Bytes)
    requires |s| >= 23
    ensures var body := s[23..];
            && (|body| >= 255 ==> body[..255] == s[23..278] && body[255..] == s[278..])
            && (|body| >= 415 ==> body[255..415] == s[278..438] && body[415..] == s[438..])
  {
  }

  lemma PacketExactly(s: Bytes)
    requires |s| >= 23 && Value(s[16]) == 3 && CodeAt(s, 17) == 828
    ensures DecodePacket(s[..16], WordAt(s, 19), s[23..])
         == if |s| < Needed(s) then Incomplete else Read(Meant(s), s[Needed(s)..])
  {
    var body, size := s[23..], WordAt(s, 19);
    hide NumberOf, Value, Number, CodeAt, WordAt;
    assert Needed(s) == 23 + if size < 267 then 267 else size;
    if |s| < Needed(s) {
    } else if size < 267 {
      assert body[267..] == s[290..];
    } else {
      PacketNumbers(s);
      PacketStrings(s, size);
    }
  }

  lemma PacketNumbers(s: Bytes)
    requires |s| >= 290
    ensures var body := s[23..];
            && NumberOf(body[..4]) == WordAt(s, 23) && NumberOf(body[4..8]) == WordAt(s, 27)
            && NumberOf(body[8..10]) == CodeAt(s, 31) && NumberOf(body[10..12]) == CodeAt(s, 33)
  {
    var body := s[23..];
    NumbersAt(s);
    hide NumberOf, WordAt, CodeAt;
    assert body[..4] == s[23..27] && body[4..8] == s[27..31];
    assert body[8..10] == s[31..33] && body[10..12] == s[33..35];
  }

  lemma PacketStrings(s: Bytes, size: nat)
    requires 267 <= size && 23 + size <= |s|
    ensures var body := s[23..];
            body[12..267] == s[35..290] && body[267..size] == s[290..23 + size] && body[size..] == s[23 + size..]
  {
  }

  /** The octets of a request: identifier, version 3, code and size of the payload in little
      endian, payload. */
  lemma RequestOctets(r: Request)
    requires WellFormed(r)
    ensures var s := Encode(r);
            && |s| == 23 + |Payload(r)| && s[..16] == r.id && Value(s[16]) == 3
            && WordAt(s, 19) == |Payload(r)| && s[23..] == Payload(r)
            && CodeAt(s, 17) == (match r
                                 case Register(_, _) => 825
                                 case PublicKey(_, _, _) => 826
                                 case Reconnect(_, _) => 827
                                 case Packet(_, _, _, _, _, _, _) => 828
                                 case Verdict(_, code, _) => code)
  {
    PayloadSize(r);
    var tail: Bytes := [];
    HeaderRoundTrip(r.id, Code(r), |Payload(r)|, Payload(r));
    NumbersAt(Encode(r));
    VersionIs();
    hide NumberOf, Value, Number, LittleEndian, Payload;
  }

  lemma VersionIs()
    ensures VERSION == 3
  {
  }

  // ---- Answers ----

  /** The header of an answer: version 3, code, size. Nothing else is accepted. */
  lemma ReadHeaderExactly(s: Bytes)
    ensures ReadHeader(s) ==
              if |s| < 7 || Value(s[0]) != 3 then None
              else Some(Heading(CodeAt(s, 1), WordAt(s, 3), s[7..]))
  {
    NumbersAt(s);
    hide NumberOf, Value, Number;
    if |s| >= 7 { assert s[..1] == s[0..1]; }
  }

  lemma AnswerOctets(a: ServerModel.Answer)
    requires AnswerFormat.Fits(a)
    ensures var s := AnswerFormat.EncodeAnswer(a);
            && |s| == 7 + |a.payload| && Value(s[0]) == 3 && CodeAt(s, 1) == a.code && WordAt(s, 3) == a.size
            && s[7..] == a.payload
  {
    AnswerFormat.HeaderIsRead(a, []);
    var s := AnswerFormat.EncodeAnswer(a);
    assert s + [] == s && a.payload + [] == a.payload;
    ReadHeaderExactly(s);
    hide ReadHeader, AnswerFormat.EncodeAnswer, Value, Number, CodeAt, WordAt;
  }

  /** The report of a received file: identifier, content size, name with zeros after it, checksum. */
  lemma ReportOctets(id: Bytes, size: nat, name: Bytes, plain: Bytes)
    requires |id| == 16 && |name| <= 255
    ensures var a := ServerModel.CrcAnswer(id, size, name, plain);
            var s := a.payload;
            && a.code == 1603 && a.size == |s| == 279 && s[..16] == id && WordAt(s, 16) == size % 0x1_0000_0000
            && s[20..20 + |name|] == name && (forall i :: 20 + |name| <= i < 275 ==> s[i] == 0)
            && WordAt(s, 275) == Nat(Checksum.Cksum(plain))
  {
    hide Value, OctetOf, LittleEndian, NumberOf, Number, Capacity, Nat, Checksum.Cksum, Pad;
    var crc := Nat(Checksum.Cksum(plain));
    Capacities();
    NumberRoundTrip(size, 4);
    NumberRoundTrip(crc, 4);
    var a, b, c, d := id, LittleEndian(size, 4), Pad(name, 255), LittleEndian(crc, 4);
    FourFields(a, b, c, d);
    var s := a + b + c + d;
    NumbersAt(s);
    assert s[16..20] == b && s[275..279] == d && s[20..275] == c;
    forall i | 20 <= i < 275 ensures s[i] == c[i - 20] { assert s[20..275][i - 20] == s[i]; }
    assert s[20..20 + |name|] == c[..|name|];
  }

  lemma FourFields(a: Bytes, b: Bytes, c: Bytes, d: Bytes)
    requires |a| == 16 && |b| == 4 && |c| == 255 && |d| == 4
    ensures var s := a + b + c + d;
            |s| == 279 && s[..16] == a && s[16..20] == b && s[20..275] == c && s[275..279] == d
  {
    Cut5(a, b, c, d, []);
    assert a + b + c + d + [] == a + b + c + d;
  }

  // ---- Fixed-width strings ----

  /** The check passes exactly if the octets arrive and are the expected string, which has no zero,
      up to the end of the field or the first zero. */
  lemma CheckedExactly(s: Bytes, expected: Bytes, size: nat)
    ensures Checked(s, expected, size) ==
              if && |s| >= size && |expected| <= size && NoZero(expected)
                 && s[..|expected|] == expected && (|expected| < size ==> s[|expected|] == 0)
              then Some(s[size..]) else None
  {
    if |s| >= size {
      var t := CutAtZero(s[..size]);
      if |expected| <= size && NoZero(expected) && s[..|expected|] == expected
         && (|expected| < size ==> s[|expected|] == 0) {
        CutIs(s[..size], expected);
      }
      hide CutAtZero, NoZero;
      assert t <= s[..size] && t == s[..|t|];
    }
  }

  lemma {:induction false} CutIs(s: Bytes, t: Bytes)
    requires t <= s && NoZero(t) && (|t| < |s| ==> s[|t|] == 0)
    ensures CutAtZero(s) == t
  {
    if t == [] {
    } else {
      CutIs(s[1..], t[1..]);
    }
  }

  /** The report of a received file is accepted exactly if identifier, content size and name are the
      client's own; then the checksum is what the last four octets say. */
  lemma ReadReportExactly(c: Client)
    requires |c.id| == 16 && |c.setup.fileName| < 255
    ensures var s, n := c.input, |c.setup.fileName|;
            ReadReport(c) ==
              if && |s| >= 279 && NoZero(c.id) && s[..16] == c.id && WordAt(s, 16) == c.contentSize
                 && NoZero(c.setup.fileName) && s[20..20 + n] == c.setup.fileName && s[20 + n] == 0
              then Some(Report(WordAt(s, 275), s[279..])) else None
  {
    hide NoZero, NumberOf, Value, Number;
    var s, name := c.input, c.setup.fileName;
    var n := |name|;
    NumbersAt(s);
    CheckedExactly(s, c.id, 16);
    if |s| >= 20 {
      var u := s[16..][4..];
      assert u == s[20..] && s[16..][..4] == s[16..20];
      CheckedExactly(u, name, 255);
      assert |u| >= n ==> u[..n] == s[20..20 + n];
      assert |u| > n ==> u[n] == s[20 + n];
      assert |u| >= 259 ==> u[255..][..4] == s[275..279] && u[255..][4..] == s[279..];
    }
  }
}
