/** The octets of an answer (Server/answer.py, Server/request.py) and what the client makes of
    them (Client/answer.cpp). */
module AnswerFormat {
  import opened Octets
  import opened Text
  import opened Wire
  import opened Cryptography
  import opened ServerModel
  import ServerAnswers
  import opened ClientModel
  import Checksum

  function AnswerHeader(code: nat, size: nat): Bytes {
    LittleEndian(VERSION, 1) + LittleEndian(code, 2) + LittleEndian(size, 4)
  }

  /** The header, then what the handler sends after it. */
  function EncodeAnswer(a: Answer): Bytes {
    AnswerHeader(a.code, a.size) + a.payload
  }

  function ReplyOctets(reply: Option<Answer>): Bytes {
    match reply
    case None => []
    case Some(a) => EncodeAnswer(a)
  }

  predicate Fits(a: Answer) {
    a.code < 0x1_0000 && a.size < 0x1_0000_0000
  }

  lemma HeaderIsRead(a: Answer, tail: Bytes)
    requires Fits(a)
    ensures ReadHeader(EncodeAnswer(a) + tail) == Some(Heading(a.code, a.size, a.payload + tail))
  {
    hide LittleEndian, NumberOf, Capacity;
    Capacities();
    NumberRoundTrip(VERSION, 1);
    NumberRoundTrip(a.code, 2);
    NumberRoundTrip(a.size, 4);
    Cut5([], LittleEndian(VERSION, 1), LittleEndian(a.code, 2), LittleEndian(a.size, 4), a.payload + tail);
    var s := EncodeAnswer(a) + tail;
    assert s == [] + LittleEndian(VERSION, 1) + LittleEndian(a.code, 2) + LittleEndian(a.size, 4) + (a.payload + tail);
    assert s[..1] == s[0..1];
  }

  // ---- The client reads exactly what was announced ----

  lemma Split(p: Bytes, tail: Bytes, n: nat)
    requires n <= |p|
    ensures (p + tail)[..n] == p[..n] && (p + tail)[n..] == p[n..] + tail
  {
  }

  lemma AcceptConsumes(c: Client, p: Bytes, tail: Bytes, k: Crypto)
    requires c.input == p + tail && |p| >= CLIENT_ID_SIZE
    ensures var d := AcceptKey(c, |p|, k); d.phase == Exited || d.input == tail
  {
    hide SendUpload;
    UploadKeepsInput(c, k);
    Split(p, tail, CLIENT_ID_SIZE);
    match Checked(c.input, c.id, CLIENT_ID_SIZE)
    case None =>
    case Some(rest) =>
      var n := |p| - CLIENT_ID_SIZE;
      Split(p[CLIENT_ID_SIZE..], tail, n);
      if |rest| >= n {
        UploadKeepsInput(c.(wrappedKey := rest[..n], input := rest[n..]), k);
      }
  }

  lemma UploadKeepsInput(c: Client, k: Crypto)
    ensures forall f :: SendUpload(c, f, k).phase == Exited || SendUpload(c, f, k).input == c.input
  {
  }

  lemma ReportConsumes(c: Client, p: Bytes, tail: Bytes)
    requires c.input == p + tail && |p| == 279
    ensures ReadReport(c).Some? ==> ReadReport(c).value.rest == tail
  {
    Split(p, tail, CLIENT_ID_SIZE);
    Split(p[16..], tail, 4);
    Split(p[16..][4..], tail, NAME_SIZE);
    Split(p[16..][4..][255..], tail, 4);
  }

  lemma ReactConsumes(c: Client, a: Answer, tail: Bytes, k: Crypto)
    requires Counted(c.phase) && !Ended(c.phase) && ServerAnswers.Shaped(a) && c.input == a.payload + tail
    ensures var d := React(c, a.code, a.size, k); d.phase == Exited || d.input == tail
  {
    hide SendUpload, AcceptKey, ReadReport, Checked;
    assert |a.payload| == CLIENT_ID_SIZE ==> c.input[CLIENT_ID_SIZE..] == tail;
    UploadKeepsInput(c, k);
    if |a.payload| >= CLIENT_ID_SIZE { AcceptConsumes(c, a.payload, tail, k); }
    if c.phase.Uploading? {
      UploadConsumes(c, a, tail, k);
    } else if c.phase.Ending? {
      assert a.payload == [] ==> c.input == tail;
      CheckedRest(c.input, c.id);
    } else {
      assert a.payload == [] ==> c.input == tail;
    }
  }

  lemma CheckedRest(s: Bytes, id: Bytes)
    ensures Checked(s, id, CLIENT_ID_SIZE).Some? ==>
              |s| >= CLIENT_ID_SIZE && Checked(s, id, CLIENT_ID_SIZE).value == s[CLIENT_ID_SIZE..]
  {
  }

  lemma UploadConsumes(c: Client, a: Answer, tail: Bytes, k: Crypto)
    requires Counted(c.phase) && c.phase.Uploading? && ServerAnswers.Shaped(a) && c.input == a.payload + tail
    ensures var d := React(c, a.code, a.size, k); d.phase == Exited || d.input == tail
  {
    hide SendUpload, ReadReport;
    UploadKeepsInput(c, k);
    assert a.payload == [] ==> c.input == tail;
    if a.code == 1603 {
      ReportConsumes(c, a.payload, tail);
      match ReadReport(c)
      case None =>
      case Some(report) => UploadKeepsInput(SendVerdict(c.(input := report.rest), 901, c.phase), k);
    }
  }

  /** Whatever phase the client is in, from an answer of the server it reads the header and the
      announced number of octets, or it exits. */
  lemma AnswerConsumed(c: Client, a: Answer, tail: Bytes, k: Crypto)
    requires Counted(c.phase) && !Ended(c.phase) && ServerAnswers.Shaped(a) && Fits(a)
    requires c.input == EncodeAnswer(a) + tail
    ensures var d := Next(c, k); d.phase == Exited || d.input == tail
  {
    hide React, EncodeAnswer, ReadHeader, ServerAnswers.Shaped;
    HeaderIsRead(a, tail);
    ReactConsumes(c.(input := a.payload + tail), a, tail, k);
  }

  // ---- The report of a received file ----

  /** The client reads back the identifier, the sizes, the name and the checksum. */
  lemma ReportIsRead(c: Client, plain: Bytes, tail: Bytes)
    requires |c.id| == CLIENT_ID_SIZE && NoZero(c.id)
    requires NoZero(c.setup.fileName) && |c.setup.fileName| < NAME_SIZE
    requires c.contentSize < 0x1_0000_0000
    requires c.input == CrcAnswer(c.id, c.contentSize, c.setup.fileName, plain).payload + tail
    ensures ReadReport(c) == Some(Report(Nat(Checksum.Cksum(plain)), tail))
  {
    hide LittleEndian, NumberOf, Capacity, Pad, NoZero, CutAtZero, ReadReport, Nat, ZeroOctets, Checksum.Cksum;
    Capacities();
    var crc := Nat(Checksum.Cksum(plain));
    NumberRoundTrip(c.contentSize, 4);
    NumberRoundTrip(crc, 4);
    CutPadded(c.setup.fileName, NAME_SIZE);
    CutPadded(c.id, CLIENT_ID_SIZE);
    PadIs(c.id, CLIENT_ID_SIZE);
    assert c.id + ZeroOctets(0) == c.id;
    FieldsAreRead(c, LittleEndian(c.contentSize, 4), Pad(c.setup.fileName, NAME_SIZE), LittleEndian(crc, 4), tail);
  }

  lemma FieldsAreRead(c: Client, size: Bytes, name: Bytes, last: Bytes, tail: Bytes)
    requires |c.id| == CLIENT_ID_SIZE && |size| == |last| == 4 && |name| == NAME_SIZE
    requires CutAtZero(c.id) == c.id && CutAtZero(name) == c.setup.fileName && NumberOf(size) == c.contentSize
    requires c.input == c.id + size + name + last + tail
    ensures ReadReport(c) == Some(Report(NumberOf(last), tail))
  {
    var s3 := last + tail;
    var s2 := name + s3;
    var s1 := size + s2;
    Associate(c.id, size, name, last, tail);
    hide CutAtZero, NumberOf, Checked;
    CheckedFront(c.id, s1, c.id);
    CheckedFront(name, s3, c.setup.fileName);
    Cut(size, s2);
    Cut(last, tail);
    FieldsInOrder(c, s1, s2, s3);
  }

  lemma Associate(a: Bytes, b: Bytes, c: Bytes, d: Bytes, e: Bytes)
    ensures a + b + c + d + e == a + (b + (c + (d + e)))
  {
  }

  lemma FieldsInOrder(c: Client, s1: Bytes, s2: Bytes, s3: Bytes)
    requires Checked(c.input, c.id, CLIENT_ID_SIZE) == Some(s1)
    requires |s1| >= 4 && NumberOf(s1[..4]) == c.contentSize && s1[4..] == s2
    requires Checked(s2, c.setup.fileName, NAME_SIZE) == Some(s3) && |s3| >= 4
    ensures ReadReport(c) == Some(Report(NumberOf(s3[..4]), s3[4..]))
  {
    hide Checked, NumberOf;
  }

  lemma CheckedFront(field: Bytes, rest: Bytes, expected: Bytes)
    requires CutAtZero(field) == expected
    ensures Checked(field + rest, expected, |field|) == Some(rest)
  {
    hide CutAtZero;
    Cut(field, rest);
  }

  lemma {:induction false} CutZeros(s: Bytes, n: nat)
    requires NoZero(s)
    ensures CutAtZero(s + ZeroOctets(n)) == s
  {
    var t := s + ZeroOctets(n);
    if s != [] {
      assert t[1..] == s[1..] + ZeroOctets(n);
      CutZeros(s[1..], n);
    }
  }

  lemma CutPadded(s: Bytes, width: nat)
    requires NoZero(s) && |s| <= width
    ensures CutAtZero(Pad(s, width)) == s
  {
    hide CutAtZero, Pad, NoZero;
    PadIs(s, width);
    CutZeros(s, width - |s|);
  }
}
