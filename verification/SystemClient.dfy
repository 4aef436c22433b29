/** What a client's next answer does to its stage. */
module SystemClient {
  import opened Octets
  import opened Text
  import opened Wire
  import opened Cryptography
  import opened ServerModel
  import opened Packets
  import opened ClientModel
  import ClientRuns
  import opened ClientOutcomes
  import opened ServerAnswers
  import opened AnswerFormat
  import opened Views
  import opened System
  import opened SystemServer
  import Checksum

  // ---- The answers under way can be read ----

  lemma IncomingIsShaped(s: Stage, v: View, c: Client, clean: bool, k: Crypto)
    requires Holds(s, v, c, clean, k) && GoodSetup(c.setup, k) && Incoming(s, v, c, k).Some?
    ensures Shaped(Incoming(s, v, c, k).value) && Fits(Incoming(s, v, c, k).value)
  {
    hide Checksum.Cksum, Nat, AllPackets, LittleEndian, CipherOf, Total, End, PathOf, ValidUtf8;
  }

  lemma ExitClears(c: Client, k: Crypto)
    requires Counted(c.phase) && !Ended(c.phase)
    ensures Next(c, k).phase == Exited ==> Next(c, k).input == []
  {
    hide ReadHeader, AllPackets, TotalPackets, Int32, ReadReport, Checked;
    match ReadHeader(c.input)
    case None =>
    case Some(h) => ExitClearsReact(c.(input := h.rest), h.code, h.size, k);
  }

  lemma ExitClearsReact(c: Client, code: nat, size: nat, k: Crypto)
    requires Counted(c.phase) && !Ended(c.phase)
    ensures React(c, code, size, k).phase == Exited ==> React(c, code, size, k).input == []
  {
    hide AllPackets, TotalPackets, Int32, ReadReport, Checked, SendUpload;
    ExitedUpload(k);
  }

  lemma ExitedUpload(k: Crypto)
    ensures forall c, f {:trigger SendUpload(c, f, k)} ::
              SendUpload(c, f, k).phase == Exited ==> SendUpload(c, f, k).input == []
  {
  }

  /** The client reads its one answer; nothing is left of the input. */
  lemma Reads(s: Stage, v: View, l: Link, k: Crypto) returns (a: Answer)
    requires In(s, v, l, k) && GoodSetup(l.client.setup, k) && Incoming(s, v, l.client, k).Some?
    requires !Ended(l.client.phase)
    ensures a == Incoming(s, v, l.client, k).value && Shaped(a)
    ensures ReadHeader(l.client.input) == Some(Heading(a.code, a.size, a.payload))
    ensures Next(l.client, k) == React(l.client.(input := a.payload), a.code, a.size, k)
    ensures Next(l.client, k).input == []
    ensures Outgoing(s, v, l.client, k) == []
  {
    hide Holds, Queued, React, EncodeAnswer, ReadHeader, Shaped, AllPackets, PacketsFrom, CrcAnswer;
    IncomingIsShaped(s, v, l.client, l.clean, k);
    a := Incoming(s, v, l.client, k).value;
    HeaderIsRead(a, []);
    assert EncodeAnswer(a) + [] == EncodeAnswer(a) && a.payload + [] == a.payload;
    AnswerConsumed(l.client, a, [], k);
    ExitClears(l.client, k);
  }

  /** What the client sends then is all that is under way to the server. */
  lemma Sends(l: Link, k: Crypto, log: seq<Sent>)
    requires Counted(l.client.phase) && !Ended(l.client.phase)
    requires Queued(l, []) && Next(l.client, k).sent == l.client.sent + log
    ensures var l' := ClientSide(l, k);
            && Queued(l', RequestsOf(log)) && l'.client == Next(l.client, k) && SameLink(l, l')
            && (log != [] ==> LastSent(l'.client, ClientRuns.SentCode(log[|log| - 1])))
  {
    hide Next, Queued, EncodeAll, ClientRuns.SentCode;
    EmptyQueue(l);
    var d := Next(l.client, k);
    assert NewlySent(l.client, d) == log;
    assert [] + EncodeAll(RequestsOf(log)) == EncodeAll(RequestsOf(log));
    Push(ClientSide(l, k), RequestsOf(log));
    assert log != [] ==> d.sent[|d.sent| - 1] == log[|log| - 1];
  }

  /** A client that sends nothing more leaves nothing under way. */
  lemma SendsNothing(l: Link, k: Crypto)
    requires Counted(l.client.phase) && !Ended(l.client.phase)
    requires Queued(l, []) && Next(l.client, k).sent == l.client.sent
    ensures var l' := ClientSide(l, k);
            && Queued(l', []) && l'.client == Next(l.client, k) && SameLink(l, l')
            && (forall code :: LastSent(l'.client, code) == LastSent(l.client, code))
  {
    hide Next, Queued, ClientRuns.SentCode;
    assert l.client.sent + [] == l.client.sent;
    Sends(l, k, []);
    RequestsOfOne(Message(Invalid([])));
  }

  lemma RequestsOfOne(s: Sent)
    ensures RequestsOf([]) == []
    ensures RequestsOf([s]) == RequestsIn(s)
  {
    assert RequestsOf([s]) == RequestsIn(s) + RequestsOf([]);
  }

  lemma RequestsOfTwo(r: Request, ps: seq<Request>)
    ensures RequestsOf([Message(r), Pieces(ps)]) == [r] + ps
  {
    RequestsOfOne(Pieces(ps));
    assert [Message(r), Pieces(ps)][1..] == [Pieces(ps)];
  }

  // ---- The upload that is sent is the one expected ----

  lemma UploadIsExpected(v: View, c: Client, k: Crypto)
    requires v.Present? && GoodSetup(c.setup, k) && |c.id| == CLIENT_ID_SIZE && |v.rec.aesKey| == AES_KEY_SIZE
    requires k.unwrap(c.privateKey, c.wrappedKey) == Some(v.rec.aesKey)
    ensures Able(c, k) && PiecesOf(c, k) == Pieces(AllPackets(TheUpload(v, c, k)))
    ensures |CipherOf(v, c, k)| % 0x1_0000_0000 == |CipherOf(v, c, k)|
    ensures Total(|CipherOf(v, c, k)|) >= 1
  {
    hide AllPackets, PacketsFrom, Pad;
    UploadIsSendable(v, c, k);
    var cipher := CipherOf(v, c, k);
    TotalPacketsIsCeiling(|cipher|);
    assert Transmitted(cipher) == cipher;
    Bounds(|cipher|, 1);
  }

  lemma UploadIsSent(v: View, c: Client, f: nat, k: Crypto)
    requires v.Present? && GoodSetup(c.setup, k) && |c.id| == CLIENT_ID_SIZE && |v.rec.aesKey| == AES_KEY_SIZE
    requires k.unwrap(c.privateKey, c.wrappedKey) == Some(v.rec.aesKey)
    ensures SendUpload(c, f, k)
         == c.(phase := Uploading(f), contentSize := |CipherOf(v, c, k)|,
               sent := c.sent + [Pieces(AllPackets(TheUpload(v, c, k)))])
  {
    hide AllPackets, PacketsFrom, Pad, Int32, TotalPackets;
    UploadIsExpected(v, c, k);
  }

  // ---- One lemma per stage in which the client has something to read ----

  lemma WelcomedAdvances(v: View, l: Link, k: Crypto)
    requires In(Welcomed, v, l, k) && GoodSetup(l.client.setup, k)
    ensures In(KeySent, v, ClientSide(l, k), k)
  {
    hide Paired, ClientSide, LastSent, Queued, Shaped, ReplyOctets, ReadHeader, Next, Pad, GoodSetup;
    var a := Reads(Welcomed, v, l, k);
    var c := l.client;
    var id := v.rec.id;
    assert id[..CLIENT_ID_SIZE] == id && id[CLIENT_ID_SIZE..] == [];
    var d := Next(c, k);
    assert d == SendKey(c.(id := id, input := []), 0);
    NothingIncoming();
    var m := Message(PublicKey(id, Field(c.setup.name), c.setup.keys(0).public));
    Sends(l, k, [m]);
    RequestsOfOne(m);
  }

  lemma DisownedAdvances(v: View, l: Link, k: Crypto)
    requires In(Disowned, v, l, k) && GoodSetup(l.client.setup, k)
    ensures In(Asked, v, ClientSide(l, k), k)
  {
    hide Paired, ClientSide, LastSent, Queued, Shaped, ReplyOctets, ReadHeader, Next, Pad, GoodSetup, ZeroOctets;
    hide NoZero;
    var a := Reads(Disowned, v, l, k);
    var c := l.client;
    assert c.id[CLIENT_ID_SIZE..] == [];
    assert Next(c, k) == AskRegister(c.(input := []), 0);
    NothingIncoming();
    var m := Message(Register(ZeroOctets(CLIENT_ID_SIZE), Field(c.setup.name)));
    Sends(l, k, [m]);
    RequestsOfOne(m);
  }

  lemma DeniedAdvances(v: View, l: Link, k: Crypto)
    requires In(Denied, v, l, k) && GoodSetup(l.client.setup, k)
    ensures In(if l.client.phase.failures + 1 == MAX_TRIES then Barred else Asked, v, ClientSide(l, k), k)
  {
    hide Paired, ClientSide, LastSent, Queued, Shaped, ReplyOctets, ReadHeader, Next, Pad, GoodSetup, ZeroOctets;
    hide NoZero;
    var a := Reads(Denied, v, l, k);
    var c := l.client;
    NothingIncoming();
    if c.phase.failures + 1 == MAX_TRIES {
      SendsNothing(l, k);
    } else {
      var m := Message(Register(ZeroOctets(CLIENT_ID_SIZE), Field(c.setup.name)));
      Sends(l, k, [m]);
      RequestsOfOne(m);
    }
  }

  /** The key is unwrapped and the upload sent. */
  lemma KeyAccepted(v: View, c: Client, e: Bytes, k: Crypto)
    requires v.Present? && GoodSetup(c.setup, k) && |c.id| == CLIENT_ID_SIZE && NoZero(c.id)
    requires k.unwrap(c.privateKey, e) == Some(v.rec.aesKey) && |v.rec.aesKey| == AES_KEY_SIZE
    requires |e| < 0x7fff_0000 && c.input == c.id + e
    ensures AcceptKey(c, CLIENT_ID_SIZE + |e|, k)
         == c.(phase := Uploading(0), wrappedKey := e, input := [], contentSize := |CipherOf(v, c, k)|,
               sent := c.sent + [Pieces(AllPackets(TheUpload(v, c, k)))])
    ensures Total(|CipherOf(v, c, k)|) >= 1
  {
    hide GoodSetup, SendUpload, Total, AllPackets, NoZero;
    Cut(c.id, e);
    CheckedIdentifier(c.input, c.id);
    assert Checked(c.input, c.id, CLIENT_ID_SIZE) == Some(e);
    assert e[..|e|] == e && e[|e|..] == [];
    var ready := c.(wrappedKey := e, input := []);
    UploadIsSent(v, ready, 0, k);
    UploadIsExpected(v, ready, k);
    CipherOfSame(v, c, ready, k);
  }

  lemma KeyAnsweredAdvances(v: View, l: Link, k: Crypto)
    requires In(KeyAnswered, v, l, k) && GoodSetup(l.client.setup, k)
    ensures In(Transferring(1), v, ClientSide(l, k), k)
  {
    hide Paired, ClientSide, LastSent, Queued, Shaped, ReplyOctets, ReadHeader, Next, Pad, GoodSetup, AcceptKey;
    hide Total, AllPackets;
    hide CipherOf, NoZero, PathOf;
    var c := l.client;
    WrappedKey(v, c, k);
    var a := Reads(KeyAnswered, v, l, k);
    KeyAccepted(v, c.(input := a.payload), k.wrap(v.rec.publicKey, v.rec.aesKey).value, k);
    CipherOfSame(v, c, c.(input := a.payload), k);
    TransferStarts(v, l, k);
  }

  lemma RecognisedAdvances(v: View, l: Link, k: Crypto)
    requires In(Recognised, v, l, k) && GoodSetup(l.client.setup, k)
    ensures In(Transferring(1), v, ClientSide(l, k), k)
  {
    hide Paired, ClientSide, LastSent, Queued, Shaped, ReplyOctets, ReadHeader, Next, Pad, GoodSetup, AcceptKey;
    hide Total, AllPackets;
    hide CipherOf, NoZero, PathOf;
    var c := l.client;
    WrappedKey(v, c, k);
    var a := Reads(Recognised, v, l, k);
    KeyAccepted(v, c.(input := a.payload), k.wrap(v.rec.publicKey, v.rec.aesKey).value, k);
    CipherOfSame(v, c, c.(input := a.payload), k);
    TransferStarts(v, l, k);
  }

  lemma TransferStarts(v: View, l: Link, k: Crypto)
    requires v.Present? && Counted(l.client.phase) && !Ended(l.client.phase) && Queued(l, [])
    requires Next(l.client, k).sent == l.client.sent + [Pieces(AllPackets(TheUpload(v, l.client, k)))]
    requires Next(l.client, k).setup == l.client.setup && Next(l.client, k).id == l.client.id
    requires Total(|CipherOf(v, l.client, k)|) >= 1
    ensures var d := ClientSide(l, k).client;
            && d == Next(l.client, k) && SameLink(l, ClientSide(l, k)) && LastSent(d, 828)
            && Queued(ClientSide(l, k), Outgoing(Transferring(1), v, d, k))
            && CipherOf(v, d, k) == CipherOf(v, l.client, k)
            && Incoming(Transferring(1), v, d, k) == None && ReplyOctets(None) == []
  {
    hide Paired, ClientSide, LastSent, Queued, Next, AllPackets, CipherOf, Total, ReplyOctets;
    var c := l.client;
    Sends(l, k, [Pieces(AllPackets(TheUpload(v, c, k)))]);
    RequestsOfOne(Pieces(AllPackets(TheUpload(v, c, k))));
    FirstPacket(v, c, k);
    CipherOfSame(v, c, ClientSide(l, k).client, k);
    NothingIncoming();
  }

  lemma CipherOfSame(v: View, c: Client, d: Client, k: Crypto)
    requires v.Present? && c.setup == d.setup && c.id == d.id
    ensures CipherOf(v, c, k) == CipherOf(v, d, k) && TheUpload(v, c, k) == TheUpload(v, d, k)
    ensures forall n :: Outgoing(Transferring(n), v, c, k) == Outgoing(Transferring(n), v, d, k)
  {
  }

  lemma WrappedKey(v: View, c: Client, k: Crypto)
    requires Enrolled(v, c, k) && |v.rec.aesKey| == AES_KEY_SIZE
    ensures var e := k.wrap(v.rec.publicKey, v.rec.aesKey);
            e.Some? && k.unwrap(c.privateKey, e.value) == Some(v.rec.aesKey) && |e.value| < 0x7fff_0000
  {
  }

  lemma ApprovedAdvances(v: View, l: Link, k: Crypto)
    requires In(Approved, v, l, k) && GoodSetup(l.client.setup, k)
    ensures In(Accepted, v, ClientSide(l, k), k)
  {
    hide Paired, ClientSide, LastSent, Queued, Shaped, ReplyOctets, ReadHeader, Next, Pad, GoodSetup, PathOf;
    hide Checksum.Cksum;
    var a := Reads(Approved, v, l, k);
    CheckedIdentifier(a.payload, l.client.id);
    NothingIncoming();
    SendsNothing(l, k);
  }

  lemma DiscardedAdvances(v: View, l: Link, ok: bool, k: Crypto) returns (s': Stage)
    requires In(Discarded(ok), v, l, k) && GoodSetup(l.client.setup, k)
    ensures s' == Removed || s' == Discarding
    ensures In(s', v, ClientSide(l, k), k)
  {
    hide In, GoodSetup, ClientSide;
    if ok {
      DiscardConfirmed(v, l, k);
      s' := Removed;
    } else {
      s' := DiscardRefused(v, l, k);
    }
  }

  lemma DiscardConfirmed(v: View, l: Link, k: Crypto)
    requires In(Discarded(true), v, l, k) && GoodSetup(l.client.setup, k)
    ensures In(Removed, v, ClientSide(l, k), k)
  {
    hide Paired, ClientSide, LastSent, Queued, Shaped, ReplyOctets, ReadHeader, Next, Pad, GoodSetup, PathOf, NoZero;
    var a := Reads(Discarded(true), v, l, k);
    CheckedIdentifier(a.payload, l.client.id);
    NothingIncoming();
    SendsNothing(l, k);
  }

  lemma DiscardRefused(v: View, l: Link, k: Crypto) returns (s': Stage)
    requires In(Discarded(false), v, l, k) && GoodSetup(l.client.setup, k)
    ensures s' == Removed || s' == Discarding
    ensures In(s', v, ClientSide(l, k), k)
  {
    hide Queued, GoodSetup, ClientSide, PathOf, NoZero;
    assert l.client.phase.Ending? && l.client.phase.failures < MAX_TRIES;
    hide In;
    if l.client.phase.failures + 1 < MAX_TRIES {
      s' := Discarding;
      DiscardAgain(v, l, k);
    } else {
      s' := Removed;
      DiscardGivenUp(v, l, k);
    }
  }

  lemma DiscardAgain(v: View, l: Link, k: Crypto)
    requires Active(l)
    requires In(Discarded(false), v, l, k) && GoodSetup(l.client.setup, k)
    requires l.client.phase.failures + 1 < MAX_TRIES
    ensures In(Discarding, v, ClientSide(l, k), k)
  {
    hide Paired, ClientSide, LastSent, Queued, Shaped, ReplyOctets, ReadHeader, Next, Pad, GoodSetup, PathOf, NoZero;
    var a := Reads(Discarded(false), v, l, k);
    var c := l.client;
    NothingIncoming();
    var m := Message(Verdict(c.id, 902, Field(c.setup.fileName)));
    Sends(l, k, [m]);
    RequestsOfOne(m);
  }

  lemma DiscardGivenUp(v: View, l: Link, k: Crypto)
    requires Active(l)
    requires In(Discarded(false), v, l, k) && GoodSetup(l.client.setup, k)
    requires l.client.phase.failures + 1 == MAX_TRIES
    ensures In(Removed, v, ClientSide(l, k), k)
  {
    hide Paired, ClientSide, LastSent, Queued, Shaped, ReplyOctets, ReadHeader, Next, Pad, GoodSetup, PathOf, NoZero;
    var a := Reads(Discarded(false), v, l, k);
    NothingIncoming();
    SendsNothing(l, k);
  }

  // ---- Answers to an upload ----

  lemma UploadingContentSize(c: Client, k: Crypto)
    requires c.phase.Uploading? && Counted(c.phase) && Able(c, k) && Next(c, k).phase.Uploading?
    ensures Next(c, k).contentSize
         == |k.encrypt(k.unwrap(c.privateKey, c.wrappedKey).value, c.setup.file)| % 0x1_0000_0000
  {
    hide ReadHeader, ReadReport, AllPackets, Int32, TotalPackets, Transmitted;
  }

  lemma StillKeyed(v: View, c: Client, d: Client, k: Crypto)
    requires Keyed(v, c, k) && SameWork(c, d) && d.contentSize == |CipherOf(v, c, k)|
    ensures Keyed(v, d, k) && CipherOf(v, d, k) == CipherOf(v, c, k) && TheUpload(v, d, k) == TheUpload(v, c, k)
  {
  }

  lemma RejectedAdvances(v: View, l: Link, k: Crypto) returns (s': Stage)
    requires In(Rejected, v, l, k) && GoodSetup(l.client.setup, k)
    ensures l.client.phase.Uploading?
    ensures s' == (if l.client.phase.failures + 1 == MAX_TRIES then Abandoned else Transferring(1))
    ensures s'.Transferring? ==> ClientSide(l, k).client.phase == Uploading(l.client.phase.failures + 1)
    ensures In(s', v, ClientSide(l, k), k)
  {
    hide Holds, Queued, Shaped, ReplyOctets, ReadHeader, Next, GoodSetup, Able, PiecesOf, AllPackets, CipherOf, Keyed;
    RejectedFacts(v, l, k);
    var a := Reads(Rejected, v, l, k);
    var c := l.client;
    UploadStep(c, k);
    assert Interpret(c) == Refused;
    if Next(c, k).phase.Uploading? {
      s' := Transferring(1);
      Retransmits(v, l, k);
    } else {
      s' := Abandoned;
      GivesUp(v, l, k);
    }
  }

  lemma RejectedFacts(v: View, l: Link, k: Crypto)
    requires In(Rejected, v, l, k) && GoodSetup(l.client.setup, k)
    ensures Able(l.client, k) && l.client.phase.Uploading? && Counted(l.client.phase) && !l.clean
  {
    hide Queued, Able, GoodSetup, PathOf, CipherOf;
    UploadIsExpected(v, l.client, k);
  }

  lemma Retransmits(v: View, l: Link, k: Crypto)
    requires Active(l)
    requires In(Rejected, v, l, k) && GoodSetup(l.client.setup, k) && Able(l.client, k)
    requires Next(l.client, k).phase.Uploading?
    requires Next(l.client, k).sent == l.client.sent + [] + [PiecesOf(l.client, k)]
    ensures In(Transferring(1), v, ClientSide(l, k), k)
  {
    hide Paired, ClientSide, LastSent, Queued, Next, Pad, GoodSetup, PathOf, CipherOf, NoZero, ReplyOctets;
    hide ReadHeader, React, Shaped;
    hide Keyed, PiecesOf, Able, AllPackets, PacketsFrom, Total;
    var c := l.client;
    var a := Reads(Rejected, v, l, k);
    SentAgain(v, c, k);
    NothingIncoming();
    assert c.sent + [] + [PiecesOf(c, k)] == c.sent + [PiecesOf(c, k)];
    Sends(l, k, [PiecesOf(c, k)]);
    RequestsOfOne(PiecesOf(c, k));
    KnownOf(v, c, k);
    KnownOf(v, Next(c, k), k);
    FirstPacket(v, Next(c, k), k);
  }

  lemma GivesUp(v: View, l: Link, k: Crypto)
    requires Active(l)
    requires In(Rejected, v, l, k) && GoodSetup(l.client.setup, k)
    requires Next(l.client, k).phase == Exited && Next(l.client, k).sent == l.client.sent
    ensures In(Abandoned, v, ClientSide(l, k), k)
  {
    hide Paired, ClientSide, LastSent, Queued, Next, Pad, GoodSetup, PathOf, CipherOf, NoZero, ReplyOctets;
    hide ReadHeader, React, Shaped;
    var c := l.client;
    var a := Reads(Rejected, v, l, k);
    NextKeeps(c, k);
    NothingIncoming();
    SendsNothing(l, k);
  }

  lemma KeyedCipher(v: View, c: Client, k: Crypto)
    requires Keyed(v, c, k)
    ensures CipherOf(v, c, k) == k.encrypt(k.unwrap(c.privateKey, c.wrappedKey).value, c.setup.file)
  {
  }

  /** Answers to an upload never change who the client is. */
  lemma NextKeeps(c: Client, k: Crypto)
    requires c.phase.Uploading? && Counted(c.phase)
    ensures SameWork(c, Next(c, k))
  {
    hide ReadHeader, ReadReport, SendUpload, LocalCrc, Pad;
    match ReadHeader(c.input)
    case None =>
    case Some(h) =>
      var d := c.(input := h.rest);
      UploadKeepsWork(d, c.phase.failures + 1, k);
      match ReadReport(d) {
        case None =>
        case Some(report) =>
          UploadKeepsWork(SendVerdict(d.(input := report.rest), 901, d.phase), c.phase.failures + 1, k);
      }
  }

  lemma UploadKeepsWork(c: Client, f: nat, k: Crypto)
    ensures SameWork(c, SendUpload(c, f, k))
  {
    hide AllPackets, Int32, TotalPackets, Transmitted;
  }

  lemma ReportedIs(v: View, l: Link, k: Crypto)
    requires In(Stage.Reported, v, l, k) && GoodSetup(l.client.setup, k)
    ensures Interpret(l.client) == UploadAnswer.Reported(Nat(Checksum.Cksum(v.stored.value)))
  {
    hide Queued, Shaped, ReplyOctets, ReadHeader, Next, Pad, PathOf, AllPackets, PacketsFrom, React, ReadReport, Nat;
    hide Checksum.Cksum, LittleEndian, NoZero, ValidUtf8, Queued, Fits;
    var a := Reads(Stage.Reported, v, l, k);
    var c := l.client;
    UploadIsExpected(v, c, k);
    assert a.payload + [] == a.payload;
    ReportIsRead(c.(input := a.payload), v.stored.value, []);
  }

  /** The client judges the reported checksum as equal exactly if the checksums are equal. */
  lemma ReportedMatch(v: View, l: Link, k: Crypto)
    requires In(Stage.Reported, v, l, k) && GoodSetup(l.client.setup, k)
    ensures Interpret(l.client) == UploadAnswer.Reported(LocalCrc(l.client)) <==> Matches(v, l.client)
    ensures Interpret(l.client).Reported?
    ensures l.clean ==> Matches(v, l.client)
  {
    hide Queued, Interpret, Nat, Checksum.Cksum, ReadHeader, PathOf, GoodSetup, CrcAnswer, CipherOf;
    var x, y := Checksum.Cksum(v.stored.value), Checksum.Cksum(l.client.setup.file);
    ReportedIs(v, l, k);
    if Nat(x) == Nat(y) { NatInjective(x, y); }
  }

  /** After an answer that counts as a failure but not as the last: the upload is sent again. */
  lemma SentAgain(v: View, c: Client, k: Crypto)
    requires c.phase.Uploading? && Keyed(v, c, k) && Counted(c.phase) && GoodSetup(c.setup, k)
    requires Next(c, k).phase.Uploading?
    ensures var d := Next(c, k);
            && Keyed(v, d, k) && SameWork(c, d)
            && TheUpload(v, d, k) == TheUpload(v, c, k) && Total(|CipherOf(v, d, k)|) >= 1
            && PiecesOf(c, k) == Pieces(AllPackets(TheUpload(v, c, k)))
  {
    hide Next, GoodSetup, Able, PiecesOf, AllPackets, Total, Pad, TheUpload, NoZero;
    UploadIsExpected(v, c, k);
    UploadingContentSize(c, k);
    KeyedCipher(v, c, k);
    NextKeeps(c, k);
    StillKeyed(v, c, Next(c, k), k);
  }

  lemma ReportedAdvances(v: View, l: Link, k: Crypto) returns (s': Stage)
    requires In(Stage.Reported, v, l, k) && GoodSetup(l.client.setup, k)
    ensures s' == Approving || s' == Renewed || s' == Discarding
    ensures In(s', v, ClientSide(l, k), k)
  {
    hide Holds, Queued, Interpret, Able, Next, Matches, Keyed, GoodSetup, CrcAnswer, CipherOf, LocalCrc, PiecesOf;
    var c := l.client;
    ReportedFacts(v, l, k);
    var d := Next(c, k);
    UploadStep(c, k);
    ReportedMatch(v, l, k);
    if d.phase == Ending(900, 0) {
      s' := Approving;
      GivesVerdict(v, l, 900, Approving, k);
    } else if d.phase == Ending(902, 0) {
      s' := Discarding;
      GivesVerdict(v, l, 902, Discarding, k);
    } else {
      s' := Renewed;
      Renews(v, l, k);
    }
  }

  lemma ReportedFacts(v: View, l: Link, k: Crypto)
    requires In(Stage.Reported, v, l, k) && GoodSetup(l.client.setup, k)
    ensures Able(l.client, k) && l.client.phase.Uploading? && Counted(l.client.phase)
    ensures l.clean ==> l.client.phase.failures == 0
  {
    hide Queued, Able, GoodSetup, CrcAnswer, PathOf, CipherOf;
    UploadIsExpected(v, l.client, k);
  }

  lemma GivesVerdict(v: View, l: Link, code: nat, s': Stage, k: Crypto)
    requires Active(l)
    requires In(Stage.Reported, v, l, k) && GoodSetup(l.client.setup, k)
    requires Next(l.client, k).phase == Ending(code, 0)
    requires (code == 900 && s' == Approving && Matches(v, l.client)) || (code == 902 && s' == Discarding && !l.clean)
    requires Next(l.client, k).sent == l.client.sent + [VerdictOf(l.client, code)]
    ensures In(s', v, ClientSide(l, k), k)
  {
    hide Paired, ClientSide, LastSent, Queued, Next, Pad, GoodSetup, PathOf, CipherOf, NoZero, CrcAnswer;
    hide ReplyOctets, ReadHeader, React, Shaped;
    hide Checksum.Cksum;
    var c := l.client;
    var a := Reads(Stage.Reported, v, l, k);
    NextKeeps(c, k);
    NothingIncoming();
    Sends(l, k, [VerdictOf(c, code)]);
    RequestsOfOne(VerdictOf(c, code));
  }

  lemma Renews(v: View, l: Link, k: Crypto)
    requires Active(l)
    requires In(Stage.Reported, v, l, k) && GoodSetup(l.client.setup, k) && !l.clean && Able(l.client, k)
    requires Next(l.client, k).phase.Uploading?
    requires Next(l.client, k).sent == l.client.sent + [VerdictOf(l.client, 901)] + [PiecesOf(l.client, k)]
    ensures In(Renewed, v, ClientSide(l, k), k)
  {
    hide Paired, ClientSide, LastSent, Queued, Next, Pad, GoodSetup, PathOf, CipherOf, NoZero, CrcAnswer;
    hide ReplyOctets, ReadHeader, React, Shaped;
    hide Keyed, PiecesOf, Able, AllPackets, Total;
    var c := l.client;
    var a := Reads(Stage.Reported, v, l, k);
    SentAgain(v, c, k);
    NothingIncoming();
    assert c.sent + [VerdictOf(c, 901)] + [PiecesOf(c, k)] == c.sent + [VerdictOf(c, 901), PiecesOf(c, k)];
    Sends(l, k, [VerdictOf(c, 901), PiecesOf(c, k)]);
    RequestsOfTwo(VerdictOf(c, 901).request, PiecesOf(c, k).packets);
    KnownOf(v, c, k);
    KnownOf(v, Next(c, k), k);
  }

  lemma KnownOf(v: View, c: Client, k: Crypto)
    requires Keyed(v, c, k)
    ensures v.Present? && v.rec.id == c.id
  {
  }
}
