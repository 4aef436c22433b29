/** Whatever a client sends in a run, the server's parser takes apart exactly as it was sent. */
module ClientFraming {
  import opened Octets
  import opened Text
  import opened Wire
  import opened Cryptography
  import opened Packets
  import opened ClientModel
  import opened ClientOutcomes
  import opened System
  import SystemServer
  import ClientObjects

  /** Names that fit their fields, and public keys of the size that the server reads. */
  ghost predicate FitsFields(s: Setup) {
    && |s.name| <= NAME_SIZE && |s.fileName| <= NAME_SIZE
    && forall n: nat :: |s.keys(n).public| == PUBLIC_KEY_SIZE
  }

  predicate SentOk(s: Sent) {
    forall r :: r in RequestsIn(s) ==> WellFormed(r)
  }

  predicate LogOk(log: seq<Sent>) {
    forall s :: s in log ==> SentOk(s)
  }

  predicate Framed(c: Client) {
    LogOk(c.sent) && (!Ended(c.phase) && !c.phase.Registering? ==> |c.id| == CLIENT_ID_SIZE)
  }

  lemma {:induction false} LogIsWellFormed(log: seq<Sent>)
    requires LogOk(log)
    ensures forall r :: r in RequestsOf(log) ==> WellFormed(r)
  {
    hide WellFormed, RequestsIn;
    if log != [] {
      LogIsWellFormed(log[1..]);
      assert SentOk(log[0]);
    }
  }

  lemma SendFramed(c: Client, r: Request, p: Phase)
    requires LogOk(c.sent) && WellFormed(r) && (!Ended(p) && !p.Registering? ==> |c.id| == CLIENT_ID_SIZE)
    ensures Framed(Send(c, r, p))
  {
    hide WellFormed;
  }

  lemma UploadFramed(c: Client, failures: nat, k: Crypto)
    requires LogOk(c.sent) && |c.id| == CLIENT_ID_SIZE && FitsFields(c.setup)
    ensures Framed(SendUpload(c, failures, k))
  {
    hide WellFormed, AllPackets, PacketsFrom, Int32, TotalPackets, Transmitted, Pad;
    match k.unwrap(c.privateKey, c.wrappedKey)
    case None =>
    case Some(key) =>
      var cipher := k.encrypt(key, c.setup.file);
      var total := TotalPackets(Int32(|cipher|));
      if total.Some? {
        TransmittedFits(cipher, total.value);
        FieldSize(c.setup.fileName);
        var u := UploadOf(c, cipher);
        SystemServer.PacketsAreWellFormed(u, 1);
        SystemServer.AllPacketsIs(u);
        assert SentOk(Pieces(AllPackets(u)));
      }
  }

  lemma TransmittedFits(cipher: Bytes, total: int)
    requires TotalPackets(Int32(|cipher|)) == Some(total)
    ensures |Transmitted(cipher)| <= MAX_PACKETS * PACKET_MAX_SIZE
  {
    if Int32(|cipher|) > 0 { TotalPacketsIsCeiling(Int32(|cipher|)); }
  }

  lemma FieldSize(name: Bytes)
    requires |name| <= NAME_SIZE
    ensures |Field(name)| == NAME_SIZE
  {
  }

  lemma KeyFramed(c: Client, f: nat)
    requires LogOk(c.sent) && |c.id| == CLIENT_ID_SIZE && FitsFields(c.setup)
    ensures Framed(SendKey(c, f))
  {
    hide WellFormed, Pad;
    FieldSize(c.setup.name);
    var pair := c.setup.keys(c.attempts);
    var r := PublicKey(c.id, Field(c.setup.name), pair.public);
    SystemServer.KeyIsWellFormed(r);
    SendFramed(c.(privateKey := pair.private, attempts := c.attempts + 1), r, SendingKey(f));
  }

  lemma RegisterFramed(c: Client, f: nat)
    requires LogOk(c.sent) && FitsFields(c.setup)
    ensures Framed(AskRegister(c, f))
  {
    hide Pad;
    FieldSize(c.setup.name);
    var r := Register(ZeroOctets(CLIENT_ID_SIZE), Field(c.setup.name));
    assert WellFormed(r);
    SendFramed(c, r, Registering(f));
  }

  lemma NameFramed(c: Client, f: nat)
    requires LogOk(c.sent) && |c.id| == CLIENT_ID_SIZE && FitsFields(c.setup)
    ensures Framed(AskReconnect(c, f))
  {
    hide Pad;
    FieldSize(c.setup.name);
    var r := Reconnect(c.id, Field(c.setup.name));
    assert WellFormed(r);
    SendFramed(c, r, Reconnecting(f));
  }

  lemma VerdictFramed(c: Client, code: nat, p: Phase)
    requires LogOk(c.sent) && |c.id| == CLIENT_ID_SIZE && FitsFields(c.setup)
    requires code == 900 || code == 901 || code == 902
    ensures Framed(SendVerdict(c, code, p))
  {
    hide Pad;
    FieldSize(c.setup.fileName);
    var r := Verdict(c.id, code, Field(c.setup.fileName));
    assert WellFormed(r);
    SendFramed(c, r, p);
  }

  lemma AcceptFramed(c: Client, size: nat, k: Crypto)
    requires Framed(c) && FitsFields(c.setup) && |c.id| == CLIENT_ID_SIZE
    ensures Framed(AcceptKey(c, size, k))
  {
    hide SendUpload, Checked, SentOk;
    match Checked(c.input, c.id, CLIENT_ID_SIZE)
    case None =>
    case Some(rest) =>
      if CLIENT_ID_SIZE <= size < 0x8000_0000 && |rest| >= size - CLIENT_ID_SIZE {
        var n := size - CLIENT_ID_SIZE;
        UploadFramed(c.(wrappedKey := rest[..n], input := rest[n..]), 0, k);
      }
  }

  lemma JudgeFramed(c: Client, crc: nat, k: Crypto)
    requires Framed(c) && FitsFields(c.setup) && c.phase.Uploading?
    ensures Framed(Judge(c, crc, k))
  {
    hide SendUpload, Send, SentOk;
    VerdictFramed(c, 900, Ending(900, 0));
    VerdictFramed(c, 902, Ending(902, 0));
    VerdictFramed(c, 901, c.phase);
    KeepsIdentity(c, Verdict(c.id, 901, Field(c.setup.fileName)), c.phase);
    UploadFramed(SendVerdict(c, 901, c.phase), c.phase.failures + 1, k);
  }

  lemma KeepsIdentity(c: Client, r: Request, p: Phase)
    ensures Send(c, r, p).id == c.id && Send(c, r, p).setup == c.setup
  {
  }

  lemma ReactFramed(c: Client, code: nat, size: nat, k: Crypto)
    requires Framed(c) && FitsFields(c.setup) && Counted(c.phase) && !Ended(c.phase)
    requires c.phase.Ending? ==> Final(c.phase.code)
    ensures Framed(React(c, code, size, k))
  {
    hide SentOk, AcceptKey, SendKey, AskRegister, AskReconnect, SendUpload, SendVerdict, Judge, ReadReport, Checked;
    hide FitsFields;
    match c.phase
    case Reconnecting(f) =>
      NameFramed(c, f + 1);
      AcceptFramed(c, size, k);
      if |c.input| >= CLIENT_ID_SIZE { RegisterFramed(c.(input := c.input[CLIENT_ID_SIZE..]), 0); }
    case Registering(f) =>
      RegisterFramed(c, f + 1);
      if |c.input| >= CLIENT_ID_SIZE {
        KeyFramed(c.(id := c.input[..CLIENT_ID_SIZE], input := c.input[CLIENT_ID_SIZE..]), 0);
      }
    case SendingKey(f) =>
      KeyFramed(c, f + 1);
      AcceptFramed(c, size, k);
    case Uploading(f) =>
      UploadFramed(c, f + 1, k);
      match ReadReport(c) {
        case None =>
        case Some(report) => JudgeFramed(c.(input := report.rest), report.crc, k);
      }
    case Ending(result, f) => VerdictFramed(c, result, Ending(result, f + 1));
  }

  lemma NextFramed(c: Client, k: Crypto)
    requires Framed(c) && FitsFields(c.setup) && InOrder(c) && Counted(c.phase) && !Ended(c.phase)
    ensures Framed(Next(c, k)) && Next(c, k).setup == c.setup
  {
    hide SentOk, React, ReadHeader, FitsFields;
    SetupStays(c, k);
    match ReadHeader(c.input)
    case None =>
    case Some(h) => ReactFramed(c.(input := h.rest), h.code, h.size, k);
  }

  lemma {:induction false} RunFramed(c: Client, k: Crypto)
    requires Framed(c) && FitsFields(c.setup) && InOrder(c) && Counted(c.phase)
    ensures LogOk(Run(c, k).sent)
    decreases Rank(c.phase)
  {
    hide Next, SentOk, FitsFields, InOrder;
    if !Ended(c.phase) {
      NextInOrder(c, k);
      NextFramed(c, k);
      RunFramed(Next(c, k), k);
    }
  }

  /** Whatever a client is answered, the octets that it has sent in its whole life are read by the
      server as exactly the requests that it meant. */
  lemma EverythingSentIsRead(setup: Setup, id: Bytes, privateKey: Bytes, input: Bytes, k: Crypto)
    requires FitsFields(setup) && |id| == CLIENT_ID_SIZE
    ensures var log := Run(NewClient(setup, input), k).sent;
            DecodeAll(ClientObjects.LogOctets(log)) == Some(RequestsOf(log))
    ensures var log := Run(KnownClient(setup, id, privateKey, input), k).sent;
            DecodeAll(ClientObjects.LogOctets(log)) == Some(RequestsOf(log))
  {
    hide FitsFields, RequestsOf, SentOk, DecodeAll;
    var c, d := NewClient(setup, input), KnownClient(setup, id, privateKey, input);
    StartsFramed(setup, id, privateKey, input);
    RunFramed(c, k);
    RunFramed(d, k);
    LogIsWellFormed(Run(c, k).sent);
    LogIsWellFormed(Run(d, k).sent);
    DecodeEncodeAll(RequestsOf(Run(c, k).sent));
    DecodeEncodeAll(RequestsOf(Run(d, k).sent));
  }

  lemma StartsFramed(setup: Setup, id: Bytes, privateKey: Bytes, input: Bytes)
    requires FitsFields(setup) && |id| == CLIENT_ID_SIZE
    ensures var c := NewClient(setup, input); c.setup == setup && Framed(c) && InOrder(c) && Counted(c.phase)
    ensures var d := KnownClient(setup, id, privateKey, input);
            d.setup == setup && Framed(d) && InOrder(d) && Counted(d.phase)
  {
    hide Pad, SentOk;
    RegisterFramed(Started(setup, input), 0);
    NameFramed(Started(setup, input).(id := id, privateKey := privateKey), 0);
  }

  // ---- What is under way ----

  lemma SentGrows(c: Client, k: Crypto)
    requires Counted(c.phase) && !Ended(c.phase)
    ensures c.sent <= Next(c, k).sent
  {
    hide SendUpload, ReadHeader, AfterUpload, AcceptKey, Checked, Pad, ZeroOctets;
    match ReadHeader(c.input)
    case None =>
    case Some(h) =>
      var e := c.(input := h.rest);
      AcceptGrows(e, h.size, k);
      if c.phase.Uploading? { UploadGrows(e, h.code, k); }
  }

  lemma AcceptGrows(c: Client, size: nat, k: Crypto)
    ensures c.sent <= AcceptKey(c, size, k).sent
  {
    hide SendUpload, Checked;
    var rest := Checked(c.input, c.id, CLIENT_ID_SIZE);
    if CLIENT_ID_SIZE <= size < 0x8000_0000 && rest.Some? && |rest.value| >= size - CLIENT_ID_SIZE {
      var n := size - CLIENT_ID_SIZE;
      UploadSends(c.(wrappedKey := rest.value[..n], input := rest.value[n..]), 0, k);
    }
  }

  lemma UploadGrows(c: Client, code: nat, k: Crypto)
    requires c.phase.Uploading?
    ensures c.sent <= AfterUpload(c, code, c.phase.failures + 1, k).sent
  {
    hide SendUpload, ReadReport, Judge;
    UploadSends(c, c.phase.failures + 1, k);
    var report := ReadReport(c);
    if report.Some? { JudgeGrows(c.(input := report.value.rest), report.value.crc, k); }
  }

  lemma JudgeGrows(c: Client, crc: nat, k: Crypto)
    requires c.phase.Uploading?
    ensures c.sent <= Judge(c, crc, k).sent
  {
    hide SendUpload, Pad;
    UploadSends(SendVerdict(c, 901, c.phase), c.phase.failures + 1, k);
  }

  lemma UploadSends(c: Client, f: nat, k: Crypto)
    ensures c.sent <= SendUpload(c, f, k).sent
  {
    hide AllPackets, Int32, TotalPackets, Transmitted, Pad;
  }

  /** A client's step leaves what is under way as it was and adds exactly the octets of what it sends:
      what the server has read and what is under way are together all that the client has sent. */
  lemma StepSends(l: Link, read: Bytes, k: Crypto)
    requires Active(l) && ClientObjects.LogOctets(l.client.sent) == read + l.toServer
    ensures var l' := ClientSide(l, k);
            && l'.client == Next(l.client, k) && SameLink(l, l')
            && ClientObjects.LogOctets(l'.client.sent) == read + l'.toServer
  {
    hide Next, EncodeAll, RequestsOf;
    var c, d := l.client, Next(l.client, k);
    SentGrows(c, k);
    var more := NewlySent(c, d);
    assert d.sent == c.sent + more;
    ClientObjects.RequestsConcat(c.sent, more);
    ClientObjects.EncodeConcat(RequestsOf(c.sent), RequestsOf(more));
  }
}
