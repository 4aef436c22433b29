/** What serving a client's next request does to its stage. */
module SystemServer {
  import opened Octets
  import opened Text
  import opened Wire
  import opened Cryptography
  import opened ServerModel
  import opened Packets
  import opened ClientModel
  import opened AnswerFormat
  import opened ServerInvariant
  import opened Views
  import opened System
  import Checksum

  // ---- Everything sent can be framed ----

  lemma UploadIsSendable(v: View, c: Client, k: Crypto)
    requires v.Present? && GoodSetup(c.setup, k) && |c.id| == CLIENT_ID_SIZE && |v.rec.aesKey| == AES_KEY_SIZE
    ensures Sendable(TheUpload(v, c, k)) && CipherOf(v, c, k) != []
    ensures k.decrypt(v.rec.aesKey, CipherOf(v, c, k)) == Some(c.setup.file)
  {
    hide TextOf, ValidUtf8;
    FieldIsRead(c.setup.fileName);
  }

  lemma PacketsAreWellFormed(u: Upload, n: nat)
    requires Sendable(u) && 1 <= n <= Total(|u.cipher|) + 1
    ensures forall r :: r in PacketsFrom(u, n) ==> WellFormed(r)
  {
    forall i | 0 <= i < |PacketsFrom(u, n)| ensures WellFormed(PacketsFrom(u, n)[i]) {
      PacketsFromAt(u, n, i);
      Bounds(|u.cipher|, n + i);
    }
  }

  lemma OutgoingIsWellFormed(s: Stage, v: View, l: Link, k: Crypto)
    requires In(s, v, l, k) && GoodSetup(l.client.setup, k)
    ensures forall r :: r in Outgoing(s, v, l.client, k) ==> WellFormed(r)
  {
    hide Paired, Queued, Since, WellFormed, AllPackets, PacketsFrom, Field, Total, ReplyOctets, CipherOf, NoZero;
    var c := l.client;
    FieldsAreFull(c.setup, k);
    if s.Transferring? || s.Renewed? {
      UploadIsSendable(v, c, k);
      PacketsAreWellFormed(TheUpload(v, c, k), if s.Transferring? then s.n else 1);
      AllPacketsIs(TheUpload(v, c, k));
    }
    if s.Renewed? || s.Approving? || s.Discarding? {
      VerdictsAreWellFormed(c.id, Field(c.setup.fileName));
    } else if s.Asked? {
      NameIsWellFormed(Register(ZeroOctets(CLIENT_ID_SIZE), Field(c.setup.name)));
    } else if s.Returning? {
      NameIsWellFormed(Reconnect(c.id, Field(c.setup.name)));
    } else if s.KeySent? {
      KeyIsWellFormed(PublicKey(c.id, Field(c.setup.name), c.setup.keys(0).public));
    }
  }

  lemma FieldsAreFull(s: Setup, k: Crypto)
    requires GoodSetup(s, k)
    ensures |Field(s.name)| == NAME_SIZE && |Field(s.fileName)| == NAME_SIZE
    ensures |s.keys(0).public| == PUBLIC_KEY_SIZE
  {
  }

  lemma VerdictsAreWellFormed(id: Bytes, name: Bytes)
    requires |id| == CLIENT_ID_SIZE && |name| == NAME_SIZE
    ensures forall code :: code == 900 || code == 901 || code == 902 ==> WellFormed(Verdict(id, code, name))
  {
  }

  lemma NameIsWellFormed(r: Request)
    requires (r.Register? || r.Reconnect?) && |r.id| == CLIENT_ID_SIZE && |r.name| == NAME_SIZE
    ensures WellFormed(r)
  {
  }

  lemma KeyIsWellFormed(r: Request)
    requires r.PublicKey? && |r.id| == CLIENT_ID_SIZE && |r.name| == NAME_SIZE && |r.key| == PUBLIC_KEY_SIZE
    ensures WellFormed(r)
  {
  }

  lemma AllPacketsIs(u: Upload)
    ensures AllPackets(u) == PacketsFrom(u, 1)
  {
  }

  // ---- The link after a request has been served ----

  /** Serving the request at the front of the queue, seen from the link. */
  lemma Served(st: State, l: Link, draw: Draw, k: Crypto, rs: seq<Request>) returns (q: Request, rest: Bytes)
    requires Queued(l, rs) && rs != [] && (forall r :: r in rs ==> WellFormed(r)) && l.client.input == []
    ensures Decode(l.toServer) == Read(q, rest) && WellFormed(q) && Readable(q)
    ensures Similar(rs[0], q) && (l.clean ==> q == rs[0])
    ensures var service, (st', l') := Serve(st, q, draw, k), ServerSide(st, l, draw, k);
            && st' == service.st && SameLink(l, l')
            && l'.client == l.client.(input := ReplyOctets(service.reply))
            && (!service.drained || |rs| == 1 ==> Queued(l', rs[1..]))
  {
    hide Queued, WellFormed, Similar, Decode, Serve;
    q, rest := Pop(l, rs);
    ReadableIs(q);
    var service := Serve(st, q, draw, k);
    var (st', l') := ServerSide(st, l, draw, k);
    assert l.client.input + ReplyOctets(service.reply) == ReplyOctets(service.reply);
    if |rs| == 1 {
      assert rs[1..] == [];
      EmptyQueue(l');
    }
  }

  /** Serving a request that is alone in its queue and is not a packet. */
  lemma ServedAlone(st: State, l: Link, draw: Draw, k: Crypto, r: Request)
    requires Queued(l, [r]) && WellFormed(r) && !r.Packet? && l.client.input == []
    ensures Readable(r)
    ensures var service, (st', l') := Serve(st, r, draw, k), ServerSide(st, l, draw, k);
            && st' == service.st && SameLink(l, l') && Queued(l', [])
            && l'.client == l.client.(input := ReplyOctets(service.reply))
  {
    hide Queued, WellFormed, Decode, Serve, ServerSide;
    var q, rest := Served(st, l, draw, k, [r]);
    assert q == r;
    assert [r][1..] == [];
  }

  lemma ReadableIs(q: Request)
    requires WellFormed(q)
    ensures Readable(q)
  {
  }

  // ---- One lemma per stage in which the server has something to read ----

  lemma AskedAdvances(st: State, l: Link, draw: Draw, k: Crypto)
    requires Inv(st) && GoodDraw(st, draw) && GoodSetup(l.client.setup, k)
    requires In(Asked, ViewOf(st, l.client.setup), l, k)
    ensures var (st', l') := ServerSide(st, l, draw, k);
            In(if ViewOf(st, l.client.setup).Absent? then Welcomed else Denied, ViewOf(st', l'.client.setup), l', k)
  {
    hide Paired, Inv, TextOf, ValidUtf8, Serve, Queued, ServerSide, ViewOf, WellFormed, ReplyOctets, Pad, ZeroOctets;
    var setup := l.client.setup;
    var v := ViewOf(st, setup);
    OutgoingIsWellFormed(Asked, v, l, k);
    var r := Register(ZeroOctets(CLIENT_ID_SIZE), Field(setup.name));
    assert Outgoing(Asked, v, l.client, k) == [r];
    NothingIncoming();
    ServedAlone(st, l, draw, k, r);
    FieldIsRead(setup.name);
    if v.Absent? {
      RegisterEffect(st, setup, r, draw, k);
    } else {
      RegisterRefused(st, setup, r, draw, k);
    }
  }

  lemma NothingIncoming()
    ensures ReplyOctets(None) == []
  {
  }

  lemma KeySentAdvances(st: State, l: Link, draw: Draw, k: Crypto)
    requires Inv(st) && GoodSetup(l.client.setup, k) && |draw.aesKey| == AES_KEY_SIZE
    requires In(KeySent, ViewOf(st, l.client.setup), l, k)
    ensures var (st', l') := ServerSide(st, l, draw, k);
            In(KeyAnswered, ViewOf(st', l'.client.setup), l', k)
  {
    hide Inv, TextOf, ValidUtf8, Serve, Queued, ServerSide, ViewOf, WellFormed, ReplyOctets, Pad, ZeroOctets;
    var setup := l.client.setup;
    var v := ViewOf(st, setup);
    OutgoingIsWellFormed(KeySent, v, l, k);
    var r := PublicKey(l.client.id, Field(setup.name), setup.keys(0).public);
    assert Outgoing(KeySent, v, l.client, k) == [r];
    NothingIncoming();
    ServedAlone(st, l, draw, k, r);
    FieldIsRead(setup.name);
    PublicKeyEffect(st, setup, r, draw, k);
  }

  lemma ReturningAdvances(st: State, l: Link, draw: Draw, k: Crypto)
    requires Inv(st) && GoodSetup(l.client.setup, k) && |draw.aesKey| == AES_KEY_SIZE
    requires In(Returning, ViewOf(st, l.client.setup), l, k)
    ensures var (st', l') := ServerSide(st, l, draw, k);
            var v := ViewOf(st, l.client.setup);
            In(if v.Present? && k.importable(v.rec.publicKey) then Recognised else Disowned,
               ViewOf(st', l'.client.setup), l', k)
  {
    hide Inv, TextOf, ValidUtf8, Serve, Queued, ServerSide, ViewOf, WellFormed, ReplyOctets, Pad, PathOf;
    var setup := l.client.setup;
    var v := ViewOf(st, setup);
    OutgoingIsWellFormed(Returning, v, l, k);
    var r := Reconnect(l.client.id, Field(setup.name));
    assert Outgoing(Returning, v, l.client, k) == [r];
    NothingIncoming();
    ServedAlone(st, l, draw, k, r);
    FieldIsRead(setup.name);
    if v.Absent? {
      ReconnectUnlisted(st, setup, r, draw, k);
    } else if k.importable(v.rec.publicKey) {
      ReconnectEffect(st, setup, r, draw, k);
    } else {
      ReconnectRefused(st, setup, r, draw, k);
    }
  }

  lemma RenewedAdvances(st: State, l: Link, draw: Draw, k: Crypto)
    requires Inv(st) && GoodSetup(l.client.setup, k)
    requires In(Renewed, ViewOf(st, l.client.setup), l, k)
    ensures var (st', l') := ServerSide(st, l, draw, k);
            In(Transferring(1), ViewOf(st', l'.client.setup), l', k)
  {
    hide Paired, Inv, TextOf, ValidUtf8, Serve, Queued, ServerSide, ViewOf, WellFormed, AllPackets, Total, Similar;
    hide ReplyOctets, Pad, PathOf, CipherOf, GoodSetup, GoodNames, NoZero;
    var setup := l.client.setup;
    var v := ViewOf(st, setup);
    OutgoingIsWellFormed(Renewed, v, l, k);
    var r := Verdict(l.client.id, 901, Field(setup.fileName));
    var rs := [r] + AllPackets(TheUpload(v, l.client, k));
    NothingIncoming();
    var q, rest := Served(st, l, draw, k, rs);
    OnlyPacketsDiffer(r, q);
    GoodNamesOf(setup, k);
    FileFieldIsRead(setup);
    VerdictEffect(st, setup, r, draw, k);
    assert rs[1..] == AllPackets(TheUpload(v, l.client, k));
    UploadIsSendable(v, l.client, k);
    FirstPacket(v, l.client, k);
    var (st', l') := ServerSide(st, l, draw, k);
    assert TheUpload(v, l'.client, k) == TheUpload(v, l.client, k);
    FirstPacket(v, l'.client, k);
  }

  lemma OnlyPacketsDiffer(r: Request, q: Request)
    requires Similar(r, q) && !r.Packet?
    ensures q == r
  {
  }

  lemma FirstPacket(v: View, c: Client, k: Crypto)
    requires v.Present? && (CipherOf(v, c, k) != [] || Total(|CipherOf(v, c, k)|) >= 1)
    ensures Total(|CipherOf(v, c, k)|) >= 1
    ensures Outgoing(Transferring(1), v, c, k) == AllPackets(TheUpload(v, c, k))
  {
    Bounds(|CipherOf(v, c, k)|, 1);
  }

  lemma ApprovingAdvances(st: State, l: Link, draw: Draw, k: Crypto)
    requires Inv(st) && GoodSetup(l.client.setup, k)
    requires In(Approving, ViewOf(st, l.client.setup), l, k)
    ensures var (st', l') := ServerSide(st, l, draw, k);
            In(Approved, ViewOf(st', l'.client.setup), l', k)
  {
    hide Paired, Inv, TextOf, ValidUtf8, Serve, Queued, ServerSide, ViewOf, WellFormed, ReplyOctets, Pad;
    hide Checksum.Cksum;
    var setup := l.client.setup;
    var v := ViewOf(st, setup);
    OutgoingIsWellFormed(Approving, v, l, k);
    var r := Verdict(l.client.id, 900, Field(setup.fileName));
    assert Outgoing(Approving, v, l.client, k) == [r];
    NothingIncoming();
    ServedAlone(st, l, draw, k, r);
    FieldIsRead(setup.fileName);
    VerdictEffect(st, setup, r, draw, k);
  }

  lemma DiscardingAdvances(st: State, l: Link, draw: Draw, k: Crypto) returns (s': Stage)
    requires Inv(st) && GoodSetup(l.client.setup, k)
    requires In(Discarding, ViewOf(st, l.client.setup), l, k)
    ensures s'.Discarded?
    ensures var (st', l') := ServerSide(st, l, draw, k);
            In(s', ViewOf(st', l'.client.setup), l', k)
  {
    hide Paired, Inv, TextOf, ValidUtf8, Serve, Queued, ServerSide, ViewOf, WellFormed, ReplyOctets, Pad;
    var setup := l.client.setup;
    var v := ViewOf(st, setup);
    OutgoingIsWellFormed(Discarding, v, l, k);
    var r := Verdict(l.client.id, 902, Field(setup.fileName));
    assert Outgoing(Discarding, v, l.client, k) == [r];
    NothingIncoming();
    ServedAlone(st, l, draw, k, r);
    FieldIsRead(setup.fileName);
    DiscardEffect(st, setup, r, draw, k);
    s' := Discarded(Serve(st, r, draw, k).reply == Some(ThankYou(r.id)));
  }

  // ---- Packets ----

  /** The next packet, whose content may have been altered. */
  lemma NextPacket(v: View, c: Client, n: nat, k: Crypto)
    requires v.Present? && 1 <= n <= Total(|CipherOf(v, c, k)|)
    ensures var u := TheUpload(v, c, k);
            PacketsFrom(u, n) == [PacketAt(u, n)] + PacketsFrom(u, n + 1)
  {
  }

  lemma PacketServed(st: State, l: Link, n: nat, draw: Draw, k: Crypto) returns (q: Request)
    requires ViewOf(st, l.client.setup).Present?
    requires 1 <= n <= Total(|CipherOf(ViewOf(st, l.client.setup), l.client, k)|)
    requires Inv(st) && GoodSetup(l.client.setup, k)
    requires In(Transferring(n), ViewOf(st, l.client.setup), l, k)
    ensures var c := l.client;
            var v := ViewOf(st, c.setup);
            var u := TheUpload(v, c, k);
            var service, (st', l') := Serve(st, q, draw, k), ServerSide(st, l, draw, k);
            && Decode(l.toServer).Read? && Decode(l.toServer).request == q
            && q.Packet? && q == PacketAt(u, n).(content := q.content) && Similar(PacketAt(u, n), q)
            && (l.clean ==> q == PacketAt(u, n))
            && TextOf(q.name) == Some(c.setup.fileName) && GoodNames(c.setup)
            && v.rec.id == q.id && (n == 1 || v.entry == Some(false))
            && st' == service.st && SameLink(l, l')
            && l'.client == c.(input := ReplyOctets(service.reply))
            && (!service.drained || n == Total(|u.cipher|) ==> Queued(l', PacketsFrom(u, n + 1)))
  {
    hide Paired, Inv, TextOf, ValidUtf8, Serve, Queued, ServerSide, ViewOf, WellFormed, PacketsFrom, Total, End;
    hide Begin;
    hide GoodNames, ReplyOctets, Pad, PathOf;
    var c := l.client;
    var v := ViewOf(st, c.setup);
    var u := TheUpload(v, c, k);
    OutgoingIsWellFormed(Transferring(n), v, l, k);
    NextPacket(v, c, n, k);
    var rs := PacketsFrom(u, n);
    NothingIncoming();
    var rest;
    q, rest := Served(st, l, draw, k, rs);
    FileFieldIsRead(c.setup);
    GoodNamesOf(c.setup, k);
    assert rs[1..] == PacketsFrom(u, n + 1);
  }

  lemma TransferringAdvances(st: State, l: Link, n: nat, draw: Draw, k: Crypto) returns (s': Stage)
    requires Inv(st) && GoodSetup(l.client.setup, k)
    requires In(Transferring(n), ViewOf(st, l.client.setup), l, k)
    ensures s' == Transferring(n + 1) || s' == Reported || s' == Rejected
    ensures Decode(l.toServer).Read?
    ensures Serve(st, Decode(l.toServer).request, draw, k).drained ==> s' == Rejected
    ensures var (st', l') := ServerSide(st, l, draw, k);
            In(s', ViewOf(st', l'.client.setup), l', k)
  {
    var c, v := l.client, ViewOf(st, l.client.setup);
    TransferringIs(v, c, n, l.clean, k);
    hide In, Inv, Serve, ServerSide, ViewOf, Total, GoodSetup, CipherOf, Decode;
    if n < Total(|CipherOf(v, c, k)|) {
      TransferContinues(st, l, n, draw, k);
      s' := Transferring(n + 1);
    } else {
      s' := TransferEnds(st, l, n, draw, k);
    }
  }

  lemma TransferContinues(st: State, l: Link, n: nat, draw: Draw, k: Crypto)
    requires ViewOf(st, l.client.setup).Present?
    requires 1 <= n < Total(|CipherOf(ViewOf(st, l.client.setup), l.client, k)|)
    requires Inv(st) && GoodSetup(l.client.setup, k)
    requires In(Transferring(n), ViewOf(st, l.client.setup), l, k)
    ensures Decode(l.toServer).Read? && !Serve(st, Decode(l.toServer).request, draw, k).drained
    ensures var (st', l') := ServerSide(st, l, draw, k);
            In(Transferring(n + 1), ViewOf(st', l'.client.setup), l', k)
  {
    hide Paired, Inv, TextOf, ValidUtf8, Serve, Queued, ServerSide, ViewOf, PacketsFrom, Total, End, Begin, Similar;
    hide GoodNames, CrcAnswer, ReplyOctets, Pad, Holds, PathOf, GoodSetup, CipherOf, Decode;
    var c := l.client;
    var v := ViewOf(st, c.setup);
    TransferringIs(v, c, n, l.clean, k);
    var q := PacketServed(st, l, n, draw, k);
    NothingIncoming();
    PacketEffect(st, c.setup, q, draw, k);
    var (st', l') := ServerSide(st, l, draw, k);
    PacketStored(v, c, n, q, ViewOf(st', c.setup), l'.client, l.clean, k);
    SamePackets(v, c, n, ViewOf(st', c.setup), l'.client, k);
  }

  lemma TransferEnds(st: State, l: Link, n: nat, draw: Draw, k: Crypto) returns (s': Stage)
    requires ViewOf(st, l.client.setup).Present?
    requires 1 <= n == Total(|CipherOf(ViewOf(st, l.client.setup), l.client, k)|)
    requires Inv(st) && GoodSetup(l.client.setup, k)
    requires In(Transferring(n), ViewOf(st, l.client.setup), l, k)
    ensures Decode(l.toServer).Read?
    ensures s' == if Serve(st, Decode(l.toServer).request, draw, k).drained then Rejected else Reported
    ensures var (st', l') := ServerSide(st, l, draw, k);
            In(s', ViewOf(st', l'.client.setup), l', k)
  {
    hide Paired, Inv, TextOf, ValidUtf8, Serve, Queued, ServerSide, ViewOf, PacketsFrom, Total, End, Begin, Similar;
    hide GoodNames, CrcAnswer, ReplyOctets, Pad, Holds, PathOf, GoodSetup, CipherOf, Decode;
    var c := l.client;
    var v := ViewOf(st, c.setup);
    TransferringIs(v, c, n, l.clean, k);
    var q := PacketServed(st, l, n, draw, k);
    NothingIncoming();
    PacketEffect(st, c.setup, q, draw, k);
    var (st', l') := ServerSide(st, l, draw, k);
    AllPacketsSent(TheUpload(v, c, k));
    UploadIsSendable(v, c, k);
    s' := if Serve(st, q, draw, k).drained then Rejected else Reported;
    LastStored(v, c, n, q, ViewOf(st', c.setup), l'.client, l.clean, k);
  }

  lemma TransferringIs(v: View, c: Client, n: nat, clean: bool, k: Crypto)
    requires Holds(Transferring(n), v, c, clean, k)
    ensures v.Present? && v.rec.id == c.id && |c.id| == CLIENT_ID_SIZE && |v.rec.aesKey| == AES_KEY_SIZE
    ensures c.phase.Uploading? && 1 <= n <= Total(|CipherOf(v, c, k)|)
  {
  }

  lemma SamePackets(v: View, c: Client, n: nat, v': View, c': Client, k: Crypto)
    requires v.Present? && v'.Present? && v'.rec.aesKey == v.rec.aesKey && c' == c.(input := c'.input)
    requires 1 <= n < Total(|CipherOf(v, c, k)|)
    ensures Outgoing(Transferring(n + 1), v', c', k) == PacketsFrom(TheUpload(v, c, k), n + 1)
    ensures Incoming(Transferring(n + 1), v', c', k) == None
  {
    hide PacketsFrom, Total, Pad;
  }

  /** The complete upload: what is reported is what is stored. */
  lemma LastStored(v: View, c: Client, n: nat, q: Request, v': View, c': Client, clean: bool, k: Crypto)
    requires Holds(Transferring(n), v, c, clean, k) && c' == c.(input := c'.input)
    requires q.Packet? && n == Total(|CipherOf(v, c, k)|)
    requires Similar(PacketAt(TheUpload(v, c, k), n), q) && (clean ==> q == PacketAt(TheUpload(v, c, k), n))
    requires k.decrypt(v.rec.aesKey, CipherOf(v, c, k)) == Some(c.setup.file)
    requires var written := Written(v.stored, n, q.content);
             var plain := k.decrypt(v.rec.aesKey, written);
             v' == Received(v, if plain.Some? then plain.value else written)
    ensures var plain := k.decrypt(v.rec.aesKey, Written(v.stored, n, q.content));
            && q.number == q.total == n && q.id == c.id && q.contentSize == |CipherOf(v, c, k)|
            && q.origSize == |c.setup.file|
            && (plain.Some? && |plain.value| == |c.setup.file| ==>
                  && Holds(Reported, v', c', clean, k)
                  && Incoming(Reported, v', c', k)
                     == Some(CrcAnswer(q.id, q.contentSize, c.setup.fileName, plain.value)))
            && (plain.None? || |plain.value| != |c.setup.file| ==> Holds(Rejected, v', c', clean, k))
  {
    hide Total, End, Begin, Pad, PathOf, CrcAnswer;
    if clean { WrittenSoFar(v, c, n, k); }
  }

  lemma GoodNamesOf(s: Setup, k: Crypto)
    requires GoodSetup(s, k)
    ensures GoodNames(s)
  {
  }

  lemma PacketStored(v: View, c: Client, n: nat, q: Request, v': View, c': Client, clean: bool, k: Crypto)
    requires Holds(Transferring(n), v, c, clean, k) && c' == c.(input := c'.input)
    requires q.Packet? && n < Total(|CipherOf(v, c, k)|)
    requires clean ==> q == PacketAt(TheUpload(v, c, k), n)
    requires v' == Received(v, Written(v.stored, n, q.content))
    ensures Holds(Transferring(n + 1), v', c', clean, k)
  {
    hide PacketAt, Total, End, Pad, PathOf;
    if clean { WrittenSoFar(v, c, n, k); }
  }

  lemma FileFieldIsRead(s: Setup)
    requires GoodNames(s)
    ensures TextOf(Field(s.fileName)) == Some(s.fileName)
  {
    FieldIsRead(s.fileName);
  }

  lemma AllPacketsSent(u: Upload)
    ensures PacketsFrom(u, Total(|u.cipher|) + 1) == []
  {
  }

  /** Without alteration, the stored ciphertext grows by the packet's slice. */
  lemma WrittenSoFar(v: View, c: Client, n: nat, k: Crypto)
    requires v.Present? && 1 <= n <= Total(|CipherOf(v, c, k)|)
    requires n > 1 ==> v.stored == Some(CipherOf(v, c, k)[..End(|CipherOf(v, c, k)|, n - 1)])
    ensures var cipher := CipherOf(v, c, k);
            && Written(v.stored, n, PacketAt(TheUpload(v, c, k), n).content) == cipher[..End(|cipher|, n)]
            && (n == Total(|cipher|) ==> cipher[..End(|cipher|, n)] == cipher)
  {
    var cipher := CipherOf(v, c, k);
    Bounds(|cipher|, n);
    if n > 1 {
      Bounds(|cipher|, n - 1);
      assert cipher[..Begin(n)] + cipher[Begin(n)..End(|cipher|, n)] == cipher[..End(|cipher|, n)];
    } else {
      assert cipher[0..End(|cipher|, 1)] == cipher[..End(|cipher|, 1)];
    }
  }
}
