/** Which requests are answered, with what, and how long the answer is. */
module ServerAnswers {
  import opened Octets
  import opened Text
  import opened Wire
  import opened Cryptography
  import opened ServerModel
  import opened ServerInvariant
  import Checksum

  /** The requests that are not answered when they succeed. */
  predicate Silent(r: Request) {
    (r.Packet? && r.number != r.total) || (r.Verdict? && r.code == 901)
  }

  /** Every request is answered exactly once, except a successful packet that is not the last and
      a successful 901; an error is always answered, and always discards pending input. */
  lemma AnsweredOnce(st: State, r: Request, draw: Draw, k: Crypto)
    requires Inv(st) && Readable(r)
    ensures var s := Serve(st, r, draw, k);
            && (s.reply.None? <==> Handle(st, r, draw, k).Done? && Silent(r))
            && (s.drained <==> Handle(st, r, draw, k).Raised?)
  {
    hide Inv, SetValid, WithoutName, IndexOfFile;
  }

  predicate IsError(reply: Option<Answer>) {
    reply.Some? && (reply.value.code == 1601 || reply.value.code == 1607)
  }

  /** Pending input is discarded exactly when the answer is an error, in every state. */
  lemma ErrorsDrain(st: State, r: Request, draw: Draw, k: Crypto)
    ensures var s := Serve(st, r, draw, k);
            s.drained <==> IsError(s.reply)
  {
    hide TextOf, WithAesKey, WithPublicKey, WithoutName, WritePacket, SetValid, PathOf, Pad, LittleEndian;
    hide IndexOfName, IndexOfId, IndexOfFile, HasFileKey, HasClientKey;
  }

  /** The answer codes a request can get. */
  predicate Expected(r: Request, code: nat) {
    match r
    case Register(_, _) => code == 1600 || code == 1601
    case Reconnect(_, _) => code == 1605 || code == 1606 || code == 1607
    case PublicKey(_, _, _) => code == 1602 || code == 1607
    case Packet(_, _, _, number, total, _, _) => (code == 1603 && number == total) || code == 1607
    case Verdict(_, verdict, _) => (code == 1604 && verdict != 901) || code == 1607
    case Invalid(_) => code == 1607
  }

  /** The shape of an answer: how many octets of payload follow its header. */
  predicate Shaped(a: Answer) {
    && a.size == |a.payload|
    && (a.code == 1600 || a.code == 1604 || a.code == 1606 ==> |a.payload| == CLIENT_ID_SIZE)
    && (a.code == 1602 || a.code == 1605 ==> |a.payload| >= CLIENT_ID_SIZE)
    && (a.code == 1603 ==> |a.payload| == 279)
    && (a.code == 1601 || a.code == 1607 ==> a.payload == [])
  }

  /** An answer that names a client names the one the request is about. */
  predicate Addressed(r: Request, a: Answer) {
    !r.Register? && a.payload != [] ==> |a.payload| >= CLIENT_ID_SIZE && a.payload[..CLIENT_ID_SIZE] == r.id
  }

  lemma SendAesAnswer(st: State, i: nat, key: Bytes, code: nat, k: Crypto)
    requires i < |st.clients| && |st.clients[i].id| == CLIENT_ID_SIZE && (code == 1602 || code == 1605)
    ensures var o := SendAes(st, i, key, code, k);
            o.Done? ==> o.reply.Some? && o.reply.value.code == code && Shaped(o.reply.value)
                        && o.reply.value.payload[..CLIENT_ID_SIZE] == st.clients[i].id
  {
  }

  lemma LastPacketAnswer(st: State, i: nat, f: FileRec, contentSize: nat, origSize: nat, k: Crypto)
    requires i < |st.clients| && |st.clients[i].id| == CLIENT_ID_SIZE && |f.name| <= NAME_SIZE
    ensures var o := LastPacket(st, i, f, contentSize, origSize, k);
            o.Done? ==> o.reply.Some? && o.reply.value.code == 1603 && Shaped(o.reply.value)
                        && o.reply.value.payload[..CLIENT_ID_SIZE] == st.clients[i].id
  {
    hide Pad, LittleEndian, Checksum.Cksum;
  }

  lemma PacketAnswer(st: State, r: Request, k: Crypto)
    requires Inv(st) && r.Packet? && Readable(r)
    ensures var o := ReceivePacket(st, r, k);
            o.Done? && o.reply.Some? ==>
              Expected(r, o.reply.value.code) && Shaped(o.reply.value) && Addressed(r, o.reply.value)
  {
    hide LastPacket, WritePacket, PathOf, Shaped, Inv;
    var t := TextOf(r.name);
    if t.Some? {
      var i := IndexOfId(st.clients, r.id);
      if i < |st.clients| && !DirectoryName(t.value) {
        ClientIs(st, i);
        var path := PathOf(st.clients[i].name, t.value);
        var st1 := st.(disk := WritePacket(st.disk, path, r.number, r.content));
        var j := IndexOfFile(st.clients[i].files, t.value);
        if j < |st.clients[i].files| {
          var st2 := if r.number == 1 then SetValid(st1, i, j, false) else st1;
          LastPacketAnswer(st2, i, st2.clients[i].files[j], r.contentSize, r.origSize, k);
        } else {
          var f := FileRec(r.id, t.value, path, false);
          var c := st.clients[i];
          var st2 := Update(st1, i, c.(files := c.files + [f])).(fileTable := st.fileTable + [f]);
          LastPacketAnswer(st2, i, f, r.contentSize, r.origSize, k);
        }
      }
    }
    ShapedIs();
  }

  lemma ShapedIs()
    ensures forall a: Answer :: Shaped(a) && a.code == 1603 ==> |a.payload| == 279
  {
  }

  lemma ClientIs(st: State, i: nat)
    requires Inv(st) && i < |st.clients|
    ensures |st.clients[i].id| == CLIENT_ID_SIZE
    ensures forall j :: 0 <= j < |st.clients[i].files| ==> |st.clients[i].files[j].name| <= NAME_SIZE
  {
    assert ClientOk(st.clients[i]);
  }

  lemma KeyAnswer(st: State, r: Request, draw: Draw, k: Crypto)
    requires Inv(st) && (r.Reconnect? || r.PublicKey?) && Readable(r)
    ensures var o := Handle(st, r, draw, k);
            o.Done? && o.reply.Some? ==>
              Expected(r, o.reply.value.code) && Shaped(o.reply.value) && Addressed(r, o.reply.value)
  {
    hide SendAes, Inv;
    var t := TextOf(r.name);
    if t.Some? {
      var i := IndexOfName(st.clients, t.value);
      if i < |st.clients| && st.clients[i].id == r.id {
        ClientIs(st, i);
        if r.Reconnect? {
          SendAesAnswer(st, i, draw.aesKey, 1605, k);
        } else {
          var c := st.clients[i].(publicKey := r.key);
          var st1 := Update(st, i, c).(clientTable := WithPublicKey(st.clientTable, r.id, r.key));
          SendAesAnswer(st1, i, draw.aesKey, 1602, k);
        }
      }
    }
  }

  lemma VerdictAnswer(st: State, r: Request)
    requires Inv(st) && r.Verdict? && Readable(r)
    ensures var o := ReceiveVerdict(st, r.id, r.code, r.name);
            o.Done? && o.reply.Some? ==>
              Expected(r, o.reply.value.code) && Shaped(o.reply.value) && Addressed(r, o.reply.value)
  {
    hide Inv, SetValid, WithoutName;
  }

  /** The announced size is the number of octets sent, whatever the request and however it ends. */
  lemma AnswersAreShaped(st: State, r: Request, draw: Draw, k: Crypto)
    requires Inv(st) && Legal(st, r, draw)
    ensures var reply := Serve(st, r, draw, k).reply;
            reply.Some? ==> Expected(r, reply.value.code) && Shaped(reply.value) && Addressed(r, reply.value)
  {
    hide Inv, ReconnectClient, SetPublicKey, ReceivePacket, ReceiveVerdict;
    match r
    case Packet(_, _, _, _, _, _, _) => PacketAnswer(st, r, k);
    case Verdict(_, _, _) => VerdictAnswer(st, r);
    case Reconnect(_, _) => KeyAnswer(st, r, draw, k);
    case PublicKey(_, _, _) => KeyAnswer(st, r, draw, k);
    case _ =>
  }
}
