/** What every request is answered and what it leaves behind, told from the request, the records and
    the rows alone: when it is refused, when it is passed over in silence, and when it is accepted. */
module ServerReplies {
  import opened Octets
  import opened Text
  import opened Wire
  import opened Cryptography
  import opened ServerModel
  import opened ServerInvariant
  import Unicode
  import ServerSync

  /** The answer to an error: nothing but its code, after the pending input has been discarded. */
  function Refused(st: State): Service {
    Service(st, Some(Answer(1607, 0, [])), true)
  }

  function Answered(st: State, code: nat, payload: Bytes): Service {
    Service(st, Some(Answer(code, |payload|, payload)), false)
  }

  predicate NoClientNamed(st: State, name: Bytes) {
    forall i :: 0 <= i < |st.clients| ==> st.clients[i].name != name
  }

  predicate NoClientWith(st: State, id: Bytes) {
    forall i :: 0 <= i < |st.clients| ==> st.clients[i].id != id
  }

  predicate NoFileNamed(files: seq<FileRec>, name: Bytes) {
    forall j :: 0 <= j < |files| ==> files[j].name != name
  }

  lemma NameAt(st: State, i: nat)
    requires Inv(st) && i < |st.clients|
    ensures IndexOfName(st.clients, st.clients[i].name) == i
    ensures IndexOfId(st.clients, st.clients[i].id) == i
    ensures |st.clients[i].id| == CLIENT_ID_SIZE
  {
    assert ClientOk(st.clients[i]);
  }

  lemma FileAt(st: State, i: nat, j: nat)
    requires Inv(st) && i < |st.clients| && j < |st.clients[i].files|
    ensures var files := st.clients[i].files;
            && IndexOfFile(files, files[j].name) == j && files[j].path in st.disk
            && (forall l :: 0 <= l < |files| && l != j ==> files[l].name != files[j].name)
  {
    assert ClientOk(st.clients[i]) && FilesOnDisk(st.clients[i], st.disk);
  }

  // ---- 825 ----

  lemma RegisterExactly(st: State, r: Request, draw: Draw, k: Crypto)
    requires Inv(st) && r.Register? && |draw.uuid| == CLIENT_ID_SIZE
    ensures var t, s := TextOf(r.name), Serve(st, r, draw, k);
            && (t.None? || !NoClientNamed(st, t.value) ==> s == Service(st, Some(Answer(1601, 0, [])), true))
            && (t.Some? && NoClientNamed(st, t.value) ==>
                  var listed := st.clients + [ClientRec(draw.uuid, t.value, [], [], [])];
                  var rows := st.clientTable + [ClientRow(draw.uuid, t.value, [], [])];
                  if NoClientWith(st, draw.uuid) then
                    s == Answered(st.(clients := listed, clientTable := rows), 1600, draw.uuid)
                  else
                    s == Service(st.(clients := listed), Some(Answer(1601, 0, [])), true))
  {
    hide TextOf;
    forall i | 0 <= i < |st.clientTable| ensures st.clientTable[i].id == st.clients[i].id {}
    if !NoClientWith(st, draw.uuid) {
      var i :| 0 <= i < |st.clients| && st.clients[i].id == draw.uuid;
      assert st.clientTable[i].id == draw.uuid;
    }
  }

  /** A name is given by its characters: unless it is taken, it is registered. */
  lemma CharactersAreRegistered(st: State, cs: seq<nat>, id: Bytes, draw: Draw, k: Crypto)
    requires Inv(st) && |draw.uuid| == CLIENT_ID_SIZE && NoClientWith(st, draw.uuid)
    requires Unicode.AllScalars(cs) && 0 !in cs && |Unicode.EncodedText(cs)| <= NAME_SIZE
    ensures var name := Unicode.EncodedText(cs);
            var s := Serve(st, Register(id, Pad(name, NAME_SIZE)), draw, k);
            if NoClientNamed(st, name) then
              s.reply == Some(Answer(1600, CLIENT_ID_SIZE, draw.uuid)) && !s.drained
            else
              s == Service(st, Some(Answer(1601, 0, [])), true)
  {
    hide Serve, Inv, TextOf, Pad;
    Unicode.NameIsRead(cs, NAME_SIZE);
    RegisterExactly(st, Register(id, Pad(Unicode.EncodedText(cs), NAME_SIZE)), draw, k);
  }

  // ---- 827 and 826 ----

  /** The client's new AES key, in its record and in its row. */
  function WithKey(st: State, i: nat, key: Bytes): State
    requires i < |st.clients| && i < |st.clientTable|
  {
    st.(clients := st.clients[i := st.clients[i].(aesKey := key)],
        clientTable := st.clientTable[i := st.clientTable[i].(aesKey := key)])
  }

  /** The new key is kept even if it cannot be wrapped for the client. */
  function KeySent(st: State, i: nat, code: nat, key: Bytes, k: Crypto): Service
    requires i < |st.clients| && i < |st.clientTable|
  {
    match k.wrap(st.clients[i].publicKey, key)
    case None => Refused(WithKey(st, i, key))
    case Some(e) => Answered(WithKey(st, i, key), code, st.clients[i].id + e)
  }

  lemma SendAesIs(st: State, i: nat, key: Bytes, code: nat, k: Crypto)
    requires i < |st.clients| == |st.clientTable| && st.clientTable[i].id == st.clients[i].id
    requires |st.clients[i].id| == CLIENT_ID_SIZE
    requires forall a, b :: 0 <= a < b < |st.clientTable| ==> st.clientTable[a].id != st.clientTable[b].id
    ensures var o := SendAes(st, i, key, code, k);
            KeySent(st, i, code, key, k)
            == match o case Done(st', reply) => Service(st', reply, false) case Raised(st') => Refused(st')
  {
    WithAesKeyAt(st.clientTable, i, key);
  }

  /** A reconnection, by what is listed under the name. */
  lemma ReconnectExactly(st: State, r: Request, draw: Draw, k: Crypto)
    requires Inv(st) && r.Reconnect? && |r.id| == CLIENT_ID_SIZE
    ensures var t, s := TextOf(r.name), Serve(st, r, draw, k);
            && (t.None? ==> s == Refused(st))
            && (t.Some? && NoClientNamed(st, t.value) ==> s == Answered(st, 1606, r.id))
            && (t.Some? ==>
                  forall i :: 0 <= i < |st.clients| && st.clients[i].name == t.value ==>
                    if st.clients[i].id != r.id then s == Refused(st)
                    else if !k.importable(st.clients[i].publicKey) then s == Answered(st, 1606, r.id)
                    else s == KeySent(st, i, 1605, draw.aesKey, k))
  {
    hide TextOf, SendAes;
    var t := TextOf(r.name);
    if t.Some? {
      forall i | 0 <= i < |st.clients| && st.clients[i].name == t.value
        ensures IndexOfName(st.clients, t.value) == i && |st.clients[i].id| == CLIENT_ID_SIZE
        ensures var o := SendAes(st, i, draw.aesKey, 1605, k);
                KeySent(st, i, 1605, draw.aesKey, k)
                == match o case Done(st', reply) => Service(st', reply, false) case Raised(st') => Refused(st')
      {
        NameAt(st, i);
        RowIds(st);
        SendAesIs(st, i, draw.aesKey, 1605, k);
      }
    }
  }

  /** Which answer a reconnection gets. */
  lemma ReconnectCodes(st: State, r: Request, draw: Draw, k: Crypto)
    requires Inv(st) && r.Reconnect? && |r.id| == CLIENT_ID_SIZE
    ensures var t, s := TextOf(r.name), Serve(st, r, draw, k);
            && s.reply.Some?
            && (s.reply.value.code == 1605 <==>
                  t.Some? && exists i :: 0 <= i < |st.clients| && st.clients[i].name == t.value
                                         && st.clients[i].id == r.id && k.importable(st.clients[i].publicKey)
                                         && k.wrap(st.clients[i].publicKey, draw.aesKey).Some?)
            && (s.reply.value.code == 1606 <==>
                  t.Some? && (NoClientNamed(st, t.value)
                              || exists i :: 0 <= i < |st.clients| && st.clients[i].name == t.value
                                             && st.clients[i].id == r.id && !k.importable(st.clients[i].publicKey)))
            && (s.reply.value.code != 1605 && s.reply.value.code != 1606 ==>
                  s.drained && s.reply == Some(Answer(1607, 0, [])))
  {
    hide Serve, TextOf, Inv;
    ReconnectExactly(st, r, draw, k);
    var t := TextOf(r.name);
    if t.Some? && !NoClientNamed(st, t.value) {
      var i :| 0 <= i < |st.clients| && st.clients[i].name == t.value;
      OnlyOneNamed(st, i);
    }
  }

  lemma OnlyOneNamed(st: State, i: nat)
    requires Inv(st) && i < |st.clients|
    ensures i < |st.clientTable|
    ensures forall a :: 0 <= a < |st.clients| && st.clients[a].name == st.clients[i].name ==> a == i
    ensures forall a :: 0 <= a < |st.clients| && st.clients[a].id == st.clients[i].id ==> a == i
  {
  }

  /** A public key, by what is listed under the name: both keys are kept, whatever follows. */
  lemma PublicKeyExactly(st: State, r: Request, draw: Draw, k: Crypto)
    requires Inv(st) && r.PublicKey? && |r.id| == CLIENT_ID_SIZE
    ensures var t, s := TextOf(r.name), Serve(st, r, draw, k);
            && (t.None? || NoClientNamed(st, t.value) ==> s == Refused(st))
            && (t.Some? ==>
                  forall i :: 0 <= i < |st.clients| && st.clients[i].name == t.value ==>
                    if st.clients[i].id != r.id then s == Refused(st)
                    else s == KeySent(WithPublic(st, i, r.key), i, 1602, draw.aesKey, k))
  {
    hide TextOf, SendAes, WithPublicKey;
    var t := TextOf(r.name);
    if t.Some? {
      forall i | 0 <= i < |st.clients| && st.clients[i].name == t.value
        ensures IndexOfName(st.clients, t.value) == i && i < |st.clientTable|
        ensures st.clients[i].id == r.id ==> PublicKeyIs(st, i, r.id, r.key, draw.aesKey, k)
      {
        NameAt(st, i);
        if st.clients[i].id == r.id { PublicKeyOf(st, i, r.id, r.key, draw.aesKey, k); }
      }
      hide Inv;
    }
  }

  ghost predicate PublicKeyIs(st: State, i: nat, id: Bytes, public: Bytes, key: Bytes, k: Crypto)
    requires i < |st.clients| && i < |st.clientTable|
  {
    && WithPublicKey(st.clientTable, id, public) == WithPublic(st, i, public).clientTable
    && var o := SendAes(WithPublic(st, i, public), i, key, 1602, k);
       KeySent(WithPublic(st, i, public), i, 1602, key, k)
       == match o case Done(st', reply) => Service(st', reply, false) case Raised(st') => Refused(st')
  }

  lemma PublicKeyOf(st: State, i: nat, id: Bytes, public: Bytes, key: Bytes, k: Crypto)
    requires Inv(st) && i < |st.clients| && st.clients[i].id == id
    ensures i < |st.clientTable| && PublicKeyIs(st, i, id, public, key, k)
  {
    hide SendAes, KeySent;
    NameAt(st, i);
    RowIds(st);
    WithPublicKeyAt(st.clientTable, i, public);
    SendAesIs(WithPublic(st, i, public), i, key, 1602, k);
  }

  function WithPublic(st: State, i: nat, key: Bytes): State
    requires i < |st.clients| && i < |st.clientTable|
  {
    st.(clients := st.clients[i := st.clients[i].(publicKey := key)],
        clientTable := st.clientTable[i := st.clientTable[i].(publicKey := key)])
  }

  // ---- 828 ----

  /** At most two octets, all of them dots. */
  predicate OnlyDots(name: Bytes) {
    |name| <= 2 && forall i :: 0 <= i < |name| ==> name[i] == 0x2e
  }

  lemma DirectoriesAreDots(name: Bytes)
    ensures DirectoryName(name) <==> OnlyDots(name)
  {
    if |name| == 1 { assert name == [name[0]]; }
    if |name| == 2 { assert name == [name[0], name[1]]; }
  }

  /** The packet is for a client that is registered and for a name that can be a file. */
  predicate Writable(st: State, r: Request)
    requires r.Packet?
  {
    var t := TextOf(r.name);
    t.Some? && !OnlyDots(t.value) && !NoClientWith(st, r.id)
  }

  /** The file with the packet's content: alone, or after what was there. */
  function Extended(st: State, path: Bytes, r: Request): Bytes
    requires r.Packet?
  {
    (if r.number != 1 && path in st.disk then st.disk[path] else []) + r.content
  }

  /** What a first packet changes in the list and in the table; other packets change nothing there. */
  ghost predicate Listing(st: State, after: State, i: nat, f: FileRec, number: nat)
    requires i < |st.clients|
  {
    var files := st.clients[i].files;
    && after.disk == st.disk && after.clientTable == st.clientTable
    && |after.clients| == |st.clients|
    && (forall a :: 0 <= a < |st.clients| && a != i ==> after.clients[a] == st.clients[a])
    && after.clients[i] == st.clients[i].(files := after.clients[i].files)
    && var files' := after.clients[i].files;
       if number != 1 then files' == files && after.fileTable == st.fileTable
       else if NoFileNamed(files, f.name) then files' == files + [f] && after.fileTable == st.fileTable + [f]
       else
         && |files'| == |files|
         && (forall j :: 0 <= j < |files| ==>
               files'[j] == if files[j].name == f.name then files[j].(valid := false) else files[j])
         && FlagsAre(st.fileTable, after.fileTable, f.owner, false)
  }

  /** Row by row: the client's rows carry the flag, the others are as they were. */
  predicate FlagsAre(rows: seq<FileRec>, rows': seq<FileRec>, owner: Bytes, valid: bool) {
    && |rows'| == |rows|
    && forall r :: 0 <= r < |rows| ==>
         rows'[r] == if rows[r].owner == owner then rows[r].(valid := valid) else rows[r]
  }

  /** The last packet: what is on disk afterwards, and the answer. */
  function Completed(st: State, i: nat, f: FileRec, r: Request, content: Bytes, k: Crypto): Service
    requires r.Packet? && i < |st.clients|
  {
    match k.decrypt(st.clients[i].aesKey, content)
    case None => Refused(st)
    case Some(plain) =>
      var st' := st.(disk := st.disk[f.path := plain]);
      if |plain| != r.origSize then Refused(st')
      else Service(st', Some(CrcAnswer(r.id, r.contentSize, f.name, plain)), false)
  }

  /** A packet: refused before anything is written, refused after it was written because the file
      is not listed, or taken. */
  lemma PacketExactly(st: State, r: Request, draw: Draw, k: Crypto)
    requires Inv(st) && r.Packet?
    ensures var s := Serve(st, r, draw, k);
            && (!Writable(st, r) ==> s == Refused(st))
            && (Writable(st, r) ==>
                  forall i :: 0 <= i < |st.clients| && st.clients[i].id == r.id ==> Taken(st, r, i, s, k))
  {
    hide TextOf, Inv, ReceivePacket, Taken;
    var t := TextOf(r.name);
    if t.Some? { DirectoriesAreDots(t.value); }
    NotWritten(st, r, k);
    if Writable(st, r) {
      forall i | 0 <= i < |st.clients| && st.clients[i].id == r.id ensures Taken(st, r, i, Serve(st, r, draw, k), k) {
        NameAt(st, i);
        PacketTaken(st, r, i, draw, k);
      }
    }
  }

  lemma NotWritten(st: State, r: Request, k: Crypto)
    requires r.Packet?
    ensures !Writable(st, r) ==> ReceivePacket(st, r, k) == Raised(st)
  {
    hide TextOf;
    var t := TextOf(r.name);
    if t.Some? { DirectoriesAreDots(t.value); }
  }

  ghost predicate Taken(st: State, r: Request, i: nat, s: Service, k: Crypto)
    requires r.Packet? && TextOf(r.name).Some? && i < |st.clients|
  {
    var name := TextOf(r.name).value;
    var f := FileRec(r.id, name, PathOf(st.clients[i].name, name), false);
    var content := Extended(st, f.path, r);
    var written := st.(disk := st.disk[f.path := content]);
    if r.number != 1 && NoFileNamed(st.clients[i].files, name) then s == Refused(written)
    else
      exists listed :: Listing(written, listed, i, f, r.number)
        && s == if r.number != r.total then Service(listed, None, false)
                else Completed(listed, i, f, r, content, k)
  }

  lemma WrittenIs(st: State, path: Bytes, r: Request)
    requires r.Packet?
    ensures WritePacket(st.disk, path, r.number, r.content) == st.disk[path := Extended(st, path, r)]
  {
    assert [] + r.content == r.content;
  }

  lemma PacketTaken(st: State, r: Request, i: nat, draw: Draw, k: Crypto)
    requires Inv(st) && r.Packet? && Writable(st, r)
    requires i < |st.clients| && st.clients[i].id == r.id && IndexOfId(st.clients, r.id) == i
    ensures Taken(st, r, i, Serve(st, r, draw, k), k)
  {
    hide TextOf, PathOf, KnownFile, NewFile, WritePacket, Extended, Completed, Listing, IndexOfFile, IndexOfId;
    var name := TextOf(r.name).value;
    DirectoriesAreDots(name);
    var c := st.clients[i];
    var f := FileRec(r.id, name, PathOf(c.name, name), false);
    var content := Extended(st, f.path, r);
    WrittenIs(st, f.path, r);
    var written := st.(disk := st.disk[f.path := content]);
    WriteKeeps(st.disk, f.path, r.number, r.content);
    MoreDisk(st, written.disk);
    var j := IndexOfFile(c.files, name);
    FoundOrNot(c.files, name);
    if j < |c.files| {
      assert c.files[j].name == name;
      var listed := KnownTaken(written, i, j, f, r, content, k);
    } else if r.number == 1 {
      NewRowIsNew(written, i, f);
      var listed := NewTaken(written, i, f, r, content, k);
    }
  }

  lemma FoundOrNot(files: seq<FileRec>, name: Bytes)
    ensures IndexOfFile(files, name) == |files| <==> NoFileNamed(files, name)
  {
    var j := IndexOfFile(files, name);
    assert j < |files| ==> files[j].name == name;
  }

  lemma KnownTaken(st: State, i: nat, j: nat, f: FileRec, r: Request, content: Bytes, k: Crypto)
    returns (listed: State)
    requires Inv(st) && r.Packet? && i < |st.clients| && j < |st.clients[i].files|
    requires st.clients[i].id == r.id == f.owner
    requires f == FileRec(r.id, f.name, PathOf(st.clients[i].name, f.name), false)
    requires st.clients[i].files[j].name == f.name
    requires f.path in st.disk && st.disk[f.path] == content
    ensures Listing(st, listed, i, f, r.number)
    ensures var o := KnownFile(st, i, j, r, k);
            (match o case Done(st', reply) => Service(st', reply, false) case Raised(st') => Refused(st'))
            == if r.number != r.total then Service(listed, None, false) else Completed(listed, i, f, r, content, k)
  {
    hide PathOf, CrcAnswer, IndexOfFile, SetValid, Listing;
    FileIsF(st, i, j, f);
    FileAt(st, i, j);
    hide Inv;
    listed := if r.number == 1 then SetValid(st, i, j, false) else st;
    KnownListing(st, i, j, f, r.number);
    SetValidKeepsFile(st, i, j);
  }

  lemma FileIsF(st: State, i: nat, j: nat, f: FileRec)
    requires Inv(st) && i < |st.clients| && j < |st.clients[i].files|
    requires st.clients[i].files[j].name == f.name && f.path == PathOf(st.clients[i].name, f.name)
    ensures st.clients[i].files[j].path == f.path
  {
    hide PathOf;
    assert ClientOk(st.clients[i]);
  }

  lemma SetValidKeepsFile(st: State, i: nat, j: nat)
    requires i < |st.clients| && j < |st.clients[i].files|
    ensures var st', f := SetValid(st, i, j, false), st.clients[i].files[j];
            && st'.disk == st.disk && st'.clients[i].aesKey == st.clients[i].aesKey
            && st'.clients[i].id == st.clients[i].id
            && st'.clients[i].files[j].path == f.path && st'.clients[i].files[j].name == f.name
  {
    hide WithValid;
  }

  lemma KnownListing(st: State, i: nat, j: nat, f: FileRec, number: nat)
    requires i < |st.clients| && j < |st.clients[i].files| && st.clients[i].id == f.owner
    requires st.clients[i].files[j].name == f.name
    requires forall l :: 0 <= l < |st.clients[i].files| && l != j ==> st.clients[i].files[l].name != f.name
    ensures Listing(st, if number == 1 then SetValid(st, i, j, false) else st, i, f, number)
  {
    hide WithValid;
    WithValidAt(st.fileTable, f.owner, false);
  }

  lemma NewTaken(st: State, i: nat, f: FileRec, r: Request, content: Bytes, k: Crypto) returns (listed: State)
    requires r.Packet? && r.number == 1 && i < |st.clients| && NoFileNamed(st.clients[i].files, f.name)
    requires st.clients[i].id == r.id && !HasFileKey(st.fileTable, f.owner, f.name)
    requires f.path in st.disk && st.disk[f.path] == content
    ensures Listing(st, listed, i, f, r.number)
    ensures var o := NewFile(st, i, f, r, k);
            (match o case Done(st', reply) => Service(st', reply, false) case Raised(st') => Refused(st'))
            == if r.number != r.total then Service(listed, None, false) else Completed(listed, i, f, r, content, k)
  {
    hide PathOf, CrcAnswer;
    var c := st.clients[i];
    listed := Update(st, i, c.(files := c.files + [f])).(fileTable := st.fileTable + [f]);
  }

  /** When a packet is refused. */
  lemma PacketRefused(st: State, r: Request, draw: Draw, k: Crypto)
    requires Inv(st) && r.Packet?
    ensures var s := Serve(st, r, draw, k);
            && (s.drained <==> s.reply == Some(Answer(1607, 0, [])))
            && (s.drained <==>
                  || !Writable(st, r)
                  || exists i :: 0 <= i < |st.clients| && st.clients[i].id == r.id && RefusedFor(st, r, i, k))
  {
    hide Serve, Inv, TextOf, PathOf, Extended, Listing, CrcAnswer;
    PacketExactly(st, r, draw, k);
    CodeOfReport();
    if Writable(st, r) {
      var i :| 0 <= i < |st.clients| && st.clients[i].id == r.id;
      OnlyOneNamed(st, i);
      SameKeys(st, r, i, k);
    }
  }

  /** The file is neither listed nor begun by this packet, or it is complete and not of the size
      that was announced once decrypted. */
  predicate RefusedFor(st: State, r: Request, i: nat, k: Crypto)
    requires r.Packet? && TextOf(r.name).Some? && i < |st.clients|
  {
    var name := TextOf(r.name).value;
    var content := Extended(st, PathOf(st.clients[i].name, name), r);
    var plain := k.decrypt(st.clients[i].aesKey, content);
    || (r.number != 1 && NoFileNamed(st.clients[i].files, name))
    || (r.number == r.total && (plain.None? || |plain.value| != r.origSize))
  }

  lemma CodeOfReport()
    ensures forall id, n, name, plain :: CrcAnswer(id, n, name, plain).code == 1603
  {
  }

  lemma SameKeys(st: State, r: Request, i: nat, k: Crypto)
    requires i < |st.clients|
    ensures forall disk, listed, f, n {:trigger Listing(st.(disk := disk), listed, i, f, n)} ::
              Listing(st.(disk := disk), listed, i, f, n) ==>
                |listed.clients| == |st.clients| && listed.clients[i].aesKey == st.clients[i].aesKey
  {
  }

  // ---- 900, 901 and 902 ----

  /** The client with the request's identifier lists the file under this number, not valid yet. */
  predicate Judged(st: State, r: Request, i: nat, j: nat)
    requires r.Verdict? && TextOf(r.name).Some?
  {
    && i < |st.clients| && st.clients[i].id == r.id && j < |st.clients[i].files|
    && st.clients[i].files[j].name == TextOf(r.name).value && !st.clients[i].files[j].valid
  }

  predicate RowLeft(rows: seq<FileRec>, name: Bytes) {
    exists r :: 0 <= r < |rows| && rows[r].name == name
  }

  /** 900: the flag of the file in its list, and the flags of all rows of the client. */
  ghost predicate Verified(st: State, st': State, i: nat, j: nat)
    requires i < |st.clients| && j < |st.clients[i].files|
  {
    var c := st.clients[i];
    && st'.clients == st.clients[i := c.(files := c.files[j := c.files[j].(valid := true)])]
    && FlagsAre(st.fileTable, st'.fileTable, c.id, true)
    && st'.clientTable == st.clientTable && st'.disk == st.disk
  }

  /** 902: the file leaves the list and the disk, and exactly the rows of its name leave the table. */
  ghost predicate Discarded(st: State, st': State, i: nat, j: nat)
    requires i < |st.clients| && j < |st.clients[i].files|
  {
    var c := st.clients[i];
    var f := c.files[j];
    && st'.clients == st.clients[i := c.(files := c.files[..j] + c.files[j + 1..])]
    && OnlyWithout(st.fileTable, st'.fileTable, f.name)
    && st'.clientTable == st.clientTable && st'.disk == st.disk - {f.path}
  }

  /** The verdict has been taken. */
  ghost predicate Settled(st: State, r: Request, i: nat, j: nat, s: Service)
    requires r.Verdict? && TextOf(r.name).Some? && Judged(st, r, i, j)
  {
    if r.code == 900 then s == Answered(s.st, 1604, r.id) && Verified(st, s.st, i, j)
    else if r.code == 901 then s == Service(st, None, false)
    else
      && Discarded(st, s.st, i, j)
      && s == if RowLeft(st.fileTable, TextOf(r.name).value) then Answered(s.st, 1604, r.id) else Refused(s.st)
  }

  /** A verdict on a file that waits for one is accepted, except that 902 also needs a row of the
      name; the file is gone all the same. Every other verdict is refused and changes nothing. */
  lemma VerdictExactly(st: State, r: Request, draw: Draw, k: Crypto)
    requires Inv(st) && r.Verdict? && Readable(r)
    ensures var s, t := Serve(st, r, draw, k), TextOf(r.name);
            && (t.None? || (forall i: nat, j: nat :: !Judged(st, r, i, j)) ==> s == Refused(st))
            && (t.Some? ==> forall i: nat, j: nat :: Judged(st, r, i, j) ==> Settled(st, r, i, j, s))
  {
    hide TextOf, Inv, ReceiveVerdict, Judged, Settled;
    NotJudged(st, r);
    if TextOf(r.name).Some? {
      forall i: nat, j: nat | Judged(st, r, i, j) ensures Settled(st, r, i, j, Serve(st, r, draw, k)) {
        VerdictTaken(st, r, i, j, draw, k);
      }
    }
  }

  lemma NotJudged(st: State, r: Request)
    requires r.Verdict?
    ensures TextOf(r.name).None? || (forall i: nat, j: nat :: !Judged(st, r, i, j)) ==>
              ReceiveVerdict(st, r.id, r.code, r.name) == Raised(st)
  {
    hide TextOf;
    var t := TextOf(r.name);
    if t.Some? && forall i: nat, j: nat :: !Judged(st, r, i, j) {
      var i := IndexOfId(st.clients, r.id);
      if i < |st.clients| {
        var j := IndexOfFile(st.clients[i].files, t.value);
        assert !Judged(st, r, i, j);
      }
    }
  }

  lemma VerdictTaken(st: State, r: Request, i: nat, j: nat, draw: Draw, k: Crypto)
    requires Inv(st) && r.Verdict? && Readable(r) && TextOf(r.name).Some? && Judged(st, r, i, j)
    ensures Settled(st, r, i, j, Serve(st, r, draw, k))
  {
    hide TextOf, SetValid, DeleteFile, Verified, Discarded, RowLeft;
    NameAt(st, i);
    FileAt(st, i, j);
    FlagTaken(st, i, j);
    DeleteTaken(st, i, j);
    hide Inv, IndexOfId, IndexOfFile;
  }

  lemma FlagTaken(st: State, i: nat, j: nat)
    requires i < |st.clients| && j < |st.clients[i].files|
    ensures Verified(st, SetValid(st, i, j, true), i, j)
  {
    hide WithValid;
    WithValidAt(st.fileTable, st.clients[i].id, true);
  }

  lemma DeleteTaken(st: State, i: nat, j: nat)
    requires i < |st.clients| && j < |st.clients[i].files| && st.clients[i].files[j].path in st.disk
    ensures var o := DeleteFile(st, i, j);
            && Discarded(st, o.st, i, j)
            && (o.Raised? <==> !RowLeft(st.fileTable, st.clients[i].files[j].name))
            && (o.Done? ==> o.reply == Some(ThankYou(st.clients[i].id)))
  {
    hide WithoutName, Position;
    var name := st.clients[i].files[j].name;
    WithoutNameIsOnly(st.fileTable, name);
    ServerSync.WithoutNameSame(st.fileTable, name);
  }

  /** When a verdict is accepted. */
  lemma VerdictAccepted(st: State, r: Request, draw: Draw, k: Crypto)
    requires Inv(st) && r.Verdict? && Readable(r)
    ensures var s, t := Serve(st, r, draw, k), TextOf(r.name);
            && (s.drained <==> s.reply == Some(Answer(1607, 0, [])))
            && (!s.drained <==>
                  && t.Some? && (exists i: nat, j: nat :: Judged(st, r, i, j))
                  && (r.code == 902 ==> RowLeft(st.fileTable, t.value)))
  {
    hide Serve, Inv, TextOf, Judged, Verified, Discarded, RowLeft;
    VerdictExactly(st, r, draw, k);
  }

  // ---- Anything else ----

  lemma InvalidExactly(st: State, r: Request, draw: Draw, k: Crypto)
    requires r.Invalid?
    ensures Serve(st, r, draw, k) == Refused(st)
  {
  }

  // ---- Paths ----

  /** The octets of an ASCII text. */
  predicate Spells(s: Bytes, text: string) {
    |s| == |text| && forall i :: 0 <= i < |s| ==> Value(s[i]) == text[i] as int
  }

  /** A file's path: the folder, the client's name and the file's, with separators. */
  lemma PathsAre(client: Bytes, file: Bytes)
    ensures exists folder, slash ::
              && Spells(folder, "clients files") && Spells(slash, "/")
              && PathOf(client, file) == folder + slash + client + slash + file
  {
    assert Spells(FOLDER, "clients files") && Spells([SLASH], "/");
  }
}
