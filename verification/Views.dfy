/** What the server knows of one client and its file, and how that client's requests change it. */
module Views {
  import opened Octets
  import opened Text
  import opened Wire
  import opened Cryptography
  import opened ServerModel
  import opened ServerInvariant
  import opened ServerIsolation
  import opened ClientModel

  /** The client's identity and keys, the flag of its file if that is listed, and what is on disk
      at the path of its file. Whatever else the client's record lists is not part of the view. */
  datatype View = Absent | Present(rec: ClientRow, entry: Option<bool>, stored: Option<Bytes>)

  /** The flag of a listed file. */
  function EntryOf(files: seq<FileRec>, name: Bytes): (e: Option<bool>) {
    var j := IndexOfFile(files, name);
    if j == |files| then None else Some(files[j].valid)
  }

  function Stored(disk: map<Bytes, Bytes>, path: Bytes): Option<Bytes> {
    if path in disk then Some(disk[path]) else None
  }

  function FilePath(s: Setup): Bytes { PathOf(s.name, s.fileName) }

  function ViewIn(c: ClientRec, disk: map<Bytes, Bytes>, s: Setup): View {
    Present(RowOf(c), EntryOf(c.files, s.fileName), Stored(disk, FilePath(s)))
  }

  function ViewOf(st: State, s: Setup): View {
    var a := IndexOfName(st.clients, s.name);
    if a == |st.clients| then Absent else ViewIn(st.clients[a], st.disk, s)
  }

  /** The record of the client's file. */
  function FileOf(s: Setup, id: Bytes, valid: bool): FileRec {
    FileRec(id, s.fileName, FilePath(s), valid)
  }

  predicate PlainText(name: Bytes) {
    NoZero(name) && ValidUtf8(name) && SLASH !in name && !DirectoryName(name)
  }

  /** A name that has the shortest form of its field and denotes a plain file or folder. */
  predicate GoodNames(s: Setup) {
    PlainText(s.name) && |s.name| <= 100 && PlainText(s.fileName) && |s.fileName| < NAME_SIZE
  }

  lemma FieldIsRead(name: Bytes)
    requires PlainText(name) && |name| <= NAME_SIZE
    ensures TextOf(Field(name)) == Some(name) && |Field(name)| == NAME_SIZE
    ensures SLASH !in Field(name)
  {
    hide ValidUtf8, TextOf;
    FieldRoundTrip(name, NAME_SIZE);
    PadIs(name, NAME_SIZE);
  }

  lemma IndexIs(cs: seq<ClientRec>, a: nat)
    requires ClientsOk(cs) && a < |cs|
    ensures IndexOfName(cs, cs[a].name) == a && IndexOfId(cs, cs[a].id) == a
  {
    hide ClientOk;
  }

  lemma PresentAt(st: State, s: Setup) returns (a: nat)
    requires Inv(st) && ViewOf(st, s).Present?
    ensures a < |st.clients| && st.clients[a].name == s.name && ViewOf(st, s) == ViewIn(st.clients[a], st.disk, s)
    ensures IndexOfName(st.clients, s.name) == a && IndexOfId(st.clients, st.clients[a].id) == a
  {
    a := IndexOfName(st.clients, s.name);
    IndexIs(st.clients, a);
  }

  /** The view of a state in which the client is the a-th. */
  lemma ViewAt(st: State, s: Setup, a: nat)
    requires a < |st.clients| && st.clients[a].name == s.name
    requires forall i :: 0 <= i < a ==> st.clients[i].name != s.name
    ensures ViewOf(st, s) == ViewIn(st.clients[a], st.disk, s)
  {
  }

  // ---- Others ----

  /** A request of another client, or a registration under another name, does not change the view. */
  lemma ViewUntouched(st: State, st': State, s: Setup)
    requires Inv(st) && Inv(st') && ViewOf(st, s).Present?
    requires Untouched(st, st', IndexOfName(st.clients, s.name))
    ensures ViewOf(st', s) == ViewOf(st, s)
  {
    hide Inv, PathOf;
    var a := PresentAt(st, s);
    InvClients(st');
    IndexIs(st'.clients, a);
    assert SameAt(st.disk, st'.disk, PathOf(s.name, s.fileName));
  }

  lemma InvClients(st: State)
    requires Inv(st)
    ensures ClientsOk(st.clients)
  {
  }

  /** Only a registration adds a name, and it adds its own. */
  predicate NamesFrom(cs: seq<ClientRec>, ds: seq<ClientRec>, r: Request) {
    && |cs| <= |ds| <= |cs| + 1
    && (forall i :: 0 <= i < |cs| ==> cs[i].name == ds[i].name)
    && (|ds| == |cs| + 1 ==> r.Register? && TextOf(r.name) == Some(ds[|cs|].name))
  }

  lemma ServeNames(st: State, r: Request, draw: Draw, k: Crypto)
    ensures NamesFrom(st.clients, Serve(st, r, draw, k).st.clients, r)
  {
    hide RegisterClient, ReconnectClient, SetPublicKey, ReceivePacket, ReceiveVerdict, NamesFrom;
    SameNames(st, r);
    match r
    case Packet(_, _, _, _, _, _, _) => PacketNames(st, r, k);
    case Register(_, name) => RegisterNames(st, r, draw);
    case Verdict(_, _, _) => VerdictNames(st, r);
    case Invalid(_) =>
    case _ => KeyNames(st, r, draw, k);
  }

  lemma SameNames(st: State, r: Request)
    ensures NamesFrom(st.clients, st.clients, r)
  {
  }

  lemma RegisterNames(st: State, r: Request, draw: Draw)
    requires r.Register?
    ensures NamesFrom(st.clients, RegisterClient(st, r.name, draw).st.clients, r)
  {
    hide TextOf;
  }

  lemma KeyNames(st: State, r: Request, draw: Draw, k: Crypto)
    requires r.Reconnect? || r.PublicKey?
    ensures NamesFrom(st.clients, Handle(st, r, draw, k).st.clients, r)
  {
    hide TextOf;
  }

  lemma VerdictNames(st: State, r: Request)
    requires r.Verdict?
    ensures NamesFrom(st.clients, ReceiveVerdict(st, r.id, r.code, r.name).st.clients, r)
  {
    hide TextOf, WithoutName;
  }

  lemma PacketNames(st: State, r: Request, k: Crypto)
    requires r.Packet?
    ensures NamesFrom(st.clients, ReceivePacket(st, r, k).st.clients, r)
  {
    hide LastPacket, WritePacket, TextOf, PathOf;
    LastPacketKeepsLists(k);
  }

  lemma LastPacketKeepsLists(k: Crypto)
    ensures forall st: State, i: nat, f: FileRec, n: nat, m: nat {:trigger LastPacket(st, i, f, n, m, k)} ::
              i < |st.clients| ==> LastPacket(st, i, f, n, m, k).st.clients == st.clients
  {
  }

  /** A client that is not listed is listed only by a registration under its own name. */
  lemma AbsentStays(st: State, s: Setup, r: Request, draw: Draw, k: Crypto)
    requires ViewOf(st, s).Absent? && (r.Register? ==> TextOf(r.name) != Some(s.name))
    ensures ViewOf(Serve(st, r, draw, k).st, s).Absent?
  {
    hide Serve, TextOf;
    ServeNames(st, r, draw, k);
    var cs, ds := st.clients, Serve(st, r, draw, k).st.clients;
    var a := IndexOfName(ds, s.name);
    assert a < |ds| ==> ds[a].name == s.name;
  }

  // ---- The client's own requests ----

  lemma RegisterEffect(st: State, s: Setup, r: Request, draw: Draw, k: Crypto)
    requires Inv(st) && r.Register? && Legal(st, r, draw) && TextOf(r.name) == Some(s.name)
    requires ViewOf(st, s).Absent?
    ensures var service := Serve(st, r, draw, k);
            && !service.drained && service.reply == Some(Answer(1600, CLIENT_ID_SIZE, draw.uuid))
            && ViewOf(service.st, s)
               == Present(ClientRow(draw.uuid, s.name, [], []), None, Stored(st.disk, FilePath(s)))
  {
    hide TextOf;
    RegisterKeeps(st, r.name, draw);
    var st' := Serve(st, r, draw, k).st;
    assert IndexOfName(st.clients, s.name) == |st.clients|;
    ViewAt(st', s, |st.clients|);
  }

  lemma PublicKeyEffect(st: State, s: Setup, r: Request, draw: Draw, k: Crypto)
    requires Inv(st) && r.PublicKey? && TextOf(r.name) == Some(s.name)
    requires ViewOf(st, s).Present? && ViewOf(st, s).rec.id == r.id && k.wrap(r.key, draw.aesKey).Some?
    ensures var service, v := Serve(st, r, draw, k), ViewOf(st, s);
            var e := k.wrap(r.key, draw.aesKey).value;
            && !service.drained && service.reply == Some(Answer(1602, CLIENT_ID_SIZE + |e|, r.id + e))
            && ViewOf(service.st, s) == Present(v.rec.(publicKey := r.key, aesKey := draw.aesKey), v.entry, v.stored)
  {
    hide TextOf, Inv;
    var a := PresentAt(st, s);
    var st' := Serve(st, r, draw, k).st;
    ViewAt(st', s, a);
  }

  lemma ReconnectEffect(st: State, s: Setup, r: Request, draw: Draw, k: Crypto)
    requires Inv(st) && r.Reconnect? && TextOf(r.name) == Some(s.name)
    requires ViewOf(st, s).Present? && ViewOf(st, s).rec.id == r.id && k.importable(ViewOf(st, s).rec.publicKey)
    requires k.wrap(ViewOf(st, s).rec.publicKey, draw.aesKey).Some?
    ensures var service, v := Serve(st, r, draw, k), ViewOf(st, s);
            var e := k.wrap(v.rec.publicKey, draw.aesKey).value;
            && !service.drained && service.reply == Some(Answer(1605, CLIENT_ID_SIZE + |e|, r.id + e))
            && ViewOf(service.st, s) == Present(v.rec.(aesKey := draw.aesKey), v.entry, v.stored)
  {
    hide TextOf, Inv;
    var a := PresentAt(st, s);
    var st' := Serve(st, r, draw, k).st;
    ViewAt(st', s, a);
  }

  /** A reconnection is accepted exactly if the key on record can be imported; if not, it is
      refused and nothing changes. */
  lemma ReconnectRefused(st: State, s: Setup, r: Request, draw: Draw, k: Crypto)
    requires Inv(st) && r.Reconnect? && TextOf(r.name) == Some(s.name)
    requires ViewOf(st, s).Present? && ViewOf(st, s).rec.id == r.id
    ensures var service, refused := Serve(st, r, draw, k), Service(st, Some(Answer(1606, CLIENT_ID_SIZE, r.id)), false);
            service == refused <==> !k.importable(ViewOf(st, s).rec.publicKey)
  {
    hide TextOf, Inv, WithAesKey;
    var a := PresentAt(st, s);
  }

  /** So is the reconnection of a client that is not listed. */
  lemma ReconnectUnlisted(st: State, s: Setup, r: Request, draw: Draw, k: Crypto)
    requires r.Reconnect? && TextOf(r.name) == Some(s.name) && ViewOf(st, s).Absent?
    ensures Serve(st, r, draw, k) == Service(st, Some(Answer(1606, CLIENT_ID_SIZE, r.id)), false)
  {
    hide TextOf;
  }

  /** A name that is listed cannot be registered again. */
  lemma RegisterRefused(st: State, s: Setup, r: Request, draw: Draw, k: Crypto)
    requires r.Register? && TextOf(r.name) == Some(s.name) && ViewOf(st, s).Present?
    ensures Serve(st, r, draw, k) == Service(st, Some(Answer(1601, 0, [])), true)
  {
    hide TextOf;
  }

  /** What a packet leaves on disk. */
  function Written(stored: Option<Bytes>, number: nat, content: Bytes): Bytes {
    if number != 1 && stored.Some? then stored.value + content else content
  }

  lemma PacketEffect(st: State, s: Setup, r: Request, draw: Draw, k: Crypto)
    requires Inv(st) && r.Packet? && TextOf(r.name) == Some(s.fileName) && GoodNames(s)
    requires ViewOf(st, s).Present? && ViewOf(st, s).rec.id == r.id
    requires r.number == 1 || ViewOf(st, s).entry == Some(false)
    ensures var service, v := Serve(st, r, draw, k), ViewOf(st, s);
            var written := Written(v.stored, r.number, r.content);
            var plain := k.decrypt(v.rec.aesKey, written);
            var refused := Some(Answer(1607, 0, []));
            if r.number != r.total then
              !service.drained && service.reply == None && ViewOf(service.st, s) == Received(v, written)
            else if plain.None? then
              service.drained && service.reply == refused && ViewOf(service.st, s) == Received(v, written)
            else if |plain.value| != r.origSize then
              service.drained && service.reply == refused && ViewOf(service.st, s) == Received(v, plain.value)
            else
              && !service.drained && service.reply == Some(CrcAnswer(r.id, r.contentSize, s.fileName, plain.value))
              && ViewOf(service.st, s) == Received(v, plain.value)
  {
    hide TextOf, PathOf, CrcAnswer, SetValid, NewFile, KnownFile, WritePacket, LastPacket, EntryOf;
    var a := PresentAt(st, s);
    assert DirectoryName(s.fileName) == false;
    var path := FilePath(s);
    var st1 := st.(disk := WritePacket(st.disk, path, r.number, r.content));
    WrittenIs(st.disk, path, r.number, r.content);
    var files := st.clients[a].files;
    var j := IndexOfFile(files, s.fileName);
    EntryIs(files, s.fileName);
    ViewAt(st, s, a);
    FileIsOwn(st, s, a);
    if j < |files| {
      KnownFileEffect(st1, s, a, j, r, k);
    } else {
      NewRowIsNew(st, a, FileOf(s, r.id, false));
      NewFileEffect(st1, s, a, r, k);
    }
  }

  /** The file is listed as not verified, with this content on disk. */
  function Received(v: View, content: Bytes): View
    requires v.Present?
  {
    Present(v.rec, Some(false), Some(content))
  }

  lemma EntryIs(files: seq<FileRec>, name: Bytes)
    ensures var j := IndexOfFile(files, name);
            EntryOf(files, name) == if j < |files| then Some(files[j].valid) else None
  {
  }

  /** A listed entry of the file is the client's own, at the file's path. */
  lemma FileIsOwn(st: State, s: Setup, a: nat)
    requires Inv(st) && a < |st.clients| && st.clients[a].name == s.name
    ensures var c := st.clients[a];
            var j := IndexOfFile(c.files, s.fileName);
            && (j < |c.files| ==>
                  && c.files[j] == FileOf(s, c.id, c.files[j].valid)
                  && FilePath(s) in st.disk
                  && (forall b :: 0 <= b < |c.files| && b != j ==> c.files[b].name != s.fileName))
            && (j == |c.files| ==> forall b :: 0 <= b < |c.files| ==> c.files[b].name != s.fileName)
  {
    hide PathOf;
    assert ClientOk(st.clients[a]) && FilesOnDisk(st.clients[a], st.disk);
  }

  lemma WrittenIs(disk: map<Bytes, Bytes>, path: Bytes, number: nat, content: Bytes)
    ensures Stored(WritePacket(disk, path, number, content), path) == Some(Written(Stored(disk, path), number, content))
  {
  }

  /** The decryption of the complete file. */
  lemma LastPacketEffect(st: State, s: Setup, a: nat, f: FileRec, r: Request, k: Crypto, written: Bytes)
    requires a < |st.clients| && st.clients[a].id == r.id && r.Packet?
    requires f == FileOf(s, r.id, false) && Stored(st.disk, FilePath(s)) == Some(written)
    ensures var o := LastPacket(st, a, f, r.contentSize, r.origSize, k);
            var plain := k.decrypt(st.clients[a].aesKey, written);
            && o.st.clients == st.clients
            && (o.Raised? <==> plain.None? || |plain.value| != r.origSize)
            && (o.Done? ==> o.reply == Some(CrcAnswer(r.id, r.contentSize, s.fileName, plain.value)))
            && Stored(o.st.disk, FilePath(s)) == if plain.None? then Some(written) else plain
  {
    hide CrcAnswer, PathOf;
  }

  lemma KnownFileEffect(st: State, s: Setup, a: nat, j: nat, r: Request, k: Crypto)
    requires r.Packet? && a < |st.clients| && st.clients[a].name == s.name && st.clients[a].id == r.id
    requires forall i :: 0 <= i < a ==> st.clients[i].name != s.name
    requires var files := st.clients[a].files;
             && j == IndexOfFile(files, s.fileName) < |files| && files[j] == FileOf(s, r.id, files[j].valid)
             && (r.number != 1 ==> !files[j].valid)
    requires Stored(st.disk, FilePath(s)).Some?
    ensures FileEffect(st, s, a, r, k, KnownFile(st, a, j, r, k))
  {
    hide CrcAnswer, PathOf, LastPacket, EntryOf, IndexOfFile;
    var st' := if r.number == 1 then SetValid(st, a, j, false) else st;
    var c := st.clients[a];
    assert st'.clients[a].files == c.files[j := FileOf(s, r.id, false)];
    EntryReplaced(c.files, j, FileOf(s, r.id, false));
    var written := Stored(st.disk, FilePath(s)).value;
    LastPacketEffect(st', s, a, FileOf(s, r.id, false), r, k, written);
    ViewAt(KnownFile(st, a, j, r, k).st, s, a);
  }

  lemma EntryReplaced(files: seq<FileRec>, j: nat, f: FileRec)
    requires j == IndexOfFile(files, f.name) < |files|
    ensures EntryOf(files[j := f], f.name) == Some(f.valid)
  {
    assert files[j := f][j] == f;
    assert forall b :: 0 <= b < j ==> files[j := f][b] == files[b];
  }

  lemma EntryAppended(files: seq<FileRec>, f: FileRec)
    requires IndexOfFile(files, f.name) == |files|
    ensures EntryOf(files + [f], f.name) == Some(f.valid)
  {
    assert (files + [f])[|files|] == f;
    assert forall b :: 0 <= b < |files| ==> (files + [f])[b] == files[b];
  }

  lemma NewFileEffect(st: State, s: Setup, a: nat, r: Request, k: Crypto)
    requires r.Packet? && a < |st.clients| && st.clients[a].name == s.name && st.clients[a].id == r.id
    requires forall i :: 0 <= i < a ==> st.clients[i].name != s.name
    requires IndexOfFile(st.clients[a].files, s.fileName) == |st.clients[a].files|
    requires !HasFileKey(st.fileTable, r.id, s.fileName)
    requires Stored(st.disk, FilePath(s)).Some?
    ensures FileEffect(st, s, a, r, k, NewFile(st, a, FileOf(s, r.id, false), r, k))
  {
    hide CrcAnswer, PathOf, LastPacket, EntryOf, IndexOfFile;
    var f, c := FileOf(s, r.id, false), st.clients[a];
    var st' := Update(st, a, c.(files := c.files + [f])).(fileTable := st.fileTable + [f]);
    EntryAppended(c.files, f);
    var written := Stored(st.disk, FilePath(s)).value;
    LastPacketEffect(st', s, a, f, r, k, written);
    ViewAt(NewFile(st, a, f, r, k).st, s, a);
  }

  /** The outcome of a packet once its content is on disk. */
  ghost predicate FileEffect(st: State, s: Setup, a: nat, r: Request, k: Crypto, o: Outcome)
    requires r.Packet? && a < |st.clients|
    requires Stored(st.disk, FilePath(s)).Some?
  {
    var v := ViewIn(st.clients[a], st.disk, s);
    var plain := k.decrypt(v.rec.aesKey, v.stored.value);
    if r.number != r.total then
      o.Done? && o.reply == None && ViewOf(o.st, s) == Received(v, v.stored.value)
    else if plain.None? then
      o.Raised? && ViewOf(o.st, s) == Received(v, v.stored.value)
    else if |plain.value| != r.origSize then
      o.Raised? && ViewOf(o.st, s) == Received(v, plain.value)
    else
      && o.Done? && o.reply == Some(CrcAnswer(r.id, r.contentSize, s.fileName, plain.value))
      && ViewOf(o.st, s) == Received(v, plain.value)
  }

  lemma VerdictEffect(st: State, s: Setup, r: Request, draw: Draw, k: Crypto)
    requires Inv(st) && r.Verdict? && TextOf(r.name) == Some(s.fileName)
    requires r.code == 900 || r.code == 901
    requires ViewOf(st, s).Present? && ViewOf(st, s).rec.id == r.id && ViewOf(st, s).entry == Some(false)
    ensures var service, v := Serve(st, r, draw, k), ViewOf(st, s);
            && !service.drained
            && service.reply == (if r.code == 900 then Some(ThankYou(r.id)) else None)
            && ViewOf(service.st, s) == Present(v.rec, Some(r.code == 900), v.stored)
  {
    hide TextOf, PathOf, Inv, EntryOf, IndexOfFile;
    var a := PresentAt(st, s);
    var files := st.clients[a].files;
    EntryIs(files, s.fileName);
    var j := IndexOfFile(files, s.fileName);
    EntryReplaced(files, j, files[j].(valid := true));
    var st' := Serve(st, r, draw, k).st;
    ViewAt(st', s, a);
  }

  /** A file to be discarded is gone afterwards, from the list and from the disk; the answer
      depends on the rows left. */
  lemma DiscardEffect(st: State, s: Setup, r: Request, draw: Draw, k: Crypto)
    requires Inv(st) && r.Verdict? && TextOf(r.name) == Some(s.fileName) && r.code == 902
    requires ViewOf(st, s).Present? && ViewOf(st, s).rec.id == r.id
    requires var v := ViewOf(st, s); v.entry == Some(false) || (v.entry == None && v.stored == None)
    ensures var service, v := Serve(st, r, draw, k), ViewOf(st, s);
            && (service.reply == Some(ThankYou(r.id)) || service.reply == Some(Answer(1607, 0, [])))
            && ViewOf(service.st, s) == Present(v.rec, None, None)
  {
    hide TextOf, PathOf, Inv, WithoutName, EntryOf, IndexOfFile;
    var a := PresentAt(st, s);
    var c := st.clients[a];
    EntryIs(c.files, s.fileName);
    FileIsOwn(st, s, a);
    var j := IndexOfFile(c.files, s.fileName);
    var st' := Serve(st, r, draw, k).st;
    if j < |c.files| {
      EntryRemoved(c.files, j, s.fileName);
      assert st'.clients[a] == c.(files := c.files[..j] + c.files[j + 1..]);
    }
    ViewAt(st', s, a);
  }

  lemma EntryRemoved(files: seq<FileRec>, j: nat, name: Bytes)
    requires j < |files| && forall b :: 0 <= b < |files| && b != j ==> files[b].name != name
    ensures EntryOf(files[..j] + files[j + 1..], name) == None
  {
    var left := files[..j] + files[j + 1..];
    assert forall b :: 0 <= b < |left| ==> left[b] == files[if b < j then b else b + 1];
  }

  // ---- The client's other files ----

  lemma EntryElsewhere(files: seq<FileRec>, j: nat, f: FileRec, name: Bytes)
    requires j < |files| && files[j].name == f.name != name
    ensures EntryOf(files[j := f], name) == EntryOf(files, name)
  {
    SameIndex(files, files[j := f], name);
  }

  lemma {:induction false} SameIndex(files: seq<FileRec>, other: seq<FileRec>, name: Bytes)
    requires |files| == |other|
    requires forall b :: 0 <= b < |files| ==>
               files[b].name == other[b].name && (files[b].name == name ==> files[b] == other[b])
    ensures EntryOf(files, name) == EntryOf(other, name) && IndexOfFile(files, name) == IndexOfFile(other, name)
  {
    if files != [] && files[0].name != name {
      SameIndex(files[1..], other[1..], name);
    }
  }

  lemma {:induction false} EntryInserted(files: seq<FileRec>, j: nat, f: FileRec, name: Bytes)
    requires j <= |files| && f.name != name
    ensures EntryOf(files[..j] + [f] + files[j..], name) == EntryOf(files, name)
  {
    var more := files[..j] + [f] + files[j..];
    if j == 0 {
      assert more[1..] == files;
    } else {
      EntryInserted(files[1..], j - 1, f, name);
      assert more[1..] == files[1..][..j - 1] + [f] + files[1..][j - 1..];
    }
  }

  /** A request about one file of a client leaves its other files as they were, listed with the
      same flag and with the same content on disk. */
  lemma OtherFileStays(st: State, s: Setup, r: Request, draw: Draw, k: Crypto)
    requires Inv(st) && (r.Packet? || r.Verdict?) && ViewOf(st, s).Present? && ViewOf(st, s).rec.id == r.id
    requires TextOf(r.name) != Some(s.fileName)
    ensures ViewOf(Serve(st, r, draw, k).st, s) == ViewOf(st, s)
  {
    hide ReceivePacket, ReceiveVerdict;
    if r.Packet? {
      OtherFileOfPacket(st, s, r, k);
    } else {
      OtherFileOfVerdict(st, s, r);
    }
  }

  lemma OtherPath(st: State, s: Setup, a: nat, name: Bytes, disk: map<Bytes, Bytes>)
    requires Inv(st) && a < |st.clients| && st.clients[a].name == s.name && name != s.fileName
    requires DifferAt(st.disk, disk, PathOf(s.name, name))
    ensures Stored(disk, FilePath(s)) == Stored(st.disk, FilePath(s))
  {
    hide PathOf;
    assert ClientOk(st.clients[a]);
    if PathOf(s.name, name) == PathOf(s.name, s.fileName) { PathInjective(s.name, name, s.name, s.fileName); }
    assert SameAt(st.disk, disk, FilePath(s));
  }

  lemma OtherFileOfPacket(st: State, s: Setup, r: Request, k: Crypto)
    requires Inv(st) && r.Packet? && ViewOf(st, s).Present? && ViewOf(st, s).rec.id == r.id
    requires TextOf(r.name) != Some(s.fileName)
    ensures ViewOf(ReceivePacket(st, r, k).st, s) == ViewOf(st, s)
  {
    hide TextOf, PathOf, WritePacket, KnownFile, NewFile, EntryOf, IndexOfFile, Inv;
    var t := TextOf(r.name);
    var a := PresentAt(st, s);
    if t.Some? && !DirectoryName(t.value) {
      var c := st.clients[a];
      var path := PathOf(c.name, t.value);
      var st1 := st.(disk := WritePacket(st.disk, path, r.number, r.content));
      WriteIsolated(st.disk, path, r.number, r.content);
      DifferSelf(st1.disk, path);
      var j := IndexOfFile(c.files, t.value);
      var st' := ReceivePacket(st, r, k).st;
      if j < |c.files| {
        OwnPath(st, a, j);
        OtherOfKnown(st1, s, a, j, r, k);
      } else {
        OtherOfNew(st1, s, a, FileRec(r.id, t.value, path, false), r, k);
      }
      DifferTrans(st.disk, st1.disk, st'.disk, path);
      OtherPath(st, s, a, t.value, st'.disk);
      PacketNames(st, r, k);
      ViewAt(st', s, a);
    }
  }

  lemma OtherOfKnown(st: State, s: Setup, a: nat, j: nat, r: Request, k: Crypto)
    requires r.Packet? && a < |st.clients| && j < |st.clients[a].files| && st.clients[a].files[j].name != s.fileName
    ensures var st', c := KnownFile(st, a, j, r, k).st, st.clients[a];
            && |st'.clients| == |st.clients| && RowOf(st'.clients[a]) == RowOf(c)
            && EntryOf(st'.clients[a].files, s.fileName) == EntryOf(c.files, s.fileName)
            && DifferAt(st.disk, st'.disk, c.files[j].path)
  {
    hide LastPacket, EntryOf, PathOf, WithValid;
    var c := st.clients[a];
    EntryElsewhere(c.files, j, c.files[j].(valid := false), s.fileName);
    var st2 := if r.number == 1 then SetValid(st, a, j, false) else st;
    LastPacketIsolated(st2, a, st2.clients[a].files[j], r.contentSize, r.origSize, k);
    DifferSelf(st.disk, c.files[j].path);
  }

  lemma OtherOfNew(st: State, s: Setup, a: nat, f: FileRec, r: Request, k: Crypto)
    requires r.Packet? && a < |st.clients| && f.name != s.fileName
    ensures var st', c := NewFile(st, a, f, r, k).st, st.clients[a];
            && |st'.clients| == |st.clients| && RowOf(st'.clients[a]) == RowOf(c)
            && EntryOf(st'.clients[a].files, s.fileName) == EntryOf(c.files, s.fileName)
            && DifferAt(st.disk, st'.disk, f.path)
  {
    hide LastPacket, EntryOf, PathOf, HasFileKey;
    var c := st.clients[a];
    EntryInserted(c.files, |c.files|, f, s.fileName);
    assert c.files[..|c.files|] + [f] + c.files[|c.files|..] == c.files + [f];
    var st2 := Update(st, a, c.(files := c.files + [f])).(fileTable := st.fileTable + [f]);
    LastPacketIsolated(st2, a, f, r.contentSize, r.origSize, k);
    DifferSelf(st.disk, f.path);
  }

  lemma DifferSelf(disk: map<Bytes, Bytes>, path: Bytes)
    ensures DifferAt(disk, disk, path)
  {
  }

  lemma OwnPath(st: State, a: nat, j: nat)
    requires Inv(st) && a < |st.clients| && j < |st.clients[a].files|
    ensures st.clients[a].files[j].path == PathOf(st.clients[a].name, st.clients[a].files[j].name)
  {
    assert ClientOk(st.clients[a]);
  }

  lemma OtherFileOfVerdict(st: State, s: Setup, r: Request)
    requires Inv(st) && r.Verdict? && ViewOf(st, s).Present? && ViewOf(st, s).rec.id == r.id
    requires TextOf(r.name) != Some(s.fileName)
    ensures ViewOf(ReceiveVerdict(st, r.id, r.code, r.name).st, s) == ViewOf(st, s)
  {
    hide TextOf, PathOf, EntryOf, IndexOfFile, Inv, WithoutName;
    var t := TextOf(r.name);
    var a := PresentAt(st, s);
    if t.Some? {
      var c := st.clients[a];
      var j := IndexOfFile(c.files, t.value);
      var st' := ReceiveVerdict(st, r.id, r.code, r.name).st;
      if j < |c.files| {
        EntryElsewhere(c.files, j, c.files[j].(valid := true), s.fileName);
        var left := c.files[..j] + c.files[j + 1..];
        EntryInserted(left, j, c.files[j], s.fileName);
        assert left[..j] + [c.files[j]] + left[j..] == c.files;
        OwnPath(st, a, j);
        DifferSelf(st.disk, c.files[j].path);
        DeletedAt(st.disk, c.files[j].path);
        OtherPath(st, s, a, t.value, st.disk - {c.files[j].path});
        ViewAt(st', s, a);
      }
    }
  }

  lemma DeletedAt(disk: map<Bytes, Bytes>, path: Bytes)
    ensures DifferAt(disk, disk - {path}, path)
  {
  }
}
