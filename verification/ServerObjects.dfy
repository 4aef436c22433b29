/** The server as it is written: objects that are updated in place, a database, files on disk and
    connections. Each method is proved to do what the functions of ServerModel say. */
module ServerObjects {
  import opened Octets
  import opened Text
  import opened Wire
  import opened Cryptography
  import opened ServerModel
  import opened AnswerFormat
  import ServerInvariant
  import ServerSync
  import Checksum

  /** One end of a connection: octets that have arrived, and octets that have been sent. */
  class Connection {
    var input: Bytes
    var output: Bytes

    /** Exact reads: fewer octets than asked for never arrive. */
    method Recv(n: nat) returns (s: Bytes)
      requires n <= |input|
      modifies this`input
      ensures s == old(input)[..n] && input == old(input)[n..]
    {
      s := input[..n];
      input := input[n..];
    }

    method RecvNumber(n: nat) returns (x: nat)
      requires n <= |input|
      modifies this`input
      ensures x == NumberOf(old(input)[..n]) && input == old(input)[n..]
    {
      var s := Recv(n);
      x := NumberOf(s);
    }

    method SendAll(s: Bytes)
      modifies this`output
      ensures output == old(output) + s
    {
      output := output + s;
    }

    method SendHeader(code: nat, size: nat)
      modifies this`output
      ensures output == old(output) + AnswerHeader(code, size)
    {
      hide LittleEndian;
      SendAll(LittleEndian(VERSION, 1));
      SendAll(LittleEndian(code, 2));
      SendAll(LittleEndian(size, 4));
      assert output == old(output) + AnswerHeader(code, size);
    }

    method SendAnswer(a: Answer)
      modifies this`output
      ensures output == old(output) + EncodeAnswer(a)
    {
      hide AnswerHeader;
      SendHeader(a.code, a.size);
      SendAll(a.payload);
      assert output == old(output) + EncodeAnswer(a);
    }

    /** The fields of a packet, then as many octets as the header announced beyond them; None for
        a size that is too small. */
    method RecvPacket(id: Bytes, size: nat) returns (p: Option<Request>)
      requires |id| == CLIENT_ID_SIZE && DecodePacket(id, size, input).Read?
      modifies this`input
      ensures var d := DecodePacket(id, size, old(input));
              && (p.None? <==> !d.request.Packet?)
              && (p.Some? ==> p.value == d.request && input == d.rest)
    {
      hide NumberOf;
      ghost var body := input;
      var contentSize := RecvNumber(4);
      var origSize := RecvNumber(4);
      var number := RecvNumber(2);
      var total := RecvNumber(2);
      var name := Recv(NAME_SIZE);
      FieldSlices(body);
      if size < PACKET_FIELDS_SIZE { return None; }
      var content := Recv(size - PACKET_FIELDS_SIZE);
      ContentSlices(body, size);
      p := Some(Packet(id, contentSize, origSize, number, total, name, content));
    }

    /** `clean_buffer` */
    method Clean()
      modifies this`input
      ensures input == []
    {
      while input != []
        decreases |input|
      {
        input := input[if |input| < 4096 then |input| else 4096..];
      }
    }
  }

  /** The two tables; a failed insertion or deletion is an exception in the original. */
  class Database {
    var clients: seq<ClientRow>
    var files: seq<FileRec>

    constructor ()
      ensures clients == [] && files == []
    {
      clients, files := [], [];
    }

    method AddClient(row: ClientRow) returns (ok: bool)
      modifies this`clients
      ensures ok <==> !HasClientKey(old(clients), row.id)
      ensures clients == if ok then old(clients) + [row] else old(clients)
    {
      ok := !HasClientKey(clients, row.id);
      if ok { clients := clients + [row]; }
    }

    method AddFile(row: FileRec) returns (ok: bool)
      modifies this`files
      ensures ok <==> !HasFileKey(old(files), row.owner, row.name)
      ensures files == if ok then old(files) + [row] else old(files)
    {
      ok := !HasFileKey(files, row.owner, row.name);
      if ok { files := files + [row]; }
    }

    method SetAesKey(key: Bytes, id: Bytes)
      modifies this`clients
      ensures clients == WithAesKey(old(clients), id, key)
    {
      clients := WithAesKey(clients, id, key);
    }

    method SetPublicKey(key: Bytes, id: Bytes)
      modifies this`clients
      ensures clients == WithPublicKey(old(clients), id, key)
    {
      clients := WithPublicKey(clients, id, key);
    }

    method SetValidCrc(id: Bytes, valid: bool)
      modifies this`files
      ensures |files| == |old(files)|
      ensures forall r :: 0 <= r < |files| ==>
                files[r] == if old(files)[r].owner == id then old(files)[r].(valid := valid) else old(files)[r]
      ensures files == WithValid(old(files), id, valid)
    {
      ServerInvariant.WithValidAt(files, id, valid);
      files := WithValid(files, id, valid);
    }

    /** Fails, as the original raises an exception, if no row of the name was there. */
    method DeleteFile(name: Bytes) returns (ok: bool)
      modifies this`files
      ensures ServerInvariant.OnlyWithout(old(files), files, name)
      ensures ok <==> exists r :: 0 <= r < |old(files)| && old(files)[r].name == name
      ensures files == WithoutName(old(files), name) && (ok <==> |files| < |old(files)|)
    {
      var left := WithoutName(files, name);
      ok := |left| < |files|;
      ServerInvariant.WithoutNameIsOnly(files, name);
      ServerSync.WithoutNameSame(files, name);
      files := left;
    }
  }

  class ClientObject {
    const id: Bytes
    const name: Bytes
    var publicKey: Bytes
    var aesKey: Bytes
    var files: seq<FileRec>

    constructor (row: ClientRow)
      ensures id == row.id && name == row.name && publicKey == row.publicKey && aesKey == row.aesKey && files == []
    {
      id, name, publicKey, aesKey, files := row.id, row.name, row.publicKey, row.aesKey, [];
    }

    ghost function Rec(): ClientRec
      reads this
    {
      ClientRec(id, name, publicKey, aesKey, files)
    }
  }

  ghost function ClientRecs(cs: seq<ClientObject>): (r: seq<ClientRec>)
    reads cs
    ensures |r| == |cs| && forall i :: 0 <= i < |cs| ==> r[i] == cs[i].Rec()
  {
    if cs == [] then [] else [cs[0].Rec()] + ClientRecs(cs[1..])
  }

  lemma AppendedRecs(cs: seq<ClientObject>, c: ClientObject)
    ensures ClientRecs(cs + [c]) == ClientRecs(cs) + [c.Rec()]
  {
  }

  class Server {
    var clients: seq<ClientObject>
    var disk: map<Bytes, Bytes>
    const db: Database

    /** No client is listed twice. */
    ghost predicate Valid()
      reads this, clients
    {
      forall i, j :: 0 <= i < j < |clients| ==> clients[i] != clients[j]
    }

    ghost function Abs(): State
      reads this, db, clients
    {
      State(ClientRecs(clients), db.clients, db.files, disk)
    }

    constructor ()
      ensures Valid() && Abs() == Initial(map[])
    {
      clients, disk := [], map[];
      db := new Database();
    }

    method FindByName(name: Bytes) returns (i: nat)
      ensures i == IndexOfName(ClientRecs(clients), name)
    {
      i := 0;
      while i < |clients| && clients[i].name != name
        invariant i <= |clients|
        invariant forall j :: 0 <= j < i ==> clients[j].name != name
      {
        i := i + 1;
      }
      assert forall j :: 0 <= j < |clients| ==> ClientRecs(clients)[j].name == clients[j].name;
    }

    method FindById(id: Bytes) returns (i: nat)
      ensures i == IndexOfId(ClientRecs(clients), id)
    {
      i := 0;
      while i < |clients| && clients[i].id != id
        invariant i <= |clients|
        invariant forall j :: 0 <= j < i ==> clients[j].id != id
      {
        i := i + 1;
      }
      assert forall j :: 0 <= j < |clients| ==> ClientRecs(clients)[j].id == clients[j].id;
    }

    method FindFile(c: ClientObject, name: Bytes) returns (j: nat)
      ensures j == IndexOfFile(c.files, name)
    {
      j := 0;
      while j < |c.files| && c.files[j].name != name
        invariant j <= |c.files|
        invariant forall l :: 0 <= l < j ==> c.files[l].name != name
      {
        j := j + 1;
      }
    }

    // ---- Handlers; each says whether it finished or raised an exception ----

    /** 825 */
    method RegistrationRequest(conn: Connection, draw: Draw) returns (ok: bool)
      requires Valid() && NAME_SIZE <= |conn.input|
      modifies this`clients, db`clients, conn
      ensures Valid()
      ensures conn.input == old(conn.input)[NAME_SIZE..]
      ensures Performs(RegisterClient(old(Abs()), old(conn.input)[..NAME_SIZE], draw), ok, conn, old(conn.output))
    {
      hide ClientRecs, TextOf, EncodeAnswer, AnswerHeader, HasClientKey, IndexOfName;
      ghost var before := Abs();
      var field := conn.Recv(NAME_SIZE);
      assert Abs() == before;
      ghost var o := RegisterClient(before, field, draw);
      var t := TextOf(field);
      if t.None? { return false; }
      var i := FindByName(t.value);
      if i < |clients| { return false; }
      ok := AddClient(ClientRow(draw.uuid, t.value, [], []));
      assert Abs() == o.st && ok == o.Done?;
      if !ok { return; }
      conn.SendAnswer(Answer(1600, CLIENT_ID_SIZE, draw.uuid));
      assert Abs() == o.st;
    }

    method AddClient(row: ClientRow) returns (ok: bool)
      requires Valid()
      modifies this`clients, db`clients
      ensures Valid()
      ensures ok == !HasClientKey(old(db.clients), row.id)
      ensures ClientRecs(clients)
           == old(ClientRecs(clients)) + [ClientRec(row.id, row.name, row.publicKey, row.aesKey, [])]
      ensures db.clients == if ok then old(db.clients) + [row] else old(db.clients)
    {
      hide ClientRecs, HasClientKey;
      var c := new ClientObject(row);
      AppendedRecs(clients, c);
      clients := clients + [c];
      ok := db.AddClient(row);
    }

    /** The state and the output after a handler are what its function says. */
    ghost predicate Performs(o: Outcome, ok: bool, conn: Connection, output: Bytes)
      reads this, db, clients, conn
    {
      && ok == o.Done? && Abs() == o.st
      && conn.output == Sent(output, if o.Done? then o.reply else None)
    }

    method StoreAesKey(i: nat, key: Bytes)
      requires Valid() && i < |clients|
      modifies clients, db`clients
      ensures Valid()
      ensures var before := old(Abs());
              Abs() == Update(before, i, before.clients[i].(aesKey := key))
                       .(clientTable := WithAesKey(before.clientTable, before.clients[i].id, key))
    {
      hide ClientRecs, WithAesKey;
      var c := clients[i];
      c.aesKey := key;
      db.SetAesKey(key, c.id);
      assert ClientRecs(clients) == old(ClientRecs(clients))[i := old(c.Rec()).(aesKey := key)];
    }

    method StorePublicKey(i: nat, key: Bytes)
      requires Valid() && i < |clients|
      modifies clients, db`clients
      ensures Valid()
      ensures var before := old(Abs());
              Abs() == Update(before, i, before.clients[i].(publicKey := key))
                       .(clientTable := WithPublicKey(before.clientTable, before.clients[i].id, key))
    {
      hide ClientRecs, WithPublicKey;
      var c := clients[i];
      c.publicKey := key;
      db.SetPublicKey(key, c.id);
      assert ClientRecs(clients) == old(ClientRecs(clients))[i := old(c.Rec()).(publicKey := key)];
    }

    /** `create_send_aes` */
    method CreateSendAes(conn: Connection, i: nat, key: Bytes, code: nat, k: Crypto) returns (ok: bool)
      requires Valid() && i < |clients|
      modifies clients, db`clients, conn`output
      ensures Valid()
      ensures Performs(SendAes(old(Abs()), i, key, code, k), ok, conn, old(conn.output))
    {
      hide ClientRecs, EncodeAnswer, WithAesKey;
      ghost var o := SendAes(Abs(), i, key, code, k);
      StoreAesKey(i, key);
      assert Abs() == o.st;
      var c := clients[i];
      var e := k.wrap(c.publicKey, key);
      if e.None? { return false; }
      conn.SendAnswer(Answer(code, CLIENT_ID_SIZE + |e.value|, c.id + e.value));
      ok := true;
      assert Abs() == o.st;
    }

    /** 827 */
    method ReconnectionRequest(conn: Connection, id: Bytes, draw: Draw, k: Crypto) returns (ok: bool)
      requires Valid() && NAME_SIZE <= |conn.input|
      modifies clients, db`clients, conn
      ensures Valid()
      ensures conn.input == old(conn.input)[NAME_SIZE..]
      ensures var field := old(conn.input)[..NAME_SIZE];
              Performs(ReconnectClient(old(Abs()), id, field, draw, k), ok, conn, old(conn.output))
    {
      hide ClientRecs, TextOf, EncodeAnswer, IndexOfName, SendAes;
      ghost var before := Abs();
      var field := conn.Recv(NAME_SIZE);
      assert Abs() == before;
      ghost var o := ReconnectClient(before, id, field, draw, k);
      var t := TextOf(field);
      if t.None? { return false; }
      var i := FindByName(t.value);
      ok := true;
      if i == |clients| {
        conn.SendAnswer(Answer(1606, CLIENT_ID_SIZE, id));
      } else if clients[i].id != id {
        ok := false;
      } else if !k.importable(clients[i].publicKey) {
        conn.SendAnswer(Answer(1606, CLIENT_ID_SIZE, clients[i].id));
      } else {
        ok := CreateSendAes(conn, i, draw.aesKey, 1605, k);
      }
      assert Abs() == o.st;
    }

    /** 826: the key is read only for a client that is listed under the name and the identifier;
        otherwise the rest of the input is discarded anyway. */
    method SendPublicKeyRequest(conn: Connection, id: Bytes, draw: Draw, k: Crypto) returns (ok: bool)
      requires Valid() && NAME_SIZE + PUBLIC_KEY_SIZE <= |conn.input|
      modifies clients, db`clients, conn
      ensures Valid()
      ensures ok ==> conn.input == old(conn.input)[NAME_SIZE + PUBLIC_KEY_SIZE..]
      ensures var field, key := old(conn.input)[..NAME_SIZE], old(conn.input)[NAME_SIZE..NAME_SIZE + PUBLIC_KEY_SIZE];
              Performs(SetPublicKey(old(Abs()), id, field, key, draw, k), ok, conn, old(conn.output))
    {
      hide ClientRecs, TextOf, EncodeAnswer, IndexOfName, SendAes, WithPublicKey;
      ghost var before, input := Abs(), conn.input;
      var field := conn.Recv(NAME_SIZE);
      assert Abs() == before;
      var t := TextOf(field);
      if t.None? { return false; }
      var i := FindByName(t.value);
      if i == |clients| || clients[i].id != id { return false; }
      var key := conn.Recv(PUBLIC_KEY_SIZE);
      assert Abs() == before;
      assert key == input[NAME_SIZE..NAME_SIZE + PUBLIC_KEY_SIZE];
      StorePublicKey(i, key);
      ok := CreateSendAes(conn, i, draw.aesKey, 1602, k);
    }

    /** `last_packet` */
    method LastPacketReceived(conn: Connection, i: nat, f: FileRec, contentSize: nat, origSize: nat, k: Crypto)
      returns (ok: bool)
      requires Valid() && i < |clients|
      modifies this`disk, conn`output
      ensures Valid()
      ensures Performs(LastPacket(old(Abs()), i, f, contentSize, origSize, k), ok, conn, old(conn.output))
    {
      hide ClientRecs, EncodeAnswer, Checksum.Cksum, Pad, LittleEndian;
      ghost var o := LastPacket(Abs(), i, f, contentSize, origSize, k);
      if f.path !in disk { return false; }
      var plain := k.decrypt(clients[i].aesKey, disk[f.path]);
      if plain.None? { return false; }
      disk := disk[f.path := plain.value];
      assert Abs() == o.st;
      if |plain.value| != origSize { return false; }
      var crc := Checksum.MemcrcServer(plain.value);
      conn.SendAnswer(Answer(1603, CLIENT_ID_SIZE + 4 + NAME_SIZE + 4,
                             clients[i].id + LittleEndian(contentSize, 4) + Pad(f.name, NAME_SIZE)
                             + LittleEndian(crc, 4)));
      ok := true;
      assert Abs() == o.st;
    }

    /** The flag in memory, and of all the client's files in the table. */
    method MarkValid(i: nat, j: nat, valid: bool)
      requires Valid() && i < |clients| && j < |clients[i].files|
      modifies clients, db`files
      ensures Valid()
      ensures Abs() == SetValid(old(Abs()), i, j, valid)
    {
      hide ClientRecs, WithValid;
      var c := clients[i];
      c.files := c.files[j := c.files[j].(valid := valid)];
      db.SetValidCrc(c.id, valid);
      assert ClientRecs(clients) == old(ClientRecs(clients))[i := old(c.Rec()).(files := c.files)];
    }

    method AddFile(i: nat, f: FileRec) returns (ok: bool)
      requires Valid() && i < |clients|
      modifies clients, db`files
      ensures Valid()
      ensures ok == !HasFileKey(old(db.files), f.owner, f.name)
      ensures var before := old(Abs());
              Abs() == if !ok then before
                       else Update(before, i, before.clients[i].(files := before.clients[i].files + [f]))
                            .(fileTable := before.fileTable + [f])
    {
      hide ClientRecs, HasFileKey;
      ok := db.AddFile(f);
      if ok {
        var c := clients[i];
        c.files := c.files + [f];
        assert ClientRecs(clients) == old(ClientRecs(clients))[i := old(c.Rec()).(files := c.files)];
      }
    }

    method AppendToFile(path: Bytes, number: nat, content: Bytes)
      requires Valid()
      modifies this`disk
      ensures Valid()
      ensures Abs() == old(Abs()).(disk := WritePacket(old(disk), path, number, content))
    {
      if number == 1 {
        disk := disk[path := content];
      } else {
        disk := disk[path := if path in disk then disk[path] + content else content];
      }
    }

    method PacketOfKnownFile(conn: Connection, i: nat, j: nat, r: Request, k: Crypto) returns (ok: bool)
      requires Valid() && r.Packet? && i < |clients| && j < |clients[i].files|
      modifies this`disk, clients, db`files, conn`output
      ensures Valid()
      ensures Performs(KnownFile(old(Abs()), i, j, r, k), ok, conn, old(conn.output))
    {
      hide ClientRecs, EncodeAnswer, SetValid, LastPacket;
      if r.number == 1 { MarkValid(i, j, false); }
      ok := true;
      if r.number == r.total {
        ok := LastPacketReceived(conn, i, clients[i].files[j], r.contentSize, r.origSize, k);
      }
    }

    method PacketOfNewFile(conn: Connection, i: nat, f: FileRec, r: Request, k: Crypto) returns (ok: bool)
      requires Valid() && r.Packet? && i < |clients|
      modifies this`disk, clients, db`files, conn`output
      ensures Valid()
      ensures Performs(NewFile(old(Abs()), i, f, r, k), ok, conn, old(conn.output))
    {
      hide ClientRecs, EncodeAnswer, HasFileKey, LastPacket;
      ok := AddFile(i, f);
      if ok && r.number == r.total {
        ok := LastPacketReceived(conn, i, f, r.contentSize, r.origSize, k);
      }
    }

    /** 828, once the packet has been read */
    method SendFileRequest(conn: Connection, r: Request, k: Crypto) returns (ok: bool)
      requires Valid() && r.Packet?
      modifies this`disk, clients, db`files, conn`output
      ensures Valid()
      ensures Performs(ReceivePacket(old(Abs()), r, k), ok, conn, old(conn.output))
    {
      hide ClientRecs, EncodeAnswer, WritePacket, KnownFile, NewFile, TextOf, IndexOfId, IndexOfFile, PathOf;
      hide HasFileKey;
      var t := TextOf(r.name);
      if t.None? { return false; }
      var i := FindById(r.id);
      if i == |clients| || DirectoryName(t.value) { return false; }
      var path := PathOf(clients[i].name, t.value);
      AppendToFile(path, r.number, r.content);
      var j := FindFile(clients[i], t.value);
      if j < |clients[i].files| {
        ok := PacketOfKnownFile(conn, i, j, r, k);
      } else if r.number != 1 {
        ok := false;
      } else {
        ok := PacketOfNewFile(conn, i, FileRec(r.id, t.value, path, false), r, k);
      }
    }

    /** The file leaves the disk, then the list, then the table. */
    method RemoveFile(conn: Connection, i: nat, j: nat) returns (ok: bool)
      requires Valid() && i < |clients| && j < |clients[i].files|
      modifies this`disk, clients, db`files, conn`output
      ensures Valid()
      ensures Performs(DeleteFile(old(Abs()), i, j), ok, conn, old(conn.output))
    {
      hide ClientRecs, EncodeAnswer, WithoutName;
      ghost var o := DeleteFile(Abs(), i, j);
      var c := clients[i];
      var f := c.files[j];
      if f.path !in disk { return false; }
      disk := disk - {f.path};
      c.files := c.files[..j] + c.files[j + 1..];
      assert ClientRecs(clients) == old(ClientRecs(clients))[i := old(c.Rec()).(files := c.files)];
      ok := db.DeleteFile(f.name);
      ServerInvariant.NothingDeleted(old(db.files), f.name);
      assert Abs() == o.st;
      if ok { conn.SendAnswer(ThankYou(c.id)); }
    }

    /** 900, 901 and 902 */
    method CrcResponse(conn: Connection, id: Bytes, code: nat) returns (ok: bool)
      requires Valid() && NAME_SIZE <= |conn.input|
      modifies this`disk, clients, db`files, conn
      ensures Valid()
      ensures conn.input == old(conn.input)[NAME_SIZE..]
      ensures Performs(ReceiveVerdict(old(Abs()), id, code, old(conn.input)[..NAME_SIZE]), ok, conn, old(conn.output))
    {
      hide ClientRecs, EncodeAnswer, TextOf, IndexOfId, IndexOfFile, SetValid, DeleteFile;
      ghost var before := Abs();
      var field := conn.Recv(NAME_SIZE);
      assert Abs() == before;
      var t := TextOf(field);
      if t.None? { return false; }
      var i := FindById(id);
      if i == |clients| { return false; }
      var j := FindFile(clients[i], t.value);
      if j == |clients[i].files| || clients[i].files[j].valid { return false; }
      ok := true;
      if code == 900 {
        MarkValid(i, j, true);
        conn.SendAnswer(ThankYou(id));
        assert Abs() == SetValid(before, i, j, true);
      }
      if code == 902 {
        ok := RemoveFile(conn, i, j);
      }
    }

    // ---- One request ----

    ghost predicate Serves(before: State, r: Request, rest: Bytes, draw: Draw, k: Crypto,
                           conn: Connection, output: Bytes)
      reads this, db, clients, conn
    {
      var service := Serve(before, r, draw, k);
      && Abs() == service.st
      && conn.output == Sent(output, service.reply)
      && conn.input == if service.drained then [] else rest
    }

    /** `read`: a request is read from the connection and served; an error is answered after the
        pending input has been discarded. An empty input means that the client has ended. */
    method Read(conn: Connection, draw: Draw, k: Crypto) returns (closed: bool)
      requires Valid() && !Decode(conn.input).Incomplete?
      modifies this`clients, this`disk, clients, db, conn
      ensures Valid()
      ensures closed <==> old(conn.input) == []
      ensures closed ==> Abs() == old(Abs()) && conn.output == old(conn.output)
      ensures !closed ==>
                var d := Decode(old(conn.input));
                d.Read? && Serves(old(Abs()), d.request, d.rest, draw, k, conn, old(conn.output))
    {
      hide ClientRecs, NumberOf, EncodeAnswer, Handle, DecodeBody;
      ghost var before, s := Abs(), conn.input;
      if conn.input == [] { return true; }
      closed := false;
      var id := conn.Recv(CLIENT_ID_SIZE);
      var version := conn.RecvNumber(1);
      var code := conn.RecvNumber(2);
      var size := conn.RecvNumber(4);
      HeaderSlices(s);
      assert Abs() == before;
      HeaderDecoded(s);
      hide Decode;
      if version != VERSION {
        RaisedIsRefused(before, Invalid(id), draw, k);
        Refuse(conn, 1607);
      } else {
        Dispatch(conn, id, code, size, draw, k);
      }
    }

    method Refuse(conn: Connection, code: nat)
      modifies conn
      ensures conn.input == [] && conn.output == old(conn.output) + EncodeAnswer(Answer(code, 0, []))
    {
      conn.Clean();
      conn.SendAnswer(Answer(code, 0, []));
    }

    /** What follows the header, by request code. */
    method Dispatch(conn: Connection, id: Bytes, code: nat, size: nat, draw: Draw, k: Crypto)
      requires Valid() && |id| == CLIENT_ID_SIZE && DecodeBody(id, code, size, conn.input).Read?
      modifies this`clients, this`disk, clients, db, conn
      ensures Valid()
      ensures var d := DecodeBody(id, code, size, old(conn.input));
              Serves(old(Abs()), d.request, d.rest, draw, k, conn, old(conn.output))
    {
      hide ClientRecs, EncodeAnswer, DecodeBody, Handle;
      var ok := HandleRequest(conn, id, code, size, draw, k);
      if !ok { Refuse(conn, if code == 825 then 1601 else 1607); }
    }

    method HandleRequest(conn: Connection, id: Bytes, code: nat, size: nat, draw: Draw, k: Crypto) returns (ok: bool)
      requires Valid() && |id| == CLIENT_ID_SIZE && DecodeBody(id, code, size, conn.input).Read?
      modifies this`clients, this`disk, clients, db, conn
      ensures Valid()
      ensures var d := DecodeBody(id, code, size, old(conn.input));
              && (ok ==> conn.input == d.rest)
              && Performs(Handle(old(Abs()), d.request, draw, k), ok, conn, old(conn.output))
    {
      hide ClientRecs, NumberOf, EncodeAnswer, DecodePacket, RegisterClient, ReconnectClient, SetPublicKey;
      hide ReceivePacket, ReceiveVerdict;
      if code == 825 {
        ok := RegistrationRequest(conn, draw);
      } else if code == 827 {
        ok := ReconnectionRequest(conn, id, draw, k);
      } else if code == 826 {
        ok := SendPublicKeyRequest(conn, id, draw, k);
      } else if code == 828 {
        ok := PacketRequest(conn, id, size, k);
      } else if code == 900 || code == 901 || code == 902 {
        ok := CrcResponse(conn, id, code);
      } else {
        ok := false;
      }
    }

    /** 828, from the connection */
    method PacketRequest(conn: Connection, id: Bytes, size: nat, k: Crypto) returns (ok: bool)
      requires Valid() && |id| == CLIENT_ID_SIZE && DecodePacket(id, size, conn.input).Read?
      modifies this`disk, clients, db`files, conn
      ensures Valid()
      ensures var d := DecodePacket(id, size, old(conn.input));
              && (ok ==> conn.input == d.rest)
              && Performs(if d.request.Packet? then ReceivePacket(old(Abs()), d.request, k) else Raised(old(Abs())),
                          ok, conn, old(conn.output))
    {
      hide ClientRecs, EncodeAnswer, ReceivePacket;
      ghost var before := Abs();
      var p := conn.RecvPacket(id, size);
      assert Abs() == before;
      if p.None? { return false; }
      ok := SendFileRequest(conn, p.value, k);
    }

    // ---- Start and restart ----

    /** `data_base_handle`: the lists are rebuilt from the tables. */
    constructor Restarted(database: Database, files: map<Bytes, Bytes>)
      ensures Valid() && db == database && disk == files
      ensures Abs() == Restart(State([], database.clients, database.files, files))
    {
      hide FilesOf;
      clients, disk, db := [], files, database;
      new;
      var i := 0;
      while i < |db.clients|
        invariant i <= |db.clients| && Valid() && |clients| == i && unchanged(db)
        invariant disk == files && db == database
        invariant forall j :: 0 <= j < i ==> fresh(clients[j])
        invariant forall j :: 0 <= j < i ==> RowFor(clients[j]) == db.clients[j] && clients[j].files == []
      {
        var c := new ClientObject(db.clients[i]);
        clients := clients + [c];
        i := i + 1;
      }
      AddFiles();
      ReloadIs(ClientRecs(clients), db.clients, db.files);
    }

    /** Every row goes to the clients with its identifier. */
    method AddFiles()
      requires Valid() && forall j :: 0 <= j < |clients| ==> clients[j].files == []
      modifies clients
      ensures Valid()
      ensures forall j :: 0 <= j < |clients| ==>
                && RowFor(clients[j]) == old(RowFor(clients[j]))
                && clients[j].files == FilesOf(db.files, clients[j].id)
    {
      var r := 0;
      while r < |db.files|
        invariant r <= |db.files|
        invariant forall j :: 0 <= j < |clients| ==>
                    && RowFor(clients[j]) == old(RowFor(clients[j]))
                    && clients[j].files == FilesOf(db.files[..r], clients[j].id)
      {
        var row := db.files[r];
        ghost var rows := db.files[..r];
        assert db.files[..r + 1] == rows + [row];
        var i := 0;
        while i < |clients|
          invariant i <= |clients|
          invariant forall j :: 0 <= j < |clients| ==>
                      && RowFor(clients[j]) == old(RowFor(clients[j]))
                      && clients[j].files == FilesOf(if j < i then rows + [row] else rows, clients[j].id)
        {
          ServerSync.FilesOfAppend(rows, row, clients[i].id);
          if clients[i].id == row.owner { clients[i].files := clients[i].files + [row]; }
          i := i + 1;
        }
        r := r + 1;
      }
      assert db.files[..|db.files|] == db.files;
    }
  }

  function RowFor(c: ClientObject): ClientRow
    reads c
  {
    ClientRow(c.id, c.name, c.publicKey, c.aesKey)
  }

  lemma {:induction false} ReloadIs(cs: seq<ClientRec>, rows: seq<ClientRow>, files: seq<FileRec>)
    requires |cs| == |rows|
    requires forall i :: 0 <= i < |cs| ==>
               var row := rows[i];
               cs[i] == ClientRec(row.id, row.name, row.publicKey, row.aesKey, FilesOf(files, row.id))
    ensures cs == Reload(rows, files)
  {
    hide FilesOf;
    if cs != [] {
      ReloadIs(cs[1..], rows[1..], files);
      assert cs == [cs[0]] + cs[1..];
    }
  }

  lemma HeaderSlices(s: Bytes)
    requires |s| >= 23
    ensures s[16..][..1] == s[16..17] && s[16..][1..][..2] == s[17..19] && s[16..][1..][2..][..4] == s[19..23]
    ensures s[16..][1..][2..][4..] == s[23..]
  {
  }

  /** The parser's first steps. */
  lemma HeaderDecoded(s: Bytes)
    requires s != [] && !Decode(s).Incomplete?
    ensures |s| >= 23
    ensures Decode(s) == if NumberOf(s[16..17]) != VERSION then Decoded.Read(Invalid(s[..16]), s[23..])
                         else DecodeBody(s[..16], NumberOf(s[17..19]), NumberOf(s[19..23]), s[23..])
  {
    hide NumberOf, DecodeBody;
  }

  lemma FieldSlices(s: Bytes)
    requires |s| >= 267
    ensures s[4..][..4] == s[4..8] && |s[4..][4..][2..][2..]| >= 255
    ensures s[4..][4..][..2] == s[8..10] && s[4..][4..][2..][..2] == s[10..12]
    ensures s[4..][4..][2..][2..][..255] == s[12..267] && s[4..][4..][2..][2..][255..] == s[267..]
  {
  }

  lemma ContentSlices(s: Bytes, size: nat)
    requires 267 <= size <= |s|
    ensures s[267..][..size - 267] == s[267..size] && s[267..][size - 267..] == s[size..]
  {
  }

  lemma RaisedIsRefused(st: State, r: Request, draw: Draw, k: Crypto)
    requires r.Invalid?
    ensures Serve(st, r, draw, k) == Service(st, Some(Answer(1607, 0, [])), true)
  {
  }

  /** What has been sent after an answer, or none. */
  function Sent(output: Bytes, reply: Option<Answer>): (s: Bytes)
    ensures s == output + ReplyOctets(reply)
  {
    match reply
    case None => assert output + [] == output; output
    case Some(a) => output + EncodeAnswer(a)
  }
}
