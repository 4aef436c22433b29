/** What every reachable server state satisfies, whatever requests arrive and however they end,
    and across restarts. */
module ServerInvariant {
  import opened Octets
  import opened Text
  import opened Wire
  import opened Cryptography
  import opened ServerModel

  // ---- The invariant ----

  /** A client's files have different names, and each knows its owner and its path. */
  ghost predicate FilesOk(c: ClientRec) {
    && (forall a, b :: 0 <= a < b < |c.files| ==> c.files[a].name != c.files[b].name)
    && (forall a :: 0 <= a < |c.files| ==>
          && c.files[a].owner == c.id
          && c.files[a].path == PathOf(c.name, c.files[a].name)
          && |c.files[a].name| <= NAME_SIZE)
  }

  ghost predicate ClientOk(c: ClientRec) {
    |c.id| == CLIENT_ID_SIZE && SLASH !in c.name && FilesOk(c)
  }

  ghost predicate ClientsOk(cs: seq<ClientRec>) {
    && (forall i, j :: 0 <= i < j < |cs| ==> cs[i].id != cs[j].id)
    && (forall i, j :: 0 <= i < j < |cs| ==> cs[i].name != cs[j].name)
    && (forall i :: 0 <= i < |cs| ==> ClientOk(cs[i]))
  }

  ghost predicate FilesOnDisk(c: ClientRec, disk: map<Bytes, Bytes>) {
    forall a :: 0 <= a < |c.files| ==> c.files[a].path in disk
  }

  ghost predicate OnDisk(cs: seq<ClientRec>, disk: map<Bytes, Bytes>) {
    forall i :: 0 <= i < |cs| ==> FilesOnDisk(cs[i], disk)
  }

  function RowOf(c: ClientRec): ClientRow {
    ClientRow(c.id, c.name, c.publicKey, c.aesKey)
  }

  /** The clients table lists the clients in memory, in the same order. */
  ghost predicate ClientTableOk(cs: seq<ClientRec>, rows: seq<ClientRow>) {
    |rows| == |cs| && forall i :: 0 <= i < |cs| ==> rows[i] == RowOf(cs[i])
  }

  /** The row belongs to a file in memory; its flag may differ. */
  ghost predicate Listed(cs: seq<ClientRec>, row: FileRec) {
    exists i, j ::
      0 <= i < |cs| && 0 <= j < |cs[i].files| && SameFile(cs[i].files[j], row)
  }

  predicate SameFile(f: FileRec, row: FileRec) {
    f.owner == row.owner && f.name == row.name && f.path == row.path
  }

  ghost predicate FileTableOk(cs: seq<ClientRec>, rows: seq<FileRec>) {
    && (forall r :: 0 <= r < |rows| ==> Listed(cs, rows[r]))
    && UniqueKeys(rows)
  }

  ghost predicate Inv(st: State) {
    && ClientsOk(st.clients)
    && OnDisk(st.clients, st.disk)
    && ClientTableOk(st.clients, st.clientTable)
    && FileTableOk(st.clients, st.fileTable)
  }

  /** A name that is a plain component of a path: no separator, and not a directory itself. */
  predicate PlainName(field: Bytes) {
    SLASH !in field && (TextOf(field).Some? ==> !DirectoryName(TextOf(field).value))
  }

  /** A request as it is read from a stream; a registration draws a new identifier. Names of
      clients and files are plain. */
  ghost predicate Legal(st: State, r: Request, draw: Draw) {
    && Readable(r)
    && (r.Packet? ==> SLASH !in r.name)
    && (r.Register? ==>
          && PlainName(r.name)
          && |draw.uuid| == CLIENT_ID_SIZE
          && (forall i :: 0 <= i < |st.clients| ==> st.clients[i].id != draw.uuid))
  }

  // ---- Paths ----

  /** Different clients, or different files, have different paths. */
  lemma PathInjective(c: Bytes, f: Bytes, d: Bytes, g: Bytes)
    requires SLASH !in c && SLASH !in d && PathOf(c, f) == PathOf(d, g)
    ensures c == d && f == g
  {
    hide PathOf;
    TailOfPath(c, f);
    TailOfPath(d, g);
    SlashSplit(c, f, d, g);
  }

  lemma TailOfPath(c: Bytes, f: Bytes)
    ensures |PathOf(c, f)| >= |FOLDER| + 1 && PathOf(c, f)[|FOLDER| + 1..] == c + [SLASH] + f
  {
    assert PathOf(c, f) == (FOLDER + [SLASH]) + (c + [SLASH] + f);
  }

  lemma SlashSplit(c: Bytes, f: Bytes, d: Bytes, g: Bytes)
    requires SLASH !in c && SLASH !in d && c + [SLASH] + f == d + [SLASH] + g
    ensures c == d && f == g
  {
    var s, t := c + [SLASH] + f, d + [SLASH] + g;
    NotShorter(c, f, d, g);
    NotShorter(d, g, c, f);
    assert c == s[..|c|] && d == t[..|d|];
    assert f == s[|c| + 1..] && g == t[|d| + 1..];
  }

  lemma NotShorter(c: Bytes, f: Bytes, d: Bytes, g: Bytes)
    requires SLASH !in d && c + [SLASH] + f == d + [SLASH] + g
    ensures |c| >= |d|
  {
    ElementOfFirst(d, [SLASH] + g, |c|);
    assert (c + [SLASH] + f)[|c|] == SLASH;
    assert d + ([SLASH] + g) == d + [SLASH] + g;
  }

  lemma ElementOfFirst(d: Bytes, rest: Bytes, k: nat)
    ensures k < |d| ==> (d + rest)[k] == d[k] && d[k] in d
  {
  }

  // ---- Replacing one client ----

  predicate SameIdentity(c: ClientRec, d: ClientRec) {
    c.id == d.id && c.name == d.name
  }

  lemma ReplaceClient(cs: seq<ClientRec>, i: nat, c: ClientRec)
    requires ClientsOk(cs) && i < |cs| && SameIdentity(cs[i], c) && ClientOk(c)
    ensures ClientsOk(cs[i := c])
  {
    hide ClientOk;
  }

  /** Every file of the old record is in the new one, so rows stay listed. */
  lemma ReplaceListed(cs: seq<ClientRec>, i: nat, c: ClientRec, row: FileRec)
    requires i < |cs| && Listed(cs, row)
    requires forall j :: 0 <= j < |cs[i].files| && SameFile(cs[i].files[j], row) ==>
               exists l :: 0 <= l < |c.files| && SameFile(c.files[l], row)
    ensures Listed(cs[i := c], row)
  {
    var a, j :| 0 <= a < |cs| && 0 <= j < |cs[a].files| && SameFile(cs[a].files[j], row);
    if a == i {
      var l :| 0 <= l < |c.files| && SameFile(c.files[l], row);
      assert SameFile(cs[i := c][i].files[l], row);
    } else {
      assert SameFile(cs[i := c][a].files[j], row);
    }
  }

  lemma ReplaceOnDisk(cs: seq<ClientRec>, i: nat, c: ClientRec, disk: map<Bytes, Bytes>)
    requires OnDisk(cs, disk) && i < |cs| && FilesOnDisk(c, disk)
    ensures OnDisk(cs[i := c], disk)
  {
    hide FilesOnDisk;
  }

  /** What replacing one record needs; the rows of the files table are a separate concern. */
  lemma ReplaceKeeps(st: State, i: nat, c: ClientRec, rows: seq<FileRec>)
    requires Inv(st) && i < |st.clients| && ClientOk(c) && RowOf(c) == RowOf(st.clients[i])
    requires FilesOnDisk(c, st.disk) && FileTableOk(st.clients[i := c], rows)
    ensures Inv(Update(st, i, c).(fileTable := rows))
  {
    hide ClientOk, FilesOnDisk, OnDisk, ClientsOk, FileTableOk;
    ReplaceClient(st.clients, i, c);
    ReplaceOnDisk(st.clients, i, c, st.disk);
  }

  /** Changing keys only. */
  lemma ChangeKeys(st: State, i: nat, c: ClientRec, rows: seq<ClientRow>)
    requires Inv(st) && i < |st.clients| && c.files == st.clients[i].files
    requires SameIdentity(st.clients[i], c)
    requires rows == st.clientTable[i := RowOf(c)]
    ensures Inv(Update(st, i, c).(clientTable := rows))
  {
    var cs := st.clients[i := c];
    assert ClientOk(st.clients[i]);
    assert ClientOk(c);
    ReplaceClient(st.clients, i, c);
    forall a | 0 <= a < |cs| ensures FilesOnDisk(cs[a], st.disk) {
      assert FilesOnDisk(st.clients[a], st.disk);
    }
    forall r | 0 <= r < |st.fileTable| ensures Listed(cs, st.fileTable[r]) {
      ReplaceListed(st.clients, i, c, st.fileTable[r]);
    }
  }

  lemma {:induction false} WithAesKeyAt(rows: seq<ClientRow>, i: nat, key: Bytes)
    requires i < |rows| && forall a, b :: 0 <= a < b < |rows| ==> rows[a].id != rows[b].id
    ensures WithAesKey(rows, rows[i].id, key) == rows[i := rows[i].(aesKey := key)]
  {
    if i == 0 {
      AesKeyElsewhere(rows[1..], rows[0].id, key);
    } else {
      WithAesKeyAt(rows[1..], i - 1, key);
    }
  }

  lemma {:induction false} AesKeyElsewhere(rows: seq<ClientRow>, id: Bytes, key: Bytes)
    requires forall a :: 0 <= a < |rows| ==> rows[a].id != id
    ensures WithAesKey(rows, id, key) == rows
  {
    if rows != [] { AesKeyElsewhere(rows[1..], id, key); }
  }

  lemma {:induction false} WithPublicKeyAt(rows: seq<ClientRow>, i: nat, key: Bytes)
    requires i < |rows| && forall a, b :: 0 <= a < b < |rows| ==> rows[a].id != rows[b].id
    ensures WithPublicKey(rows, rows[i].id, key) == rows[i := rows[i].(publicKey := key)]
  {
    if i == 0 {
      PublicKeyElsewhere(rows[1..], rows[0].id, key);
    } else {
      WithPublicKeyAt(rows[1..], i - 1, key);
    }
  }

  lemma {:induction false} PublicKeyElsewhere(rows: seq<ClientRow>, id: Bytes, key: Bytes)
    requires forall a :: 0 <= a < |rows| ==> rows[a].id != id
    ensures WithPublicKey(rows, id, key) == rows
  {
    if rows != [] { PublicKeyElsewhere(rows[1..], id, key); }
  }

  lemma RowIds(st: State)
    requires Inv(st)
    ensures forall a, b :: 0 <= a < b < |st.clientTable| ==> st.clientTable[a].id != st.clientTable[b].id
  {
  }

  // ---- Each handler keeps the invariant ----

  lemma RegisterKeeps(st: State, field: Bytes, draw: Draw)
    requires Inv(st) && SLASH !in field && |draw.uuid| == CLIENT_ID_SIZE
    requires forall i :: 0 <= i < |st.clients| ==> st.clients[i].id != draw.uuid
    ensures !HasClientKey(st.clientTable, draw.uuid)
    ensures Inv(RegisterClient(st, field, draw).st)
  {
    var t := TextOf(field);
    if t.Some? && IndexOfName(st.clients, t.value) == |st.clients| {
      assert SLASH !in t.value;
      NewClientKeeps(st, ClientRec(draw.uuid, t.value, [], [], []));
    }
  }

  lemma NewClientKeeps(st: State, c: ClientRec)
    requires Inv(st) && ClientOk(c) && c.files == []
    requires forall i :: 0 <= i < |st.clients| ==> st.clients[i].id != c.id && st.clients[i].name != c.name
    ensures Inv(st.(clients := st.clients + [c], clientTable := st.clientTable + [RowOf(c)]))
  {
    hide ClientOk;
    var cs := st.clients + [c];
    forall r | 0 <= r < |st.fileTable| ensures Listed(cs, st.fileTable[r]) {
      assert Listed(st.clients, st.fileTable[r]);
      var a, j :| 0 <= a < |st.clients| && 0 <= j < |st.clients[a].files|
                  && SameFile(st.clients[a].files[j], st.fileTable[r]);
      assert SameFile(cs[a].files[j], st.fileTable[r]);
    }
    forall i | 0 <= i < |cs| ensures FilesOnDisk(cs[i], st.disk) {
      assert i < |st.clients| ==> FilesOnDisk(st.clients[i], st.disk);
    }
  }

  lemma SendAesKeeps(st: State, i: nat, key: Bytes, code: nat, k: Crypto)
    requires Inv(st) && i < |st.clients|
    ensures Inv(SendAes(st, i, key, code, k).st)
  {
    RowIds(st);
    WithAesKeyAt(st.clientTable, i, key);
    var c := st.clients[i].(aesKey := key);
    ChangeKeys(st, i, c, st.clientTable[i := RowOf(c)]);
  }

  lemma PublicKeyKeeps(st: State, id: Bytes, field: Bytes, key: Bytes, draw: Draw, k: Crypto)
    requires Inv(st)
    ensures Inv(SetPublicKey(st, id, field, key, draw, k).st)
  {
    hide SendAes;
    var t := TextOf(field);
    if t.Some? {
      var i := IndexOfName(st.clients, t.value);
      if i < |st.clients| && st.clients[i].id == id {
        RowIds(st);
        WithPublicKeyAt(st.clientTable, i, key);
        var c := st.clients[i].(publicKey := key);
        ChangeKeys(st, i, c, st.clientTable[i := RowOf(c)]);
        SendAesKeeps(Update(st, i, c).(clientTable := WithPublicKey(st.clientTable, id, key)), i, draw.aesKey, 1602, k);
      }
    }
  }

  lemma ReconnectKeeps(st: State, id: Bytes, field: Bytes, draw: Draw, k: Crypto)
    requires Inv(st)
    ensures Inv(ReconnectClient(st, id, field, draw, k).st)
  {
    hide SendAes, Inv;
    var t := TextOf(field);
    if t.Some? {
      var i := IndexOfName(st.clients, t.value);
      if i < |st.clients| { SendAesKeeps(st, i, draw.aesKey, 1605, k); }
    }
  }

  /** Writing to the disk never removes a path. */
  lemma MoreDisk(st: State, disk: map<Bytes, Bytes>)
    requires Inv(st) && st.disk.Keys <= disk.Keys
    ensures Inv(st.(disk := disk))
  {
    forall i | 0 <= i < |st.clients| ensures FilesOnDisk(st.clients[i], disk) {
      assert FilesOnDisk(st.clients[i], st.disk);
    }
  }

  lemma LastPacketKeeps(st: State, i: nat, f: FileRec, contentSize: nat, origSize: nat, k: Crypto)
    requires Inv(st) && i < |st.clients|
    ensures Inv(LastPacket(st, i, f, contentSize, origSize, k).st)
  {
    hide Inv;
    if f.path in st.disk {
      var plain := k.decrypt(st.clients[i].aesKey, st.disk[f.path]);
      if plain.Some? { MoreDisk(st, st.disk[f.path := plain.value]); }
    }
  }

  lemma {:induction false} WithValidAt(rows: seq<FileRec>, id: Bytes, valid: bool)
    ensures forall r :: 0 <= r < |rows| ==>
              WithValid(rows, id, valid)[r] == if rows[r].owner == id then rows[r].(valid := valid) else rows[r]
  {
    if rows != [] { WithValidAt(rows[1..], id, valid); }
  }

  lemma SetValidKeeps(st: State, i: nat, j: nat, valid: bool)
    requires Inv(st) && i < |st.clients| && j < |st.clients[i].files|
    ensures Inv(SetValid(st, i, j, valid))
  {
    var c := st.clients[i];
    var c' := c.(files := c.files[j := c.files[j].(valid := valid)]);
    assert ClientOk(c) && FilesOnDisk(c, st.disk);
    SetValidRows(st, i, j, valid);
    ReplaceKeeps(st, i, c', WithValid(st.fileTable, c.id, valid));
  }

  lemma SetValidRows(st: State, i: nat, j: nat, valid: bool)
    requires FileTableOk(st.clients, st.fileTable) && i < |st.clients| && j < |st.clients[i].files|
    ensures var c := st.clients[i];
            FileTableOk(st.clients[i := c.(files := c.files[j := c.files[j].(valid := valid)])],
                        WithValid(st.fileTable, c.id, valid))
  {
    hide Listed;
    var c := st.clients[i];
    WithValidAt(st.fileTable, c.id, valid);
    var rows := WithValid(st.fileTable, c.id, valid);
    forall r | 0 <= r < |rows|
      ensures Listed(st.clients[i := c.(files := c.files[j := c.files[j].(valid := valid)])], rows[r])
    {
      FlagKeepsListed(st, i, j, valid, st.fileTable[r], rows[r]);
    }
  }

  lemma FlagKeepsListed(st: State, i: nat, j: nat, valid: bool, row: FileRec, row': FileRec)
    requires i < |st.clients| && j < |st.clients[i].files|
    requires Listed(st.clients, row) && SameFile(row, row')
    ensures var c := st.clients[i];
            Listed(st.clients[i := c.(files := c.files[j := c.files[j].(valid := valid)])], row')
  {
    var c := st.clients[i];
    var cs := st.clients[i := c.(files := c.files[j := c.files[j].(valid := valid)])];
    var a, b :| 0 <= a < |st.clients| && 0 <= b < |st.clients[a].files| && SameFile(st.clients[a].files[b], row);
    assert SameFile(cs[a].files[b], row');
  }

  lemma NewFileKeeps(st: State, i: nat, f: FileRec, r: Request, k: Crypto)
    requires Inv(st) && r.Packet? && i < |st.clients|
    requires f.owner == st.clients[i].id && f.path == PathOf(st.clients[i].name, f.name)
    requires |f.name| <= NAME_SIZE && f.path in st.disk
    requires forall a :: 0 <= a < |st.clients[i].files| ==> st.clients[i].files[a].name != f.name
    ensures !HasFileKey(st.fileTable, f.owner, f.name)
    ensures Inv(NewFile(st, i, f, r, k).st)
  {
    NewRowIsNew(st, i, f);
    var c := st.clients[i];
    var c' := c.(files := c.files + [f]);
    assert ClientOk(c) && FilesOnDisk(c, st.disk);
    NewFileRows(st, i, f);
    ReplaceKeeps(st, i, c', st.fileTable + [f]);
    hide Inv;
    LastPacketKeeps(Update(st, i, c').(fileTable := st.fileTable + [f]), i, f, r.contentSize, r.origSize, k);
  }

  lemma NewFileRows(st: State, i: nat, f: FileRec)
    requires FileTableOk(st.clients, st.fileTable) && i < |st.clients|
    requires !HasFileKey(st.fileTable, f.owner, f.name)
    ensures var c := st.clients[i];
            FileTableOk(st.clients[i := c.(files := c.files + [f])], st.fileTable + [f])
  {
    hide Listed;
    var c, rows := st.clients[i], st.fileTable + [f];
    var c' := c.(files := c.files + [f]);
    forall s | 0 <= s < |rows| ensures Listed(st.clients[i := c'], rows[s]) {
      if s < |st.fileTable| {
        forall j | 0 <= j < |c.files| && SameFile(c.files[j], rows[s])
          ensures exists l :: 0 <= l < |c'.files| && SameFile(c'.files[l], rows[s])
        {
          assert SameFile(c'.files[j], rows[s]);
        }
        ReplaceListed(st.clients, i, c', rows[s]);
      } else {
        LastIsListed(st.clients, i, f);
      }
    }
  }

  lemma LastIsListed(cs: seq<ClientRec>, i: nat, f: FileRec)
    requires i < |cs|
    ensures Listed(cs[i := cs[i].(files := cs[i].files + [f])], f)
  {
    assert SameFile(cs[i := cs[i].(files := cs[i].files + [f])][i].files[|cs[i].files|], f);
  }

  /** Inserting the row of a file that is not listed never meets a duplicate key. */
  lemma NewRowIsNew(st: State, i: nat, f: FileRec)
    requires Inv(st) && i < |st.clients| && f.owner == st.clients[i].id
    requires forall a :: 0 <= a < |st.clients[i].files| ==> st.clients[i].files[a].name != f.name
    ensures !HasFileKey(st.fileTable, f.owner, f.name)
  {
    forall s | 0 <= s < |st.fileTable| ensures st.fileTable[s].owner != f.owner || st.fileTable[s].name != f.name {
      var row := st.fileTable[s];
      var a, b :| 0 <= a < |st.clients| && 0 <= b < |st.clients[a].files| && SameFile(st.clients[a].files[b], row);
      assert ClientOk(st.clients[a]);
    }
  }

  lemma PacketKeeps(st: State, r: Request, k: Crypto)
    requires Inv(st) && r.Packet? && Readable(r)
    ensures Inv(ReceivePacket(st, r, k).st)
  {
    hide Inv, KnownFile, NewFile, WritePacket, PathOf, TextOf;
    var t := TextOf(r.name);
    if t.Some? {
      var i := IndexOfId(st.clients, r.id);
      if i < |st.clients| && !DirectoryName(t.value) {
        var path := PathOf(st.clients[i].name, t.value);
        var st1 := st.(disk := WritePacket(st.disk, path, r.number, r.content));
        WriteKeeps(st.disk, path, r.number, r.content);
        MoreDisk(st, st1.disk);
        var j := IndexOfFile(st.clients[i].files, t.value);
        if j < |st.clients[i].files| {
          KnownFileKeeps(st1, i, j, r, k);
        } else if r.number == 1 {
          NewFileKeeps(st1, i, FileRec(r.id, t.value, path, false), r, k);
        }
      }
    }
  }

  lemma WriteKeeps(disk: map<Bytes, Bytes>, path: Bytes, number: nat, content: Bytes)
    ensures var disk' := WritePacket(disk, path, number, content); disk.Keys <= disk'.Keys && path in disk'
  {
  }

  lemma KnownFileKeeps(st: State, i: nat, j: nat, r: Request, k: Crypto)
    requires Inv(st) && r.Packet? && i < |st.clients| && j < |st.clients[i].files|
    ensures Inv(KnownFile(st, i, j, r, k).st)
  {
    hide Inv, LastPacket, SetValid;
    SetValidKeeps(st, i, j, false);
    var st' := if r.number == 1 then SetValid(st, i, j, false) else st;
    LastPacketKeeps(st', i, st'.clients[i].files[j], r.contentSize, r.origSize, k);
  }

  lemma {:induction false} WithoutNameAt(rows: seq<FileRec>, name: Bytes, s: nat)
    requires s < |WithoutName(rows, name)|
    ensures exists r :: 0 <= r < |rows| && rows[r] == WithoutName(rows, name)[s] && rows[r].name != name
  {
    var rest := WithoutName(rows[1..], name);
    var skip := if rows[0].name == name then 0 else 1;
    if s < skip {
      assert rows[0] == WithoutName(rows, name)[s];
    } else {
      WithoutNameAt(rows[1..], name, s - skip);
      var r :| 0 <= r < |rows| - 1 && rows[1..][r] == rest[s - skip] && rows[1..][r].name != name;
      assert rows[r + 1] == WithoutName(rows, name)[s];
    }
  }

  /** Where the s-th row that is left stood before. */
  function Position(rows: seq<FileRec>, name: Bytes, s: nat): (p: nat)
    requires s < |WithoutName(rows, name)|
    ensures p < |rows| && rows[p] == WithoutName(rows, name)[s] && rows[p].name != name
  {
    if rows[0].name == name then 1 + Position(rows[1..], name, s)
    else if s == 0 then 0
    else 1 + Position(rows[1..], name, s - 1)
  }

  /** Deleting a name leaves the rows in their order ... */
  lemma {:induction false} PositionsAscend(rows: seq<FileRec>, name: Bytes, s: nat, t: nat)
    requires s < t < |WithoutName(rows, name)|
    ensures Position(rows, name, s) < Position(rows, name, t)
  {
    if rows[0].name == name {
      PositionsAscend(rows[1..], name, s, t);
    } else if s > 0 {
      PositionsAscend(rows[1..], name, s - 1, t - 1);
    }
  }

  /** ... and no row of another name is lost. */
  lemma {:induction false} PositionsCover(rows: seq<FileRec>, name: Bytes, r: nat) returns (s: nat)
    requires r < |rows| && rows[r].name != name
    ensures s < |WithoutName(rows, name)| && Position(rows, name, s) == r
  {
    if r == 0 {
      s := 0;
    } else {
      var t := PositionsCover(rows[1..], name, r - 1);
      s := if rows[0].name == name then t else t + 1;
    }
  }

  /** Exactly the rows of other names are left, in their order. */
  ghost predicate OnlyWithout(rows: seq<FileRec>, left: seq<FileRec>, name: Bytes) {
    && |left| == |WithoutName(rows, name)|
    && (forall s: nat :: s < |left| ==> rows[Position(rows, name, s)] == left[s] && left[s].name != name)
    && (forall s: nat, t: nat :: s < t < |left| ==> Position(rows, name, s) < Position(rows, name, t))
    && (forall r :: 0 <= r < |rows| && rows[r].name != name ==>
          exists s: nat :: s < |left| && Position(rows, name, s) == r)
  }

  lemma WithoutNameIsOnly(rows: seq<FileRec>, name: Bytes)
    ensures OnlyWithout(rows, WithoutName(rows, name), name)
  {
    hide WithoutName, Position;
    var left := WithoutName(rows, name);
    forall s: nat, t: nat | s < t < |left| ensures Position(rows, name, s) < Position(rows, name, t) {
      PositionsAscend(rows, name, s, t);
    }
    forall r | 0 <= r < |rows| && rows[r].name != name
      ensures exists s: nat :: s < |left| && Position(rows, name, s) == r
    {
      var s := PositionsCover(rows, name, r);
    }
  }

  predicate UniqueKeys(rows: seq<FileRec>) {
    forall r, s :: 0 <= r < s < |rows| ==> rows[r].owner != rows[s].owner || rows[r].name != rows[s].name
  }

  lemma UniqueKeysCons(row: FileRec, rows: seq<FileRec>)
    requires UniqueKeys(rows)
    requires forall s :: 0 <= s < |rows| ==> row.owner != rows[s].owner || row.name != rows[s].name
    ensures UniqueKeys([row] + rows)
  {
  }

  lemma {:induction false} WithoutNameUnique(rows: seq<FileRec>, name: Bytes)
    requires UniqueKeys(rows)
    ensures UniqueKeys(WithoutName(rows, name))
  {
    if rows != [] {
      WithoutNameUnique(rows[1..], name);
      var left := WithoutName(rows[1..], name);
      forall s | 0 <= s < |left| ensures rows[0].owner != left[s].owner || rows[0].name != left[s].name {
        WithoutNameAt(rows[1..], name, s);
      }
      UniqueKeysCons(rows[0], left);
      assert [] + left == left;
    }
  }

  /** The path of one file of one client is no other listed file's path. */
  lemma PathsDiffer(st: State, i: nat, j: nat, a: nat, b: nat)
    requires Inv(st) && i < |st.clients| && j < |st.clients[i].files|
    requires a < |st.clients| && b < |st.clients[a].files| && (a != i || b != j)
    ensures st.clients[a].files[b].path != st.clients[i].files[j].path
  {
    var c, d := st.clients[i], st.clients[a];
    assert ClientOk(c) && ClientOk(d);
    if d.files[b].path == c.files[j].path {
      PathInjective(c.name, c.files[j].name, d.name, d.files[b].name);
    }
  }

  lemma DeleteFileKeeps(st: State, i: nat, j: nat)
    requires Inv(st) && i < |st.clients| && j < |st.clients[i].files|
    ensures st.clients[i].files[j].path in st.disk
    ensures Inv(DeleteFile(st, i, j).st)
  {
    var c := st.clients[i];
    var f := c.files[j];
    assert FilesOnDisk(c, st.disk);
    var c' := c.(files := c.files[..j] + c.files[j + 1..]);
    var cs, disk := st.clients[i := c'], st.disk - {f.path};
    assert ClientOk(c);
    RemovedFile(c, j);
    ReplaceClient(st.clients, i, c');
    forall a | 0 <= a < |cs| ensures FilesOnDisk(cs[a], disk) {
      forall b | 0 <= b < |cs[a].files| ensures cs[a].files[b].path in disk {
        var b' := if a == i && b >= j then b + 1 else b;
        assert FilesOnDisk(st.clients[a], st.disk);
        assert cs[a].files[b] == st.clients[a].files[b'];
        PathsDiffer(st, i, j, a, b');
      }
    }
    DeletedRows(st, i, j, cs, c');
  }

  lemma RemovedFile(c: ClientRec, j: nat)
    requires ClientOk(c) && j < |c.files|
    ensures ClientOk(c.(files := c.files[..j] + c.files[j + 1..]))
  {
    var files := c.files[..j] + c.files[j + 1..];
    forall a | 0 <= a < |files| ensures files[a] == c.files[if a < j then a else a + 1] {}
  }

  lemma DeletedRows(st: State, i: nat, j: nat, cs: seq<ClientRec>, c': ClientRec)
    requires Inv(st) && i < |st.clients| && j < |st.clients[i].files|
    requires c' == st.clients[i].(files := st.clients[i].files[..j] + st.clients[i].files[j + 1..])
    requires cs == st.clients[i := c']
    ensures var name := st.clients[i].files[j].name;
            && FileTableOk(cs, WithoutName(st.fileTable, name))
            && (|WithoutName(st.fileTable, name)| == |st.fileTable| ==> FileTableOk(cs, st.fileTable))
  {
    var name := st.clients[i].files[j].name;
    var left := WithoutName(st.fileTable, name);
    WithoutNameUnique(st.fileTable, name);
    forall s | 0 <= s < |left| ensures Listed(cs, left[s]) {
      WithoutNameAt(st.fileTable, name, s);
      OtherStaysListed(st, i, j, left[s]);
    }
    NothingDeleted(st.fileTable, name);
  }

  lemma {:induction false} NothingDeleted(rows: seq<FileRec>, name: Bytes)
    ensures |WithoutName(rows, name)| == |rows| ==> WithoutName(rows, name) == rows
  {
    if rows != [] { NothingDeleted(rows[1..], name); }
  }

  lemma OtherStaysListed(st: State, i: nat, j: nat, row: FileRec)
    requires i < |st.clients| && j < |st.clients[i].files|
    requires Listed(st.clients, row) && row.name != st.clients[i].files[j].name
    ensures var c := st.clients[i];
            Listed(st.clients[i := c.(files := c.files[..j] + c.files[j + 1..])], row)
  {
    var c := st.clients[i];
    var cs := st.clients[i := c.(files := c.files[..j] + c.files[j + 1..])];
    var a, b :| 0 <= a < |st.clients| && 0 <= b < |st.clients[a].files| && SameFile(st.clients[a].files[b], row);
    var b' := if a == i && b > j then b - 1 else b;
    assert cs[a].files[b'] == st.clients[a].files[b];
    assert SameFile(cs[a].files[b'], row);
  }

  lemma VerdictKeeps(st: State, id: Bytes, code: nat, field: Bytes)
    requires Inv(st)
    ensures Inv(ReceiveVerdict(st, id, code, field).st)
  {
    hide Inv, SetValid, DeleteFile;
    var t := TextOf(field);
    if t.Some? {
      var i := IndexOfId(st.clients, id);
      if i < |st.clients| {
        var j := IndexOfFile(st.clients[i].files, t.value);
        if j < |st.clients[i].files| {
          SetValidKeeps(st, i, j, true);
          DeleteFileKeeps(st, i, j);
        }
      }
    }
  }

  /** Every request, answered or refused, keeps the invariant. */
  lemma ServeKeeps(st: State, r: Request, draw: Draw, k: Crypto)
    requires Inv(st) && Legal(st, r, draw)
    ensures Inv(Serve(st, r, draw, k).st)
  {
    hide Inv, RegisterClient, ReconnectClient, SetPublicKey, ReceivePacket, ReceiveVerdict;
    match r
    case Register(_, name) => RegisterKeeps(st, name, draw);
    case Reconnect(id, name) => ReconnectKeeps(st, id, name, draw, k);
    case PublicKey(id, name, key) => PublicKeyKeeps(st, id, name, key, draw, k);
    case Packet(_, _, _, _, _, _, _) => PacketKeeps(st, r, k);
    case Verdict(id, code, name) => VerdictKeeps(st, id, code, name);
    case Invalid(_) =>
  }

  // ---- Restart ----

  lemma {:induction false} ReloadAt(rows: seq<ClientRow>, files: seq<FileRec>, i: nat)
    requires i < |rows|
    ensures Reload(rows, files)[i]
         == ClientRec(rows[i].id, rows[i].name, rows[i].publicKey, rows[i].aesKey, FilesOf(files, rows[i].id))
  {
    if i > 0 { ReloadAt(rows[1..], files, i - 1); }
  }

  lemma {:induction false} FilesOfAt(rows: seq<FileRec>, id: Bytes, s: nat) returns (r: nat)
    requires s < |FilesOf(rows, id)|
    ensures r < |rows| && rows[r] == FilesOf(rows, id)[s] && rows[r].owner == id
  {
    var skip := if rows[0].owner == id then 1 else 0;
    if s < skip {
      r := 0;
    } else {
      var q := FilesOfAt(rows[1..], id, s - skip);
      r := q + 1;
    }
  }

  lemma {:induction false} FilesOfComplete(rows: seq<FileRec>, id: Bytes, r: nat) returns (s: nat)
    requires r < |rows| && rows[r].owner == id
    ensures s < |FilesOf(rows, id)| && FilesOf(rows, id)[s] == rows[r]
  {
    if r == 0 {
      s := 0;
    } else {
      var q := FilesOfComplete(rows[1..], id, r - 1);
      s := if rows[0].owner == id then q + 1 else q;
    }
  }

  lemma {:induction false} FilesOfUnique(rows: seq<FileRec>, id: Bytes)
    requires UniqueKeys(rows)
    ensures UniqueKeys(FilesOf(rows, id))
  {
    if rows != [] {
      FilesOfUnique(rows[1..], id);
      var fs := FilesOf(rows[1..], id);
      if rows[0].owner == id {
        forall b | 0 <= b < |fs| ensures rows[0].name != fs[b].name {
          var r := FilesOfAt(rows[1..], id, b);
          assert rows[r + 1] == fs[b];
        }
        UniqueKeysCons(rows[0], fs);
      }
      assert [] + fs == fs;
    }
  }

  /** A row of a client is a file of that client: the owner decides. */
  lemma ListedByOwner(st: State, i: nat, row: FileRec) returns (j: nat)
    requires Inv(st) && i < |st.clients| && Listed(st.clients, row) && row.owner == st.clients[i].id
    ensures j < |st.clients[i].files| && SameFile(st.clients[i].files[j], row)
  {
    var a, b :| 0 <= a < |st.clients| && 0 <= b < |st.clients[a].files| && SameFile(st.clients[a].files[b], row);
    assert ClientOk(st.clients[a]);
    assert st.clients[a].id == st.clients[i].id;
    j := b;
  }

  lemma ReloadedClient(st: State, i: nat)
    requires Inv(st) && i < |st.clients|
    ensures var c := Restart(st).clients[i];
            && RowOf(c) == RowOf(st.clients[i])
            && c.files == FilesOf(st.fileTable, st.clients[i].id)
            && ClientOk(c) && FilesOnDisk(c, st.disk)
            && forall f :: f in c.files ==>
                 exists j :: 0 <= j < |st.clients[i].files| && SameFile(st.clients[i].files[j], f)
  {
    ReloadAt(st.clientTable, st.fileTable, i);
    var c, d := Restart(st).clients[i], st.clients[i];
    FilesOfUnique(st.fileTable, d.id);
    assert ClientOk(d) && FilesOnDisk(d, st.disk);
    forall a | 0 <= a < |c.files|
      ensures exists j :: 0 <= j < |d.files| && SameFile(d.files[j], c.files[a])
      ensures c.files[a].owner == d.id && c.files[a].path == PathOf(d.name, c.files[a].name)
      ensures |c.files[a].name| <= NAME_SIZE && c.files[a].path in st.disk
    {
      var r := FilesOfAt(st.fileTable, d.id, a);
      assert Listed(st.clients, st.fileTable[r]);
      var j := ListedByOwner(st, i, st.fileTable[r]);
    }
  }

  /** A restart recovers exactly the clients, with their keys, and of each client's files those
      that the table still has; the invariant holds again. */
  lemma RestartKeeps(st: State)
    requires Inv(st)
    ensures Inv(Restart(st))
    ensures |Restart(st).clients| == |st.clients|
    ensures forall i :: 0 <= i < |st.clients| ==>
              && RowOf(Restart(st).clients[i]) == RowOf(st.clients[i])
              && Restart(st).clients[i].files == FilesOf(st.fileTable, st.clients[i].id)
              && forall f :: f in Restart(st).clients[i].files ==>
                   exists j :: 0 <= j < |st.clients[i].files| && SameFile(st.clients[i].files[j], f)
  {
    var st' := Restart(st);
    assert |st'.clients| == |st.clients|;
    hide Restart;
    forall i | 0 <= i < |st.clients|
      ensures RowOf(st'.clients[i]) == RowOf(st.clients[i]) && ClientOk(st'.clients[i])
      ensures FilesOnDisk(st'.clients[i], st.disk) && st'.clients[i].files == FilesOf(st.fileTable, st.clients[i].id)
      ensures forall f :: f in st'.clients[i].files ==>
                   exists j :: 0 <= j < |st.clients[i].files| && SameFile(st.clients[i].files[j], f)
    {
      ReloadedClient(st, i);
    }
    forall r | 0 <= r < |st.fileTable| ensures Listed(st'.clients, st.fileTable[r]) {
      var a, b :| 0 <= a < |st.clients| && 0 <= b < |st.clients[a].files|
                  && SameFile(st.clients[a].files[b], st.fileTable[r]);
      assert ClientOk(st.clients[a]);
      var s := FilesOfComplete(st.fileTable, st.clients[a].id, r);
      assert SameFile(st'.clients[a].files[s], st.fileTable[r]);
    }
    RestartIs(st);
  }

  lemma RestartIs(st: State)
    ensures Restart(st).disk == st.disk && Restart(st).clientTable == st.clientTable
    ensures Restart(st).fileTable == st.fileTable
  {
  }

  // ---- Runs ----

  datatype Event = Request(request: Wire.Request, draw: Draw) | Reboot

  function After(st: State, e: Event, k: Crypto): State {
    match e
    case Request(r, draw) => Serve(st, r, draw, k).st
    case Reboot => Restart(st)
  }

  function Run(st: State, es: seq<Event>, k: Crypto): State
    decreases |es|
  {
    if es == [] then st else Run(After(st, es[0], k), es[1..], k)
  }

  ghost predicate LegalRun(st: State, es: seq<Event>, k: Crypto)
    decreases |es|
  {
    es != [] ==>
      && (es[0].Request? ==> Legal(st, es[0].request, es[0].draw))
      && LegalRun(After(st, es[0], k), es[1..], k)
  }

  lemma StepKeeps(st: State, e: Event, k: Crypto)
    requires Inv(st) && (e.Request? ==> Legal(st, e.request, e.draw))
    ensures Inv(After(st, e, k))
  {
    hide Inv, Serve, Restart, Legal;
    match e
    case Request(r, draw) => ServeKeeps(st, r, draw, k);
    case Reboot => RestartKeeps(st);
  }

  lemma {:induction false} RunKeeps(st: State, es: seq<Event>, k: Crypto)
    requires Inv(st) && LegalRun(st, es, k)
    ensures Inv(Run(st, es, k))
    decreases |es|
  {
    hide Inv, After, Legal;
    if es != [] {
      StepKeeps(st, es[0], k);
      RunKeeps(After(st, es[0], k), es[1..], k);
    }
  }

  lemma InitialOk(disk: map<Bytes, Bytes>)
    ensures Inv(Initial(disk))
  {
  }

  /** From an empty server, every reachable state satisfies the invariant. */
  lemma ReachableOk(disk: map<Bytes, Bytes>, es: seq<Event>, k: Crypto)
    requires LegalRun(Initial(disk), es, k)
    ensures Inv(Run(Initial(disk), es, k))
  {
    hide *;
    InitialOk(disk);
    RunKeeps(Initial(disk), es, k);
  }
}
