/** When the tables agree with the lists in memory, and what a restart then recovers.
    `set_valid_crc` and `delete_file` change more rows than the handlers change records
    (Server/sql.py), so agreement is lost by some requests; here are exactly those. */
module ServerSync {
  import opened Octets
  import opened Text
  import opened Wire
  import opened Cryptography
  import opened ServerModel
  import opened ServerInvariant

  /** The files table holds each client's files as the client's record does, flags included. */
  ghost predicate Synced(st: State) {
    SyncedWith(st.clients, st.fileTable)
  }

  ghost predicate SyncedWith(cs: seq<ClientRec>, rows: seq<FileRec>) {
    forall i :: 0 <= i < |cs| ==> FilesOf(rows, cs[i].id) == cs[i].files
  }

  /** A restart loses nothing exactly when the tables agree with memory. */
  lemma RestartIdentity(st: State)
    requires Inv(st)
    ensures Restart(st) == st <==> Synced(st)
  {
    var cs := Restart(st).clients;
    forall i | 0 <= i < |cs|
      ensures cs[i] == st.clients[i] <==> FilesOf(st.fileTable, st.clients[i].id) == st.clients[i].files
    {
      ReloadAt(st.clientTable, st.fileTable, i);
    }
  }

  // ---- How the table updates act on one client's rows ----

  function AllValid(fs: seq<FileRec>, valid: bool): (r: seq<FileRec>)
    ensures |r| == |fs| && forall i :: 0 <= i < |fs| ==> r[i] == fs[i].(valid := valid)
  {
    if fs == [] then [] else [fs[0].(valid := valid)] + AllValid(fs[1..], valid)
  }

  lemma {:induction false} FilesOfWithValid(rows: seq<FileRec>, id: Bytes, valid: bool, other: Bytes)
    ensures FilesOf(WithValid(rows, id, valid), other)
         == if other == id then AllValid(FilesOf(rows, id), valid) else FilesOf(rows, other)
  {
    if rows != [] {
      FilesOfWithValid(rows[1..], id, valid, other);
      var left := WithValid(rows, id, valid);
      assert left[1..] == WithValid(rows[1..], id, valid);
      if other == id && rows[0].owner == id {
        assert FilesOf(rows, id)[1..] == FilesOf(rows[1..], id);
      } else {
        assert [] + FilesOf(rows[1..], other) == FilesOf(rows[1..], other);
      }
    }
  }

  lemma {:induction false} FilesOfAppend(rows: seq<FileRec>, f: FileRec, id: Bytes)
    ensures FilesOf(rows + [f], id) == FilesOf(rows, id) + (if f.owner == id then [f] else [])
  {
    if rows != [] {
      FilesOfAppend(rows[1..], f, id);
      assert (rows + [f])[1..] == rows[1..] + [f];
    }
  }

  lemma {:induction false} FilesOfWithoutName(rows: seq<FileRec>, name: Bytes, id: Bytes)
    ensures FilesOf(WithoutName(rows, name), id) == WithoutName(FilesOf(rows, id), name)
  {
    if rows != [] {
      FilesOfWithoutName(rows[1..], name, id);
      var left, mine := WithoutName(rows[1..], name), FilesOf(rows[1..], id);
      assert [] + left == left && [] + mine == mine && [] + WithoutName(mine, name) == WithoutName(mine, name);
      assert ([rows[0]] + left)[1..] == left;
      assert ([rows[0]] + mine)[1..] == mine;
    }
  }

  lemma {:induction false} WithoutNameSame(fs: seq<FileRec>, name: Bytes)
    ensures WithoutName(fs, name) == fs <==> forall i :: 0 <= i < |fs| ==> fs[i].name != name
    ensures |WithoutName(fs, name)| == |fs| <==> WithoutName(fs, name) == fs
  {
    if fs != [] {
      WithoutNameSame(fs[1..], name);
      assert [] + WithoutName(fs[1..], name) == WithoutName(fs[1..], name);
      assert fs == [fs[0]] + fs[1..];
      assert forall i :: 1 <= i < |fs| ==> fs[i] == fs[1..][i - 1];
    }
  }

  /** With different names, deleting one name deletes one file. */
  lemma {:induction false} WithoutNameAtOne(fs: seq<FileRec>, j: nat)
    requires j < |fs| && forall a :: 0 <= a < |fs| && a != j ==> fs[a].name != fs[j].name
    ensures WithoutName(fs, fs[j].name) == fs[..j] + fs[j + 1..]
  {
    var rest := fs[1..];
    if j == 0 {
      WithoutNameSame(rest, fs[0].name);
      assert [] + rest == fs[..0] + fs[1..];
    } else {
      WithoutNameAtOne(rest, j - 1);
      WithoutNameLater(fs, j, rest[..j - 1] + rest[j..]);
      assert [fs[0]] + (rest[..j - 1] + rest[j..]) == fs[..j] + fs[j + 1..];
    }
  }

  lemma WithoutNameLater(fs: seq<FileRec>, j: nat, left: seq<FileRec>)
    requires 0 < j < |fs| && fs[0].name != fs[j].name && WithoutName(fs[1..], fs[1..][j - 1].name) == left
    ensures WithoutName(fs, fs[j].name) == [fs[0]] + left
  {
  }

  lemma OwnerIsListed(st: State, r: nat) returns (i: nat)
    requires Inv(st) && r < |st.fileTable|
    ensures i < |st.clients| && st.clients[i].id == st.fileTable[r].owner
  {
    assert Listed(st.clients, st.fileTable[r]);
    var a, b :| 0 <= a < |st.clients| && 0 <= b < |st.clients[a].files|
                && SameFile(st.clients[a].files[b], st.fileTable[r]);
    assert ClientOk(st.clients[a]);
    i := a;
  }

  lemma {:induction false} NoFilesOf(rows: seq<FileRec>, id: Bytes)
    requires forall r :: 0 <= r < |rows| ==> rows[r].owner != id
    ensures FilesOf(rows, id) == []
  {
    if rows != [] { NoFilesOf(rows[1..], id); }
  }

  lemma NoFilesOfStranger(st: State, id: Bytes)
    requires Inv(st) && forall i :: 0 <= i < |st.clients| ==> st.clients[i].id != id
    ensures FilesOf(st.fileTable, id) == []
  {
    forall r | 0 <= r < |st.fileTable| ensures st.fileTable[r].owner != id {
      var i := OwnerIsListed(st, r);
    }
    NoFilesOf(st.fileTable, id);
  }

  // ---- Which requests disturb the agreement ----

  ghost predicate OthersAre(fs: seq<FileRec>, j: nat, valid: bool) {
    forall l :: 0 <= l < |fs| && l != j ==> fs[l].valid == valid
  }

  ghost predicate NameElsewhere(st: State, i: nat, name: Bytes) {
    exists a, b :: 0 <= a < |st.clients| && a != i && 0 <= b < |st.clients[a].files|
                   && st.clients[a].files[b].name == name
  }

  /** Restarting an upload while another file of the client is verified; verifying a file while
      another is not; deleting a file whose name another client also lists. */
  ghost predicate Disturbs(st: State, r: Request) {
    (r.Packet? || r.Verdict?) && TextOf(r.name).Some? &&
    var name := TextOf(r.name).value;
    var i := IndexOfId(st.clients, r.id);
    i < |st.clients| &&
    var fs := st.clients[i].files;
    var j := IndexOfFile(fs, name);
    j < |fs| &&
    match r
    case Packet(_, _, _, number, _, _, _) => number == 1 && !DirectoryName(name) && !OthersAre(fs, j, false)
    case Verdict(_, code, _) =>
      !fs[j].valid && ((code == 900 && !OthersAre(fs, j, true)) || (code == 902 && NameElsewhere(st, i, name)))
    case _ => false
  }

  /** Agreement about everyone but one client. */
  ghost predicate OthersSynced(cs: seq<ClientRec>, rows: seq<FileRec>, i: nat) {
    forall a :: 0 <= a < |cs| && a != i ==> FilesOf(rows, cs[a].id) == cs[a].files
  }

  lemma SyncedParts(cs: seq<ClientRec>, rows: seq<FileRec>, i: nat)
    requires i < |cs|
    ensures SyncedWith(cs, rows) <==> OthersSynced(cs, rows, i) && FilesOf(rows, cs[i].id) == cs[i].files
  {
  }

  lemma FlagsEqual(fs: seq<FileRec>, j: nat, valid: bool)
    requires j < |fs|
    ensures AllValid(fs, valid) == fs[j := fs[j].(valid := valid)] <==> OthersAre(fs, j, valid)
  {
    hide AllValid;
    var all, one := AllValid(fs, valid), fs[j := fs[j].(valid := valid)];
    if OthersAre(fs, j, valid) {
      forall l | 0 <= l < |fs| ensures all[l] == one[l] {}
      assert all == one;
    }
    if all == one {
      forall l | 0 <= l < |fs| && l != j ensures fs[l].valid == valid {
        assert all[l] == one[l];
      }
    }
  }

  lemma SetValidSync(st: State, i: nat, j: nat, valid: bool)
    requires Inv(st) && Synced(st) && i < |st.clients| && j < |st.clients[i].files|
    ensures Synced(SetValid(st, i, j, valid)) <==> OthersAre(st.clients[i].files, j, valid)
  {
    hide OthersAre;
    var c := st.clients[i];
    var st' := SetValid(st, i, j, valid);
    forall a | 0 <= a < |st.clients| && a != i
      ensures FilesOf(st'.fileTable, st'.clients[a].id) == st'.clients[a].files
    {
      FilesOfWithValid(st.fileTable, c.id, valid, st.clients[a].id);
    }
    FilesOfWithValid(st.fileTable, c.id, valid, c.id);
    SyncedParts(st'.clients, st'.fileTable, i);
    FlagsEqual(c.files, j, valid);
  }

  /** Only the lists and the files table matter. */
  lemma SyncOfParts(st: State, st': State)
    requires st.clients == st'.clients && st.fileTable == st'.fileTable
    ensures Synced(st) == Synced(st')
  {
  }

  lemma LastPacketParts(st: State, i: nat, f: FileRec, contentSize: nat, origSize: nat, k: Crypto)
    requires i < |st.clients|
    ensures var st' := LastPacket(st, i, f, contentSize, origSize, k).st;
            st'.clients == st.clients && st'.fileTable == st.fileTable && st'.clientTable == st.clientTable
  {
  }

  lemma KeysSync(st: State, i: nat, c: ClientRec, rows: seq<ClientRow>)
    requires Synced(st) && i < |st.clients| && c.id == st.clients[i].id && c.files == st.clients[i].files
    ensures Synced(Update(st, i, c).(clientTable := rows))
  {
  }

  lemma SendAesSync(st: State, i: nat, key: Bytes, code: nat, k: Crypto)
    requires Synced(st) && i < |st.clients|
    ensures Synced(SendAes(st, i, key, code, k).st)
  {
    var c := st.clients[i].(aesKey := key);
    KeysSync(st, i, c, WithAesKey(st.clientTable, c.id, key));
  }

  lemma RegisterSync(st: State, r: Request, draw: Draw)
    requires Inv(st) && Synced(st) && r.Register? && Legal(st, r, draw)
    ensures Synced(RegisterClient(st, r.name, draw).st)
  {
    NoFilesOfStranger(st, draw.uuid);
  }

  lemma KeyRequestsSync(st: State, r: Request, draw: Draw, k: Crypto)
    requires Synced(st) && (r.Reconnect? || r.PublicKey?)
    ensures Synced(Handle(st, r, draw, k).st)
  {
    hide SendAes, Synced;
    var t := TextOf(r.name);
    if t.Some? {
      var i := IndexOfName(st.clients, t.value);
      if i < |st.clients| && st.clients[i].id == r.id {
        if r.Reconnect? {
          SendAesSync(st, i, draw.aesKey, 1605, k);
        } else {
          var c := st.clients[i].(publicKey := r.key);
          var rows := WithPublicKey(st.clientTable, r.id, r.key);
          KeysSync(st, i, c, rows);
          SendAesSync(Update(st, i, c).(clientTable := rows), i, draw.aesKey, 1602, k);
        }
      }
    }
  }

  lemma NewFileSync(st: State, i: nat, f: FileRec, r: Request, k: Crypto)
    requires Inv(st) && Synced(st) && r.Packet? && i < |st.clients| && f.owner == st.clients[i].id
    ensures Synced(NewFile(st, i, f, r, k).st)
  {
    var c := st.clients[i];
    var st' := Update(st, i, c.(files := c.files + [f])).(fileTable := st.fileTable + [f]);
    forall a | 0 <= a < |st'.clients| ensures FilesOf(st'.fileTable, st'.clients[a].id) == st'.clients[a].files {
      FilesOfAppend(st.fileTable, f, st.clients[a].id);
    }
    LastPacketParts(st', i, f, r.contentSize, r.origSize, k);
  }

  lemma PacketSync(st: State, r: Request, k: Crypto)
    requires Inv(st) && Synced(st) && r.Packet? && Readable(r)
    ensures Synced(ReceivePacket(st, r, k).st) <==> !Disturbs(st, r)
  {
    hide Inv, Synced, OthersAre;
    var t := TextOf(r.name);
    if t.Some? {
      var i := IndexOfId(st.clients, r.id);
      if i < |st.clients| && !DirectoryName(t.value) {
        var path := PathOf(st.clients[i].name, t.value);
        hide PathOf;
        WritingKeepsPaths(st, path, r);
        var st1 := st.(disk := WritePacket(st.disk, path, r.number, r.content));
        hide WritePacket;
        MoreDisk(st, st1.disk);
        SyncOfParts(st, st1);
        var j := IndexOfFile(st.clients[i].files, t.value);
        if j < |st.clients[i].files| {
          KnownFileSync(st1, i, j, r, k);
        } else {
          NewFileSync(st1, i, FileRec(r.id, t.value, path, false), r, k);
          assert r.number != 1 ==> ReceivePacket(st, r, k).st == st1;
        }
      }
    }
  }

  lemma WritingKeepsPaths(st: State, path: Bytes, r: Request)
    requires r.Packet?
    ensures st.disk.Keys <= WritePacket(st.disk, path, r.number, r.content).Keys
  {
  }

  lemma KnownFileSync(st: State, i: nat, j: nat, r: Request, k: Crypto)
    requires Inv(st) && Synced(st) && r.Packet? && i < |st.clients| && j < |st.clients[i].files|
    ensures Synced(KnownFile(st, i, j, r, k).st) <==> (r.number == 1 ==> OthersAre(st.clients[i].files, j, false))
  {
    hide Inv, Synced, OthersAre, SetValid, LastPacket;
    SetValidSync(st, i, j, false);
    var st' := if r.number == 1 then SetValid(st, i, j, false) else st;
    LastPacketParts(st', i, st'.clients[i].files[j], r.contentSize, r.origSize, k);
    SyncOfParts(st', KnownFile(st, i, j, r, k).st);
  }

  lemma DeleteSync(st: State, i: nat, j: nat)
    requires Inv(st) && Synced(st) && i < |st.clients| && j < |st.clients[i].files|
    ensures DeleteFile(st, i, j).Done?
    ensures Synced(DeleteFile(st, i, j).st) <==> !NameElsewhere(st, i, st.clients[i].files[j].name)
  {
    var c := st.clients[i];
    var f := c.files[j];
    assert ClientOk(c) && FilesOnDisk(c, st.disk);
    var left := WithoutName(st.fileTable, f.name);
    FilesOfWithoutName(st.fileTable, f.name, c.id);
    WithoutNameAtOne(c.files, j);
    WithoutNameSame(st.fileTable, f.name);
    assert left != st.fileTable;
    var cs := st.clients[i := c.(files := c.files[..j] + c.files[j + 1..])];
    assert DeleteFile(st, i, j).st.fileTable == left && DeleteFile(st, i, j).st.clients == cs;
    OthersWithoutName(st, i, f.name, cs);
    SyncedParts(cs, left, i);
  }

  lemma OthersWithoutName(st: State, i: nat, name: Bytes, cs: seq<ClientRec>)
    requires Synced(st) && |cs| == |st.clients| && forall a :: 0 <= a < |cs| && a != i ==> cs[a] == st.clients[a]
    ensures OthersSynced(cs, WithoutName(st.fileTable, name), i) <==> !NameElsewhere(st, i, name)
  {
    forall a | 0 <= a < |cs| && a != i
      ensures FilesOf(WithoutName(st.fileTable, name), cs[a].id) == cs[a].files
              <==> forall b :: 0 <= b < |st.clients[a].files| ==> st.clients[a].files[b].name != name
    {
      FilesOfWithoutName(st.fileTable, name, st.clients[a].id);
      WithoutNameSame(st.clients[a].files, name);
    }
  }

  lemma VerdictSync(st: State, r: Request)
    requires Inv(st) && Synced(st) && r.Verdict? && Readable(r)
    ensures Synced(ReceiveVerdict(st, r.id, r.code, r.name).st) <==> !Disturbs(st, r)
  {
    hide Inv, Synced, OthersAre, SetValid, DeleteFile, NameElsewhere;
    var t := TextOf(r.name);
    if t.Some? {
      var i := IndexOfId(st.clients, r.id);
      if i < |st.clients| {
        var j := IndexOfFile(st.clients[i].files, t.value);
        if j < |st.clients[i].files| {
          SetValidSync(st, i, j, true);
          DeleteSync(st, i, j);
        }
      }
    }
  }

  /** While tables and memory agree, a request keeps them in agreement exactly when it is not one
      of the three disturbing kinds. */
  lemma SyncExactly(st: State, r: Request, draw: Draw, k: Crypto)
    requires Inv(st) && Synced(st) && Legal(st, r, draw)
    ensures Synced(Serve(st, r, draw, k).st) <==> !Disturbs(st, r)
  {
    hide Inv, Synced, RegisterClient, ReconnectClient, SetPublicKey, ReceivePacket, ReceiveVerdict;
    match r
    case Register(_, _) => RegisterSync(st, r, draw);
    case Packet(_, _, _, _, _, _, _) => PacketSync(st, r, k);
    case Verdict(_, _, _) => VerdictSync(st, r);
    case Invalid(_) =>
    case _ => KeyRequestsSync(st, r, draw, k);
  }

  // ---- A regime in which restarting loses nothing ----

  /** Each client lists at most one file, and no two clients list the same file name. */
  ghost predicate Modest(st: State) {
    && (forall i :: 0 <= i < |st.clients| ==> |st.clients[i].files| <= 1)
    && (forall i, a :: 0 <= i < a < |st.clients| && st.clients[i].files != [] && st.clients[a].files != [] ==>
          st.clients[i].files[0].name != st.clients[a].files[0].name)
  }

  lemma ModestNotDisturbed(st: State, r: Request)
    requires Modest(st)
    ensures !Disturbs(st, r)
  {
  }

  ghost predicate ModestRun(st: State, es: seq<Event>, k: Crypto)
    decreases |es|
  {
    Modest(st) && (es != [] ==> ModestRun(After(st, es[0], k), es[1..], k))
  }

  lemma StepSynced(st: State, e: Event, k: Crypto)
    requires Inv(st) && Synced(st) && Modest(st) && (e.Request? ==> Legal(st, e.request, e.draw))
    ensures Synced(After(st, e, k))
  {
    hide Inv, Synced, Modest, Legal, Serve, Restart, Disturbs;
    match e
    case Request(r, draw) =>
      ModestNotDisturbed(st, r);
      SyncExactly(st, r, draw, k);
    case Reboot => RestartIdentity(st);
  }

  lemma {:induction false} ModestRunSynced(st: State, es: seq<Event>, k: Crypto)
    requires Inv(st) && Synced(st) && LegalRun(st, es, k) && ModestRun(st, es, k)
    ensures Synced(Run(st, es, k)) && Restart(Run(st, es, k)) == Run(st, es, k)
    decreases |es|
  {
    hide Inv, Synced, Modest, Legal, After, Restart;
    if es == [] {
      RestartIdentity(st);
    } else {
      StepSynced(st, es[0], k);
      StepKeeps(st, es[0], k);
      ModestRunSynced(After(st, es[0], k), es[1..], k);
    }
  }

  // ---- Outside the regime ----

  /** Two clients list the same file name, and one has its own deleted: the record of the other
      stays in memory and its file on disk, but its row is gone, so a restart forgets the file. */
  lemma DeletionForgetsOthers(st: State, i: nat, j: nat, a: nat, b: nat)
    requires Inv(st) && Synced(st)
    requires i < |st.clients| && j < |st.clients[i].files|
    requires a < |st.clients| && a != i && b < |st.clients[a].files|
    requires st.clients[a].files[b].name == st.clients[i].files[j].name
    ensures var st' := DeleteFile(st, i, j).st;
            var f := st.clients[a].files[b];
            && st'.clients[a] == st.clients[a]
            && f.path in st'.disk && st'.disk[f.path] == st.disk[f.path]
            && f !in Restart(st').clients[a].files
  {
    var f := st.clients[a].files[b];
    var st' := DeleteFile(st, i, j).st;
    DeleteSync(st, i, j);
    PathsDiffer(st, i, j, a, b);
    assert FilesOnDisk(st.clients[a], st.disk);
    ReloadAt(st'.clientTable, st'.fileTable, a);
    var files := Restart(st').clients[a].files;
    if f in files {
      var s :| 0 <= s < |files| && files[s] == f;
      var r := FilesOfAt(st'.fileTable, st.clients[a].id, s);
      WithoutNameAt(st.fileTable, f.name, r);
    }
  }

  /** The other client's own deletion then succeeds on disk and in memory and is still answered
      by an error, because no row is left to delete. */
  lemma DeletionIsThenRefused(st: State, i: nat, j: nat)
    requires Inv(st) && i < |st.clients| && j < |st.clients[i].files|
    ensures var f, o := st.clients[i].files[j], DeleteFile(st, i, j);
            && (o.Raised? <==> forall r :: 0 <= r < |st.fileTable| ==> st.fileTable[r].name != f.name)
            && f.path !in o.st.disk
            && |o.st.clients| == |st.clients| && (forall g :: g in o.st.clients[i].files ==> g.name != f.name)
  {
    assert FilesOnDisk(st.clients[i], st.disk);
    assert ClientOk(st.clients[i]);
    WithoutNameSame(st.fileTable, st.clients[i].files[j].name);
  }
}
