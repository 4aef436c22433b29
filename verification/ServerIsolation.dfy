/** A request that carries one client's identifier leaves every other client alone: its record,
    its row in the clients table and everything in its folder. */
module ServerIsolation {
  import opened Octets
  import opened Text
  import opened Wire
  import opened Cryptography
  import opened ServerModel
  import opened ServerInvariant

  ghost predicate SameAt(d: map<Bytes, Bytes>, e: map<Bytes, Bytes>, path: Bytes) {
    (path in d <==> path in e) && (path in d ==> d[path] == e[path])
  }

  /** Every path in the client's folder, listed or not, has the same content. */
  ghost predicate FolderSame(d: map<Bytes, Bytes>, e: map<Bytes, Bytes>, client: Bytes) {
    forall file: Bytes :: SameAt(d, e, PathOf(client, file))
  }

  ghost predicate Untouched(st: State, st': State, i: nat) {
    && i < |st.clients| <= |st'.clients| && st'.clients[i] == st.clients[i]
    && i < |st.clientTable| <= |st'.clientTable| && st'.clientTable[i] == st.clientTable[i]
    && FolderSame(st.disk, st'.disk, st.clients[i].name)
  }

  /** The disks differ at one path at most. */
  ghost predicate DifferAt(d: map<Bytes, Bytes>, e: map<Bytes, Bytes>, path: Bytes) {
    forall p: Bytes :: p != path ==> SameAt(d, e, p)
  }

  lemma OtherFolder(d: map<Bytes, Bytes>, e: map<Bytes, Bytes>, client: Bytes, file: Bytes, other: Bytes)
    requires DifferAt(d, e, PathOf(client, file)) && client != other
    requires SLASH !in client && SLASH !in other
    ensures FolderSame(d, e, other)
  {
    hide PathOf, SameAt;
    forall f: Bytes ensures SameAt(d, e, PathOf(other, f)) {
      if PathOf(other, f) == PathOf(client, file) { PathInjective(other, f, client, file); }
    }
  }

  /** What the handlers do: they change the record of one client and its folder. */
  lemma OneClientChanged(st: State, st': State, i: nat, file: Bytes, a: nat)
    requires Inv(st) && i < |st.clients| && a < |st.clients| && a != i
    requires |st'.clients| == |st.clients| && |st'.clientTable| == |st.clientTable|
    requires st'.clients[a] == st.clients[a] && st'.clientTable[a] == st.clientTable[a]
    requires DifferAt(st.disk, st'.disk, PathOf(st.clients[i].name, file))
    ensures Untouched(st, st', a)
  {
    hide DifferAt, FolderSame, PathOf;
    assert ClientOk(st.clients[i]) && ClientOk(st.clients[a]);
    OtherFolder(st.disk, st'.disk, st.clients[i].name, file, st.clients[a].name);
  }

  lemma KeysElsewhere(st: State, i: nat, key: Bytes, a: nat)
    requires Inv(st) && i < |st.clients| && a < |st.clients| && a != i
    ensures WithAesKey(st.clientTable, st.clients[i].id, key)[a] == st.clientTable[a]
    ensures WithPublicKey(st.clientTable, st.clients[i].id, key)[a] == st.clientTable[a]
  {
    RowIds(st);
    WithAesKeyAt(st.clientTable, i, key);
    WithPublicKeyAt(st.clientTable, i, key);
  }

  lemma SendAesIsolated(st: State, i: nat, key: Bytes, code: nat, k: Crypto, a: nat)
    requires Inv(st) && i < |st.clients| && a < |st.clients| && a != i
    ensures var st' := SendAes(st, i, key, code, k).st;
            && |st'.clients| == |st.clients| && |st'.clientTable| == |st.clientTable|
            && st'.clients[a] == st.clients[a] && st'.clientTable[a] == st.clientTable[a]
            && st'.disk == st.disk
  {
    KeysElsewhere(st, i, key, a);
  }

  lemma ReconnectIsolated(st: State, r: Request, draw: Draw, k: Crypto, a: nat)
    requires Inv(st) && r.Reconnect? && a < |st.clients| && st.clients[a].id != r.id
    ensures Untouched(st, Handle(st, r, draw, k).st, a)
  {
    hide SendAes, Inv, Untouched;
    StaysUntouched(st, a);
    var t := TextOf(r.name);
    if t.Some? {
      var i := IndexOfName(st.clients, t.value);
      if i < |st.clients| && st.clients[i].id == r.id {
        SendAesIsolated(st, i, draw.aesKey, 1605, k, a);
        SameFolders(st, SendAes(st, i, draw.aesKey, 1605, k).st, a);
      }
    }
  }

  lemma SameFolders(st: State, st': State, a: nat)
    requires Inv(st) && a < |st.clients|
    requires |st'.clients| == |st.clients| && |st'.clientTable| == |st.clientTable|
    requires st'.clients[a] == st.clients[a] && st'.clientTable[a] == st.clientTable[a] && st'.disk == st.disk
    ensures Untouched(st, st', a)
  {
    hide PathOf;
  }

  lemma PublicKeyIsolated(st: State, r: Request, draw: Draw, k: Crypto, a: nat)
    requires Inv(st) && r.PublicKey? && a < |st.clients| && st.clients[a].id != r.id
    ensures Untouched(st, Handle(st, r, draw, k).st, a)
  {
    hide SendAes, Untouched, ClientsOk, FileTableOk, OnDisk, WithPublicKey, WithAesKey;
    StaysUntouched(st, a);
    var t := TextOf(r.name);
    if t.Some? {
      var i := IndexOfName(st.clients, t.value);
      if i < |st.clients| && st.clients[i].id == r.id {
        RowIds(st);
        WithPublicKeyAt(st.clientTable, i, r.key);
        var c := st.clients[i].(publicKey := r.key);
        var st1 := Update(st, i, c).(clientTable := WithPublicKey(st.clientTable, r.id, r.key));
        ChangeKeys(st, i, c, st1.clientTable);
        SendAesIsolated(st1, i, draw.aesKey, 1602, k, a);
        SameFolders(st, SendAes(st1, i, draw.aesKey, 1602, k).st, a);
      }
    }
  }

  lemma LastPacketIsolated(st: State, i: nat, f: FileRec, contentSize: nat, origSize: nat, k: Crypto)
    requires i < |st.clients|
    ensures var st' := LastPacket(st, i, f, contentSize, origSize, k).st;
            && st'.clients == st.clients && st'.clientTable == st.clientTable
            && DifferAt(st.disk, st'.disk, f.path)
  {
  }

  lemma SetValidIsolated(st: State, i: nat, j: nat, valid: bool, a: nat)
    requires i < |st.clients| && j < |st.clients[i].files| && a < |st.clients| && a != i
    ensures var st' := SetValid(st, i, j, valid);
            && |st'.clients| == |st.clients| && st'.clients[a] == st.clients[a]
            && st'.clients[i].files[j].path == st.clients[i].files[j].path
            && st'.clientTable == st.clientTable && st'.disk == st.disk
  {
  }

  lemma WriteIsolated(disk: map<Bytes, Bytes>, path: Bytes, number: nat, content: Bytes)
    ensures DifferAt(disk, WritePacket(disk, path, number, content), path)
  {
  }

  lemma DifferTrans(c: map<Bytes, Bytes>, d: map<Bytes, Bytes>, e: map<Bytes, Bytes>, path: Bytes)
    requires DifferAt(c, d, path) && DifferAt(d, e, path)
    ensures DifferAt(c, e, path)
  {
    forall p: Bytes | p != path ensures SameAt(c, e, p) {
      assert SameAt(c, d, p) && SameAt(d, e, p);
    }
  }

  lemma KnownFileIsolated(st: State, i: nat, j: nat, r: Request, k: Crypto, a: nat)
    requires r.Packet? && i < |st.clients| && j < |st.clients[i].files| && a < |st.clients| && a != i
    ensures var st' := KnownFile(st, i, j, r, k).st;
            && |st'.clients| == |st.clients| && st'.clients[a] == st.clients[a]
            && st'.clientTable == st.clientTable
            && DifferAt(st.disk, st'.disk, st.clients[i].files[j].path)
  {
    hide SetValid, LastPacket;
    SetValidIsolated(st, i, j, false, a);
    var st' := if r.number == 1 then SetValid(st, i, j, false) else st;
    LastPacketIsolated(st', i, st'.clients[i].files[j], r.contentSize, r.origSize, k);
  }

  lemma NewFileIsolated(st: State, i: nat, f: FileRec, r: Request, k: Crypto, a: nat)
    requires r.Packet? && i < |st.clients| && a < |st.clients| && a != i
    ensures var st' := NewFile(st, i, f, r, k).st;
            && |st'.clients| == |st.clients| && st'.clients[a] == st.clients[a]
            && st'.clientTable == st.clientTable
            && DifferAt(st.disk, st'.disk, f.path)
  {
    hide LastPacket;
    var c := st.clients[i];
    var st' := Update(st, i, c.(files := c.files + [f])).(fileTable := st.fileTable + [f]);
    LastPacketIsolated(st', i, f, r.contentSize, r.origSize, k);
  }

  lemma PacketIsolated(st: State, r: Request, k: Crypto, a: nat)
    requires Inv(st) && r.Packet? && a < |st.clients| && st.clients[a].id != r.id
    ensures Untouched(st, ReceivePacket(st, r, k).st, a)
  {
    hide KnownFile, NewFile, PathOf, DifferAt, WritePacket;
    var t := TextOf(r.name);
    var i := IndexOfId(st.clients, r.id);
    if t.Some? && i < |st.clients| && !DirectoryName(t.value) {
      var path := PathOf(st.clients[i].name, t.value);
      var st1 := st.(disk := WritePacket(st.disk, path, r.number, r.content));
      WriteIsolated(st.disk, path, r.number, r.content);
      var j := IndexOfFile(st.clients[i].files, t.value);
      var st' := ReceivePacket(st, r, k).st;
      if j < |st.clients[i].files| {
        assert ClientOk(st.clients[i]);
        KnownFileIsolated(st1, i, j, r, k, a);
        DifferTrans(st.disk, st1.disk, st'.disk, path);
      } else if r.number == 1 {
        NewFileIsolated(st1, i, FileRec(r.id, t.value, path, false), r, k, a);
        DifferTrans(st.disk, st1.disk, st'.disk, path);
      }
      OneClientChanged(st, st', i, t.value, a);
    } else {
      StaysUntouched(st, a);
    }
  }

  lemma DeleteIsolated(st: State, i: nat, j: nat, a: nat)
    requires i < |st.clients| && j < |st.clients[i].files| && a < |st.clients| && a != i
    ensures var st' := DeleteFile(st, i, j).st;
            && |st'.clients| == |st.clients| && st'.clients[a] == st.clients[a]
            && st'.clientTable == st.clientTable
            && DifferAt(st.disk, st'.disk, st.clients[i].files[j].path)
  {
    hide WithoutName;
  }

  lemma VerdictIsolated(st: State, r: Request, a: nat)
    requires Inv(st) && r.Verdict? && a < |st.clients| && st.clients[a].id != r.id
    ensures Untouched(st, ReceiveVerdict(st, r.id, r.code, r.name).st, a)
  {
    hide SetValid, PathOf, DeleteFile, FolderSame;
    StaysUntouched(st, a);
    var t := TextOf(r.name);
    if t.Some? {
      var i := IndexOfId(st.clients, r.id);
      if i < |st.clients| {
        var j := IndexOfFile(st.clients[i].files, t.value);
        if j < |st.clients[i].files| {
          assert ClientOk(st.clients[i]);
          SetValidIsolated(st, i, j, true, a);
          DeleteIsolated(st, i, j, a);
          OneClientChanged(st, ReceiveVerdict(st, r.id, r.code, r.name).st, i, t.value, a);
        }
      }
    }
  }

  lemma Isolated(st: State, r: Request, draw: Draw, k: Crypto, a: nat)
    requires Inv(st) && a < |st.clients| && st.clients[a].id != r.id
    ensures Untouched(st, Serve(st, r, draw, k).st, a)
  {
    hide ReconnectClient, SetPublicKey, ReceivePacket, ReceiveVerdict;
    match r
    case Packet(_, _, _, _, _, _, _) => PacketIsolated(st, r, k, a);
    case Verdict(_, _, _) => VerdictIsolated(st, r, a);
    case Reconnect(_, _) => ReconnectIsolated(st, r, draw, k, a);
    case PublicKey(_, _, _) => PublicKeyIsolated(st, r, draw, k, a);
    case _ =>
  }

  lemma UntouchedTrans(st: State, st1: State, st2: State, a: nat)
    requires Untouched(st, st1, a) && Untouched(st1, st2, a)
    ensures Untouched(st, st2, a)
  {
    hide PathOf;
    forall file: Bytes ensures SameAt(st.disk, st2.disk, PathOf(st.clients[a].name, file)) {
      assert SameAt(st.disk, st1.disk, PathOf(st.clients[a].name, file));
      assert SameAt(st1.disk, st2.disk, PathOf(st.clients[a].name, file));
    }
  }

  /** However many requests others send, in whatever order. */
  lemma {:induction false} RunIsolated(st: State, es: seq<Event>, k: Crypto, a: nat)
    requires Inv(st) && LegalRun(st, es, k) && a < |st.clients|
    requires forall e :: e in es ==> e.Request? && e.request.id != st.clients[a].id
    ensures Untouched(st, Run(st, es, k), a)
    decreases |es|
  {
    hide Inv, Legal, Serve, Untouched;
    UntouchedIs(st, st, a);
    if es == [] {
      StaysUntouched(st, a);
    } else {
      var st1 := After(st, es[0], k);
      Isolated(st, es[0].request, es[0].draw, k, a);
      UntouchedIs(st, st1, a);
      StepKeeps(st, es[0], k);
      RunIsolated(st1, es[1..], k, a);
      UntouchedTrans(st, st1, Run(st1, es[1..], k), a);
    }
  }

  lemma StaysUntouched(st: State, a: nat)
    requires Inv(st) && a < |st.clients|
    ensures Untouched(st, st, a)
  {
  }

  lemma UntouchedIs(st: State, st': State, a: nat)
    ensures Untouched(st, st', a) ==> a < |st.clients| <= |st'.clients| && st'.clients[a] == st.clients[a]
  {
  }
}
