/** Runs after which tables and memory disagree. In the first, two clients begin to upload a file of
    the same name, and one of them has its own deleted. In the second, a client has two files
    approved and begins to upload the first again. */
module Divergence {
  import opened Octets
  import opened Text
  import opened Wire
  import opened Cryptography
  import opened ServerModel
  import opened ServerInvariant
  import ServerSync
  import opened Views
  import ClientModel

  datatype Example = Example(first: Bytes, second: Bytes, file: Bytes, a: Bytes, b: Bytes, part: Bytes)

  predicate Proper(e: Example) {
    && PlainText(e.first) && PlainText(e.second) && PlainText(e.file) && e.first != e.second && e.a != e.b
    && |e.first| <= NAME_SIZE && |e.second| <= NAME_SIZE && |e.file| <= NAME_SIZE
    && |e.a| == |e.b| == CLIENT_ID_SIZE
  }

  function Registration(name: Bytes, id: Bytes): Event {
    Event.Request(Register(ZeroOctets(CLIENT_ID_SIZE), ClientModel.Field(name)), Draw(id, []))
  }

  /** The first of two packets. */
  function Beginning(id: Bytes, e: Example): Event {
    Event.Request(Packet(id, 1, 1, 1, 2, ClientModel.Field(e.file), e.part), Draw([], []))
  }

  function Deletion(id: Bytes, e: Example): Event {
    Event.Request(Verdict(id, 902, ClientModel.Field(e.file)), Draw([], []))
  }

  function Story(e: Example): seq<Event> {
    [Registration(e.first, e.a), Registration(e.second, e.b), Beginning(e.a, e), Beginning(e.b, e), Deletion(e.a, e)]
  }

  // ---- The states of the run ----

  function RecordOf(name: Bytes, id: Bytes, files: seq<FileRec>): ClientRec {
    ClientRec(id, name, [], [], files)
  }

  function FileRow(name: Bytes, id: Bytes, e: Example): FileRec {
    FileRec(id, e.file, PathOf(name, e.file), false)
  }

  function Rows(e: Example): seq<ClientRow> {
    [ClientRow(e.a, e.first, [], []), ClientRow(e.b, e.second, [], [])]
  }

  function Registered(e: Example): State {
    State([RecordOf(e.first, e.a, []), RecordOf(e.second, e.b, [])], Rows(e), [], map[])
  }

  function Begun(e: Example): State {
    var f, g := FileRow(e.first, e.a, e), FileRow(e.second, e.b, e);
    State([RecordOf(e.first, e.a, [f]), RecordOf(e.second, e.b, [g])], Rows(e), [f, g],
          map[][f.path := e.part][g.path := e.part])
  }

  function Deleted(e: Example): State {
    var f, g := FileRow(e.first, e.a, e), FileRow(e.second, e.b, e);
    State([RecordOf(e.first, e.a, []), RecordOf(e.second, e.b, [g])], Rows(e), [],
          map[][f.path := e.part][g.path := e.part] - {f.path})
  }

  lemma Registers(st: State, name: Bytes, id: Bytes, k: Crypto)
    requires PlainText(name) && |name| <= NAME_SIZE && |id| == CLIENT_ID_SIZE
    requires forall i :: 0 <= i < |st.clients| ==> st.clients[i].name != name && st.clients[i].id != id
    requires forall i :: 0 <= i < |st.clientTable| ==> st.clientTable[i].id != id
    ensures Legal(st, Register(ZeroOctets(CLIENT_ID_SIZE), ClientModel.Field(name)), Draw(id, []))
    ensures After(st, Registration(name, id), k)
         == st.(clients := st.clients + [RecordOf(name, id, [])],
                clientTable := st.clientTable + [ClientRow(id, name, [], [])])
  {
    hide TextOf, ValidUtf8, Pad, ZeroOctets;
    FieldIsRead(name);
    SizeOfZeros();
    assert !HasClientKey(st.clientTable, id);
    assert IndexOfName(st.clients, name) == |st.clients|;
  }

  lemma SizeOfZeros()
    ensures |ZeroOctets(CLIENT_ID_SIZE)| == CLIENT_ID_SIZE
  {
  }

  lemma Begins(st: State, i: nat, e: Example, k: Crypto)
    requires Proper(e) && i < |st.clients| && st.clients[i].files == []
    requires forall j :: 0 <= j < i ==> st.clients[j].id != st.clients[i].id
    requires forall r :: 0 <= r < |st.fileTable| ==> st.fileTable[r].owner != st.clients[i].id
    requires |st.clients[i].id| == CLIENT_ID_SIZE
    ensures var c := st.clients[i];
            var f := FileRec(c.id, e.file, PathOf(c.name, e.file), false);
            && Legal(st, Packet(c.id, 1, 1, 1, 2, ClientModel.Field(e.file), e.part), Draw([], []))
            && After(st, Beginning(c.id, e), k)
               == State(st.clients[i := c.(files := [f])], st.clientTable,
                        st.fileTable + [f], st.disk[f.path := e.part])
  {
    hide TextOf, ValidUtf8, Pad, PathOf;
    FieldIsRead(e.file);
    var c := st.clients[i];
    assert IndexOfId(st.clients, c.id) == i;
    assert !HasFileKey(st.fileTable, c.id, e.file);
    assert IndexOfFile(c.files, e.file) == 0;
    var f := FileRec(c.id, e.file, PathOf(c.name, e.file), false);
    assert [] + [f] == [f];
  }

  lemma FirstSteps(e: Example, k: Crypto)
    requires Proper(e)
    ensures LegalRun(Initial(map[]), Story(e)[..2], k)
    ensures Run(Initial(map[]), Story(e)[..2], k) == Registered(e)
  {
    hide Legal, After, Registration, ClientModel.Field, PlainText;
    var st0 := Initial(map[]);
    Registers(st0, e.first, e.a, k);
    var st1 := After(st0, Registration(e.first, e.a), k);
    Registers(st1, e.second, e.b, k);
    var st2 := After(st1, Registration(e.second, e.b), k);
    assert st2 == Registered(e);
    RegistrationIs(e.first, e.a);
    RegistrationIs(e.second, e.b);
    TwoEvents(st0, Registration(e.first, e.a), Registration(e.second, e.b), k);
    assert Story(e)[..2] == [Registration(e.first, e.a), Registration(e.second, e.b)];
  }

  lemma RegistrationIs(name: Bytes, id: Bytes)
    ensures var r := Registration(name, id);
            && r.Request? && r.draw == Draw(id, [])
            && r.request == Register(ZeroOctets(CLIENT_ID_SIZE), ClientModel.Field(name))
  {
  }

  ghost predicate LegalEvent(st: State, v: Event) {
    v.Request? ==> Legal(st, v.request, v.draw)
  }

  lemma TwoEvents(st: State, v: Event, w: Event, k: Crypto)
    requires LegalEvent(st, v) && LegalEvent(After(st, v, k), w)
    ensures LegalRun(st, [v, w], k) && Run(st, [v, w], k) == After(After(st, v, k), w, k)
  {
    hide After, Legal;
    OneEvent(After(st, v, k), w, k);
    assert [v, w][1..] == [w];
  }

  lemma OneEvent(st: State, v: Event, k: Crypto)
    requires LegalEvent(st, v)
    ensures LegalRun(st, [v], k) && Run(st, [v], k) == After(st, v, k)
  {
    hide After, Legal;
    assert [v][1..] == [];
  }

  lemma NextSteps(e: Example, k: Crypto)
    requires Proper(e)
    ensures LegalRun(Registered(e), Story(e)[2..4], k)
    ensures Run(Registered(e), Story(e)[2..4], k) == Begun(e)
  {
    hide Legal, After, ClientModel.Field, PlainText, PathOf;
    var st2 := Registered(e);
    Begins(st2, 0, e, k);
    var st3 := After(st2, Beginning(e.a, e), k);
    assert st3.clients == [RecordOf(e.first, e.a, [FileRow(e.first, e.a, e)]), RecordOf(e.second, e.b, [])];
    Begins(st3, 1, e, k);
    TwoEvents(st2, Beginning(e.a, e), Beginning(e.b, e), k);
    assert Story(e)[2..4] == [Beginning(e.a, e), Beginning(e.b, e)];
  }

  lemma LastStep(e: Example, k: Crypto)
    requires Proper(e)
    ensures LegalRun(Begun(e), Story(e)[4..], k)
    ensures Run(Begun(e), Story(e)[4..], k) == Deleted(e)
  {
    hide TextOf, ValidUtf8, Pad, PathOf;
    FieldIsRead(e.file);
    var st := Begun(e);
    var f, g := FileRow(e.first, e.a, e), FileRow(e.second, e.b, e);
    assert IndexOfId(st.clients, e.a) == 0;
    assert IndexOfFile([f], e.file) == 0;
    assert [f][1..] == [] && [f, g][1..] == [g] && [g][1..] == [];
    assert WithoutName([g], e.file) == [];
    assert WithoutName([f, g], e.file) == [];
    assert After(st, Deletion(e.a, e), k) == Deleted(e);
    OneEvent(st, Deletion(e.a, e), k);
    assert Story(e)[4..] == [Deletion(e.a, e)];
  }

  lemma {:induction false} RunConcat(st: State, es: seq<Event>, fs: seq<Event>, k: Crypto)
    requires LegalRun(st, es, k) && LegalRun(Run(st, es, k), fs, k)
    ensures LegalRun(st, es + fs, k) && Run(st, es + fs, k) == Run(Run(st, es, k), fs, k)
    decreases |es|
  {
    hide After, Legal;
    if es == [] {
      assert es + fs == fs;
    } else {
      RunConcat(After(st, es[0], k), es[1..], fs, k);
      assert (es + fs)[1..] == es[1..] + fs;
    }
  }

  /** The run is possible. After it the second client's file is listed and on disk, but it has no
      row, so a restart forgets it. */
  lemma TablesDiverge(e: Example, k: Crypto)
    requires Proper(e)
    ensures LegalRun(Initial(map[]), Story(e), k)
    ensures var st := Run(Initial(map[]), Story(e), k);
            var g := FileRow(e.second, e.b, e);
            && |st.clients| == |Restart(st).clients| == 2
            && st.clients[1].files == [g] && g.path in st.disk
            && !ServerSync.Synced(st) && Restart(st) != st && Restart(st).clients[1].files == []
  {
    hide LegalRun, Run, ServerSync.Synced, Restart;
    FirstSteps(e, k);
    NextSteps(e, k);
    LastStep(e, k);
    RunConcat(Initial(map[]), Story(e)[..2], Story(e)[2..4], k);
    RunConcat(Initial(map[]), Story(e)[..2] + Story(e)[2..4], Story(e)[4..], k);
    assert Story(e)[..2] + Story(e)[2..4] + Story(e)[4..] == Story(e);
    InitialOk(map[]);
    RunKeeps(Initial(map[]), Story(e), k);
    var st := Deleted(e);
    ServerSync.RestartIdentity(st);
    Forgotten(e);
  }

  lemma Forgotten(e: Example)
    requires Proper(e)
    ensures var st := Deleted(e);
            var g := FileRow(e.second, e.b, e);
            && |Restart(st).clients| == 2 && Restart(st).clients[1].files == []
            && g.path in st.disk
  {
    hide PathOf;
    var st := Deleted(e);
    ReloadAt(st.clientTable, st.fileTable, 1);
    if PathOf(e.first, e.file) == PathOf(e.second, e.file) {
      PathInjective(e.first, e.file, e.second, e.file);
    }
  }

  // ---- One client, two files ----

  datatype TwoFiles = TwoFiles(
    name: Bytes, id: Bytes, publicKey: Bytes, aesKey: Bytes,
    first: Bytes, firstCipher: Bytes, firstPlain: Bytes,
    second: Bytes, secondCipher: Bytes, secondPlain: Bytes, part: Bytes)

  predicate Suitable(t: TwoFiles, k: Crypto) {
    && PlainText(t.name) && PlainText(t.first) && PlainText(t.second) && t.first != t.second
    && |t.name| <= NAME_SIZE && |t.first| <= NAME_SIZE && |t.second| <= NAME_SIZE && |t.id| == CLIENT_ID_SIZE
    && k.decrypt(t.aesKey, t.firstCipher) == Some(t.firstPlain)
    && k.decrypt(t.aesKey, t.secondCipher) == Some(t.secondPlain)
  }

  function KeySent(t: TwoFiles): Event {
    Event.Request(PublicKey(t.id, ClientModel.Field(t.name), t.publicKey), Draw([], t.aesKey))
  }

  function Uploaded(t: TwoFiles, file: Bytes, cipher: Bytes, plain: Bytes): Event {
    Event.Request(Packet(t.id, |cipher|, |plain|, 1, 1, ClientModel.Field(file), cipher), Draw([], []))
  }

  function Approved(t: TwoFiles, file: Bytes): Event {
    Event.Request(Verdict(t.id, 900, ClientModel.Field(file)), Draw([], []))
  }

  function BegunAgain(t: TwoFiles): Event {
    Event.Request(Packet(t.id, 1, 1, 1, 2, ClientModel.Field(t.first), t.part), Draw([], []))
  }

  /** What the client program sends in its first session ... */
  function FirstSession(t: TwoFiles): seq<Event> {
    [Registration(t.name, t.id)] + [KeySent(t)]
    + [Uploaded(t, t.first, t.firstCipher, t.firstPlain)] + [Approved(t, t.first)]
  }

  /** ... and then, the requests that draw new keys left out, with another file, and again with
      the first. */
  function Sessions(t: TwoFiles): seq<Event> {
    FirstSession(t) + [Uploaded(t, t.second, t.secondCipher, t.secondPlain)] + [Approved(t, t.second)]
    + [BegunAgain(t)]
  }

  function Entry(t: TwoFiles, file: Bytes, valid: bool): FileRec {
    FileRec(t.id, file, PathOf(t.name, file), valid)
  }

  /** The server with this one client. */
  function Single(t: TwoFiles, files: seq<FileRec>, rows: seq<FileRec>, disk: map<Bytes, Bytes>): State {
    State([ClientRec(t.id, t.name, t.publicKey, t.aesKey, files)],
          [ClientRow(t.id, t.name, t.publicKey, t.aesKey)], rows, disk)
  }

  lemma OneMoreEvent(st: State, es: seq<Event>, mid: State, v: Event, k: Crypto)
    requires LegalRun(st, es, k) && Run(st, es, k) == mid && LegalEvent(mid, v)
    ensures LegalRun(st, es + [v], k) && Run(st, es + [v], k) == After(mid, v, k)
  {
    hide After, Legal;
    OneEvent(mid, v, k);
    RunConcat(st, es, [v], k);
  }

  lemma KeyArrives(t: TwoFiles, k: Crypto)
    requires Suitable(t, k)
    ensures var st := State([RecordOf(t.name, t.id, [])], [ClientRow(t.id, t.name, [], [])], [], map[]);
            LegalEvent(st, KeySent(t)) && After(st, KeySent(t), k) == Single(t, [], [], map[])
  {
    hide TextOf, ValidUtf8, Pad;
    FieldIsRead(t.name);
  }

  lemma FileArrives(t: TwoFiles, files: seq<FileRec>, rows: seq<FileRec>, disk: map<Bytes, Bytes>,
                    file: Bytes, cipher: Bytes, plain: Bytes, k: Crypto)
    requires PlainText(file) && |file| <= NAME_SIZE && |t.id| == CLIENT_ID_SIZE
    requires k.decrypt(t.aesKey, cipher) == Some(plain)
    requires forall j :: 0 <= j < |files| ==> files[j].name != file
    requires forall r :: 0 <= r < |rows| ==> rows[r].name != file
    ensures var st, v, f := Single(t, files, rows, disk), Uploaded(t, file, cipher, plain), Entry(t, file, false);
            && LegalEvent(st, v)
            && After(st, v, k) == Single(t, files + [f], rows + [f], disk[f.path := cipher][f.path := plain])
  {
    hide TextOf, ValidUtf8, Pad, PathOf, CrcAnswer;
    FieldIsRead(file);
    assert IndexOfFile(files, file) == |files|;
    assert !HasFileKey(rows, t.id, file);
  }

  lemma FileApproved(t: TwoFiles, files: seq<FileRec>, rows: seq<FileRec>, disk: map<Bytes, Bytes>, j: nat, k: Crypto)
    requires |t.id| == CLIENT_ID_SIZE && j < |files| && !files[j].valid
    requires PlainText(files[j].name) && |files[j].name| <= NAME_SIZE
    requires forall i :: 0 <= i < j ==> files[i].name != files[j].name
    ensures var st, v := Single(t, files, rows, disk), Approved(t, files[j].name);
            && LegalEvent(st, v)
            && After(st, v, k) == Single(t, files[j := files[j].(valid := true)], WithValid(rows, t.id, true), disk)
  {
    hide TextOf, ValidUtf8, Pad;
    FieldIsRead(files[j].name);
    assert IndexOfFile(files, files[j].name) == j;
  }

  lemma FileBegunAgain(t: TwoFiles, files: seq<FileRec>, rows: seq<FileRec>, disk: map<Bytes, Bytes>, k: Crypto)
    requires |t.id| == CLIENT_ID_SIZE && PlainText(t.first) && |t.first| <= NAME_SIZE
    requires files != [] && files[0] == Entry(t, t.first, true)
    ensures var st, v, f := Single(t, files, rows, disk), BegunAgain(t), Entry(t, t.first, false);
            && LegalEvent(st, v)
            && After(st, v, k) == Single(t, files[0 := f], WithValid(rows, t.id, false), disk[f.path := t.part])
  {
    hide TextOf, ValidUtf8, Pad, PathOf, WithValid;
    FieldIsRead(t.first);
    assert IndexOfFile(files, t.first) == 0;
  }

  lemma BothFlags(f: FileRec, g: FileRec, id: Bytes, valid: bool)
    requires f.owner == g.owner == id
    ensures WithValid([f], id, valid) == [f.(valid := valid)]
    ensures WithValid([f, g], id, valid) == [f.(valid := valid), g.(valid := valid)]
  {
    assert [f, g][1..] == [g] && [g][1..] == [] && [f][1..] == [];
    assert WithValid([g], id, valid) == [g.(valid := valid)] + WithValid([], id, valid);
  }

  /** The client lists both files, the second as valid; in the table neither is. */
  function Spoiled(t: TwoFiles, disk: map<Bytes, Bytes>): State {
    Single(t, [Entry(t, t.first, false), Entry(t, t.second, true)],
           [Entry(t, t.first, false), Entry(t, t.second, false)], disk)
  }

  lemma FirstSessionEnds(t: TwoFiles, k: Crypto) returns (disk: map<Bytes, Bytes>)
    requires Suitable(t, k)
    ensures var f := Entry(t, t.first, true);
            && LegalRun(Initial(map[]), FirstSession(t), k)
            && Run(Initial(map[]), FirstSession(t), k) == Single(t, [f], [f], disk)
  {
    hide After, Legal, LegalRun, Run, Registration, KeySent, Uploaded, Approved, PlainText, PathOf;
    hide ClientModel.Field, WithValid;
    var st0 := Initial(map[]);
    var f := Entry(t, t.first, false);
    var f' := f.(valid := true);
    Registers(st0, t.name, t.id, k);
    RegistrationIs(t.name, t.id);
    OneEvent(st0, Registration(t.name, t.id), k);
    KeyArrives(t, k);
    var es := [Registration(t.name, t.id)];
    var st1 := State([RecordOf(t.name, t.id, [])], [ClientRow(t.id, t.name, [], [])], [], map[]);
    assert After(st0, Registration(t.name, t.id), k) == st1;
    OneMoreEvent(st0, es, st1, KeySent(t), k);
    es := es + [KeySent(t)];
    var v := Uploaded(t, t.first, t.firstCipher, t.firstPlain);
    FileArrives(t, [], [], map[], t.first, t.firstCipher, t.firstPlain, k);
    OneMoreEvent(st0, es, Single(t, [], [], map[]), v, k);
    es := es + [v];
    assert [] + [f] == [f] && [f][0 := f'] == [f'];
    disk := map[][f.path := t.firstCipher][f.path := t.firstPlain];
    FileApproved(t, [f], [f], disk, 0, k);
    OneMoreEvent(st0, es, Single(t, [f], [f], disk), Approved(t, t.first), k);
    BothFlags(f, f, t.id, true);
  }

  lemma SessionsEnd(t: TwoFiles, k: Crypto) returns (disk: map<Bytes, Bytes>)
    requires Suitable(t, k)
    ensures LegalRun(Initial(map[]), Sessions(t), k) && Run(Initial(map[]), Sessions(t), k) == Spoiled(t, disk)
  {
    hide After, Legal, LegalRun, Run, FirstSession, Uploaded, Approved, BegunAgain, PlainText, PathOf;
    hide ClientModel.Field, WithValid;
    var st0, es := Initial(map[]), FirstSession(t);
    var f, g' := Entry(t, t.first, true), Entry(t, t.second, true);
    var g := g'.(valid := false);
    var disk1 := FirstSessionEnds(t, k);
    var v := Uploaded(t, t.second, t.secondCipher, t.secondPlain);
    FileArrives(t, [f], [f], disk1, t.second, t.secondCipher, t.secondPlain, k);
    OneMoreEvent(st0, es, Single(t, [f], [f], disk1), v, k);
    es := es + [v];
    var f' := Entry(t, t.first, false);
    assert [f] + [g] == [f, g] && [f, g][1 := g'] == [f, g'] && [f, g'][0 := f'] == [f', g'];
    var disk2 := disk1[g.path := t.secondCipher][g.path := t.secondPlain];
    FileApproved(t, [f, g], [f, g], disk2, 1, k);
    OneMoreEvent(st0, es, Single(t, [f, g], [f, g], disk2), Approved(t, t.second), k);
    es := es + [Approved(t, t.second)];
    BothFlags(f, g, t.id, true);
    FileBegunAgain(t, [f, g'], [f, g'], disk2, k);
    OneMoreEvent(st0, es, Single(t, [f, g'], [f, g'], disk2), BegunAgain(t), k);
    BothFlags(f, g', t.id, false);
    disk := disk2[f.path := t.part];
  }

  /** The run is possible. After it the
      second file is listed as valid, but its row is not valid any more, and a restart takes the
      flag away from the file. */
  lemma FlagsDiverge(t: TwoFiles, k: Crypto)
    requires Suitable(t, k)
    ensures LegalRun(Initial(map[]), Sessions(t), k)
    ensures var st := Run(Initial(map[]), Sessions(t), k);
            && |st.clients| == |Restart(st).clients| == 1
            && EntryOf(st.clients[0].files, t.second) == Some(true)
            && EntryOf(Restart(st).clients[0].files, t.second) == Some(false)
            && !ServerSync.Synced(st)
  {
    hide LegalRun, Run, ServerSync.Synced, Sessions, PlainText;
    var disk := SessionsEnd(t, k);
    var st := Spoiled(t, disk);
    InitialOk(map[]);
    RunKeeps(Initial(map[]), Sessions(t), k);
    ServerSync.RestartIdentity(st);
    RestartForgetsFlag(t, disk);
  }

  lemma RestartForgetsFlag(t: TwoFiles, disk: map<Bytes, Bytes>)
    requires t.first != t.second
    ensures var st := Spoiled(t, disk);
            && |Restart(st).clients| == 1
            && EntryOf(st.clients[0].files, t.second) == Some(true)
            && EntryOf(Restart(st).clients[0].files, t.second) == Some(false)
  {
    hide PathOf;
    var st := Spoiled(t, disk);
    ReloadAt(st.clientTable, st.fileTable, 0);
    var f, g := Entry(t, t.first, false), Entry(t, t.second, false);
    assert [f, g][1..] == [g] && [g][1..] == [];
    assert FilesOf([g], t.id) == [g] + FilesOf([], t.id);
    assert FilesOf([f, g], t.id) == [f] + FilesOf([g], t.id) == [f, g];
    assert Restart(st).clients[0].files == [f, g];
    assert IndexOfFile([f, g], t.second) == 1 && IndexOfFile([f, Entry(t, t.second, true)], t.second) == 1;
  }
}
