/** The server's state and what each request does to it (Server/request.py, Server/sql.py,
    Server/server.py). Handlers run one at a time, so a server run is a sequence of these steps. */
module ServerModel {
  import opened Octets
  import opened Text
  import opened Wire
  import opened Cryptography
  import Checksum

  // ---- State ----

  datatype FileRec = FileRec(owner: Bytes, name: Bytes, path: Bytes, valid: bool)

  datatype ClientRec = ClientRec(id: Bytes, name: Bytes, publicKey: Bytes, aesKey: Bytes, files: seq<FileRec>)

  /** A row of the `clients` table, without the last-seen date. */
  datatype ClientRow = ClientRow(id: Bytes, name: Bytes, publicKey: Bytes, aesKey: Bytes)

  /** The lists in memory, the two tables in insertion order, and the files on disk by path. */
  datatype State = State(
    clients: seq<ClientRec>,
    clientTable: seq<ClientRow>,
    fileTable: seq<FileRec>,
    disk: map<Bytes, Bytes>)

  /** The random values drawn while a request is handled. */
  datatype Draw = Draw(uuid: Bytes, aesKey: Bytes)

  datatype Answer = Answer(code: nat, size: nat, payload: Bytes)

  /** A handler either finishes, with or without an answer, or raises an exception. The state
      includes what was changed before the exception. */
  datatype Outcome = Done(st: State, reply: Option<Answer>) | Raised(st: State)

  /** The service of one request: an exception drains the input and is answered by an error. */
  datatype Service = Service(st: State, reply: Option<Answer>, drained: bool)

  // ---- Searching ----

  function IndexOfName(clients: seq<ClientRec>, name: Bytes): (i: nat)
    ensures i <= |clients|
    ensures i < |clients| ==> clients[i].name == name
    ensures forall j :: 0 <= j < i ==> clients[j].name != name
  {
    if clients == [] || clients[0].name == name then 0 else 1 + IndexOfName(clients[1..], name)
  }

  function IndexOfId(clients: seq<ClientRec>, id: Bytes): (i: nat)
    ensures i <= |clients|
    ensures i < |clients| ==> clients[i].id == id
    ensures forall j :: 0 <= j < i ==> clients[j].id != id
  {
    if clients == [] || clients[0].id == id then 0 else 1 + IndexOfId(clients[1..], id)
  }

  function IndexOfFile(files: seq<FileRec>, name: Bytes): (i: nat)
    ensures i <= |files|
    ensures i < |files| ==> files[i].name == name
    ensures forall j :: 0 <= j < i ==> files[j].name != name
  {
    if files == [] || files[0].name == name then 0 else 1 + IndexOfFile(files[1..], name)
  }

  // ---- Paths ----

  const SLASH: Octet := 0x2f

  /** The bytes of "clients files". */
  const FOLDER: Bytes := [0x63, 0x6c, 0x69, 0x65, 0x6e, 0x74, 0x73, 0x20, 0x66, 0x69, 0x6c, 0x65, 0x73]

  function PathOf(client: Bytes, file: Bytes): Bytes {
    FOLDER + [SLASH] + client + [SLASH] + file
  }

  /** Names that denote a directory: opening such a path for writing fails. */
  predicate DirectoryName(name: Bytes) {
    name == [] || name == [0x2e] || name == [0x2e, 0x2e]
  }

  // ---- The tables (Server/sql.py) ----

  function WithAesKey(rows: seq<ClientRow>, id: Bytes, key: Bytes): (r: seq<ClientRow>)
    ensures |r| == |rows|
  {
    if rows == [] then []
    else [if rows[0].id == id then rows[0].(aesKey := key) else rows[0]] + WithAesKey(rows[1..], id, key)
  }

  function WithPublicKey(rows: seq<ClientRow>, id: Bytes, key: Bytes): (r: seq<ClientRow>)
    ensures |r| == |rows|
  {
    if rows == [] then []
    else [if rows[0].id == id then rows[0].(publicKey := key) else rows[0]] + WithPublicKey(rows[1..], id, key)
  }

  /** `set_valid_crc` updates every file of the client. */
  function WithValid(rows: seq<FileRec>, id: Bytes, valid: bool): (r: seq<FileRec>)
    ensures |r| == |rows|
  {
    if rows == [] then []
    else [if rows[0].owner == id then rows[0].(valid := valid) else rows[0]] + WithValid(rows[1..], id, valid)
  }

  /** `delete_file` deletes the rows of that file name, whoever owns them. */
  function WithoutName(rows: seq<FileRec>, name: Bytes): (r: seq<FileRec>)
    ensures |r| <= |rows|
  {
    if rows == [] then []
    else (if rows[0].name == name then [] else [rows[0]]) + WithoutName(rows[1..], name)
  }

  function FilesOf(rows: seq<FileRec>, id: Bytes): (r: seq<FileRec>)
    ensures |r| <= |rows|
  {
    if rows == [] then []
    else (if rows[0].owner == id then [rows[0]] else []) + FilesOf(rows[1..], id)
  }

  predicate HasClientKey(rows: seq<ClientRow>, id: Bytes) {
    exists i :: 0 <= i < |rows| && rows[i].id == id
  }

  predicate HasFileKey(rows: seq<FileRec>, owner: Bytes, name: Bytes) {
    exists i :: 0 <= i < |rows| && rows[i].owner == owner && rows[i].name == name
  }

  // ---- Handlers (Server/request.py) ----

  function Update(st: State, i: nat, c: ClientRec): State
    requires i < |st.clients|
  {
    st.(clients := st.clients[i := c])
  }

  /** 825 */
  function RegisterClient(st: State, field: Bytes, draw: Draw): Outcome {
    match TextOf(field)
    case None => Raised(st)
    case Some(name) =>
      if IndexOfName(st.clients, name) < |st.clients| then Raised(st)
      else
        var listed := st.(clients := st.clients + [ClientRec(draw.uuid, name, [], [], [])]);
        if HasClientKey(st.clientTable, draw.uuid) then Raised(listed)
        else
          Done(listed.(clientTable := st.clientTable + [ClientRow(draw.uuid, name, [], [])]),
               Some(Answer(1600, CLIENT_ID_SIZE, draw.uuid)))
  }

  /** `create_send_aes`: the new key is stored before it is encrypted for the client. */
  function SendAes(st: State, i: nat, key: Bytes, code: nat, k: Crypto): Outcome
    requires i < |st.clients|
  {
    var c := st.clients[i].(aesKey := key);
    var st' := Update(st, i, c).(clientTable := WithAesKey(st.clientTable, c.id, key));
    match k.wrap(c.publicKey, key)
    case None => Raised(st')
    case Some(e) => Done(st', Some(Answer(code, CLIENT_ID_SIZE + |e|, c.id + e)))
  }

  /** 827 */
  function ReconnectClient(st: State, id: Bytes, field: Bytes, draw: Draw, k: Crypto): Outcome {
    match TextOf(field)
    case None => Raised(st)
    case Some(name) =>
      var i := IndexOfName(st.clients, name);
      if i == |st.clients| then Done(st, Some(Answer(1606, CLIENT_ID_SIZE, id)))
      else if st.clients[i].id != id then Raised(st)
      else if !k.importable(st.clients[i].publicKey) then
        Done(st, Some(Answer(1606, CLIENT_ID_SIZE, st.clients[i].id)))
      else SendAes(st, i, draw.aesKey, 1605, k)
  }

  /** 826 */
  function SetPublicKey(st: State, id: Bytes, field: Bytes, key: Bytes, draw: Draw, k: Crypto): Outcome {
    match TextOf(field)
    case None => Raised(st)
    case Some(name) =>
      var i := IndexOfName(st.clients, name);
      if i == |st.clients| || st.clients[i].id != id then Raised(st)
      else
        var st' := Update(st, i, st.clients[i].(publicKey := key))
                   .(clientTable := WithPublicKey(st.clientTable, id, key));
        SendAes(st', i, draw.aesKey, 1602, k)
  }

  function CrcAnswer(id: Bytes, contentSize: nat, name: Bytes, plain: Bytes): Answer {
    Answer(1603, CLIENT_ID_SIZE + 4 + NAME_SIZE + 4,
           id + LittleEndian(contentSize, 4) + Pad(name, NAME_SIZE)
           + LittleEndian(Nat(Checksum.Cksum(plain)), 4))
  }

  /** `last_packet`: the file is decrypted in place, and only then is its size compared. */
  function LastPacket(st: State, i: nat, f: FileRec, contentSize: nat, origSize: nat, k: Crypto): Outcome
    requires i < |st.clients|
  {
    if f.path !in st.disk then Raised(st)
    else
      match k.decrypt(st.clients[i].aesKey, st.disk[f.path])
      case None => Raised(st)
      case Some(plain) =>
        var st' := st.(disk := st.disk[f.path := plain]);
        if |plain| != origSize then Raised(st')
        else Done(st', Some(CrcAnswer(st.clients[i].id, contentSize, f.name, plain)))
  }

  function WritePacket(disk: map<Bytes, Bytes>, path: Bytes, number: nat, content: Bytes): map<Bytes, Bytes> {
    disk[path := if number != 1 && path in disk then disk[path] + content else content]
  }

  /** 828 */
  function ReceivePacket(st: State, r: Request, k: Crypto): Outcome
    requires r.Packet?
  {
    match TextOf(r.name)
    case None => Raised(st)
    case Some(name) =>
      var i := IndexOfId(st.clients, r.id);
      if i == |st.clients| || DirectoryName(name) then Raised(st)
      else
        var path := PathOf(st.clients[i].name, name);
        var st1 := st.(disk := WritePacket(st.disk, path, r.number, r.content));
        var j := IndexOfFile(st.clients[i].files, name);
        if j < |st.clients[i].files| then KnownFile(st1, i, j, r, k)
        else if r.number != 1 then Raised(st1)
        else NewFile(st1, i, FileRec(r.id, name, path, false), r, k)
  }

  function KnownFile(st: State, i: nat, j: nat, r: Request, k: Crypto): Outcome
    requires r.Packet? && i < |st.clients| && j < |st.clients[i].files|
  {
    var st' := if r.number == 1 then SetValid(st, i, j, false) else st;
    if r.number == r.total then
      LastPacket(st', i, st'.clients[i].files[j], r.contentSize, r.origSize, k)
    else Done(st', None)
  }

  /** The flag of one file in memory, and of all files of the client in the table. */
  function SetValid(st: State, i: nat, j: nat, valid: bool): (st': State)
    requires i < |st.clients| && j < |st.clients[i].files|
    ensures |st'.clients| == |st.clients| && |st'.clients[i].files| == |st.clients[i].files|
  {
    var c := st.clients[i];
    Update(st, i, c.(files := c.files[j := c.files[j].(valid := valid)]))
    .(fileTable := WithValid(st.fileTable, c.id, valid))
  }

  function NewFile(st: State, i: nat, f: FileRec, r: Request, k: Crypto): Outcome
    requires r.Packet? && i < |st.clients|
  {
    if HasFileKey(st.fileTable, f.owner, f.name) then Raised(st)
    else
      var c := st.clients[i];
      var st' := Update(st, i, c.(files := c.files + [f])).(fileTable := st.fileTable + [f]);
      if r.number == r.total then LastPacket(st', i, f, r.contentSize, r.origSize, k)
      else Done(st', None)
  }

  function ThankYou(id: Bytes): Answer {
    Answer(1604, CLIENT_ID_SIZE, id)
  }

  /** 900, 901 and 902 */
  function ReceiveVerdict(st: State, id: Bytes, code: nat, field: Bytes): Outcome {
    match TextOf(field)
    case None => Raised(st)
    case Some(name) =>
      var i := IndexOfId(st.clients, id);
      if i == |st.clients| then Raised(st)
      else
        var j := IndexOfFile(st.clients[i].files, name);
        if j == |st.clients[i].files| || st.clients[i].files[j].valid then Raised(st)
        else if code == 900 then Done(SetValid(st, i, j, true), Some(ThankYou(id)))
        else if code == 902 then DeleteFile(st, i, j)
        else Done(st, None)
  }

  /** The file leaves the disk and the list before its rows are deleted; that no row was left to
      delete is an error. */
  function DeleteFile(st: State, i: nat, j: nat): Outcome
    requires i < |st.clients| && j < |st.clients[i].files|
  {
    var c := st.clients[i];
    var f := c.files[j];
    if f.path !in st.disk then Raised(st)
    else
      var st' := Update(st, i, c.(files := c.files[..j] + c.files[j + 1..])).(disk := st.disk - {f.path});
      var left := WithoutName(st.fileTable, f.name);
      if |left| == |st.fileTable| then Raised(st')
      else Done(st'.(fileTable := left), Some(ThankYou(c.id)))
  }

  function Handle(st: State, r: Request, draw: Draw, k: Crypto): Outcome {
    match r
    case Register(_, name) => RegisterClient(st, name, draw)
    case Reconnect(id, name) => ReconnectClient(st, id, name, draw, k)
    case PublicKey(id, name, key) => SetPublicKey(st, id, name, key, draw, k)
    case Packet(_, _, _, _, _, _, _) => ReceivePacket(st, r, k)
    case Verdict(id, code, name) => ReceiveVerdict(st, id, code, name)
    case Invalid(_) => Raised(st)
  }

  /** `read`: an exception is answered 1601 for a registration and 1607 otherwise. */
  function Serve(st: State, r: Request, draw: Draw, k: Crypto): Service {
    match Handle(st, r, draw, k)
    case Done(st', reply) => Service(st', reply, false)
    case Raised(st') => Service(st', Some(Answer(if r.Register? then 1601 else 1607, 0, [])), true)
  }

  // ---- Restart (Server/server.py, data_base_handle) ----

  function Restart(st: State): State {
    st.(clients := Reload(st.clientTable, st.fileTable))
  }

  function Reload(rows: seq<ClientRow>, files: seq<FileRec>): (cs: seq<ClientRec>)
    ensures |cs| == |rows|
  {
    if rows == [] then []
    else
      [ClientRec(rows[0].id, rows[0].name, rows[0].publicKey, rows[0].aesKey, FilesOf(files, rows[0].id))]
      + Reload(rows[1..], files)
  }

  function Initial(disk: map<Bytes, Bytes>): State {
    State([], [], [], disk)
  }
}
