/** The client (Client/client.cpp): what it sends, and how it reacts to whatever arrives. A client
    waits for one answer at a time, so a run is a sequence of the steps `Next`. */
module ClientModel {
  import opened Octets
  import opened Text
  import opened Wire
  import opened Cryptography
  import opened Packets
  import Checksum

  const MAX_TRIES: nat := 4

  /** What the client is started with. `keys(n)` is the key pair created at the n-th attempt to
      send a public key. */
  datatype Setup = Setup(name: Bytes, fileName: Bytes, file: Bytes, keys: nat -> KeyPair)

  /** The answer being waited for, with the failures counted for the request it answers. */
  datatype Phase =
    | Reconnecting(failures: nat)
    | Registering(failures: nat)
    | SendingKey(failures: nat)
    | Uploading(failures: nat)
    | Ending(code: nat, failures: nat)
    | Finished(code: nat)
    | Exited

  datatype Sent = Message(request: Request) | Pieces(packets: seq<Request>)

  /** `attempts` counts the key pairs created, `wrappedKey` is the AES key as it was received,
      `contentSize` the size of the last upload as it is announced; `input` is what the server
      sends, `sent` what the client has sent. */
  datatype Client = Client(
    setup: Setup,
    phase: Phase,
    id: Bytes,
    privateKey: Bytes,
    attempts: nat,
    wrappedKey: Bytes,
    contentSize: nat,
    input: Bytes,
    sent: seq<Sent>)

  // ---- Phases ----

  predicate Ended(p: Phase) { p.Finished? || p.Exited? }

  /** No request has failed four times yet. */
  predicate Counted(p: Phase) {
    Ended(p) || p.failures < MAX_TRIES
  }

  /** How many answers a client can still take. */
  function Rank(p: Phase): nat
    requires Counted(p)
  {
    match p
    case Reconnecting(f) => 20 - f
    case Registering(f) => 16 - f
    case SendingKey(f) => 12 - f
    case Uploading(f) => 8 - f
    case Ending(_, f) => 4 - f
    case _ => 0
  }

  /** The client exits: the connection closes and nothing more is read. */
  function Exit(c: Client): Client {
    c.(phase := Exited, input := [])
  }

  // ---- Sending ----

  function Field(name: Bytes): Bytes { Pad(name, NAME_SIZE) }

  function Send(c: Client, r: Request, p: Phase): (d: Client)
    ensures d.phase == p
  {
    c.(phase := p, sent := c.sent + [Message(r)])
  }

  function AskRegister(c: Client, failures: nat): Client {
    Send(c, Register(ZeroOctets(CLIENT_ID_SIZE), Field(c.setup.name)), Registering(failures))
  }

  function AskReconnect(c: Client, failures: nat): Client {
    Send(c, Reconnect(c.id, Field(c.setup.name)), Reconnecting(failures))
  }

  /** A new key pair for every attempt. */
  function SendKey(c: Client, failures: nat): Client {
    var pair := c.setup.keys(c.attempts);
    Send(c.(privateKey := pair.private, attempts := c.attempts + 1),
         PublicKey(c.id, Field(c.setup.name), pair.public), SendingKey(failures))
  }

  function UploadOf(c: Client, cipher: Bytes): Upload {
    Upload(c.id, Field(c.setup.fileName), Transmitted(cipher), |c.setup.file| % 0x1_0000_0000)
  }

  /** All packets of the file, or exit if the key is unusable or the file too big. */
  function SendUpload(c: Client, failures: nat, k: Crypto): (d: Client)
    ensures d.phase == Exited || d.phase == Uploading(failures)
  {
    match k.unwrap(c.privateKey, c.wrappedKey)
    case None => Exit(c)
    case Some(key) =>
      var cipher := k.encrypt(key, c.setup.file);
      if TotalPackets(Int32(|cipher|)).None? then Exit(c)
      else
        c.(phase := Uploading(failures), contentSize := |cipher| % 0x1_0000_0000,
           sent := c.sent + [Pieces(AllPackets(UploadOf(c, cipher)))])
  }

  function SendVerdict(c: Client, code: nat, p: Phase): Client {
    Send(c, Verdict(c.id, code, Field(c.setup.fileName)), p)
  }

  // ---- Reading ----

  datatype Heading = Heading(code: nat, size: nat, rest: Bytes)

  /** The header of an answer; None if the input ends or the version is wrong. */
  function ReadHeader(s: Bytes): (h: Option<Heading>)
    ensures h.Some? ==> |h.value.rest| == |s| - 7
  {
    if |s| < 7 || NumberOf(s[..1]) != VERSION then None
    else Some(Heading(NumberOf(s[1..3]), NumberOf(s[3..7]), s[7..]))
  }

  function CutAtZero(s: Bytes): (t: Bytes)
    ensures t <= s && NoZero(t)
    ensures t == s <==> NoZero(s)
    ensures |t| < |s| ==> s[|t|] == 0
  {
    if s == [] || s[0] == 0 then [] else [s[0]] + CutAtZero(s[1..])
  }

  /** `read_string_and_check`: reads `size` octets, which up to their first zero must be the
      expected string; what is left of the input. */
  function Checked(s: Bytes, expected: Bytes, size: nat): Option<Bytes> {
    if |s| < size || CutAtZero(s[..size]) != expected then None else Some(s[size..])
  }

  // ---- Reacting ----

  function Next(c: Client, k: Crypto): (d: Client)
    requires Counted(c.phase) && !Ended(c.phase)
    ensures Counted(d.phase) && Rank(d.phase) < Rank(c.phase)
  {
    match ReadHeader(c.input)
    case None => Exit(c)
    case Some(h) => React(c.(input := h.rest), h.code, h.size, k)
  }

  function React(c: Client, code: nat, size: nat, k: Crypto): (d: Client)
    requires Counted(c.phase) && !Ended(c.phase)
    ensures Counted(d.phase) && Rank(d.phase) < Rank(c.phase)
  {
    match c.phase
    case Reconnecting(f) => AfterReconnect(c, code, size, f + 1, k)
    case Registering(f) => AfterRegister(c, code, f + 1)
    case SendingKey(f) => AfterKey(c, code, size, f + 1, k)
    case Uploading(f) => AfterUpload(c, code, f + 1, k)
    case Ending(_, f) => AfterVerdict(c, code, f + 1)
  }

  // In each of these, `f` is the number of failures if the answer is an error.

  function AfterReconnect(c: Client, code: nat, size: nat, f: nat, k: Crypto): (d: Client)
    ensures d.phase == Exited || d.phase == Registering(0) || d.phase == Uploading(0)
            || (f != MAX_TRIES && d.phase == Reconnecting(f))
  {
    if code == 1607 then if f == MAX_TRIES then Exit(c) else AskReconnect(c, f)
    else if code == 1606 then
      if |c.input| < CLIENT_ID_SIZE then Exit(c) else AskRegister(c.(input := c.input[CLIENT_ID_SIZE..]), 0)
    else if code == 1605 then AcceptKey(c, size, k)
    else Exit(c)
  }

  function AfterRegister(c: Client, code: nat, f: nat): (d: Client)
    ensures d.phase == Exited || d.phase == SendingKey(0) || (f != MAX_TRIES && d.phase == Registering(f))
  {
    if code == 1607 || code == 1601 then if f == MAX_TRIES then Exit(c) else AskRegister(c, f)
    else if code == 1600 && |c.input| >= CLIENT_ID_SIZE then
      SendKey(c.(id := c.input[..CLIENT_ID_SIZE], input := c.input[CLIENT_ID_SIZE..]), 0)
    else Exit(c)
  }

  function AfterKey(c: Client, code: nat, size: nat, f: nat, k: Crypto): (d: Client)
    ensures d.phase == Exited || d.phase == Uploading(0) || (f != MAX_TRIES && d.phase == SendingKey(f))
  {
    if code == 1607 then if f == MAX_TRIES then Exit(c) else SendKey(c, f)
    else if code == 1602 then AcceptKey(c, size, k)
    else Exit(c)
  }

  function AfterUpload(c: Client, code: nat, f: nat, k: Crypto): (d: Client)
    requires c.phase.Uploading? && f == c.phase.failures + 1
    ensures d.phase == Exited || (f != MAX_TRIES && d.phase == Uploading(f))
            || d.phase == Ending(900, 0) || d.phase == Ending(902, 0)
  {
    if code == 1607 then if f == MAX_TRIES then Exit(c) else SendUpload(c, f, k)
    else if code == 1603 then CompareCrc(c, k)
    else Exit(c)
  }

  function AfterVerdict(c: Client, code: nat, f: nat): (d: Client)
    requires c.phase.Ending?
    ensures d.phase == Exited || d.phase == Finished(c.phase.code)
            || (f != MAX_TRIES && d.phase == Ending(c.phase.code, f))
  {
    var result := c.phase.code;
    if code == 1607 then if f == MAX_TRIES then Exit(c) else SendVerdict(c, result, Ending(result, f))
    else if code == 1604 then
      match Checked(c.input, c.id, CLIENT_ID_SIZE)
      case None => Exit(c)
      case Some(rest) => c.(phase := Finished(result), input := rest)
    else Exit(c)
  }

  /** Takes the encrypted AES key and starts the upload. */
  function AcceptKey(c: Client, size: nat, k: Crypto): (d: Client)
    ensures d.phase == Exited || d.phase == Uploading(0)
  {
    match Checked(c.input, c.id, CLIENT_ID_SIZE)
    case None => Exit(c)
    case Some(rest) =>
      if size < CLIENT_ID_SIZE || size >= 0x8000_0000 || |rest| < size - CLIENT_ID_SIZE then Exit(c)
      else
        var n := size - CLIENT_ID_SIZE;
        SendUpload(c.(wrappedKey := rest[..n], input := rest[n..]), 0, k)
  }

  datatype Report = Report(crc: nat, rest: Bytes)

  /** The payload of an answer 1603: identifier, content size, file name and checksum. */
  function ReadReport(c: Client): Option<Report> {
    match Checked(c.input, c.id, CLIENT_ID_SIZE)
    case None => None
    case Some(s) =>
      if |s| < 4 || NumberOf(s[..4]) != c.contentSize then None
      else
        match Checked(s[4..], c.setup.fileName, NAME_SIZE)
        case None => None
        case Some(t) => if |t| < 4 then None else Some(Report(NumberOf(t[..4]), t[4..]))
  }

  function LocalCrc(c: Client): nat {
    Nat(Checksum.Cksum(c.setup.file))
  }

  function CompareCrc(c: Client, k: Crypto): (d: Client)
    requires c.phase.Uploading?
    ensures var f := c.phase.failures + 1;
            d.phase == Exited || (f != MAX_TRIES && d.phase == Uploading(f))
            || d.phase == Ending(900, 0) || d.phase == Ending(902, 0)
  {
    match ReadReport(c)
    case None => Exit(c)
    case Some(report) => Judge(c.(input := report.rest), report.crc, k)
  }

  /** A wrong checksum counts as a failure of the upload. */
  function Judge(c: Client, crc: nat, k: Crypto): (d: Client)
    requires c.phase.Uploading?
    ensures var f := c.phase.failures + 1;
            d.phase == Exited || (f != MAX_TRIES && d.phase == Uploading(f))
            || d.phase == Ending(900, 0) || d.phase == Ending(902, 0)
  {
    var f := c.phase.failures + 1;
    if crc == LocalCrc(c) then SendVerdict(c, 900, Ending(900, 0))
    else if f == MAX_TRIES then SendVerdict(c, 902, Ending(902, 0))
    else SendUpload(SendVerdict(c, 901, c.phase), f, k)
  }

  /** The whole life of a client, given everything the server ever sends. */
  function Run(c: Client, k: Crypto): (d: Client)
    requires Counted(c.phase)
    ensures Ended(d.phase)
    decreases Rank(c.phase)
  {
    if Ended(c.phase) then c else Run(Next(c, k), k)
  }

  // ---- Starting ----

  function Started(setup: Setup, input: Bytes): Client {
    Client(setup, Exited, [], [], 0, [], 0, input, [])
  }

  /** Without saved credentials. */
  function NewClient(setup: Setup, input: Bytes): Client {
    AskRegister(Started(setup, input), 0)
  }

  /** With the identifier and the private key saved by an earlier registration. */
  function KnownClient(setup: Setup, id: Bytes, privateKey: Bytes, input: Bytes): Client {
    AskReconnect(Started(setup, input).(id := id, privateKey := privateKey), 0)
  }
}
