/** Any number of clients and the server, connected by streams of octets. A step is one client
    reading an answer and sending what follows, the server serving one request, or a fault that
    alters the content of packets under way. */
module System {
  import opened Octets
  import opened Text
  import opened Wire
  import opened Cryptography
  import opened ServerModel
  import opened Packets
  import opened ClientModel
  import ClientRuns
  import Layouts
  import ServerAnswers
  import opened AnswerFormat
  import opened Views
  import Checksum

  /** A client, the octets it has sent and the server has not read, whether they were always
      delivered as sent, what the server knew of the client before it started, and whether the
      client started with saved credentials. What the server has sent is the client's input. */
  datatype Link = Link(client: Client, toServer: Bytes, clean: bool, before: View, known: bool)

  predicate SameLink(l: Link, l': Link) {
    l'.clean == l.clean && l'.before == l.before && l'.known == l.known
  }

  datatype Net = Net(server: State, links: seq<Link>)

  // ---- Steps ----

  function RequestsIn(s: Sent): seq<Request> {
    match s
    case Message(r) => [r]
    case Pieces(ps) => ps
  }

  function RequestsOf(log: seq<Sent>): seq<Request> {
    if log == [] then [] else RequestsIn(log[0]) + RequestsOf(log[1..])
  }

  function NewlySent(c: Client, d: Client): seq<Sent> {
    if |c.sent| <= |d.sent| then d.sent[|c.sent|..] else []
  }

  /** A client that has not ended. */
  predicate Active(l: Link) {
    Counted(l.client.phase) && !Ended(l.client.phase)
  }

  function ClientSide(l: Link, k: Crypto): Link {
    if !Active(l) then l
    else
      var d := Next(l.client, k);
      l.(client := d, toServer := l.toServer + EncodeAll(RequestsOf(NewlySent(l.client, d))))
  }

  /** The server reads one request; if it fails, it discards everything that is waiting. */
  function ServerSide(st: State, l: Link, draw: Draw, k: Crypto): (State, Link) {
    match Decode(l.toServer)
    case Read(r, rest) =>
      var s := Serve(st, r, draw, k);
      (s.st, l.(toServer := if s.drained then [] else rest,
                client := l.client.(input := l.client.input + ReplyOctets(s.reply))))
    case _ => (st, l)
  }

  /** The server does nothing before a request is complete; then it takes exactly its octets and
      adds its answer, but after an error answer nothing is waiting any more. */
  lemma ServerSideExactly(st: State, l: Link, draw: Draw, k: Crypto)
    ensures var s := l.toServer;
            var (st', l') := ServerSide(st, l, draw, k);
            if |s| < 23 || |s| < Layouts.Needed(s) then st' == st && l' == l
            else
              var a := Serve(st, Layouts.Meant(s), draw, k);
              && st' == a.st && l'.toServer == (if ServerAnswers.IsError(a.reply) then [] else s[Layouts.Needed(s)..])
              && l'.client == l.client.(input := l.client.input + ReplyOctets(a.reply)) && SameLink(l, l')
  {
    hide Decode, Serve, Layouts.Meant, Layouts.Needed, ServerAnswers.IsError;
    Layouts.DecodeExactly(l.toServer);
    if |l.toServer| >= 23 && |l.toServer| >= Layouts.Needed(l.toServer) {
      ServerAnswers.ErrorsDrain(st, Layouts.Meant(l.toServer), draw, k);
    }
  }

  /** The same request, except that a packet may carry other content of the same length. */
  predicate Similar(r: Request, q: Request) {
    r == q || (r.Packet? && q.Packet? && q == r.(content := q.content) && |q.content| == |r.content|)
  }

  ghost predicate AllSimilar(rs: seq<Request>, qs: seq<Request>) {
    |rs| == |qs| && forall i :: 0 <= i < |rs| ==> Similar(rs[i], qs[i])
  }

  datatype Step = ClientReads(i: nat) | ServerReads(i: nat, draw: Draw) | Altered(i: nat, octets: Bytes)

  /** Drawn identifiers are new and contain no zero octet. */
  predicate GoodDraw(st: State, draw: Draw) {
    && |draw.aesKey| == AES_KEY_SIZE && |draw.uuid| == CLIENT_ID_SIZE && NoZero(draw.uuid)
    && forall a :: 0 <= a < |st.clients| ==> st.clients[a].id != draw.uuid
  }

  ghost predicate Enabled(net: Net, s: Step) {
    s.i < |net.links| &&
    var l := net.links[s.i];
    match s
    case ClientReads(_) => Active(l) && l.client.input != []
    case ServerReads(_, draw) => l.toServer != [] && GoodDraw(net.server, draw)
    case Altered(_, octets) =>
      && DecodeAll(l.toServer).Some?
      && exists qs :: octets == EncodeAll(qs) && AllSimilar(DecodeAll(l.toServer).value, qs)
  }

  function Apply(net: Net, s: Step, k: Crypto): Net
    requires s.i < |net.links|
  {
    var l := net.links[s.i];
    match s
    case ClientReads(i) => net.(links := net.links[i := ClientSide(l, k)])
    case ServerReads(i, draw) =>
      var (st, l') := ServerSide(net.server, l, draw, k);
      Net(st, net.links[i := l'])
    case Altered(i, octets) => net.(links := net.links[i := l.(toServer := octets, clean := false)])
  }

  // ---- Stages of one client ----

  /** Where a client and the server are in their exchange. */
  datatype Stage =
    | Returning | Recognised | Disowned
    | Asked | Welcomed | Denied | Barred
    | KeySent | KeyAnswered
    | Transferring(n: nat) | Reported | Rejected | Renewed
    | Approving | Approved | Accepted
    | Discarding | Discarded(ok: bool) | Removed | Abandoned

  /** The public key can be imported, and what it wraps is short and unwrapped by the private key. */
  ghost predicate Paired(public: Bytes, private: Bytes, k: Crypto) {
    && k.importable(public) && Matching(k, KeyPair(private, public))
    && forall key: Bytes :: |key| == AES_KEY_SIZE && k.wrap(public, key).Some? ==>
         |k.wrap(public, key).value| < 0x7fff_0000
  }

  /** Hypotheses about a client: plain names, a file that fits, a usable key pair. */
  ghost predicate GoodSetup(s: Setup, k: Crypto) {
    && GoodNames(s) && |s.file| <= MAX_PACKETS * PACKET_MAX_SIZE
    && |s.keys(0).public| == PUBLIC_KEY_SIZE && Paired(s.keys(0).public, s.keys(0).private, k)
    && (forall key: Bytes :: |key| == AES_KEY_SIZE ==> |k.encrypt(key, s.file)| <= MAX_PACKETS * PACKET_MAX_SIZE)
    && Symmetric(k)
  }

  function CipherOf(v: View, c: Client, k: Crypto): Bytes
    requires v.Present?
  {
    k.encrypt(v.rec.aesKey, c.setup.file)
  }

  function TheUpload(v: View, c: Client, k: Crypto): Upload
    requires v.Present?
  {
    Upload(c.id, Field(c.setup.fileName), CipherOf(v, c, k), |c.setup.file|)
  }

  /** The requests under way, as the client sent them. */
  function Outgoing(s: Stage, v: View, c: Client, k: Crypto): seq<Request> {
    match s
    case Asked => [Register(ZeroOctets(CLIENT_ID_SIZE), Field(c.setup.name))]
    case Returning => [Reconnect(c.id, Field(c.setup.name))]
    case KeySent => [PublicKey(c.id, Field(c.setup.name), c.setup.keys(0).public)]
    case Transferring(n) =>
      if v.Present? && 1 <= n <= Total(|CipherOf(v, c, k)|) then PacketsFrom(TheUpload(v, c, k), n) else []
    case Renewed =>
      if v.Present? then [Verdict(c.id, 901, Field(c.setup.fileName))] + AllPackets(TheUpload(v, c, k)) else []
    case Approving => [Verdict(c.id, 900, Field(c.setup.fileName))]
    case Discarding => [Verdict(c.id, 902, Field(c.setup.fileName))]
    case _ => []
  }

  /** The answer that carries the AES key, wrapped with the public key on record. */
  function KeyAnswer(code: nat, v: View, c: Client, k: Crypto): Option<Answer>
    requires v.Present?
  {
    match k.wrap(v.rec.publicKey, v.rec.aesKey)
    case None => None
    case Some(e) => Some(Answer(code, CLIENT_ID_SIZE + |e|, c.id + e))
  }

  /** The answer under way. */
  function Incoming(s: Stage, v: View, c: Client, k: Crypto): Option<Answer> {
    match s
    case Disowned => Some(Answer(1606, CLIENT_ID_SIZE, c.id))
    case Denied => Some(Answer(1601, 0, []))
    case Welcomed => if v.Present? then Some(Answer(1600, CLIENT_ID_SIZE, v.rec.id)) else None
    case KeyAnswered => if v.Present? then KeyAnswer(1602, v, c, k) else None
    case Recognised => if v.Present? then KeyAnswer(1605, v, c, k) else None
    case Reported =>
      if v.Present? && v.stored.Some? then
        Some(CrcAnswer(c.id, |CipherOf(v, c, k)|, c.setup.fileName, v.stored.value))
      else None
    case Rejected => Some(Answer(1607, 0, []))
    case Approved => Some(ThankYou(c.id))
    case Discarded(ok) => Some(if ok then ThankYou(c.id) else Answer(1607, 0, []))
    case _ => None
  }

  predicate Named(v: View, c: Client) {
    v.Present? && v.rec.name == c.setup.name && |v.rec.id| == CLIENT_ID_SIZE && NoZero(v.rec.id)
  }

  predicate Known(v: View, c: Client) {
    Named(v, c) && v.rec.id == c.id
  }

  /** The server lists the client's file as not verified. */
  predicate Arriving(v: View) {
    v.Present? && v.entry == Some(false)
  }

  /** The server has neither the file nor an entry of it. */
  predicate Gone(v: View) {
    v.Present? && v.entry == None && v.stored == None
  }

  /** The server lists the client, but the client has no credentials, or the server no key that it
      can import because the registration was interrupted before the key arrived. */
  predicate TurnedAway(l: Link, k: Crypto) {
    l.before.Present? && (!l.known || !k.importable(l.before.rec.publicKey))
  }

  /** The last thing that the client has sent. */
  predicate LastSent(c: Client, code: nat) {
    c.sent != [] && ClientRuns.SentCode(c.sent[|c.sent| - 1]) == code
  }

  /** The public key that the server has kept belongs to the private key that the client has kept. */
  ghost predicate Enrolled(v: View, c: Client, k: Crypto) {
    Known(v, c) && Paired(v.rec.publicKey, c.privateKey, k)
  }

  /** The client can recover the key under which the server will decrypt. */
  ghost predicate Keyed(v: View, c: Client, k: Crypto) {
    && Enrolled(v, c, k) && k.unwrap(c.privateKey, c.wrappedKey) == Some(v.rec.aesKey)
    && c.contentSize == |CipherOf(v, c, k)| && |v.rec.aesKey| == AES_KEY_SIZE
  }

  /** What is stored has the size and the checksum of the client's file. */
  predicate Matches(v: View, c: Client) {
    && v.Present? && v.stored.Some? && |v.stored.value| == |c.setup.file|
    && Checksum.Cksum(v.stored.value) == Checksum.Cksum(c.setup.file)
  }

  predicate Exact(v: View, c: Client) {
    v.Present? && v.stored == Some(c.setup.file)
  }

  /** In each stage, what the client and the server know; for a clean link, more. */
  ghost predicate Holds(s: Stage, v: View, c: Client, clean: bool, k: Crypto) {
    match s
    case Returning =>
      && c.phase == Reconnecting(0) && c.attempts == 0 && |c.id| == CLIENT_ID_SIZE
      && (v.Present? ==> Known(v, c) && (k.importable(v.rec.publicKey) ==> Enrolled(v, c, k)))
    case Recognised =>
      c.phase == Reconnecting(0) && Enrolled(v, c, k) && |v.rec.aesKey| == AES_KEY_SIZE
    case Disowned =>
      && c.phase == Reconnecting(0) && c.attempts == 0 && |c.id| == CLIENT_ID_SIZE
      && (v.Absent? || Named(v, c))
    case Asked =>
      && c.phase.Registering? && c.attempts == 0 && LastSent(c, 825)
      && (if v.Absent? then c.phase.failures == 0 else Named(v, c))
    case Denied =>
      && c.phase.Registering? && c.attempts == 0 && LastSent(c, 825) && Named(v, c)
    case Barred => c.phase == Exited && LastSent(c, 825) && Named(v, c)
    case Welcomed => c.phase == Registering(0) && c.attempts == 0 && Named(v, c) && v.entry == None
    case KeySent =>
      && c.phase == SendingKey(0) && Known(v, c) && v.entry == None && c.privateKey == c.setup.keys(0).private
    case KeyAnswered =>
      && c.phase == SendingKey(0) && Enrolled(v, c, k) && v.entry == None
      && v.rec.publicKey == c.setup.keys(0).public && |v.rec.aesKey| == AES_KEY_SIZE
    case Transferring(n) =>
      && c.phase.Uploading? && LastSent(c, 828) && Keyed(v, c, k) && 1 <= n <= Total(|CipherOf(v, c, k)|)
      && (n > 1 ==> Arriving(v))
      && (clean ==> c.phase.failures == 0
                    && (n > 1 ==> v.stored == Some(CipherOf(v, c, k)[..End(|CipherOf(v, c, k)|, n - 1)])))
    case Reported =>
      && c.phase.Uploading? && Keyed(v, c, k) && Arriving(v)
      && v.stored.Some? && |v.stored.value| == |c.setup.file|
      && (clean ==> c.phase.failures == 0 && Exact(v, c))
    case Rejected =>
      c.phase.Uploading? && LastSent(c, 828) && Keyed(v, c, k) && Arriving(v) && v.stored.Some? && !clean
    case Renewed => c.phase.Uploading? && LastSent(c, 828) && Keyed(v, c, k) && Arriving(v) && !clean
    case Approving =>
      c.phase == Ending(900, 0) && Enrolled(v, c, k) && Arriving(v) && Matches(v, c) && (clean ==> Exact(v, c))
    case Approved =>
      && c.phase == Ending(900, 0) && Enrolled(v, c, k) && v.entry == Some(true)
      && Matches(v, c) && (clean ==> Exact(v, c))
    case Accepted =>
      && c.phase == Finished(900) && Enrolled(v, c, k) && v.entry == Some(true)
      && Matches(v, c) && (clean ==> Exact(v, c))
    case Discarding =>
      && c.phase.Ending? && c.phase.code == 902 && LastSent(c, 902) && Enrolled(v, c, k)
      && (Arriving(v) || Gone(v)) && !clean
    case Discarded(_) =>
      c.phase.Ending? && c.phase.code == 902 && LastSent(c, 902) && Enrolled(v, c, k) && Gone(v) && !clean
    case Removed =>
      (c.phase == Exited || c.phase == Finished(902)) && LastSent(c, 902) && Enrolled(v, c, k) && Gone(v) && !clean
    case Abandoned =>
      c.phase == Exited && LastSent(c, 828) && Enrolled(v, c, k) && Arriving(v) && v.stored.Some? && !clean
  }

  /** How the server's view relates to the view before the client started: nothing has changed
      while the client has not been recognised or registered, and as long as its file is listed as
      valid from earlier, that is the file of earlier. */
  predicate Since(s: Stage, v: View, l: Link, k: Crypto) {
    if s.Returning? then v == l.before && l.known
    else if s.Disowned? || s.Asked? || s.Denied? || s.Barred? then
      v == l.before && (v.Present? ==> TurnedAway(l, k))
    else
      !TurnedAway(l, k) && (s.Recognised? || s.Transferring? ==> SameVerified(v, l.before))
  }

  predicate SameVerified(v: View, before: View) {
    v.Present? && v.entry == Some(true) ==>
      before.Present? && before.entry == Some(true) && before.stored == v.stored
  }

  /** The octets under way are these requests, unless packets were altered. */
  ghost predicate Queued(l: Link, rs: seq<Request>) {
    exists qs :: l.toServer == EncodeAll(qs) && AllSimilar(rs, qs) && (l.clean ==> qs == rs)
  }

  ghost predicate In(s: Stage, v: View, l: Link, k: Crypto) {
    && Counted(l.client.phase)
    && Holds(s, v, l.client, l.clean, k) && Since(s, v, l, k)
    && Queued(l, Outgoing(s, v, l.client, k))
    && l.client.input == ReplyOctets(Incoming(s, v, l.client, k))
  }

  // ---- Queues ----

  lemma SimilarWellFormed(r: Request, q: Request)
    requires WellFormed(r) && Similar(r, q)
    ensures WellFormed(q)
  {
  }

  /** The server reads the next request of a queue, and the rest stays queued. */
  lemma Pop(l: Link, rs: seq<Request>) returns (q: Request, rest: Bytes)
    requires Queued(l, rs) && rs != [] && forall r :: r in rs ==> WellFormed(r)
    ensures Decode(l.toServer) == Read(q, rest)
    ensures WellFormed(q) && Similar(rs[0], q) && (l.clean ==> q == rs[0])
    ensures forall l': Link :: l'.toServer == rest && l'.clean == l.clean ==> Queued(l', rs[1..])
    ensures rest == [] <==> |rs| == 1
  {
    hide WellFormed, Similar, Encode, Decode;
    var qs :| l.toServer == EncodeAll(qs) && AllSimilar(rs, qs) && (l.clean ==> qs == rs);
    q, rest := qs[0], EncodeAll(qs[1..]);
    SimilarWellFormed(rs[0], q);
    DecodeEncode(q, rest);
    assert AllSimilar(rs[1..], qs[1..]);
    if |rs| > 1 { SomethingEncoded(qs[1..]); }
  }

  lemma SomethingEncoded(qs: seq<Request>)
    requires qs != []
    ensures EncodeAll(qs) != []
  {
    hide Payload, LittleEndian;
  }

  lemma EmptyQueue(l: Link)
    ensures Queued(l, []) <==> l.toServer == []
  {
    assert EncodeAll([]) == [];
    if l.toServer == [] { assert AllSimilar([], []); }
  }

  lemma Push(l: Link, rs: seq<Request>)
    requires l.toServer == EncodeAll(rs)
    ensures Queued(l, rs)
  {
    assert AllSimilar(rs, rs);
  }

  /** How many requests the server has still to read. */
  function Pending(l: Link): nat {
    match DecodeAll(l.toServer)
    case None => 0
    case Some(qs) => |qs|
  }

  lemma PendingIs(l: Link, rs: seq<Request>)
    requires Queued(l, rs) && forall r :: r in rs ==> WellFormed(r)
    ensures Pending(l) == |rs|
    ensures DecodeAll(l.toServer).Some? && AllSimilar(rs, DecodeAll(l.toServer).value)
    ensures l.clean ==> DecodeAll(l.toServer).value == rs
  {
    hide WellFormed, Similar, EncodeAll, DecodeAll;
    var qs :| l.toServer == EncodeAll(qs) && AllSimilar(rs, qs) && (l.clean ==> qs == rs);
    forall i | 0 <= i < |qs| ensures WellFormed(qs[i]) { SimilarWellFormed(rs[i], qs[i]); }
    DecodeEncodeAll(qs);
  }
}
