/** Whole runs of the server with any number of clients, in any interleaving. */
module SystemRuns {
  import opened Octets
  import opened Text
  import opened Wire
  import opened Cryptography
  import opened ServerModel
  import opened Packets
  import opened ClientModel
  import opened ClientOutcomes
  import opened ServerInvariant
  import ServerIsolation
  import opened Views
  import opened AnswerFormat
  import opened System
  import opened SystemServer
  import opened SystemClient
  import ErrorDetection
  import TwoBitErrors
  import Checksum

  // ---- The invariant of a run ----

  ghost predicate LinkOk(st: State, l: Link, k: Crypto) {
    GoodSetup(l.client.setup, k) && exists s :: In(s, ViewOf(st, l.client.setup), l, k)
  }

  ghost predicate DistinctNames(links: seq<Link>) {
    forall i, j :: 0 <= i < j < |links| ==> links[i].client.setup.name != links[j].client.setup.name
  }

  ghost predicate NetOk(net: Net, k: Crypto) {
    && Inv(net.server) && DistinctNames(net.links)
    && forall i :: 0 <= i < |net.links| ==> LinkOk(net.server, net.links[i], k)
  }

  /** A client without credentials has just asked to be registered. The server may list its name. */
  ghost predicate StartsNew(l: Link) {
    l.client == NewClient(l.client.setup, []) && (l.before.Present? ==> Named(l.before, l.client))
  }

  /** A client has just asked to be recognised. The server may have forgotten it; if not, it keeps
      the client's identifier, and a key that it can import is the one of the client's pair. */
  ghost predicate StartsAgain(l: Link, k: Crypto) {
    var v, c := l.before, l.client;
    && c == KnownClient(c.setup, c.id, c.privateKey, []) && |c.id| == CLIENT_ID_SIZE
    && (v.Present? ==> Known(v, c) && (k.importable(v.rec.publicKey) ==> Enrolled(v, c, k)))
  }

  /** Any consistent server, and clients that start, whatever files the server lists for them and
      whatever is on disk. */
  ghost predicate Start(net: Net, k: Crypto) {
    && Inv(net.server) && DistinctNames(net.links)
    && forall i :: 0 <= i < |net.links| ==> Starts(net.server, net.links[i], k)
  }

  ghost predicate Starts(st: State, l: Link, k: Crypto) {
    && GoodSetup(l.client.setup, k)
    && l.before == ViewOf(st, l.client.setup)
    && (if l.known then StartsAgain(l, k) else StartsNew(l))
    && l.toServer == EncodeAll(RequestsOf(l.client.sent))
  }

  function RunNet(net: Net, steps: seq<Step>, k: Crypto): Net
    decreases |steps|
  {
    if steps == [] || steps[0].i >= |net.links| then net
    else RunNet(Apply(net, steps[0], k), steps[1..], k)
  }

  ghost predicate Possible(net: Net, steps: seq<Step>, k: Crypto)
    decreases |steps|
  {
    steps != [] ==> Enabled(net, steps[0]) && Possible(Apply(net, steps[0], k), steps[1..], k)
  }

  // ---- A client's own step ----

  /** The server reads requests of the client itself, under its name and identifier. */
  ghost predicate OwnRequest(v: View, setup: Setup, r: Request) {
    if r.Register? then TextOf(r.name) == Some(setup.name) && r.id == ZeroOctets(CLIENT_ID_SIZE)
    else if v.Absent? then r.Reconnect? && TextOf(r.name) == Some(setup.name)
    else r.id == v.rec.id && (r.Packet? ==> SLASH !in r.name)
  }

  lemma OutgoingIsOwn(s: Stage, v: View, l: Link, k: Crypto)
    requires In(s, v, l, k) && GoodSetup(l.client.setup, k)
    ensures forall r :: r in Outgoing(s, v, l.client, k) ==> OwnRequest(v, l.client.setup, r)
  {
    hide Paired, AllPackets, PacketsFrom, TextOf, ValidUtf8, Queued, Since, Total, PathOf, Pad, CipherOf, NoZero;
    var c := l.client;
    FieldIsRead(c.setup.name);
    FieldIsRead(c.setup.fileName);
    if s.Transferring? || s.Renewed? {
      AllPacketsIs(TheUpload(v, c, k));
      UploadIsSendable(v, c, k);
      PacketsCarry(TheUpload(v, c, k), if s.Transferring? then s.n else 1);
    }
  }

  lemma PacketsCarry(u: Upload, n: nat)
    requires 1 <= n <= Total(|u.cipher|) + 1
    ensures forall r :: r in PacketsFrom(u, n) ==> r.Packet? && r.id == u.id && r.name == u.name
  {
    forall i | 0 <= i < |PacketsFrom(u, n)|
      ensures PacketsFrom(u, n)[i].Packet? && PacketsFrom(u, n)[i].id == u.id && PacketsFrom(u, n)[i].name == u.name
    {
      PacketsFromAt(u, n, i);
    }
  }

  /** The server reads something exactly from a link that has something under way. */
  lemma ReadsOwn(st: State, l: Link, s: Stage, k: Crypto) returns (r: Request, rest: Bytes)
    requires In(s, ViewOf(st, l.client.setup), l, k) && GoodSetup(l.client.setup, k) && l.toServer != []
    ensures Decode(l.toServer) == Read(r, rest) && WellFormed(r)
    ensures OwnRequest(ViewOf(st, l.client.setup), l.client.setup, r)
    ensures Outgoing(s, ViewOf(st, l.client.setup), l.client, k) != []
  {
    hide Queued, Holds, WellFormed, Decode, OwnRequest, GoodSetup, ReplyOctets;
    var v := ViewOf(st, l.client.setup);
    OutgoingIsWellFormed(s, v, l, k);
    OutgoingIsOwn(s, v, l, k);
    var rs := Outgoing(s, v, l.client, k);
    if rs == [] { EmptyQueue(l); }
    r, rest := Pop(l, rs);
    SimilarOwn(v, l.client.setup, rs[0], r);
  }

  lemma SimilarOwn(v: View, setup: Setup, r: Request, q: Request)
    requires OwnRequest(v, setup, r) && Similar(r, q)
    ensures OwnRequest(v, setup, q)
  {
  }

  lemma OwnIsLegal(st: State, l: Link, r: Request, draw: Draw, k: Crypto)
    requires GoodSetup(l.client.setup, k) && WellFormed(r) && GoodDraw(st, draw)
    requires OwnRequest(ViewOf(st, l.client.setup), l.client.setup, r)
    requires r.Register? ==> r.name == Field(l.client.setup.name)
    ensures Legal(st, r, draw)
  {
    hide TextOf, ValidUtf8;
    FieldIsRead(l.client.setup.name);
  }

  lemma RegisterField(s: Stage, v: View, l: Link, k: Crypto, r: Request, rest: Bytes)
    requires In(s, v, l, k) && GoodSetup(l.client.setup, k) && Decode(l.toServer) == Read(r, rest) && r.Register?
    requires Outgoing(s, v, l.client, k) != []
    ensures r.name == Field(l.client.setup.name)
  {
    hide Queued, WellFormed, Decode, GoodSetup, ReplyOctets, PacketsFrom, AllPackets, CipherOf, Total, Pad;
    OutgoingIsWellFormed(s, v, l, k);
    var q, rest' := Pop(l, Outgoing(s, v, l.client, k));
    if s.Transferring? { NextPacket(v, l.client, s.n, k); }
  }

  /** Serving a client's request advances that client. */
  lemma OwnServerStep(st: State, l: Link, draw: Draw, k: Crypto)
    requires Inv(st) && GoodDraw(st, draw) && LinkOk(st, l, k) && l.toServer != []
    ensures var (st', l') := ServerSide(st, l, draw, k);
            LinkOk(st', l', k) && l'.client == l.client.(input := l'.client.input)
  {
    hide Inv, GoodSetup, In, ServerSide;
    var v := ViewOf(st, l.client.setup);
    var s :| In(s, v, l, k);
    var r, rest := ReadsOwn(st, l, s, k);
    ServerSideKeepsClient(st, l, draw, k);
    var (st', l') := ServerSide(st, l, draw, k);
    match s
    case Asked => AskedAdvances(st, l, draw, k);
    case KeySent => KeySentAdvances(st, l, draw, k);
    case Returning => ReturningAdvances(st, l, draw, k);
    case Transferring(n) => var s' := TransferringAdvances(st, l, n, draw, k);
    case Renewed => RenewedAdvances(st, l, draw, k);
    case Approving => ApprovingAdvances(st, l, draw, k);
    case Discarding => var s' := DiscardingAdvances(st, l, draw, k);
    case _ => assert false;
  }

  lemma ServerSideKeepsClient(st: State, l: Link, draw: Draw, k: Crypto)
    ensures var (st', l') := ServerSide(st, l, draw, k);
            l'.client == l.client.(input := l'.client.input) && l'.clean == l.clean
  {
    hide Serve, Decode;
  }

  /** Reading an answer advances a client. */
  lemma OwnClientStep(st: State, l: Link, k: Crypto)
    requires LinkOk(st, l, k) && Active(l) && l.client.input != []
    ensures LinkOk(st, ClientSide(l, k), k) && ClientSide(l, k).client.setup == l.client.setup
  {
    hide GoodSetup, In, ClientSide, Queued, Next;
    ClientSideKeepsSetup(l, k);
    var v := ViewOf(st, l.client.setup);
    var s :| In(s, v, l, k);
    SomethingIncoming(s, v, l, k);
    match s
    case Disowned => DisownedAdvances(v, l, k);
    case Denied => DeniedAdvances(v, l, k);
    case Welcomed => WelcomedAdvances(v, l, k);
    case KeyAnswered => KeyAnsweredAdvances(v, l, k);
    case Recognised => RecognisedAdvances(v, l, k);
    case Reported => var s' := ReportedAdvances(v, l, k);
    case Rejected => var s' := RejectedAdvances(v, l, k);
    case Approved => ApprovedAdvances(v, l, k);
    case Discarded(ok) => var s' := DiscardedAdvances(v, l, ok, k);
    case _ => assert false;
  }

  lemma SomethingIncoming(s: Stage, v: View, l: Link, k: Crypto)
    requires In(s, v, l, k) && l.client.input != []
    ensures s.Disowned? || s.Denied? || s.Welcomed? || s.KeyAnswered? || s.Recognised? || s.Reported?
            || s.Rejected? || s.Approved? || s.Discarded?
  {
    hide Holds, Queued, Outgoing;
  }

  lemma ClientSideKeepsSetup(l: Link, k: Crypto)
    requires Active(l)
    ensures ClientSide(l, k).client.setup == l.client.setup && ClientSide(l, k).clean == l.clean
  {
    hide Next, EncodeAll, RequestsOf;
    SetupStays(l.client, k);
  }

  /** Altering content under way leaves the stage, but the link is no longer clean. */
  lemma FaultKeepsStage(s: Stage, v: View, l: Link, octets: Bytes, k: Crypto)
    requires In(s, v, l, k) && GoodSetup(l.client.setup, k) && DecodeAll(l.toServer).Some?
    requires exists qs :: octets == EncodeAll(qs) && AllSimilar(DecodeAll(l.toServer).value, qs)
    ensures In(s, v, l.(toServer := octets, clean := false), k)
  {
    hide GoodSetup, EncodeAll, DecodeAll, Similar, WellFormed, CrcAnswer, ReplyOctets, PathOf;
    var l' := l.(toServer := octets, clean := false);
    OutgoingIsWellFormed(s, v, l, k);
    var rs := Outgoing(s, v, l.client, k);
    PendingIs(l, rs);
    var qs :| octets == EncodeAll(qs) && AllSimilar(DecodeAll(l.toServer).value, qs);
    SimilarTrans(rs, DecodeAll(l.toServer).value, qs);
    assert Queued(l', rs);
    UncleanHolds(s, v, l.client, l.clean, k);
  }

  lemma OwnFault(st: State, l: Link, octets: Bytes, k: Crypto)
    requires LinkOk(st, l, k)
    requires DecodeAll(l.toServer).Some?
    requires exists qs :: octets == EncodeAll(qs) && AllSimilar(DecodeAll(l.toServer).value, qs)
    ensures LinkOk(st, l.(toServer := octets, clean := false), k)
  {
    hide GoodSetup, ViewOf, EncodeAll, DecodeAll, In;
    var v := ViewOf(st, l.client.setup);
    var s :| In(s, v, l, k);
    FaultKeepsStage(s, v, l, octets, k);
  }

  lemma SimilarTrans(rs: seq<Request>, qs: seq<Request>, ps: seq<Request>)
    requires AllSimilar(rs, qs) && AllSimilar(qs, ps)
    ensures AllSimilar(rs, ps)
  {
    forall i | 0 <= i < |rs| ensures Similar(rs[i], ps[i]) {
      assert Similar(rs[i], qs[i]) && Similar(qs[i], ps[i]);
    }
  }

  lemma UncleanHolds(s: Stage, v: View, c: Client, clean: bool, k: Crypto)
    requires Holds(s, v, c, clean, k)
    ensures Holds(s, v, c, false, k)
  {
    hide Total, End, PathOf, CipherOf, Checksum.Cksum;
  }

  // ---- The others ----

  lemma PresentIsNamed(s: Stage, v: View, l: Link, k: Crypto)
    requires In(s, v, l, k) && v.Present?
    ensures Named(v, l.client)
  {
    hide Queued, Total, CipherOf, PathOf, ReplyOctets, Checksum.Cksum, NoZero;
  }

  lemma OtherServerStep(st: State, setup: Setup, r: Request, draw: Draw, other: Link, k: Crypto)
    requires Inv(st) && Legal(st, r, draw) && OwnRequest(ViewOf(st, setup), setup, r)
    requires LinkOk(st, other, k) && other.client.setup.name != setup.name
    ensures LinkOk(Serve(st, r, draw, k).st, other, k)
  {
    hide Inv, Legal, Serve, In, GoodSetup, ServerIsolation.Untouched, TextOf;
    var v := ViewOf(st, other.client.setup);
    var s :| In(s, v, other, k);
    if ViewOf(st, setup).Absent? && r.Reconnect? {
      ReconnectUnlisted(st, setup, r, draw, k);
    } else if v.Absent? {
      AbsentStays(st, other.client.setup, r, draw, k);
    } else {
      PresentIsNamed(s, v, other, k);
      var a := PresentAt(st, other.client.setup);
      OtherIdentifier(st, setup, r, other, a);
      ServerIsolation.Isolated(st, r, draw, k, a);
      ServeKeeps(st, r, draw, k);
      ViewUntouched(st, Serve(st, r, draw, k).st, other.client.setup);
    }
  }

  lemma OtherIdentifier(st: State, setup: Setup, r: Request, other: Link, a: nat)
    requires Inv(st) && OwnRequest(ViewOf(st, setup), setup, r) && other.client.setup.name != setup.name
    requires a < |st.clients| && st.clients[a].name == other.client.setup.name
    requires |st.clients[a].id| == CLIENT_ID_SIZE && NoZero(st.clients[a].id)
    requires !(ViewOf(st, setup).Absent? && r.Reconnect?)
    ensures st.clients[a].id != r.id
  {
    hide TextOf;
    if r.Register? {
      assert st.clients[a].id[0] != ZeroOctets(CLIENT_ID_SIZE)[0];
    } else {
      var b := PresentAt(st, setup);
    }
  }

  // ---- The whole system ----

  lemma ServerStepOk(net: Net, i: nat, draw: Draw, k: Crypto)
    requires NetOk(net, k) && Enabled(net, ServerReads(i, draw))
    ensures NetOk(Apply(net, ServerReads(i, draw), k), k)
  {
    hide Inv, LinkOk, ServerSide, Serve, OwnRequest, Legal, In, WellFormed, Decode, GoodSetup;
    var st, l := net.server, net.links[i];
    var setup := l.client.setup;
    LinkIs(st, l, k);
    var s :| In(s, ViewOf(st, setup), l, k);
    var r, rest := ReadsOwn(st, l, s, k);
    if r.Register? { RegisterField(s, ViewOf(st, setup), l, k, r, rest); }
    OwnIsLegal(st, l, r, draw, k);
    OwnServerStep(st, l, draw, k);
    ServeKeeps(st, r, draw, k);
    ServerSideIs(st, l, draw, k);
    var (st', l') := ServerSide(st, l, draw, k);
    var links := net.links[i := l'];
    forall j | 0 <= j < |links| ensures LinkOk(st', links[j], k) {
      if j != i { OtherServerStep(st, setup, r, draw, net.links[j], k); }
    }
  }

  lemma LinkIs(st: State, l: Link, k: Crypto)
    requires LinkOk(st, l, k)
    ensures GoodSetup(l.client.setup, k) && exists s :: In(s, ViewOf(st, l.client.setup), l, k)
  {
  }

  lemma ServerSideIs(st: State, l: Link, draw: Draw, k: Crypto)
    requires Decode(l.toServer).Read?
    ensures ServerSide(st, l, draw, k).0 == Serve(st, Decode(l.toServer).request, draw, k).st
  {
  }

  lemma ClientStepOk(net: Net, i: nat, k: Crypto)
    requires NetOk(net, k) && Enabled(net, ClientReads(i))
    ensures NetOk(Apply(net, ClientReads(i), k), k)
  {
    hide Inv, LinkOk, ClientSide;
    OwnClientStep(net.server, net.links[i], k);
  }

  lemma FaultOk(net: Net, i: nat, octets: Bytes, k: Crypto)
    requires NetOk(net, k) && Enabled(net, Altered(i, octets))
    ensures NetOk(Apply(net, Altered(i, octets), k), k)
  {
    hide Inv, LinkOk, DecodeAll;
    OwnFault(net.server, net.links[i], octets, k);
  }

  lemma StepOk(net: Net, s: Step, k: Crypto)
    requires NetOk(net, k) && Enabled(net, s)
    ensures NetOk(Apply(net, s, k), k)
  {
    hide NetOk;
    match s
    case ClientReads(i) => ClientStepOk(net, i, k);
    case ServerReads(i, draw) => ServerStepOk(net, i, draw, k);
    case Altered(i, octets) => FaultOk(net, i, octets, k);
  }

  lemma StartOk(net: Net, k: Crypto)
    requires Start(net, k)
    ensures NetOk(net, k)
  {
    hide Inv, LinkOk, Starts;
    forall i | 0 <= i < |net.links| ensures LinkOk(net.server, net.links[i], k) {
      LinkStarts(net.server, net.links[i], k);
    }
  }

  lemma LinkStarts(st: State, l: Link, k: Crypto)
    requires Starts(st, l, k)
    ensures LinkOk(st, l, k)
  {
    hide ViewOf, GoodSetup, In;
    AskedIs(st, l, k);
  }

  /** The first request is under way. */
  lemma AskedIs(st: State, l: Link, k: Crypto)
    requires Starts(st, l, k)
    ensures In(if l.known then Returning else Asked, ViewOf(st, l.client.setup), l, k)
  {
    hide ViewOf, GoodSetup, Pad, EncodeAll, PathOf, Paired, NoZero, ZeroOctets;
    var name := Field(l.client.setup.name);
    var m := Message(if l.known then Reconnect(l.client.id, name) else Register(ZeroOctets(CLIENT_ID_SIZE), name));
    assert l.client.sent == [m];
    RequestsOfOne(m);
    Push(l, RequestsOf(l.client.sent));
  }

  /** Every reachable state of the system satisfies the invariant, with faults or without. */
  lemma {:induction false} RunOk(net: Net, steps: seq<Step>, k: Crypto)
    requires NetOk(net, k) && Possible(net, steps, k)
    ensures NetOk(RunNet(net, steps, k), k)
    decreases |steps|
  {
    hide NetOk, Apply;
    if steps != [] {
      StepOk(net, steps[0], k);
      RunOk(Apply(net, steps[0], k), steps[1..], k);
    }
  }

  // ---- What follows ----

  /** A link keeps what it started with. */
  lemma {:induction false} LinksKeep(net: Net, steps: seq<Step>, i: nat, k: Crypto)
    requires NetOk(net, k) && Possible(net, steps, k) && i < |net.links|
    ensures var end := RunNet(net, steps, k);
            && |end.links| == |net.links| && end.links[i].before == net.links[i].before
            && end.links[i].known == net.links[i].known && end.links[i].client.setup == net.links[i].client.setup
    decreases |steps|
  {
    hide NetOk, Apply;
    if steps != [] {
      StepKeepsLink(net, steps[0], i, k);
      StepOk(net, steps[0], k);
      LinksKeep(Apply(net, steps[0], k), steps[1..], i, k);
    }
  }

  lemma StepKeepsLink(net: Net, s: Step, i: nat, k: Crypto)
    requires Enabled(net, s) && i < |net.links|
    ensures var end := Apply(net, s, k);
            && |end.links| == |net.links| && end.links[i].before == net.links[i].before
            && end.links[i].known == net.links[i].known && end.links[i].client.setup == net.links[i].client.setup
  {
    hide DecodeAll, Next, Serve, Decode, EncodeAll, RequestsOf;
    var l := net.links[s.i];
    match s
    case ClientReads(_) => SetupStays(l.client, k);
    case ServerReads(_, draw) => ServerSideKeepsClient(net.server, l, draw, k);
    case Altered(_, _) =>
  }

  /** The client's exchange has not reached the server's next state yet: it is still the one that
      was there before the client started. */
  predicate NotYetReplaced(l: Link, v: View) {
    && v.Present? && l.before.Present? && l.before.entry == Some(true) && l.before.stored == v.stored
    && !l.client.phase.Ending? && !l.client.phase.Finished?
  }

  /** A file that the server marks as valid has the size and the checksum of the client's file, and
      over a clean link is that file; unless it is the file that was valid before the client
      started, and the client has not finished its upload. */
  lemma ValidMeansMatching(net: Net, i: nat, k: Crypto)
    requires NetOk(net, k) && i < |net.links|
    requires var v := ViewOf(net.server, net.links[i].client.setup); v.Present? && v.entry == Some(true)
    ensures var l := net.links[i];
            var v := ViewOf(net.server, l.client.setup);
            || (Matches(v, l.client) && (l.clean ==> Exact(v, l.client)))
            || NotYetReplaced(l, v)
  {
    hide Inv, ViewOf, GoodSetup, Queued, ReplyOctets, Total, CipherOf, PathOf, Checksum.Cksum, NoZero, Outgoing;
    hide Incoming;
    LinkIs(net.server, net.links[i], k);
    var s :| In(s, ViewOf(net.server, net.links[i].client.setup), net.links[i], k);
  }

  /** Whatever was altered under way, a file marked as valid is the one that was valid before the
      client started, or it does not differ from the client's by one burst of at most 32 bits, nor
      in exactly two bits. */
  lemma ValidMeansIntact(net: Net, steps: seq<Step>, i: nat, k: Crypto)
    requires Start(net, k) && Possible(net, steps, k) && i < |net.links|
    ensures var end := RunNet(net, steps, k);
            |end.links| == |net.links| &&
            var l, start := end.links[i], ViewOf(net.server, net.links[i].client.setup);
            var v := ViewOf(end.server, l.client.setup);
            v.Present? && v.entry == Some(true) ==>
              || (start.Present? && start.entry == Some(true) && start.stored == v.stored
                  && !l.client.phase.Ending? && !l.client.phase.Finished?)
              || (v.stored.Some? && Intact(l.client.setup.file, v.stored.value))
  {
    hide Start, NetOk, ViewOf, RunNet, Possible, Intact, Matches, Exact;
    StartOk(net, k);
    StartsWithView(net, i, k);
    RunOk(net, steps, k);
    LinksKeep(net, steps, i, k);
    var end := RunNet(net, steps, k);
    var l := end.links[i];
    var v := ViewOf(end.server, l.client.setup);
    if v.Present? && v.entry == Some(true) {
      ValidMeansMatching(end, i, k);
      FileFits(end, i, k);
      if Matches(v, l.client) { MatchingIsIntact(v, l.client); }
    }
  }

  lemma StartsWithView(net: Net, i: nat, k: Crypto)
    requires Start(net, k) && i < |net.links|
    ensures net.links[i].before == ViewOf(net.server, net.links[i].client.setup)
  {
    assert Starts(net.server, net.links[i], k);
  }

  /** The same length, and neither a short burst nor two flipped bits apart. */
  ghost predicate Intact(file: Bytes, stored: Bytes) {
    && |stored| == |file|
    && (ErrorDetection.DifferWithin(file, stored, 32) ==> stored == file)
    && (forall p, q :: !TwoBitErrors.DifferExactlyAt(file, stored, p, q))
  }

  lemma MatchingIsIntact(v: View, c: Client)
    requires Matches(v, c) && |c.setup.file| <= TwoBitErrors.LARGEST
    ensures v.Present? && v.stored.Some?
    ensures Intact(c.setup.file, v.stored.value)
  {
    hide ErrorDetection.DifferWithin, TwoBitErrors.DifferExactlyAt, Checksum.Cksum;
    var file, stored := c.setup.file, v.stored.value;
    if ErrorDetection.DifferWithin(file, stored, 32) && stored != file {
      ErrorDetection.BurstDetected(file, stored);
    }
    forall p, q ensures !TwoBitErrors.DifferExactlyAt(file, stored, p, q) {
      if TwoBitErrors.DifferExactlyAt(file, stored, p, q) {
        TwoBitErrors.TwoBitErrorsNoticed(file, stored, p, q);
      }
    }
  }

  lemma FileFits(net: Net, i: nat, k: Crypto)
    requires NetOk(net, k) && i < |net.links|
    ensures |net.links[i].client.setup.file| <= TwoBitErrors.LARGEST
  {
    LinkIs(net.server, net.links[i], k);
  }

  // ---- Progress ----

  /** As long as a client has not ended, an answer or a request of it is under way. */
  lemma NotStuck(net: Net, i: nat, k: Crypto)
    requires NetOk(net, k) && i < |net.links|
    ensures var l := net.links[i]; Ended(l.client.phase) || l.client.input != [] || l.toServer != []
  {
    hide Inv, ViewOf, GoodSetup, Queued, CipherOf, PathOf, Checksum.Cksum, NoZero;
    var l := net.links[i];
    LinkIs(net.server, l, k);
    var v := ViewOf(net.server, l.client.setup);
    var s :| In(s, v, l, k);
    StageUnderWay(s, v, l, k);
    if Outgoing(s, v, l.client, k) != [] {
      OutgoingIsWellFormed(s, v, l, k);
      var q, rest := Pop(l, Outgoing(s, v, l.client, k));
      DecodeNothing();
    } else if Incoming(s, v, l.client, k).Some? {
      AnswersAreNotEmpty(Incoming(s, v, l.client, k).value);
    }
  }

  lemma AnswersAreNotEmpty(a: Answer)
    ensures ReplyOctets(Some(a)) != []
  {
    hide LittleEndian;
  }

  lemma StageUnderWay(s: Stage, v: View, l: Link, k: Crypto)
    requires In(s, v, l, k) && GoodSetup(l.client.setup, k)
    ensures Ended(l.client.phase) || Outgoing(s, v, l.client, k) != [] || Incoming(s, v, l.client, k).Some?
  {
    hide CipherOf, PathOf, Checksum.Cksum, NoZero, ReplyOctets, Queued, PacketsFrom, AllPackets, GoodNames;
    if s.Transferring? { NextPacket(v, l.client, s.n, k); }
    if s.KeyAnswered? || s.Recognised? { WrappedKey(v, l.client, k); }
  }

  // ---- How a client's exchange ends ----

  /** In the server's terms: the file is in the client's list as its own, at its path, with this
      flag and this content on disk. */
  ghost predicate Stores(st: State, s: Setup, id: Bytes, valid: bool, content: Bytes) {
    exists a :: 0 <= a < |st.clients| && st.clients[a].id == id && st.clients[a].name == s.name
                && FileOf(s, id, valid) in st.clients[a].files
                && FilePath(s) in st.disk && st.disk[FilePath(s)] == content
  }

  lemma ViewStores(st: State, s: Setup)
    requires Inv(st)
    ensures var v := ViewOf(st, s);
            v.Present? && v.entry.Some? ==>
              v.stored.Some? && Stores(st, s, v.rec.id, v.entry.value, v.stored.value)
  {
    hide PathOf;
    if ViewOf(st, s).Present? && ViewOf(st, s).entry.Some? {
      var a := PresentAt(st, s);
      FileIsOwn(st, s, a);
      EntryIs(st.clients[a].files, s.fileName);
      var j := IndexOfFile(st.clients[a].files, s.fileName);
      assert st.clients[a].files[j] == FileOf(s, st.clients[a].id, st.clients[a].files[j].valid);
    }
  }

  /** What the server has when a client has ended. After 900 the file is listed as valid and
      matches. After 902, answered or not, it is gone from the list and from the disk. A client
      that exits for a fourth error answer to an upload leaves it listed and on disk, not valid. A
      client that is turned away leaves everything as it was. */
  ghost predicate EndsIn(l: Link, v: View, k: Crypto) {
    var c := l.client;
    || (c.phase == Finished(900) && v.Present? && v.rec.id == c.id && v.entry == Some(true) && Matches(v, c)
        && (l.clean ==> Exact(v, c)))
    || ((c.phase == Finished(902) || (c.phase == Exited && LastSent(c, 902))) && Gone(v) && !l.clean)
    || (c.phase == Exited && LastSent(c, 828) && Arriving(v) && v.stored.Some? && !l.clean)
    || (c.phase == Exited && LastSent(c, 825) && v == l.before && TurnedAway(l, k))
  }

  lemma ClientsEnd(net: Net, i: nat, k: Crypto)
    requires NetOk(net, k) && i < |net.links| && Ended(net.links[i].client.phase)
    ensures var l := net.links[i];
            && EndsIn(l, ViewOf(net.server, l.client.setup), k)
            && (l.client.phase == Exited && LastSent(l.client, 825) <==> TurnedAway(l, k))
  {
    hide Inv, ViewOf, GoodSetup, Queued, CipherOf, PathOf, Checksum.Cksum, Outgoing, Incoming, NoZero, Total, End;
    LinkIs(net.server, net.links[i], k);
    var s :| In(s, ViewOf(net.server, net.links[i].client.setup), net.links[i], k);
  }

  /** A client that has ended over a clean link was told that everything is fine, and its own file
      is on the server's disk, listed and valid, if and only if it was not turned away. */
  lemma Delivered(net: Net, steps: seq<Step>, i: nat, k: Crypto)
    requires Start(net, k) && Possible(net, steps, k) && i < |net.links|
    requires var end := RunNet(net, steps, k);
             i < |end.links| && end.links[i].clean && Ended(end.links[i].client.phase)
    ensures var end := RunNet(net, steps, k);
            var c := end.links[i].client;
            && (c.phase == Finished(900) <==> !TurnedAway(net.links[i], k))
            && (c.phase == Finished(900) ==> Stores(end.server, c.setup, c.id, true, c.setup.file))
            && (c.phase != Finished(900) ==>
                  c.phase == Exited && ViewOf(end.server, c.setup) == ViewOf(net.server, c.setup))
  {
    hide Start, RunNet, Possible, NetOk, ViewOf, Matches, LastSent, Stores;
    StartOk(net, k);
    StartsWithView(net, i, k);
    RunOk(net, steps, k);
    LinksKeep(net, steps, i, k);
    var end := RunNet(net, steps, k);
    ClientsEnd(end, i, k);
    ServerIsOk(end, k);
    ViewStores(end.server, end.links[i].client.setup);
  }

  lemma ServerIsOk(net: Net, k: Crypto)
    requires NetOk(net, k)
    ensures Inv(net.server)
  {
  }

  // ---- The next session ----

  /** The same client starts again with the credentials that it has saved, to send any file. */
  function Again(st: State, l: Link, setup: Setup): Link {
    var c := KnownClient(setup, l.client.id, l.client.privateKey, []);
    Link(c, EncodeAll(RequestsOf(c.sent)), true, ViewOf(st, setup), true)
  }

  /** However a client's exchange has ended, if it was not turned away it can start again. */
  lemma ReturnsLater(net: Net, i: nat, setup: Setup, k: Crypto)
    requires NetOk(net, k) && i < |net.links|
    requires Ended(net.links[i].client.phase) && !TurnedAway(net.links[i], k)
    requires GoodSetup(setup, k) && setup.name == net.links[i].client.setup.name
    ensures Starts(net.server, Again(net.server, net.links[i], setup), k)
  {
    hide Inv, GoodSetup, Queued, CipherOf, PathOf, Checksum.Cksum, Outgoing, Incoming, NoZero, Total, End, Paired;
    hide EncodeAll, RequestsOf, EntryOf;
    var l := net.links[i];
    LinkIs(net.server, l, k);
    var s :| In(s, ViewOf(net.server, l.client.setup), l, k);
    EndedEnrolled(s, ViewOf(net.server, l.client.setup), l, k);
    hide Since, Holds;
  }

  lemma EndedEnrolled(s: Stage, v: View, l: Link, k: Crypto)
    requires In(s, v, l, k) && Ended(l.client.phase) && !TurnedAway(l, k)
    ensures Enrolled(v, l.client, k)
  {
    hide Queued, CipherOf, Outgoing, Incoming, NoZero, Total, End, Paired, Enrolled, Matches, Exact, Keyed;
  }

  /** One session follows another: when all clients have ended and none was turned away, the server
      and all of them are again in a state that the theorems start from. */
  lemma SessionsChain(net: Net, setups: seq<Setup>, k: Crypto)
    requires NetOk(net, k) && |setups| == |net.links|
    requires forall i :: 0 <= i < |net.links| ==>
               && Ended(net.links[i].client.phase) && !TurnedAway(net.links[i], k)
               && GoodSetup(setups[i], k) && setups[i].name == net.links[i].client.setup.name
    ensures Start(Net(net.server, seq(|setups|, i requires 0 <= i < |setups| =>
                                        Again(net.server, net.links[i], setups[i]))), k)
  {
    hide Inv, LinkOk, GoodSetup, TurnedAway, Starts, ViewOf, EncodeAll, RequestsOf;
    forall i | 0 <= i < |setups| ensures Starts(net.server, Again(net.server, net.links[i], setups[i]), k) {
      ReturnsLater(net, i, setups[i], k);
    }
  }
}
