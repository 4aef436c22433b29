/** Runs of the system end: every step of a client or the server uses up a bounded amount of
    work, and while a client has not ended some step is possible. */
module SystemProgress {
  import opened Octets
  import opened Text
  import opened Wire
  import opened Cryptography
  import opened ServerModel
  import Packets
  import opened ClientModel
  import opened ServerInvariant
  import opened Views
  import opened AnswerFormat
  import opened System
  import SystemServer
  import opened SystemRuns

  /** More than twice the requests a client can send at once. */
  const WEIGHT: nat := 200000

  /** What a link can still cause: answers the client can take, requests to be read, an answer
      to be read. */
  function Work(l: Link): nat
    requires Counted(l.client.phase)
  {
    WEIGHT * Rank(l.client.phase) + 2 * Pending(l) + (if l.client.input != [] then 1 else 0)
  }

  function TotalWork(links: seq<Link>): nat
    requires forall l :: l in links ==> Counted(l.client.phase)
  {
    if links == [] then 0 else Work(links[0]) + TotalWork(links[1..])
  }

  lemma {:induction false} TotalWorkUpdate(links: seq<Link>, i: nat, l: Link)
    requires (forall m :: m in links ==> Counted(m.client.phase)) && i < |links| && Counted(l.client.phase)
    ensures forall m :: m in links[i := l] ==> Counted(m.client.phase)
    ensures TotalWork(links[i := l]) == TotalWork(links) - Work(links[i]) + Work(l)
  {
    hide Work;
    if i == 0 {
      assert links[i := l][1..] == links[1..];
    } else {
      TotalWorkUpdate(links[1..], i - 1, l);
      assert links[i := l][1..] == links[1..][i - 1 := l];
    }
  }

  lemma LinkIsCounted(st: State, l: Link, k: Crypto)
    requires LinkOk(st, l, k)
    ensures Counted(l.client.phase)
  {
  }

  // ---- The server's steps ----

  lemma PendingDrops(l: Link, m: Link, r: Request, rest: Bytes)
    requires DecodeAll(l.toServer).Some? && Decode(l.toServer) == Read(r, rest)
    requires m.toServer == rest || m.toServer == []
    ensures Pending(m) < Pending(l)
  {
    DecodeNothing();
    hide Decode;
    assert DecodeAll([]) == Some([]);
    assert DecodeAll(rest).Some?;
  }

  lemma ServerWorks(st: State, l: Link, draw: Draw, k: Crypto)
    requires LinkOk(st, l, k) && l.toServer != []
    ensures Counted(l.client.phase)
    ensures var (st', l') := ServerSide(st, l, draw, k);
            l'.client.phase == l.client.phase && Work(l') < Work(l)
  {
    hide In, GoodSetup, Pending, Serve, DecodeAll, Decode, OwnRequest, WellFormed, Outgoing, EncodeAnswer;
    LinkIsCounted(st, l, k);
    var v := ViewOf(st, l.client.setup);
    var s :| In(s, v, l, k);
    var r, rest := ReadsOwn(st, l, s, k);
    SystemServer.OutgoingIsWellFormed(s, v, l, k);
    QueueOf(s, v, l, k);
    PendingIs(l, Outgoing(s, v, l.client, k));
    var (st', l') := ServerSide(st, l, draw, k);
    PendingDrops(l, l', r, rest);
  }

  lemma QueueOf(s: Stage, v: View, l: Link, k: Crypto)
    requires In(s, v, l, k)
    ensures Queued(l, Outgoing(s, v, l.client, k))
  {
  }

  // ---- The clients' steps ----

  lemma OutgoingIsBounded(s: Stage, v: View, l: Link, k: Crypto)
    requires In(s, v, l, k) && GoodSetup(l.client.setup, k)
    ensures |Outgoing(s, v, l.client, k)| <= MAX_PACKETS + 1
  {
    hide CipherOf, Queued, ReplyOctets, PathOf, Pad;
    if s.Transferring? || s.Renewed? {
      SystemServer.UploadIsSendable(v, l.client, k);
      Packets.PacketsCoverUpload(TheUpload(v, l.client, k));
    }
  }

  lemma PendingIsBounded(st: State, l: Link, k: Crypto)
    requires LinkOk(st, l, k)
    ensures Pending(l) <= MAX_PACKETS + 1
  {
    hide In, GoodSetup, Pending, ViewOf, Outgoing, WellFormed;
    var v := ViewOf(st, l.client.setup);
    var s :| In(s, v, l, k);
    SystemServer.OutgoingIsWellFormed(s, v, l, k);
    OutgoingIsBounded(s, v, l, k);
    QueueOf(s, v, l, k);
    PendingIs(l, Outgoing(s, v, l.client, k));
  }

  lemma ClientWorks(st: State, l: Link, k: Crypto)
    requires LinkOk(st, l, k) && Active(l) && l.client.input != []
    ensures var l' := ClientSide(l, k); Counted(l'.client.phase) && Work(l') < Work(l)
  {
    hide LinkOk, Pending, EncodeAll, RequestsOf;
    OwnClientStep(st, l, k);
    var l' := ClientSide(l, k);
    PendingIsBounded(st, l', k);
    assert l'.client == Next(l.client, k);
  }

  lemma FaultWorks(st: State, l: Link, octets: Bytes, k: Crypto)
    requires LinkOk(st, l, k) && DecodeAll(l.toServer).Some?
    requires exists qs :: octets == EncodeAll(qs) && AllSimilar(DecodeAll(l.toServer).value, qs)
    ensures Counted(l.client.phase)
    ensures Work(l.(toServer := octets, clean := false)) == Work(l)
  {
    hide In, GoodSetup, Outgoing, WellFormed, EncodeAll, DecodeAll, Similar;
    LinkIsCounted(st, l, k);
    var v := ViewOf(st, l.client.setup);
    var s :| In(s, v, l, k);
    SystemServer.OutgoingIsWellFormed(s, v, l, k);
    QueueOf(s, v, l, k);
    var rs := Outgoing(s, v, l.client, k);
    PendingIs(l, rs);
    var qs :| octets == EncodeAll(qs) && AllSimilar(DecodeAll(l.toServer).value, qs);
    forall i | 0 <= i < |qs| ensures WellFormed(qs[i]) {
      SimilarTrans(rs, DecodeAll(l.toServer).value, qs);
      SimilarWellFormed(rs[i], qs[i]);
    }
    DecodeEncodeAll(qs);
  }

  // ---- Runs ----

  lemma AllCounted(net: Net, k: Crypto)
    requires NetOk(net, k)
    ensures forall l :: l in net.links ==> Counted(l.client.phase)
  {
    hide Inv, LinkOk;
    forall l | l in net.links ensures Counted(l.client.phase) { LinkIsCounted(net.server, l, k); }
  }

  predicate Fault(s: Step) { s.Altered? }

  lemma StepWorks(net: Net, s: Step, k: Crypto)
    requires NetOk(net, k) && Enabled(net, s)
    ensures forall l :: l in net.links ==> Counted(l.client.phase)
    ensures var links := Apply(net, s, k).links;
            && (forall l :: l in links ==> Counted(l.client.phase))
            && (if Fault(s) then TotalWork(links) == TotalWork(net.links) else TotalWork(links) < TotalWork(net.links))
  {
    hide Inv, LinkOk, Work, ClientSide, ServerSide, DecodeAll, TotalWork;
    AllCounted(net, k);
    var l := net.links[s.i];
    match s
    case ClientReads(i) =>
      ClientWorks(net.server, l, k);
      TotalWorkUpdate(net.links, i, ClientSide(l, k));
    case ServerReads(i, draw) =>
      ServerWorks(net.server, l, draw, k);
      TotalWorkUpdate(net.links, i, ServerSide(net.server, l, draw, k).1);
    case Altered(i, octets) =>
      FaultWorks(net.server, l, octets, k);
      TotalWorkUpdate(net.links, i, l.(toServer := octets, clean := false));
  }

  function Faults(steps: seq<Step>): nat {
    if steps == [] then 0 else (if Fault(steps[0]) then 1 else 0) + Faults(steps[1..])
  }

  /** Faults apart, no run is longer than the work it starts with: however the steps interleave,
      whatever is altered, the exchange ends. */
  lemma {:induction false} RunsEnd(net: Net, steps: seq<Step>, k: Crypto)
    requires NetOk(net, k) && Possible(net, steps, k)
    ensures forall l :: l in net.links ==> Counted(l.client.phase)
    ensures |steps| - Faults(steps) <= TotalWork(net.links)
    decreases |steps|
  {
    hide NetOk, Apply, TotalWork;
    AllCounted(net, k);
    if steps != [] {
      StepWorks(net, steps[0], k);
      StepOk(net, steps[0], k);
      RunsEnd(Apply(net, steps[0], k), steps[1..], k);
    }
  }

  /** A run that cannot go on has brought every client to its end; over a clean link that means
      the file has been delivered, if and only if the client was not turned away. */
  lemma MaximalRunsDeliver(net: Net, steps: seq<Step>, draw: Draw, k: Crypto)
    requires Start(net, k) && Possible(net, steps, k)
    requires var end := RunNet(net, steps, k);
             && GoodDraw(end.server, draw)
             && forall i :: !Enabled(end, ClientReads(i)) && !Enabled(end, ServerReads(i, draw))
    ensures var end := RunNet(net, steps, k);
            |end.links| == |net.links| &&
            forall i :: 0 <= i < |end.links| ==>
              var c := end.links[i].client;
              && Ended(c.phase)
              && (end.links[i].clean ==>
                    && (c.phase == Finished(900) <==> !TurnedAway(net.links[i], k))
                    && (c.phase == Finished(900) ==> Stores(end.server, c.setup, c.id, true, c.setup.file)))
  {
    hide Start, NetOk, RunNet, Possible, ViewOf, Stores, TurnedAway;
    StartOk(net, k);
    RunOk(net, steps, k);
    var end := RunNet(net, steps, k);
    AllCounted(end, k);
    LinkCount(net, steps, k);
    forall i | 0 <= i < |end.links|
      ensures var c := end.links[i].client;
              && Ended(c.phase)
              && (end.links[i].clean ==>
                    && (c.phase == Finished(900) <==> !TurnedAway(net.links[i], k))
                    && (c.phase == Finished(900) ==> Stores(end.server, c.setup, c.id, true, c.setup.file)))
    {
      NotStuck(end, i, k);
      assert !Enabled(end, ClientReads(i)) && !Enabled(end, ServerReads(i, draw));
      if end.links[i].clean { Delivered(net, steps, i, k); }
    }
  }

  lemma {:induction false} LinkCount(net: Net, steps: seq<Step>, k: Crypto)
    requires Possible(net, steps, k)
    ensures |RunNet(net, steps, k).links| == |net.links|
    decreases |steps|
  {
    hide ClientSide, ServerSide, DecodeAll;
    if steps != [] { LinkCount(Apply(net, steps[0], k), steps[1..], k); }
  }

  /** Over a clean link no upload is refused and no reported checksum is wrong; the only exit is
      that of a client that is turned away. */
  lemma CleanNeverFails(net: Net, i: nat, k: Crypto)
    requires NetOk(net, k) && i < |net.links| && net.links[i].clean
    ensures var p := net.links[i].client.phase;
            && (p == Exited ==> TurnedAway(net.links[i], k))
            && (p.Ending? || p.Finished? ==> p.code == 900)
            && (!Ended(p) && !p.Registering? ==> p.failures == 0)
  {
    hide Inv, ViewOf, GoodSetup, Queued, CipherOf, PathOf, Packets.Total, Packets.End, Outgoing, Incoming;
    var l := net.links[i];
    LinkIs(net.server, l, k);
    var s :| In(s, ViewOf(net.server, l.client.setup), l, k);
  }

  // ---- The hypotheses can be met ----

  function ToyCrypto(): Crypto {
    Crypto(
      _ => true,
      (pair, key) => Some(key),
      (pair, wrapped) => Some(wrapped),
      (key, plain) => plain + [1],
      (key, cipher) =>
        if cipher == [] || cipher[|cipher| - 1] != 1 then None else Some(cipher[..|cipher| - 1]))
  }

  lemma ToyLaws(s: Setup)
    requires GoodNames(s) && |s.file| < MAX_PACKETS * PACKET_MAX_SIZE && |s.keys(0).public| == PUBLIC_KEY_SIZE
    ensures GoodSetup(s, ToyCrypto())
  {
    hide GoodNames;
    var k := ToyCrypto();
    forall key: Bytes, plain: Bytes ensures k.decrypt(key, k.encrypt(key, plain)) == Some(plain) {
      assert (plain + [1])[..|plain|] == plain;
    }
    forall key: Bytes ensures |k.encrypt(key, s.file)| <= MAX_PACKETS * PACKET_MAX_SIZE {}
  }

  /** There is a system to which the theorems above apply, with a client that sends a file. */
  lemma SomeSystemStarts(name: Bytes, fileName: Bytes, file: Bytes) returns (net: Net)
    requires PlainText(name) && |name| <= 100 && PlainText(fileName) && |fileName| < NAME_SIZE
    requires |file| < MAX_PACKETS * PACKET_MAX_SIZE
    ensures Start(net, ToyCrypto()) && |net.links| == 1 && net.links[0].client.setup.file == file
    ensures !net.links[0].known && net.server.clients == []
  {
    hide Pad, PlainText, GoodSetup, ToyCrypto, EncodeAll, ZeroOctets;
    var setup := Setup(name, fileName, file, _ => KeyPair([], ZeroOctets(PUBLIC_KEY_SIZE)));
    ToyLaws(setup);
    var c := NewClient(setup, []);
    net := Net(Initial(map[]), [Link(c, EncodeAll(RequestsOf(c.sent)), true, Absent, false)]);
    InitialOk(map[]);
  }
}
