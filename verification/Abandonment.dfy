/** A run in which every upload is spoiled on its way and refused by an error answer: the client
    exits at the fourth, and what was last received stays listed and on disk. */
module Abandonment {
  import opened Octets
  import opened Text
  import opened Wire
  import opened Cryptography
  import opened ServerModel
  import opened Packets
  import opened ClientModel
  import opened ServerInvariant
  import opened Views
  import opened System
  import opened SystemServer
  import SystemClient
  import opened SystemRuns
  import SystemProgress

  /** A run from the net `start` that has come to `net`. */
  ghost predicate Reaches(start: Net, steps: seq<Step>, net: Net, k: Crypto) {
    Possible(start, steps, k) && RunNet(start, steps, k) == net
  }

  lemma {:induction false} OneStepMore(start: Net, steps: seq<Step>, net: Net, s: Step, k: Crypto)
    requires Reaches(start, steps, net, k) && Enabled(net, s)
    ensures Reaches(start, steps + [s], Apply(net, s, k), k)
    decreases |steps|
  {
    hide Apply, Enabled;
    InRange(net, s);
    if steps == [] {
      assert [s][1..] == [] && steps + [s] == [s];
      assert Possible(Apply(net, s, k), [], k) && RunNet(Apply(net, s, k), [], k) == Apply(net, s, k);
      assert RunNet(net, [s], k) == RunNet(Apply(net, s, k), [s][1..], k);
      assert Possible(net, [s], k);
    } else {
      InRange(start, steps[0]);
      OneStepMore(Apply(start, steps[0], k), steps[1..], net, s, k);
      assert (steps + [s])[1..] == steps[1..] + [s] && (steps + [s])[0] == steps[0];
    }
  }

  lemma InRange(net: Net, s: Step)
    ensures Enabled(net, s) ==> s.i < |net.links|
  {
  }

  // ---- One client, at a stage ----

  ghost predicate At(net: Net, s: Stage, k: Crypto) {
    && NetOk(net, k) && |net.links| == 1 && |net.server.clients| <= 1
    && In(s, ViewOf(net.server, net.links[0].client.setup), net.links[0], k)
  }

  function Sixteen(x: Octet): Bytes { [x, x, x, x, x, x, x, x, x, x, x, x, x, x, x, x] }

  /** A draw that is new to a server with at most one client. */
  function NewDraw(st: State): Draw {
    var x := Sixteen(1);
    Draw(if st.clients != [] && st.clients[0].id == x then Sixteen(2) else x, Sixteen(3) + Sixteen(4))
  }

  lemma NewDrawIsGood(st: State)
    requires |st.clients| <= 1
    ensures GoodDraw(st, NewDraw(st))
  {
    assert Sixteen(1)[0] != Sixteen(2)[0];
  }

  lemma ClientsCount(net: Net, k: Crypto)
    requires |net.links| == 1 && |net.server.clients| <= 1 && Decode(net.links[0].toServer).Read?
    requires Decode(net.links[0].toServer).request.Register? ==> net.server.clients == []
    ensures |ServerSide(net.server, net.links[0], NewDraw(net.server), k).0.clients| <= 1
  {
    hide Serve, Decode;
    ServeNames(net.server, Decode(net.links[0].toServer).request, NewDraw(net.server), k);
  }

  function ServerMove(net: Net): Step {
    ServerReads(0, NewDraw(net.server))
  }

  /** Whatever stage the server's step leads to, the invariant of the net comes with it. */
  lemma ServerMoves(net: Net, s: Stage, s': Stage, k: Crypto)
    requires |net.links| == 1
    requires At(net, s, k) && net.links[0].toServer != []
    requires var (st', l') := ServerSide(net.server, net.links[0], NewDraw(net.server), k);
             In(s', ViewOf(st', l'.client.setup), l', k) && |st'.clients| <= 1
    ensures Enabled(net, ServerMove(net)) && At(Apply(net, ServerMove(net), k), s', k)
  {
    hide NetOk, In, ServerSide;
    NewDrawIsGood(net.server);
    StepOk(net, ServerMove(net), k);
  }

  lemma ClientMoves(net: Net, s: Stage, s': Stage, k: Crypto)
    requires |net.links| == 1
    requires At(net, s, k) && Active(net.links[0]) && net.links[0].client.input != []
    requires In(s', ViewOf(net.server, net.links[0].client.setup), ClientSide(net.links[0], k), k)
    requires ClientSide(net.links[0], k).client.setup == net.links[0].client.setup
    ensures Enabled(net, ClientReads(0)) && At(Apply(net, ClientReads(0), k), s', k)
  {
    hide NetOk, In, ClientSide, ViewOf;
    StepOk(net, ClientReads(0), k);
  }

  // ---- Until the first upload ----

  lemma UnderWay(net: Net, s: Stage, k: Crypto)
    requires |net.links| == 1
    requires At(net, s, k)
    ensures var v, l := ViewOf(net.server, net.links[0].client.setup), net.links[0];
            && (Outgoing(s, v, l.client, k) != [] ==> l.toServer != [] && Decode(l.toServer).Read?)
            && (Incoming(s, v, l.client, k).Some? ==> l.client.input != [])
  {
    hide In, Inv, ViewOf, Queued, GoodSetup, Decode, Outgoing, WellFormed;
    var l := net.links[0];
    var v := ViewOf(net.server, l.client.setup);
    SetupIsGood(net, k);
    InParts(s, v, l, k);
    if Outgoing(s, v, l.client, k) != [] {
      OutgoingIsWellFormed(s, v, l, k);
      var q, rest := Pop(l, Outgoing(s, v, l.client, k));
      DecodeNothing();
    }
    if Incoming(s, v, l.client, k).Some? { AnswersAreNotEmpty(Incoming(s, v, l.client, k).value); }
  }

  lemma InParts(s: Stage, v: View, l: Link, k: Crypto)
    requires In(s, v, l, k)
    ensures Queued(l, Outgoing(s, v, l.client, k)) && Holds(s, v, l.client, l.clean, k)
    ensures l.client.input == AnswerFormat.ReplyOctets(Incoming(s, v, l.client, k))
  {
  }

  lemma SetupIsGood(net: Net, k: Crypto)
    requires NetOk(net, k) && |net.links| == 1
    ensures GoodSetup(net.links[0].client.setup, k) && Inv(net.server)
  {
    LinkIs(net.server, net.links[0], k);
  }

  lemma Registered(start: Net, k: Crypto) returns (steps: seq<Step>, net: Net)
    requires |start.links| == 1 && At(start, Asked, k) && start.server.clients == []
    ensures |net.links| == 1 && Reaches(start, steps, net, k) && At(net, Transferring(1), k)
    ensures net.links[0].client.setup == start.links[0].client.setup
  {
    hide At, Apply, NetOk, In, Enabled, Reaches;
    assert Reaches(start, [], start, k) by { NoSteps(start, k); }
    var net1 := FromAsked(start, k);
    OneStepMore(start, [], start, ServerMove(start), k);
    var net2 := FromWelcomed(net1, k);
    OneStepMore(start, [] + [ServerMove(start)], net1, ClientReads(0), k);
    var net3 := FromKeySent(net2, k);
    OneStepMore(start, [] + [ServerMove(start)] + [ClientReads(0)], net2, ServerMove(net2), k);
    net := FromKeyAnswered(net3, k);
    steps := [] + [ServerMove(start)] + [ClientReads(0)] + [ServerMove(net2)];
    OneStepMore(start, steps, net3, ClientReads(0), k);
    steps := steps + [ClientReads(0)];
  }

  lemma NoSteps(start: Net, k: Crypto)
    ensures Reaches(start, [], start, k)
  {
  }

  lemma FromAsked(net: Net, k: Crypto) returns (net': Net)
    requires |net.links| == 1
    requires At(net, Asked, k) && net.server.clients == []
    ensures Enabled(net, ServerMove(net)) && net' == Apply(net, ServerMove(net), k) && At(net', Welcomed, k)
    ensures |net'.links| == 1
    ensures net'.links[0].client.setup == net.links[0].client.setup
  {
    hide In, Inv, GoodSetup, ServerSide, NetOk, Decode, LinkOk;
    SetupIsGood(net, k);
    UnderWay(net, Asked, k);
    NewDrawIsGood(net.server);
    ServerSideKeepsClient(net.server, net.links[0], NewDraw(net.server), k);
    AskedAdvances(net.server, net.links[0], NewDraw(net.server), k);
    ClientsCount(net, k);
    ServerMoves(net, Asked, Welcomed, k);
    net' := Apply(net, ServerMove(net), k);
  }

  lemma FromWelcomed(net: Net, k: Crypto) returns (net': Net)
    requires |net.links| == 1
    requires At(net, Welcomed, k)
    ensures Enabled(net, ClientReads(0)) && net' == Apply(net, ClientReads(0), k) && At(net', KeySent, k)
    ensures |net'.links| == 1
    ensures net'.links[0].client.setup == net.links[0].client.setup
  {
    hide Inv, GoodSetup, ClientSide, NetOk, LinkOk, Queued, ViewOf, AnswerFormat.ReplyOctets;
    SetupIsGood(net, k);
    UnderWay(net, Welcomed, k);
    ClientSideKeepsSetup(net.links[0], k);
    SystemClient.WelcomedAdvances(ViewOf(net.server, net.links[0].client.setup), net.links[0], k);
    hide In;
    ClientMoves(net, Welcomed, KeySent, k);
    net' := Apply(net, ClientReads(0), k);
  }

  lemma FromKeySent(net: Net, k: Crypto) returns (net': Net)
    requires |net.links| == 1
    requires At(net, KeySent, k)
    ensures Enabled(net, ServerMove(net)) && net' == Apply(net, ServerMove(net), k) && At(net', KeyAnswered, k)
    ensures |net'.links| == 1
    ensures net'.links[0].client.setup == net.links[0].client.setup
  {
    hide In, Inv, GoodSetup, ServerSide, NetOk, Decode, LinkOk;
    SetupIsGood(net, k);
    UnderWay(net, KeySent, k);
    NewDrawIsGood(net.server);
    NotRegistering(net, KeySent, k);
    ServerSideKeepsClient(net.server, net.links[0], NewDraw(net.server), k);
    KeySentAdvances(net.server, net.links[0], NewDraw(net.server), k);
    ClientsCount(net, k);
    ServerMoves(net, KeySent, KeyAnswered, k);
    net' := Apply(net, ServerMove(net), k);
  }

  /** At these stages what the server reads is not a registration. */
  lemma NotRegistering(net: Net, s: Stage, k: Crypto)
    requires |net.links| == 1
    requires At(net, s, k) && (s.KeySent? || s == Transferring(1))
    ensures Decode(net.links[0].toServer).Read? && !Decode(net.links[0].toServer).request.Register?
  {
    hide Inv, GoodSetup, Decode, LinkOk, WellFormed, Queued, ViewOf, NetOk, AllPackets, PacketsFrom;
    SetupIsGood(net, k);
    var l := net.links[0];
    var v := ViewOf(net.server, l.client.setup);
    OutgoingIsWellFormed(s, v, l, k);
    if s.Transferring? { NextPacket(v, l.client, 1, k); }
    var q, rest := Pop(l, Outgoing(s, v, l.client, k));
  }

  lemma FromKeyAnswered(net: Net, k: Crypto) returns (net': Net)
    requires |net.links| == 1
    requires At(net, KeyAnswered, k)
    ensures Enabled(net, ClientReads(0)) && net' == Apply(net, ClientReads(0), k) && At(net', Transferring(1), k)
    ensures |net'.links| == 1
    ensures net'.links[0].client.setup == net.links[0].client.setup
  {
    hide Inv, GoodSetup, NetOk, LinkOk, Queued, ViewOf, AnswerFormat.ReplyOctets, Paired, Next;
    SetupIsGood(net, k);
    UnderWay(net, KeyAnswered, k);
    var l := net.links[0];
    var v := ViewOf(net.server, l.client.setup);
    ClientSideKeepsSetup(l, k);
    SystemClient.WrappedKey(v, l.client, k);
    SystemClient.KeyAnsweredAdvances(v, l, k);
    hide In;
    ClientMoves(net, KeyAnswered, Transferring(1), k);
    net' := Apply(net, ClientReads(0), k);
  }

  // ---- One spoiled upload ----

  /** A fault, the server's refusal and the client's reaction. */
  lemma SpoiledUpload(start: Net, steps: seq<Step>, net: Net, bad: Bytes, k: Crypto)
    returns (more: seq<Step>, net': Net)
    requires Reaches(start, steps, net, k) && |net.links| == 1 && At(net, Transferring(1), k)
    requires Spoils(net, bad, k) && net.links[0].client.phase.Uploading?
    ensures Reaches(start, more, net', k) && Reacted(net, net', k)
  {
    hide At, Enabled, Apply, Reaches, Spoils, Reacted;
    var p := BadPacket(net, bad, k);
    var f := Altered(0, EncodeAll([p]));
    var net1 := Apply(net, f, k);
    OneStepMore(start, steps, net, f, k);
    StillSpoils(net, net1, bad, k);
    var net2 := Refused(net1, p, bad, k);
    OneStepMore(start, steps + [f], net1, ServerMove(net1), k);
    net' := Reacts(net2, k);
    more := steps + [f] + [ServerMove(net1)];
    OneStepMore(start, more, net2, ClientReads(0), k);
    more := more + [ClientReads(0)];
    SameReaction(net, net2, net', k);
  }

  /** Content that has the length of the ciphertext and cannot be decrypted. */
  ghost predicate Spoils(net: Net, bad: Bytes, k: Crypto)
    requires |net.links| == 1
  {
    var v := ViewOf(net.server, net.links[0].client.setup);
    && v.Present? && |bad| == |CipherOf(v, net.links[0].client, k)| <= PACKET_MAX_SIZE
    && k.decrypt(v.rec.aesKey, bad) == None
  }

  /** The client has sent its upload again, or has exited. */
  ghost predicate Reacted(net: Net, net': Net, k: Crypto)
    requires |net.links| == 1
  {
    && |net'.links| == 1 && net'.links[0].client.setup == net.links[0].client.setup
    && net.links[0].client.phase.Uploading? && net.links[0].client.phase.failures < MAX_TRIES
    && var failures := net.links[0].client.phase.failures + 1;
       if failures == MAX_TRIES then At(net', Abandoned, k)
       else At(net', Transferring(1), k) && net'.links[0].client.phase == Uploading(failures)
  }

  lemma StillSpoils(net: Net, net': Net, bad: Bytes, k: Crypto)
    requires |net.links| == |net'.links| == 1 && net'.server == net.server
    requires net'.links[0].client == net.links[0].client
    ensures Spoils(net', bad, k) == Spoils(net, bad, k)
  {
  }

  lemma SameReaction(net: Net, net2: Net, net': Net, k: Crypto)
    requires |net.links| == |net2.links| == 1 && net2.links[0].client.setup == net.links[0].client.setup
    requires net2.links[0].client.phase == net.links[0].client.phase && Reacted(net2, net', k)
    ensures Reacted(net, net', k)
  {
    hide At;
  }

  lemma BadPacket(net: Net, bad: Bytes, k: Crypto) returns (p: Request)
    requires |net.links| == 1 && At(net, Transferring(1), k) && Spoils(net, bad, k)
    ensures WellFormed(p) && p.Packet? && p.number == p.total && p.number == 1 && p.content == bad
    ensures p.id == net.links[0].client.id && p.name == Field(net.links[0].client.setup.fileName)
    ensures var f := Altered(0, EncodeAll([p]));
            && Enabled(net, f) && At(Apply(net, f, k), Transferring(1), k)
            && |Apply(net, f, k).links| == 1 && Apply(net, f, k).server == net.server
            && Apply(net, f, k).links[0].toServer == EncodeAll([p])
            && Apply(net, f, k).links[0].client == net.links[0].client
  {
    hide NetOk, Inv, GoodSetup, ViewOf, WellFormed, EncodeAll, DecodeAll, Queued, LinkOk;
    SetupIsGood(net, k);
    var l := net.links[0];
    var v := ViewOf(net.server, l.client.setup);
    var u := TheUpload(v, l.client, k);
    OutgoingIsWellFormed(Transferring(1), v, l, k);
    OnlyPacket(v, l.client, k);
    InParts(Transferring(1), v, l, k);
    PendingIs(l, [PacketAt(u, 1)]);
    p := PacketAt(u, 1).(content := bad);
    SimilarWellFormed(PacketAt(u, 1), p);
    var q := DecodeAll(l.toServer).value;
    assert Similar(PacketAt(u, 1), q[0]) && Similar(q[0], p);
    assert AllSimilar(q, [p]);
    FaultKeepsStage(Transferring(1), v, l, EncodeAll([p]), k);
    hide In, Similar;
    StepOk(net, Altered(0, EncodeAll([p])), k);
  }

  lemma OnlyPacket(v: View, c: Client, k: Crypto)
    requires v.Present? && |CipherOf(v, c, k)| <= PACKET_MAX_SIZE && Total(|CipherOf(v, c, k)|) >= 1
    ensures Total(|CipherOf(v, c, k)|) == 1 && Outgoing(Transferring(1), v, c, k) == [PacketAt(TheUpload(v, c, k), 1)]
    ensures |PacketAt(TheUpload(v, c, k), 1).content| == |CipherOf(v, c, k)|
  {
    hide CipherOf;
    NextPacket(v, c, 1, k);
    AllPacketsSent(TheUpload(v, c, k));
  }

  lemma Refused(net: Net, p: Request, bad: Bytes, k: Crypto) returns (net': Net)
    requires |net.links| == 1 && At(net, Transferring(1), k) && Spoils(net, bad, k)
    requires net.links[0].toServer == EncodeAll([p])
    requires WellFormed(p) && p.Packet? && p.number == p.total && p.number == 1 && p.content == bad
    requires p.id == net.links[0].client.id && p.name == Field(net.links[0].client.setup.fileName)
    ensures Enabled(net, ServerMove(net)) && net' == Apply(net, ServerMove(net), k) && At(net', Rejected, k)
    ensures |net'.links| == 1
    ensures net'.links[0].client == net.links[0].client.(input := net'.links[0].client.input)
  {
    hide Inv, GoodSetup, ServerSide, NetOk, LinkOk, WellFormed, ViewOf, Serve, Queued, Encode;
    SetupIsGood(net, k);
    var st, l := net.server, net.links[0];
    var draw := NewDraw(st);
    NewDrawIsGood(st);
    assert EncodeAll([p]) == Encode(p) + EncodeAll([]) && EncodeAll([]) == [];
    DecodeEncode(p, []);
    TransferringIs(ViewOf(st, l.client.setup), l.client, 1, l.clean, k);
    GoodNamesOf(l.client.setup, k);
    FileFieldIsRead(l.client.setup);
    PacketEffect(st, l.client.setup, p, draw, k);
    ServerSideKeepsClient(st, l, draw, k);
    hide In;
    var s' := TransferringAdvances(st, l, 1, draw, k);
    ClientsCount(net, k);
    SomethingToRead(p);
    ServerMoves(net, Transferring(1), Rejected, k);
    net' := Apply(net, ServerMove(net), k);
  }

  lemma SomethingToRead(p: Request)
    ensures EncodeAll([p]) != []
  {
    SomethingEncoded([p]);
  }

  lemma Reacts(net: Net, k: Crypto) returns (net': Net)
    requires |net.links| == 1 && At(net, Rejected, k)
    ensures Enabled(net, ClientReads(0)) && net' == Apply(net, ClientReads(0), k) && Reacted(net, net', k)
  {
    hide Inv, GoodSetup, NetOk, LinkOk, Queued, ViewOf, AnswerFormat.ReplyOctets, Keyed, ClientSide;
    SetupIsGood(net, k);
    UnderWay(net, Rejected, k);
    var l := net.links[0];
    var v := ViewOf(net.server, l.client.setup);
    ClientSideKeepsSetup(l, k);
    var s' := SystemClient.RejectedAdvances(v, l, k);
    hide In;
    ClientMoves(net, Rejected, s', k);
    net' := Apply(net, ClientReads(0), k);
  }

  // ---- The whole run ----

  lemma {:induction false} SpoiledUntilExit(start: Net, steps: seq<Step>, net: Net, k: Crypto)
    returns (all: seq<Step>, end: Net)
    requires k == SystemProgress.ToyCrypto() && Reaches(start, steps, net, k)
    requires |net.links| == 1 && At(net, Transferring(1), k) && |net.links[0].client.setup.file| < PACKET_MAX_SIZE
    requires net.links[0].client.phase.Uploading? && net.links[0].client.phase.failures < MAX_TRIES
    ensures Reaches(start, all, end, k) && At(end, Abandoned, k)
    decreases MAX_TRIES - net.links[0].client.phase.failures
  {
    hide At, Apply, Enabled, Reaches, Spoils;
    var bad := Spoiling(net, k);
    all, end := SpoiledUpload(start, steps, net, bad, k);
    if net.links[0].client.phase.failures + 1 < MAX_TRIES {
      all, end := SpoiledUntilExit(start, all, end, k);
    }
  }

  lemma Spoiling(net: Net, k: Crypto) returns (bad: Bytes)
    requires k == SystemProgress.ToyCrypto() && |net.links| == 1 && At(net, Transferring(1), k)
    requires |net.links[0].client.setup.file| < PACKET_MAX_SIZE
    ensures Spoils(net, bad, k)
  {
    hide NetOk, Inv, Queued, ViewOf, Total;
    bad := net.links[0].client.setup.file + [0];
  }

  /** There is a run in which the client exits for a fourth error answer, and its file is on the
      server's disk, listed as not valid. */
  lemma AbandonedRun(name: Bytes, fileName: Bytes, file: Bytes)
    returns (start: Net, steps: seq<Step>, content: Bytes)
    requires PlainText(name) && |name| <= 100 && PlainText(fileName) && |fileName| < NAME_SIZE
    requires |file| < PACKET_MAX_SIZE
    ensures var k := SystemProgress.ToyCrypto();
            && Start(start, k) && |start.links| == 1 && start.links[0].client.setup.file == file
            && Possible(start, steps, k)
            && var end := RunNet(start, steps, k);
               && |end.links| == 1 && end.links[0].client.phase == Exited && LastSent(end.links[0].client, 828)
               && Stores(end.server, end.links[0].client.setup, end.links[0].client.id, false, content)
  {
    hide At, Start, Reaches, PlainText, SystemProgress.ToyCrypto;
    var k := SystemProgress.ToyCrypto();
    start := SystemProgress.SomeSystemStarts(name, fileName, file);
    StartIsAsked(start, k);
    var steps1, net := Registered(start, k);
    FirstAttempt(net, k);
    var end;
    steps, end := SpoiledUntilExit(start, steps1, net, k);
    ReachesIs(start, steps, end, k);
    content := Left(end, k);
  }

  lemma ReachesIs(start: Net, steps: seq<Step>, net: Net, k: Crypto)
    requires Reaches(start, steps, net, k)
    ensures Possible(start, steps, k) && RunNet(start, steps, k) == net
  {
  }

  lemma StartIsAsked(start: Net, k: Crypto)
    requires Start(start, k) && |start.links| == 1 && !start.links[0].known && start.server.clients == []
    ensures At(start, Asked, k)
  {
    hide NetOk, LinkOk, EncodeAll, RequestsOf, ViewOf;
    StartOk(start, k);
    AskedIs(start.server, start.links[0], k);
  }

  lemma FirstAttempt(net: Net, k: Crypto)
    requires At(net, Transferring(1), k)
    ensures |net.links| == 1 && net.links[0].client.phase.Uploading?
    ensures net.links[0].client.phase.failures < MAX_TRIES
  {
    hide NetOk, ViewOf, Queued, Keyed;
  }

  lemma Left(net: Net, k: Crypto) returns (content: Bytes)
    requires At(net, Abandoned, k)
    ensures |net.links| == 1 && net.links[0].client.phase == Exited && LastSent(net.links[0].client, 828)
    ensures Stores(net.server, net.links[0].client.setup, net.links[0].client.id, false, content)
  {
    hide NetOk, ViewOf, Queued, Inv, Paired, Stores;
    SetupIsGood(net, k);
    ViewStores(net.server, net.links[0].client.setup);
    content := ViewOf(net.server, net.links[0].client.setup).stored.value;
  }
}
