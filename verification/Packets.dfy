/** Splitting an encrypted file into packets (Client/client.cpp, send_file) and rebuilding it from
    what the server writes for each packet (Server/request.py). */
module Packets {
  import opened Octets
  import opened Text
  import opened Wire
  import ServerModel

  /** One upload: what every packet of it carries, and the encrypted content to be cut. */
  datatype Upload = Upload(id: Bytes, name: Bytes, cipher: Bytes, origSize: nat)

  function Total(size: nat): nat {
    (size + PACKET_MAX_SIZE - 1) / PACKET_MAX_SIZE
  }

  function Begin(n: nat): nat
    requires n >= 1
  {
    PACKET_MAX_SIZE * (n - 1)
  }

  function End(size: nat, n: nat): nat {
    if PACKET_MAX_SIZE * n < size then PACKET_MAX_SIZE * n else size
  }

  lemma Bounds(size: nat, n: nat)
    requires 1 <= n
    ensures n <= Total(size) <==> Begin(n) < size
    ensures n <= Total(size) ==> Begin(n) < End(size, n) <= size && End(size, n) <= Begin(n) + PACKET_MAX_SIZE
    ensures n < Total(size) ==> End(size, n) == Begin(n + 1)
    ensures n == Total(size) ==> End(size, n) == size
  {
  }

  function PacketAt(u: Upload, n: nat): Request
    requires 1 <= n <= Total(|u.cipher|)
  {
    Packet(u.id, |u.cipher|, u.origSize, n, Total(|u.cipher|), u.name, u.cipher[Begin(n)..End(|u.cipher|, n)])
  }

  function PacketsFrom(u: Upload, n: nat): (ps: seq<Request>)
    requires 1 <= n <= Total(|u.cipher|) + 1
    ensures |ps| == Total(|u.cipher|) + 1 - n
    decreases Total(|u.cipher|) + 1 - n
  {
    if n == Total(|u.cipher|) + 1 then [] else [PacketAt(u, n)] + PacketsFrom(u, n + 1)
  }

  function AllPackets(u: Upload): seq<Request> {
    PacketsFrom(u, 1)
  }

  function Contents(ps: seq<Request>): Bytes {
    if ps == [] then [] else (if ps[0].Packet? then ps[0].content else []) + Contents(ps[1..])
  }

  /** An upload that the protocol can carry. */
  predicate Sendable(u: Upload) {
    && |u.id| == CLIENT_ID_SIZE && |u.name| == NAME_SIZE
    && u.origSize < 0x1_0000_0000 && |u.cipher| <= MAX_PACKETS * PACKET_MAX_SIZE
  }

  lemma {:induction false} PacketsFromAt(u: Upload, n: nat, i: nat)
    requires 1 <= n && n + i <= Total(|u.cipher|)
    ensures PacketsFrom(u, n)[i] == PacketAt(u, n + i)
    decreases i
  {
    if i > 0 { PacketsFromAt(u, n + 1, i - 1); }
  }

  lemma {:induction false} ContentsFrom(u: Upload, n: nat)
    requires 1 <= n <= Total(|u.cipher|) + 1
    ensures Begin(n) >= |u.cipher| <==> n == Total(|u.cipher|) + 1
    ensures Contents(PacketsFrom(u, n)) == if Begin(n) >= |u.cipher| then [] else u.cipher[Begin(n)..]
    decreases Total(|u.cipher|) + 1 - n
  {
    Bounds(|u.cipher|, n);
    if n <= Total(|u.cipher|) {
      ContentsFrom(u, n + 1);
      assert PacketsFrom(u, n)[1..] == PacketsFrom(u, n + 1);
    }
  }

  /** The packets are numbered 1 to ceil(size / 4096) without wrapping, none is empty or longer
      than 4096 octets, each can be framed, and together they carry the whole ciphertext. */
  lemma PacketsCoverUpload(u: Upload)
    requires Sendable(u)
    ensures |AllPackets(u)| == Total(|u.cipher|) <= 65535
    ensures 4096 * (Total(|u.cipher|) - 1) < |u.cipher| <= 4096 * Total(|u.cipher|)
            || (u.cipher == [] && Total(0) == 0)
    ensures forall i :: 0 <= i < |AllPackets(u)| ==>
              && AllPackets(u)[i] == PacketAt(u, i + 1)
              && WellFormed(AllPackets(u)[i])
              && AllPackets(u)[i].number == i + 1 && AllPackets(u)[i].total == Total(|u.cipher|)
              && 0 < |AllPackets(u)[i].content| <= 4096
    ensures Contents(AllPackets(u)) == u.cipher
  {
    forall i | 0 <= i < |AllPackets(u)|
      ensures AllPackets(u)[i] == PacketAt(u, i + 1) && WellFormed(AllPackets(u)[i])
      ensures 0 < |AllPackets(u)[i].content| <= PACKET_MAX_SIZE
    {
      PacketsFromAt(u, 1, i);
      Bounds(|u.cipher|, i + 1);
    }
    ContentsFrom(u, 1);
  }

  // ---- Reassembly ----

  function WriteAll(disk: map<Bytes, Bytes>, path: Bytes, ps: seq<Request>): map<Bytes, Bytes>
    decreases |ps|
  {
    if ps == [] then disk
    else
      var p := ps[0];
      WriteAll(if p.Packet? then ServerModel.WritePacket(disk, path, p.number, p.content) else disk, path, ps[1..])
  }

  lemma {:induction false} WriteRest(disk: map<Bytes, Bytes>, path: Bytes, u: Upload, n: nat)
    requires 2 <= n <= Total(|u.cipher|) + 1 && path in disk
    requires disk[path] == u.cipher[..End(|u.cipher|, n - 1)]
    ensures WriteAll(disk, path, PacketsFrom(u, n)) == disk[path := u.cipher]
    decreases Total(|u.cipher|) + 1 - n
  {
    Bounds(|u.cipher|, n - 1);
    Bounds(|u.cipher|, n);
    if n == Total(|u.cipher|) + 1 {
      assert u.cipher[..|u.cipher|] == u.cipher;
      assert disk[path := u.cipher] == disk;
    } else {
      var p := PacketAt(u, n);
      var next := ServerModel.WritePacket(disk, path, n, p.content);
      assert disk[path] + p.content == u.cipher[..End(|u.cipher|, n)];
      assert PacketsFrom(u, n)[1..] == PacketsFrom(u, n + 1);
      WriteRest(next, path, u, n + 1);
      assert next[path := u.cipher] == disk[path := u.cipher];
    }
  }

  /** Whatever an earlier upload left at the path, writing the packets in order leaves exactly the
      ciphertext there and touches nothing else. */
  lemma Reassembly(disk: map<Bytes, Bytes>, path: Bytes, u: Upload)
    requires Sendable(u) && u.cipher != []
    ensures WriteAll(disk, path, AllPackets(u)) == disk[path := u.cipher]
  {
    Bounds(|u.cipher|, 1);
    var p := PacketAt(u, 1);
    var next := ServerModel.WritePacket(disk, path, 1, p.content);
    assert p.content == u.cipher[..End(|u.cipher|, 1)];
    assert AllPackets(u)[1..] == PacketsFrom(u, 2);
    WriteRest(next, path, u, 2);
    assert next[path := u.cipher] == disk[path := u.cipher];
  }

  /** Sent as octets, parsed by the server and written packet by packet, the ciphertext arrives. */
  lemma UploadArrives(disk: map<Bytes, Bytes>, path: Bytes, u: Upload)
    requires Sendable(u) && u.cipher != []
    ensures var received := DecodeAll(EncodeAll(AllPackets(u)));
            received.Some? && WriteAll(disk, path, received.value) == disk[path := u.cipher]
  {
    hide AllPackets, WriteAll, EncodeAll, DecodeAll, PacketAt, WellFormed;
    PacketsCoverUpload(u);
    assert forall p :: p in AllPackets(u) ==> WellFormed(p);
    DecodeEncodeAll(AllPackets(u));
    Reassembly(disk, path, u);
  }

  // ---- Sizes as the client's `int` ----

  /** Conversion of a size to a 32-bit `int`. */
  function Int32(n: nat): (i: int)
    ensures -0x8000_0000 <= i < 0x8000_0000
    ensures n < 0x8000_0000 <==> i == n
    ensures (n - i) % 0x1_0000_0000 == 0
  {
    var m := n % 0x1_0000_0000;
    if m < 0x8000_0000 then m else m - 0x1_0000_0000
  }

  /** Division that truncates toward zero. */
  function Quotient(a: int): int {
    if a >= 0 then a / PACKET_MAX_SIZE else -(-a / PACKET_MAX_SIZE)
  }

  /** `calculate_total_packets`; None where it exits. */
  function TotalPackets(fileSize: int): Option<int> {
    var q := Quotient(fileSize);
    var total := if fileSize - PACKET_MAX_SIZE * q != 0 then q + 1 else q;
    if total > MAX_PACKETS then None else Some(total)
  }

  lemma TotalPacketsIsCeiling(size: nat)
    ensures TotalPackets(size) == if size <= 65535 * 4096 then Some((size + 4095) / 4096) else None
    ensures Total(size) == (size + 4095) / 4096
  {
  }

  /** The part of the ciphertext that the send loop goes through: its counter starts at the size
      converted to `int`. */
  function Transmitted(cipher: Bytes): (t: Bytes)
    ensures t <= cipher && |t| == if Int32(|cipher|) > 0 then Int32(|cipher|) else 0
  {
    var counter := Int32(|cipher|);
    if counter <= 0 then [] else cipher[..counter]
  }

  /** The client refuses a file or transmits all of it, exactly if its size fits an `int` or the
      converted size is still above the limit. */
  lemma RefusedOrWhole(cipher: Bytes)
    ensures TotalPackets(Int32(|cipher|)).None? || Transmitted(cipher) == cipher
            <==> |cipher| < 0x8000_0000 || Int32(|cipher|) > 65535 * 4096
  {
    var counter := Int32(|cipher|);
    if counter > 0 {
      TotalPacketsIsCeiling(counter);
      assert |cipher| >= 0x8000_0000 ==> |Transmitted(cipher)| < |cipher|;
    } else {
      NoRefusal(counter);
      assert |cipher| >= 0x8000_0000 ==> |Transmitted(cipher)| < |cipher|;
    }
  }

  lemma NoRefusal(counter: int)
    requires counter <= 0
    ensures TotalPackets(counter).Some?
  {
  }
}
