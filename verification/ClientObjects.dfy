/** The client as it is written: request and answer objects that are filled in step by step, and a
    program of mutually calling retry procedures. Each is proved to do what ClientModel says. */
module ClientObjects {
  import opened Octets
  import opened Text
  import opened Wire
  import opened Cryptography
  import opened Packets
  import opened ClientModel
  import System
  import SystemClient
  import Checksum

  /** The connection: what the server has sent and is still to be read, and what has been written. */
  class Socket {
    var input: Bytes
    var output: Bytes

    /** Reads exactly `n` octets; None stands for the exception when the input ends before. */
    method Read(n: nat) returns (s: Option<Bytes>)
      modifies this`input
      ensures |old(input)| < n ==> s == None
      ensures |old(input)| >= n ==> s == Some(old(input)[..n]) && input == old(input)[n..]
    {
      if |input| < n { return None; }
      s := Some(input[..n]);
      input := input[n..];
    }

    method Write(s: Bytes)
      modifies this`output
      ensures output == old(output) + s
    {
      output := output + s;
    }

    method Close()
      modifies this`input
      ensures input == []
    {
      input := [];
    }
  }

  // ---- Client/request.cpp ----

  class ClientRequest {
    var failures: nat
    var id: Bytes
    var version: Bytes
    var code: Bytes
    var payloadSize: Bytes
    var payload: Bytes

    constructor ()
      ensures failures == 0 && payload == [] && Valid()
    {
      failures, payload := 0, [];
      id, version := ZeroOctets(CLIENT_ID_SIZE), LittleEndian(VERSION, 1);
      code, payloadSize := ZeroOctets(2), ZeroOctets(4);
    }

    ghost predicate Valid()
      reads this
    {
      |id| == CLIENT_ID_SIZE && |code| == 2 && |payloadSize| == 4 && version == LittleEndian(VERSION, 1)
    }

    /** The octets that would be sent. */
    function Octets(): Bytes
      reads this
    {
      id + version + code + payloadSize + payload
    }

    /** The fields are those of the request. */
    ghost predicate Carries(r: Request)
      reads this
    {
      && Valid() && id == r.id && code == LittleEndian(Code(r), 2)
      && payloadSize == LittleEndian(|Payload(r)|, 4) && payload == Payload(r)
    }

    lemma CarriedOctets(r: Request)
      requires Carries(r)
      ensures Octets() == Encode(r)
    {
      hide LittleEndian, Payload;
    }

    method SetClientID(value: Bytes)
      requires Valid() && |value| >= CLIENT_ID_SIZE
      modifies this`id
      ensures Valid() && id == value[..CLIENT_ID_SIZE]
    {
      var i := 0;
      while i < CLIENT_ID_SIZE
        invariant i <= CLIENT_ID_SIZE && |id| == CLIENT_ID_SIZE
        invariant id[..i] == value[..i]
      {
        id := id[i := value[i]];
        i := i + 1;
      }
    }

    method SetCode(value: nat)
      requires Valid()
      modifies this`code
      ensures Valid() && code == LittleEndian(value, 2)
    {
      code := LittleEndian(value, 2);
    }

    method SetPayloadSize(size: int)
      requires Valid()
      modifies this`payloadSize
      ensures Valid() && payloadSize == LittleEndian(size % 0x1_0000_0000, 4)
    {
      payloadSize := LittleEndian(size % 0x1_0000_0000, 4);
    }

    method AppendStringPayload(s: Bytes, width: nat)
      modifies this`payload
      ensures payload == old(payload) + Pad(s, width)
    {
      var i := 0;
      while i < |s|
        invariant i <= |s| && payload == old(payload) + s[..i]
      {
        payload := payload + [s[i]];
        i := i + 1;
      }
      assert s[..|s|] == s;
      ghost var full := payload;
      i := |s|;
      assert full + ZeroOctets(0) == full;
      while i < width
        invariant |s| <= i && (if |s| <= width then i <= width else i == |s|)
        invariant payload == full + ZeroOctets(i - |s|)
      {
        assert ZeroOctets(i + 1 - |s|) == ZeroOctets(i - |s|) + [0];
        payload := payload + [0];
        i := i + 1;
      }
      assert s + ZeroOctets(0) == s;
      assert payload == old(payload) + (s + ZeroOctets(i - |s|));
    }

    method AppendNumberPayload(num: int, size: nat)
      requires size == 4 || size == 2
      modifies this`payload
      ensures payload == old(payload) + LittleEndian(num % 0x1_0000_0000, size)
    {
      hide LittleEndian;
      var content := LittleEndian(num % 0x1_0000_0000, size);
      var i := 0;
      while i < size
        invariant i <= size && payload == old(payload) + content[..i]
      {
        payload := payload + [content[i]];
        i := i + 1;
      }
      assert content[..size] == content;
    }

    method AppendFileSlice(file: Bytes, begin: nat, end: nat)
      requires begin <= end <= |file|
      modifies this`payload
      ensures payload == old(payload) + file[begin..end]
    {
      var i := begin;
      while i < end
        invariant begin <= i <= end && payload == old(payload) + file[begin..i]
      {
        payload := payload + [file[i]];
        i := i + 1;
      }
    }

    method SendToServer(s: Socket)
      modifies s`output
      ensures s.output == old(s.output) + Octets()
    {
      var message: Bytes := [];
      message := Appended(message, id);
      message := Appended(message, version);
      message := Appended(message, code);
      message := Appended(message, payloadSize);
      message := Appended(message, payload);
      assert message == Octets();
      s.Write(message);
    }

    /** The loop that pushes the octets of a field. */
    method Appended(message: Bytes, field: Bytes) returns (m: Bytes)
      ensures m == message + field
    {
      m := message;
      var i := 0;
      while i < |field|
        invariant i <= |field| && m == message + field[..i]
      {
        m := m + [field[i]];
        i := i + 1;
      }
      assert field[..|field|] == field;
    }

    method AddFailure()
      modifies this`failures
      ensures failures == old(failures) + 1
    {
      failures := failures + 1;
    }

    method RestartFailures()
      modifies this`failures
      ensures failures == 0
    {
      failures := 0;
    }

    method ClearPayload()
      modifies this`payload
      ensures payload == []
    {
      payload := [];
    }
  }

  // ---- Client/answer.cpp ----

  /** Every method says whether it read what it wanted; if not, the program exits. */
  class ClientAnswer {
    var code: nat
    var size: nat

    constructor () {
      code, size := 0, 0;
    }

    method GetHeader(s: Socket) returns (ok: bool)
      modifies this, s`input
      ensures ok <==> ReadHeader(old(s.input)).Some?
      ensures ok ==> ReadHeader(old(s.input)) == Some(Heading(code, size, s.input))
    {
      hide NumberOf;
      ghost var input := s.input;
      var version := s.Read(1);
      if version.None? { return false; }
      var c := s.Read(2);
      if c.None? { return false; }
      var n := s.Read(4);
      if n.None? { return false; }
      assert c.value == input[1..3] && n.value == input[3..7] && s.input == input[7..];
      if NumberOf(version.value) != VERSION { return false; }
      code, size := NumberOf(c.value), NumberOf(n.value);
      ok := true;
    }

    method ReadStringAndCheck(s: Socket, expected: Bytes, n: nat) returns (ok: bool)
      modifies s`input
      ensures ok <==> Checked(old(s.input), expected, n).Some?
      ensures ok ==> Checked(old(s.input), expected, n) == Some(s.input)
    {
      hide CutAtZero;
      var received := s.Read(n);
      if received.None? { return false; }
      ok := CutAtZero(received.value) == expected;
    }

    /** The rest of the payload after the identifier; sizes that do not fit an `int`, or are too
        small, make the allocation fail. */
    method GetEncryptedAes(s: Socket) returns (aes: Option<Bytes>)
      modifies s`input
      ensures aes.None? <==> size < CLIENT_ID_SIZE || size >= 0x8000_0000 || |old(s.input)| < size - CLIENT_ID_SIZE
      ensures aes.Some? ==> var n := size - CLIENT_ID_SIZE;
                            aes.value == old(s.input)[..n] && s.input == old(s.input)[n..]
    {
      var payload := if size < 0x8000_0000 then size else size - 0x1_0000_0000;
      if payload - CLIENT_ID_SIZE < 0 || size >= 0x8000_0000 { return None; }
      aes := s.Read(payload - CLIENT_ID_SIZE);
    }

    method GetNumber(s: Socket) returns (n: Option<nat>)
      modifies s`input
      ensures n.None? <==> |old(s.input)| < 4
      ensures n.Some? ==> n.value == NumberOf(old(s.input)[..4]) && s.input == old(s.input)[4..]
    {
      hide NumberOf;
      var b := s.Read(4);
      if b.None? { return None; }
      n := Some(NumberOf(b.value));
    }

    method GetClientID(s: Socket) returns (id: Option<Bytes>)
      modifies s`input
      ensures id.None? <==> |old(s.input)| < CLIENT_ID_SIZE
      ensures id.Some? ==> id.value == old(s.input)[..CLIENT_ID_SIZE] && s.input == old(s.input)[CLIENT_ID_SIZE..]
    {
      id := s.Read(CLIENT_ID_SIZE);
    }
  }

  // ---- Client/client.cpp ----

  lemma EncodeFirst(a: seq<Request>)
    requires a != []
    ensures EncodeAll(a) == Encode(a[0]) + EncodeAll(a[1..])
  {
    hide Encode;
  }

  lemma Associate(x: Bytes, y: Bytes, z: Bytes)
    ensures x + (y + z) == (x + y) + z
  {
  }

  lemma {:induction false} EncodeConcat(a: seq<Request>, b: seq<Request>)
    ensures EncodeAll(a + b) == EncodeAll(a) + EncodeAll(b)
  {
    hide Encode;
    if a == [] {
      assert a + b == b;
    } else {
      EncodeConcat(a[1..], b);
      assert (a + b)[0] == a[0] && (a + b)[1..] == a[1..] + b;
      EncodeFirst(a);
      EncodeFirst(a + b);
      hide EncodeAll;
      Associate(Encode(a[0]), EncodeAll(a[1..]), EncodeAll(b));
    }
  }

  lemma {:induction false} RequestsConcat(a: seq<Sent>, b: seq<Sent>)
    ensures System.RequestsOf(a + b) == System.RequestsOf(a) + System.RequestsOf(b)
  {
    hide System.RequestsIn;
    if a == [] {
      assert a + b == b;
    } else {
      RequestsConcat(a[1..], b);
      assert (a + b)[1..] == a[1..] + b && (a + b)[0] == a[0];
    }
  }

  function LogOctets(log: seq<Sent>): Bytes {
    EncodeAll(System.RequestsOf(log))
  }

  lemma LogGrows(log: seq<Sent>, s: Sent)
    ensures LogOctets(log + [s])
         == LogOctets(log) + EncodeAll(System.RequestsIn(s))
  {
    RequestsConcat(log, [s]);
    SystemClient.RequestsOfOne(s);
    EncodeConcat(System.RequestsOf(log), System.RequestsOf([s]));
  }

  lemma EncodeOne(r: Request)
    ensures EncodeAll([r]) == Encode(r)
  {
    hide Encode;
    assert [r][1..] == [];
    assert Encode(r) + [] == Encode(r);
  }

  lemma {:induction false} LittleEndianMod(n: nat, size: nat)
    ensures LittleEndian(n % Capacity(size), size) == LittleEndian(n, size)
    decreases size
  {
    if size > 0 {
      var c := Capacity(size - 1);
      LittleEndianMod(n / 256, size - 1);
      ModDigits(n, c);
      LowAndHigh(n % (256 * c), n % 256, (n / 256) % c);
    }
  }

  lemma LowAndHigh(m: nat, low: nat, high: nat)
    requires m == low + 256 * high && low < 256
    ensures m % 256 == low && m / 256 == high
  {
  }

  lemma RunUnfolds(c: Client, k: Crypto)
    requires Counted(c.phase) && !Ended(c.phase)
    ensures Run(c, k) == Run(Next(c, k), k)
  {
  }

  lemma RunStops(c: Client, k: Crypto)
    requires Ended(c.phase)
    ensures Run(c, k) == c
  {
  }

  /** The client object and the procedures of the program. `log` remembers what has been sent and
      `contentSize` what the last upload announced. */
  class Program {
    const setup: Setup
    const k: Crypto
    const sock: Socket
    var id: Bytes
    var privateKey: Bytes
    var attempts: nat
    var wrappedKey: Bytes
    var crc: nat
    ghost var contentSize: nat
    ghost var log: seq<Sent>

    /** A program that has not sent anything; identifier and key are those of the files, if any. */
    constructor (setup: Setup, k: Crypto, sock: Socket, id: Bytes, privateKey: Bytes)
      requires sock.output == []
      requires |setup.name| <= NAME_SIZE && |setup.fileName| < NAME_SIZE && |setup.file| < 0x8000_0000
      ensures Valid() && this.setup == setup && this.k == k && this.sock == sock
      ensures Abs(Exited) == Started(setup, sock.input).(id := id, privateKey := privateKey)
    {
      this.setup, this.k, this.sock := setup, k, sock;
      this.id, this.privateKey, attempts, wrappedKey, crc := id, privateKey, 0, [], 0;
      contentSize, log := 0, [];
    }

    ghost predicate Valid()
      reads this, sock
    {
      && sock.output == LogOctets(log)
      && |setup.name| <= NAME_SIZE && |setup.fileName| < NAME_SIZE && |setup.file| < 0x8000_0000
    }

    ghost function Abs(p: Phase): Client
      reads this, sock
    {
      Client(setup, p, id, privateKey, attempts, wrappedKey, contentSize, sock.input, log)
    }

    /** `exit(1)` */
    method Leave() returns (p: Phase)
      requires Valid()
      modifies sock
      ensures Valid() && p == Exited && Abs(Exited) == Exit(old(Abs(Exited)))
    {
      sock.Close();
      p := Exited;
    }

    /** Sends a request that has been filled in. */
    method Submit(request: ClientRequest, ghost r: Request, ghost p: Phase)
      requires Valid() && request.Carries(r)
      modifies this`log, sock`output
      ensures Valid() && Abs(p) == Send(old(Abs(Exited)), r, p)
    {
      hide Encode, LogOctets, EncodeAll;
      request.SendToServer(sock);
      request.CarriedOctets(r);
      LogGrows(log, Message(r));
      EncodeOne(r);
      log := log + [Message(r)];
    }

    /** `general_error_handle`: whether to try again; otherwise the program exits. */
    method GeneralErrorHandle(request: ClientRequest) returns (again: bool)
      modifies request`failures
      ensures request.failures == old(request.failures) + 1
      ensures again <==> request.failures != MAX_TRIES
    {
      request.AddFailure();
      again := request.failures != MAX_TRIES;
    }

    method FillVerdict(request: ClientRequest, code: nat)
      requires Valid() && request.Valid() && request.payload == [] && |id| == CLIENT_ID_SIZE
      modifies request`id, request`code, request`payloadSize, request`payload
      ensures request.Carries(Verdict(id, code, Field(setup.fileName)))
    {
      hide LittleEndian, LogOctets, Pad;
      request.SetClientID(id);
      request.SetCode(code);
      request.SetPayloadSize(NAME_SIZE);
      request.AppendStringPayload(setup.fileName, NAME_SIZE);
      assert id[..CLIENT_ID_SIZE] == id;
      assert [] + Field(setup.fileName) == Field(setup.fileName);
    }

    /** `the_end` */
    method TheEnd(result: nat, request: ClientRequest) returns (p: Phase)
      requires Valid() && |id| == CLIENT_ID_SIZE && request.failures < MAX_TRIES
      requires request.Carries(Verdict(id, result, Field(setup.fileName)))
      modifies this`log, sock, request`failures
      ensures Valid() && Ended(p)
      ensures Abs(p) == Run(old(Abs(Ending(result, request.failures))), k)
      decreases MAX_TRIES - request.failures
    {
      hide LittleEndian, LogOctets, Pad, ReadHeader, Checked, Run, Payload;
      ghost var c := Abs(Ending(result, request.failures));
      RunUnfolds(c, k);
      var answer := new ClientAnswer();
      var ok := answer.GetHeader(sock);
      if !ok { p := Leave(); RunStops(Abs(p), k); return; }
      if answer.code == 1607 {
        var again := GeneralErrorHandle(request);
        if !again { p := Leave(); RunStops(Abs(p), k); return; }
        Submit(request, Verdict(id, result, Field(setup.fileName)), Ending(result, request.failures));
        assert Abs(Ending(result, request.failures)) == Next(c, k);
        p := TheEnd(result, request);
        return;
      }
      if answer.code != 1604 { p := Leave(); RunStops(Abs(p), k); return; }
      ok := answer.ReadStringAndCheck(sock, id, CLIENT_ID_SIZE);
      if !ok { p := Leave(); RunStops(Abs(p), k); return; }
      p := Finished(result);
      RunStops(Abs(p), k);
    }

    /** `crc_checking`: None where the program exits; otherwise 0 to try again after an error, or
        the code of the verdict, which has been sent. */
    method CrcChecking(request: ClientRequest, encryptedSize: nat, finish: ClientRequest) returns (code: Option<nat>)
      requires Valid() && |id| == CLIENT_ID_SIZE && request.failures < MAX_TRIES && request != finish
      requires finish.Valid() && finish.payload == [] && finish.failures == 0
      requires contentSize == encryptedSize && crc == Nat(Checksum.Cksum(setup.file))
      modifies this`log, sock, request`failures
      modifies finish`id, finish`code, finish`payloadSize, finish`payload
      ensures Valid()
      ensures var d := Next(old(Abs(Uploading(request.failures))), k);
              match code
              case None => Abs(Exited) == d
              case Some(verdict) =>
                if verdict == 0 || verdict == 901 then
                  && request.failures == old(request.failures) + 1 < MAX_TRIES
                  && d == SendUpload(Abs(Exited), request.failures, k)
                else
                  && d == Abs(Ending(verdict, 0)) && finish.Carries(Verdict(id, verdict, Field(setup.fileName)))
    {
      hide LittleEndian, LogOctets, Pad, ReadHeader, Checked, Payload, NumberOf, SendUpload, Checksum.Cksum, Nat;
      ghost var c := Abs(Uploading(request.failures));
      var answer := new ClientAnswer();
      var ok := answer.GetHeader(sock);
      if !ok { var p := Leave(); return None; }
      if answer.code == 1607 {
        ghost var d := Abs(Exited);
        var again := GeneralErrorHandle(request);
        if !again { var p := Leave(); return None; }
        UploadForgetsPhase(d, Uploading(old(request.failures)), request.failures, k);
        return Some(0);
      }
      if answer.code != 1603 { var p := Leave(); return None; }
      ghost var d := Abs(Uploading(request.failures));
      var reported := ReadCrc(answer, encryptedSize);
      if reported.None? { var p := Leave(); return None; }
      assert Next(c, k) == Judge(Abs(Uploading(request.failures)), reported.value, k);
      ghost var e := Abs(Uploading(request.failures));
      var verdict := 900;
      if crc != reported.value {
        request.AddFailure();
        verdict := if request.failures == MAX_TRIES then 902 else 901;
      }
      FillVerdict(finish, verdict);
      assert Abs(Uploading(old(request.failures))) == e;
      Submit(finish, Verdict(id, verdict, Field(setup.fileName)),
             if verdict == 901 then e.phase else Ending(verdict, 0));
      if verdict == 901 {
        assert Abs(Uploading(old(request.failures))) == SendVerdict(e, 901, e.phase);
        UploadForgetsPhase(Abs(Exited), Uploading(old(request.failures)), request.failures, k);
      } else {
        assert Abs(Ending(verdict, 0)) == SendVerdict(e, verdict, Ending(verdict, 0));
      }
      code := Some(verdict);
    }

    /** The payload of an answer 1603. */
    method ReadCrc(answer: ClientAnswer, encryptedSize: nat) returns (reported: Option<nat>)
      requires Valid() && contentSize == encryptedSize
      modifies sock`input
      ensures Valid()
      ensures forall p :: ReadReport(old(Abs(p))) == if reported.None? then None
                                                     else Some(Report(reported.value, sock.input))
    {
      hide LogOctets, Checked, NumberOf;
      var ok := answer.ReadStringAndCheck(sock, id, CLIENT_ID_SIZE);
      if !ok { return None; }
      var n := answer.GetNumber(sock);
      if n.None? || encryptedSize != n.value { return None; }
      ok := answer.ReadStringAndCheck(sock, setup.fileName, NAME_SIZE);
      if !ok { return None; }
      reported := answer.GetNumber(sock);
    }

    /** The upload of an encrypted file: identifier, name and sizes as the packets carry them. */
    ghost predicate Uploads(u: Upload, encrypted: Bytes) {
      && u.cipher == Transmitted(encrypted) && |u.cipher| == Int32(|encrypted|) && u.cipher <= encrypted
      && Total(|u.cipher|) <= MAX_PACKETS && |u.id| == CLIENT_ID_SIZE
      && u.name == Field(setup.fileName) && |setup.fileName| < NAME_SIZE
      && u.origSize == |setup.file| % 0x1_0000_0000
    }

    /** Fills in the size and the payload of a packet. */
    method FillPacket(request: ClientRequest, ghost u: Upload, number: nat, total: nat, counter: int, encrypted: Bytes)
      requires request.Valid() && request.payload == [] && request.id == u.id && request.code == LittleEndian(828, 2)
      requires Uploads(u, encrypted) && 1 <= number <= Total(|u.cipher|) == total
      requires counter == |u.cipher| - Begin(number)
      modifies request`payload, request`payloadSize
      ensures request.Carries(PacketAt(u, number))
    {
      hide LittleEndian, Pad, Total, Int32, Transmitted, Payload, PacketFields;
      ghost var p := PacketAt(u, number);
      Bounds(|u.cipher|, number);
      PacketEnd(|u.cipher|, number);
      request.SetPayloadSize(PACKET_FIELDS_SIZE + counter);
      if counter > PACKET_MAX_SIZE { request.SetPayloadSize(PACKET_FIELDS_SIZE + PACKET_MAX_SIZE); }
      assert request.payloadSize == LittleEndian(PACKET_FIELDS_SIZE + |p.content|, 4);
      FillFields(request, u, number, total, encrypted);
      ghost var fields := request.payload;
      var begin := PACKET_MAX_SIZE * (number - 1);
      var end := begin + PACKET_MAX_SIZE;
      if counter > PACKET_MAX_SIZE {
        request.AppendFileSlice(encrypted, begin, end);
      } else {
        request.AppendFileSlice(encrypted, begin, begin + counter);
      }
      assert request.payload == fields + p.content;
      PayloadOfPacket(p);
    }

    method FillFields(request: ClientRequest, ghost u: Upload, number: nat, total: nat, encrypted: Bytes)
      requires request.payload == [] && Uploads(u, encrypted) && number < 0x1_0000 && total < 0x1_0000
      modifies request`payload
      ensures request.payload == PacketFields(|u.cipher|, u.origSize, number, total, u.name)
    {
      hide LittleEndian, Pad, Total, Int32, Transmitted;
      request.AppendNumberPayload(Int32(|encrypted|), 4);
      request.AppendNumberPayload(|setup.file|, 4);
      request.AppendNumberPayload(number, 2);
      request.AppendNumberPayload(total, 2);
      request.AppendStringPayload(setup.fileName, NAME_SIZE);
      assert request.payload == PacketFields(|u.cipher|, u.origSize, number, total, u.name);
    }

    method SendPacket(request: ClientRequest, ghost u: Upload, number: nat, total: nat, counter: int, encrypted: Bytes)
      requires request.Valid() && request.payload == [] && request.id == u.id && request.code == LittleEndian(828, 2)
      requires Uploads(u, encrypted) && 1 <= number <= Total(|u.cipher|) == total
      requires counter == |u.cipher| - Begin(number)
      modifies request`payload, request`payloadSize, sock`output
      ensures request.Valid() && request.payload == []
      ensures sock.output == old(sock.output) + Encode(PacketAt(u, number))
    {
      hide LittleEndian, Total, Encode;
      FillPacket(request, u, number, total, counter, encrypted);
      request.SendToServer(sock);
      request.CarriedOctets(PacketAt(u, number));
      request.ClearPayload();
    }

    /** The send loop: all packets, in order. */
    method SendPackets(request: ClientRequest, ghost u: Upload, total: int, encrypted: Bytes)
      requires request.Valid() && request.payload == [] && request.id == u.id && request.code == LittleEndian(828, 2)
      requires Int32(|encrypted|) > 0 ==> Uploads(u, encrypted) && total == Total(|u.cipher|)
      requires u.cipher == Transmitted(encrypted)
      modifies request`payload, request`payloadSize, sock`output
      ensures request.Valid() && request.payload == []
      ensures sock.output == old(sock.output) + EncodeAll(AllPackets(u))
    {
      hide LittleEndian, Total, Int32, Encode, Transmitted, AllPackets, EncodeAll, Begin;
      var packetNumber, counter := 1, Int32(|encrypted|);
      ghost var n, sent := |u.cipher|, [];
      TransmittedIs(encrypted);
      NoPackets(u);
      AllSent(u);
      FirstBounds(n);
      while counter > 0
        invariant 1 <= packetNumber <= Total(n) + 1 && counter <= Int32(|encrypted|)
        invariant Int32(|encrypted|) > 0 ==> counter == n - Begin(packetNumber)
        invariant Int32(|encrypted|) <= 0 ==> Total(n) == 0
        invariant counter > 0 <==> packetNumber <= Total(n)
        invariant request.Valid() && request.payload == [] && request.id == u.id && request.code == LittleEndian(828, 2)
        invariant sent == AllPackets(u)[..packetNumber - 1]
        invariant sock.output == old(sock.output) + EncodeAll(sent)
        decreases Total(n) + 1 - packetNumber
      {
        SendPacket(request, u, packetNumber, total, counter, encrypted);
        OneMorePacket(u, packetNumber);
        sent := sent + [PacketAt(u, packetNumber)];
        NextBounds(n, packetNumber);
        packetNumber := packetNumber + 1;
        counter := counter - PACKET_MAX_SIZE;
      }
    }

    /** The loop and what is remembered of it: one upload has been sent. */
    method UploadFile(request: ClientRequest, total: int, encrypted: Bytes)
      requires Valid() && |id| == CLIENT_ID_SIZE
      requires request.Valid() && request.payload == [] && request.id == id && request.code == LittleEndian(828, 2)
      requires TotalPackets(Int32(|encrypted|)) == Some(total)
      modifies this`log, this`contentSize, sock`output, request`payload, request`payloadSize
      ensures Valid() && request.Valid() && request.payload == []
      ensures forall p, q :: Abs(p) == old(Abs(q)).(phase := p, contentSize := |encrypted| % 0x1_0000_0000,
                               sent := old(log) + [Pieces(AllPackets(UploadOf(old(Abs(q)), encrypted)))])
    {
      hide LittleEndian, AllPackets, LogOctets, EncodeAll, Total, TotalPackets, Pad;
      ghost var u := UploadOf(Abs(Exited), encrypted);
      SizesAgree(encrypted, total);
      TransmittedIs(encrypted);
      SendPackets(request, u, total, encrypted);
      LogGrows(log, Pieces(AllPackets(u)));
      log := log + [Pieces(AllPackets(u))];
      contentSize := |encrypted| % 0x1_0000_0000;
    }

    /** The first half of `send_file`: checksum, encryption and all packets; None where it exits. */
    method StartUpload(request: ClientRequest) returns (size: Option<nat>)
      requires Valid() && |id| == CLIENT_ID_SIZE && request.Valid() && request.payload == []
      modifies this`crc, this`log, this`contentSize, sock
      modifies request`id, request`code, request`payload, request`payloadSize
      ensures Valid() && request.Valid()
      ensures size.None? ==> Abs(Exited) == SendUpload(old(Abs(Exited)), request.failures, k)
      ensures size.Some? ==>
                && Abs(Uploading(request.failures)) == SendUpload(old(Abs(Exited)), request.failures, k)
                && contentSize == size.value && crc == Nat(Checksum.Cksum(setup.file))
    {
      hide LittleEndian, LogOctets, Pad, AllPackets, TotalPackets, Int32, Checksum.Cksum, Nat, UploadOf;
      ghost var c := Abs(Exited);
      var file := new Octet[|setup.file|](i requires 0 <= i < |setup.file| => setup.file[i]);
      assert file[..] == setup.file;
      var sum := Checksum.MemcrcClient(file);
      crc := Nat(sum);
      var key := k.unwrap(privateKey, wrappedKey);
      if key.None? { var p := Leave(); return None; }
      var encrypted := k.encrypt(key.value, setup.file);
      request.SetClientID(id);
      assert id[..CLIENT_ID_SIZE] == id;
      request.SetCode(828);
      var total := TotalPackets(Int32(|encrypted|));
      if total.None? { var p := Leave(); return None; }
      assert Abs(Exited) == c;
      UploadFile(request, total.value, encrypted);
      size := Some(|encrypted| % 0x1_0000_0000);
    }

    /** `send_file` */
    method SendFile(request: ClientRequest) returns (p: Phase)
      requires Valid() && |id| == CLIENT_ID_SIZE
      requires request.Valid() && request.failures < MAX_TRIES && request.payload == []
      modifies this`crc, this`log, this`contentSize, sock, request
      ensures Valid() && Ended(p)
      ensures Abs(p) == Run(SendUpload(old(Abs(Exited)), old(request.failures), k), k)
      decreases MAX_TRIES - request.failures
    {
      hide LittleEndian, LogOctets, Pad, Run, Next, SendUpload, Checksum.Cksum, Nat;
      var size := StartUpload(request);
      if size.None? { p := Exited; RunStops(Abs(p), k); return; }
      RunUnfolds(Abs(Uploading(request.failures)), k);
      var finish := new ClientRequest();
      var code := CrcChecking(request, size.value, finish);
      if code.None? { p := Exited; RunStops(Abs(p), k); return; }
      if code.value == 901 || code.value == 0 {
        request.ClearPayload();
        p := SendFile(request);
      } else {
        p := TheEnd(code.value, finish);
      }
    }

    /** `get_aes_key_from_server` */
    method GetAesKey(answer: ClientAnswer) returns (ok: bool)
      requires Valid()
      modifies this`wrappedKey, sock
      ensures Valid()
      ensures AcceptKey(old(Abs(Exited)), answer.size, k)
           == if ok then SendUpload(Abs(Exited), 0, k) else Abs(Exited)
    {
      hide LogOctets, Checked, SendUpload;
      ok := answer.ReadStringAndCheck(sock, id, CLIENT_ID_SIZE);
      if !ok { var p := Leave(); return; }
      var aes := answer.GetEncryptedAes(sock);
      if aes.None? { var p := Leave(); return false; }
      wrappedKey := aes.value;
    }

    /** `send_public_key_get_aes`: on success the key has been received. */
    method SendPublicKeyGetAes(request: ClientRequest) returns (ok: bool)
      requires Valid() && |id| == CLIENT_ID_SIZE
      requires request.Valid() && request.failures < MAX_TRIES && request.payload == []
      modifies this, sock, request
      ensures Valid() && id == old(id)
      ensures Run(SendKey(old(Abs(Exited)), old(request.failures)), k)
           == if ok then Run(SendUpload(Abs(Exited), 0, k), k) else Abs(Exited)
      decreases MAX_TRIES - request.failures
    {
      hide LittleEndian, LogOctets, Pad, Run, SendUpload, AcceptKey, ReadHeader;
      SubmitKey(request);
      RunUnfolds(Abs(SendingKey(request.failures)), k);
      var answer := new ClientAnswer();
      ok := answer.GetHeader(sock);
      if !ok { var p := Leave(); RunStops(Abs(p), k); return; }
      if answer.code == 1607 {
        ghost var e := Abs(Exited);
        var again := GeneralErrorHandle(request);
        if !again { var p := Leave(); RunStops(Abs(p), k); return false; }
        request.ClearPayload();
        KeyForgetsPhase(e, SendingKey(old(request.failures)), request.failures);
        ok := SendPublicKeyGetAes(request);
        return;
      }
      if answer.code != 1602 { var p := Leave(); RunStops(Abs(p), k); return false; }
      AcceptForgetsPhase(Abs(Exited), SendingKey(request.failures), answer.size, k);
      ok := GetAesKey(answer);
      RunStops(Abs(Exited), k);
    }

    /** A new key pair is created and its public half sent. */
    method SubmitKey(request: ClientRequest)
      requires Valid() && |id| == CLIENT_ID_SIZE && request.Valid() && request.payload == []
      modifies this`privateKey, this`attempts, this`log, sock`output
      modifies request`id, request`code, request`payloadSize, request`payload
      ensures Valid() && request.Valid()
      ensures Abs(SendingKey(request.failures)) == SendKey(old(Abs(Exited)), request.failures)
    {
      hide LogOctets, Pad;
      var pair := setup.keys(attempts);
      privateKey, attempts := pair.private, attempts + 1;
      FillPublicKey(request, pair.public);
      Submit(request, PublicKey(id, Field(setup.name), pair.public), SendingKey(request.failures));
    }

    method FillPublicKey(request: ClientRequest, key: Bytes)
      requires Valid() && request.Valid() && request.payload == [] && |id| == CLIENT_ID_SIZE
      modifies request`id, request`code, request`payloadSize, request`payload
      ensures request.Carries(PublicKey(id, Field(setup.name), key))
    {
      hide LittleEndian, LogOctets, ZeroOctets;
      request.SetClientID(id);
      request.SetCode(826);
      request.SetPayloadSize(NAME_SIZE + |key|);
      SizeDigits(NAME_SIZE + |key|);
      request.AppendStringPayload(setup.name, NAME_SIZE);
      request.AppendStringPayload(key, |key|);
      assert id[..CLIENT_ID_SIZE] == id;
      assert request.payload == Field(setup.name) + key;
    }

    /** `registering` */
    method Registering(request: ClientRequest) returns (p: Phase)
      requires Valid() && request.Valid() && request.failures < MAX_TRIES && request.payload == []
      modifies this, sock, request
      ensures Valid() && Ended(p)
      ensures Abs(p) == Run(AskRegister(old(Abs(Exited)), old(request.failures)), k)
      decreases MAX_TRIES - request.failures
    {
      hide LittleEndian, LogOctets, Pad, Run, SendUpload, SendKey, ReadHeader, ZeroOctets;
      SubmitRegister(request);
      RunUnfolds(Abs(Phase.Registering(request.failures)), k);
      var answer := new ClientAnswer();
      var ok := answer.GetHeader(sock);
      if !ok { p := Leave(); RunStops(Abs(p), k); return; }
      if answer.code == 1607 || answer.code == 1601 {
        ghost var e := Abs(Exited);
        var again := GeneralErrorHandle(request);
        if !again { p := Leave(); RunStops(Abs(p), k); return; }
        request.ClearPayload();
        RegisterForgetsPhase(e, Phase.Registering(old(request.failures)), request.failures);
        p := Registering(request);
        return;
      }
      if answer.code != 1600 { p := Leave(); RunStops(Abs(p), k); return; }
      var newId := answer.GetClientID(sock);
      if newId.None? { p := Leave(); RunStops(Abs(p), k); return; }
      id := newId.value;
      KeyForgetsPhase(Abs(Exited), Phase.Registering(request.failures), 0);
      var keyRequest := new ClientRequest();
      ok := SendPublicKeyGetAes(keyRequest);
      if !ok { p := Exited; return; }
      var fileRequest := new ClientRequest();
      p := SendFile(fileRequest);
    }

    method SubmitRegister(request: ClientRequest)
      requires Valid() && request.Valid() && request.payload == []
      modifies this`log, sock`output, request`id, request`code, request`payloadSize, request`payload
      ensures Valid() && request.Valid()
      ensures Abs(Phase.Registering(request.failures)) == AskRegister(old(Abs(Exited)), request.failures)
    {
      hide LogOctets, Pad, ZeroOctets;
      FillName(request, ZeroOctets(32), 825);
      FakeIdentifier();
      Submit(request, Register(ZeroOctets(CLIENT_ID_SIZE), Field(setup.name)), Phase.Registering(request.failures));
    }

    method SubmitReconnect(request: ClientRequest)
      requires Valid() && |id| == CLIENT_ID_SIZE && request.Valid() && request.payload == []
      modifies this`log, sock`output, request`id, request`code, request`payloadSize, request`payload
      ensures Valid() && request.Valid()
      ensures Abs(Reconnecting(request.failures)) == AskReconnect(old(Abs(Exited)), request.failures)
    {
      hide LogOctets, Pad;
      FillName(request, id, 827);
      assert id[..CLIENT_ID_SIZE] == id;
      Submit(request, Reconnect(id, Field(setup.name)), Reconnecting(request.failures));
    }

    /** A request that carries nothing but the client's name. */
    method FillName(request: ClientRequest, from: Bytes, code: nat)
      requires Valid() && request.Valid() && request.payload == [] && |from| >= CLIENT_ID_SIZE
      modifies request`id, request`code, request`payloadSize, request`payload
      ensures code == 825 ==> request.Carries(Register(from[..CLIENT_ID_SIZE], Field(setup.name)))
      ensures code == 827 ==> request.Carries(Reconnect(from[..CLIENT_ID_SIZE], Field(setup.name)))
    {
      hide LittleEndian, LogOctets, Pad;
      request.SetClientID(from);
      request.SetCode(code);
      request.SetPayloadSize(NAME_SIZE);
      request.AppendStringPayload(setup.name, NAME_SIZE);
      assert [] + Field(setup.name) == Field(setup.name);
    }

    /** `reconnection`: how the program ended, or None if the client has to register. */
    method Reconnection(request: ClientRequest) returns (p: Option<Phase>)
      requires Valid() && |id| == CLIENT_ID_SIZE
      requires request.Valid() && request.failures < MAX_TRIES && request.payload == []
      modifies this, sock, request
      ensures Valid()
      ensures p.Some? ==>
                Ended(p.value) && Abs(p.value) == Run(AskReconnect(old(Abs(Exited)), old(request.failures)), k)
      ensures p.None? ==>
                && request.Valid() && request.failures == 0 && request.payload == []
                && Run(AskRegister(Abs(Exited), 0), k)
                   == Run(AskReconnect(old(Abs(Exited)), old(request.failures)), k)
      decreases MAX_TRIES - request.failures
    {
      hide LittleEndian, LogOctets, Pad, Run, SendUpload, AcceptKey, ReadHeader, ZeroOctets;
      SubmitReconnect(request);
      ghost var d := Abs(Reconnecting(request.failures));
      RunUnfolds(d, k);
      var answer := new ClientAnswer();
      var ok := answer.GetHeader(sock);
      if !ok { var q := Leave(); RunStops(Abs(q), k); return Some(q); }
      if answer.code == 1607 {
        ghost var e := Abs(Exited);
        var again := GeneralErrorHandle(request);
        if !again { var q := Leave(); RunStops(Abs(q), k); return Some(q); }
        request.ClearPayload();
        ReconnectForgetsPhase(e, Reconnecting(old(request.failures)), request.failures);
        p := Reconnection(request);
        return;
      }
      if answer.code == 1606 {
        var buffer := sock.Read(CLIENT_ID_SIZE);
        if buffer.None? { var q := Leave(); RunStops(Abs(q), k); return Some(q); }
        RegisterForgetsPhase(Abs(Exited), d.phase, 0);
        request.ClearPayload();
        request.RestartFailures();
        return None;
      }
      if answer.code != 1605 { var q := Leave(); RunStops(Abs(q), k); return Some(q); }
      AcceptForgetsPhase(Abs(Exited), d.phase, answer.size, k);
      ok := GetAesKey(answer);
      RunStops(Abs(Exited), k);
      if !ok { return Some(Exited); }
      var fileRequest := new ClientRequest();
      var q := SendFile(fileRequest);
      p := Some(q);
    }

    /** `main`, after the files have been read: reconnects if there are saved credentials, and
        registers without them or when the server does not accept them. */
    method Execute(known: bool) returns (p: Phase)
      requires Valid() && (known ==> |id| == CLIENT_ID_SIZE)
      modifies this, sock
      ensures Valid() && Ended(p)
      ensures Abs(p) == Run(if known then AskReconnect(old(Abs(Exited)), 0) else AskRegister(old(Abs(Exited)), 0), k)
    {
      hide Run, AskRegister, AskReconnect, LogOctets;
      var request := new ClientRequest();
      if known {
        var q := Reconnection(request);
        if q.Some? { return q.value; }
      }
      p := Registering(request);
    }
  }

  lemma SizeDigits(n: nat)
    ensures LittleEndian(n % 0x1_0000_0000, 4) == LittleEndian(n, 4)
  {
    hide LittleEndian;
    Capacities();
    LittleEndianMod(n, 4);
  }

  lemma FakeIdentifier()
    ensures ZeroOctets(32)[..CLIENT_ID_SIZE] == ZeroOctets(CLIENT_ID_SIZE)
  {
  }

  // ---- What is sent next does not depend on the phase before ----

  lemma KeyForgetsPhase(c: Client, p: Phase, failures: nat)
    ensures SendKey(c.(phase := p), failures) == SendKey(c, failures)
  {
  }

  lemma RegisterForgetsPhase(c: Client, p: Phase, failures: nat)
    ensures AskRegister(c.(phase := p), failures) == AskRegister(c, failures)
  {
  }

  lemma ReconnectForgetsPhase(c: Client, p: Phase, failures: nat)
    ensures AskReconnect(c.(phase := p), failures) == AskReconnect(c, failures)
  {
  }

  lemma AcceptForgetsPhase(c: Client, p: Phase, size: nat, k: Crypto)
    ensures AcceptKey(c.(phase := p), size, k) == AcceptKey(c, size, k)
  {
    hide SendUpload, Checked;
    match Checked(c.input, c.id, CLIENT_ID_SIZE)
    case None =>
    case Some(rest) =>
      if size >= CLIENT_ID_SIZE && |rest| >= size - CLIENT_ID_SIZE {
        var n := size - CLIENT_ID_SIZE;
        UploadForgetsPhase(c.(wrappedKey := rest[..n], input := rest[n..]), p, 0, k);
      }
  }

  lemma SizesAgree(encrypted: Bytes, total: int)
    requires TotalPackets(Int32(|encrypted|)) == Some(total)
    ensures Int32(|encrypted|) > 0 ==>
              |Transmitted(encrypted)| == Int32(|encrypted|) && total == Total(|Transmitted(encrypted)|) <= MAX_PACKETS
  {
    var n := Int32(|encrypted|);
    if n > 0 {
      TotalPacketsIsCeiling(n);
      TransmittedIs(encrypted);
      CeilingIsSmall(n);
    }
  }

  lemma CeilingIsSmall(size: nat)
    requires size <= MAX_PACKETS * PACKET_MAX_SIZE
    ensures Total(size) <= MAX_PACKETS
  {
  }

  lemma TransmittedIs(encrypted: Bytes)
    ensures |Transmitted(encrypted)| == if Int32(|encrypted|) > 0 then Int32(|encrypted|) else 0
    ensures Transmitted(encrypted) <= encrypted
  {
  }

  lemma NoPackets(u: Upload)
    ensures AllPackets(u)[..0] == [] && EncodeAll([]) == []
  {
  }

  lemma FirstBounds(size: nat)
    ensures Begin(1) == 0 && (size > 0 <==> 1 <= Total(size)) && (size == 0 ==> Total(size) == 0)
  {
  }

  lemma NextBounds(size: nat, n: nat)
    requires 1 <= n <= Total(size)
    ensures Begin(n + 1) == Begin(n) + PACKET_MAX_SIZE
    ensures size - Begin(n + 1) > 0 <==> n + 1 <= Total(size)
  {
    Bounds(size, n + 1);
  }

  lemma OneMorePacket(u: Upload, n: nat)
    requires 1 <= n <= Total(|u.cipher|)
    ensures n - 1 < |AllPackets(u)| && AllPackets(u)[..n] == AllPackets(u)[..n - 1] + [PacketAt(u, n)]
    ensures EncodeAll(AllPackets(u)[..n]) == EncodeAll(AllPackets(u)[..n - 1]) + Encode(PacketAt(u, n))
  {
    hide Encode;
    PacketsFromAt(u, 1, n - 1);
    EncodeConcat(AllPackets(u)[..n - 1], [PacketAt(u, n)]);
    EncodeOne(PacketAt(u, n));
  }

  lemma AllSent(u: Upload)
    ensures |AllPackets(u)| == Total(|u.cipher|)
    ensures AllPackets(u)[..Total(|u.cipher|)] == AllPackets(u)
  {
  }

  lemma PacketEnd(size: nat, n: nat)
    requires 1 <= n <= Total(size)
    ensures End(size, n) == if size - Begin(n) > PACKET_MAX_SIZE then Begin(n) + PACKET_MAX_SIZE else size
  {
  }

  lemma PayloadOfPacket(p: Request)
    requires p.Packet? && |p.name| == NAME_SIZE
    ensures |Payload(p)| == PACKET_FIELDS_SIZE + |p.content|
    ensures Payload(p) == PacketFields(p.contentSize, p.origSize, p.number, p.total, p.name) + p.content
  {
    hide LittleEndian;
  }

  lemma UploadForgetsPhase(c: Client, p: Phase, failures: nat, k: Crypto)
    ensures SendUpload(c.(phase := p), failures, k) == SendUpload(c, failures, k)
  {
    hide AllPackets, TotalPackets, Int32, Transmitted, Pad;
  }
}
