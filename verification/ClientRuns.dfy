/** What holds of every run of a client, whatever the server sends. */
module ClientRuns {
  import opened Octets
  import opened Text
  import opened Wire
  import opened Cryptography
  import opened Packets
  import opened ClientModel

  // ---- How often each request is sent ----

  function SentCode(s: Sent): nat {
    match s
    case Message(r) => Code(r)
    case Pieces(_) => 828
  }

  function Count(log: seq<Sent>, code: nat): nat {
    if log == [] then 0 else Count(log[..|log| - 1], code) + (if SentCode(log[|log| - 1]) == code then 1 else 0)
  }

  lemma CountOneMore(log: seq<Sent>, s: Sent, code: nat)
    ensures Count(log + [s], code) == Count(log, code) + if SentCode(s) == code then 1 else 0
  {
    assert (log + [s])[..|log|] == log;
  }

  /** How often a client in this phase can still send the request. */
  function Left(p: Phase, code: nat): nat
    requires Counted(p)
  {
    match p
    case Reconnecting(f) => if code == 827 then 3 - f else if code == 901 then 3 else 4
    case Registering(f) => if code == 827 then 0 else if code == 825 then 3 - f else if code == 901 then 3 else 4
    case SendingKey(f) =>
      if code == 827 || code == 825 then 0 else if code == 826 then 3 - f else if code == 901 then 3 else 4
    case Uploading(f) =>
      if code == 827 || code == 825 || code == 826 then 0
      else if code == 828 || code == 901 then 3 - f
      else 4
    case Ending(result, f) => if code == result then 3 - f else 0
    case _ => 0
  }

  /** What a client has sent and can still send never grows. */
  predicate Spends(c: Client, d: Client, code: nat)
    requires Counted(c.phase) && Counted(d.phase)
  {
    Count(d.sent, code) + Left(d.phase, code) <= Count(c.sent, code) + Left(c.phase, code)
  }

  predicate Requested(code: nat) {
    code == 827 || code == 825 || code == 826 || code == 828 || code == 901 || code == 900 || code == 902
  }

  lemma UploadSpends(c: Client, failures: nat, k: Crypto, code: nat)
    requires failures < MAX_TRIES && Requested(code)
    ensures var d := SendUpload(c, failures, k);
            && Counted(d.phase)
            && Count(d.sent, code) + Left(d.phase, code)
               <= Count(c.sent, code) + (if code == 828 then 1 else 0) + Left(Uploading(failures), code)
  {
    hide AllPackets, Int32, TotalPackets;
    var d := SendUpload(c, failures, k);
    if d.phase != Exited { CountOneMore(c.sent, d.sent[|c.sent|], code); }
  }

  lemma SendSpends(c: Client, r: Request, p: Phase, code: nat)
    ensures Count(Send(c, r, p).sent, code) == Count(c.sent, code) + if Code(r) == code then 1 else 0
  {
    CountOneMore(c.sent, Message(r), code);
  }

  lemma AcceptSpends(c: Client, size: nat, k: Crypto, code: nat)
    requires (c.phase.Reconnecting? || c.phase.SendingKey?) && Counted(c.phase) && Requested(code)
    ensures Spends(c, AcceptKey(c, size, k), code)
  {
    hide SendUpload, Checked;
    match Checked(c.input, c.id, CLIENT_ID_SIZE)
    case None =>
    case Some(rest) =>
      if size >= CLIENT_ID_SIZE && |rest| >= size - CLIENT_ID_SIZE {
        var n := size - CLIENT_ID_SIZE;
        UploadSpends(c.(wrappedKey := rest[..n], input := rest[n..]), 0, k, code);
      }
  }

  lemma JudgeSpends(c: Client, crc: nat, k: Crypto, code: nat)
    requires c.phase.Uploading? && Counted(c.phase) && Requested(code)
    ensures Counted(Judge(c, crc, k).phase) && Spends(c, Judge(c, crc, k), code)
  {
    hide SendUpload, Send;
    var f := c.phase.failures + 1;
    var verdict := if crc == LocalCrc(c) then 900 else if f == MAX_TRIES then 902 else 901;
    var p := if verdict == 901 then c.phase else Ending(verdict, 0);
    SendSpends(c, Verdict(c.id, verdict, Field(c.setup.fileName)), p, code);
    if verdict == 901 { UploadSpends(SendVerdict(c, 901, c.phase), f, k, code); }
  }

  lemma NextSpends(c: Client, k: Crypto, code: nat)
    requires Counted(c.phase) && !Ended(c.phase) && Requested(code)
    ensures Spends(c, Next(c, k), code)
  {
    hide ReadHeader, React, Count;
    match ReadHeader(c.input)
    case None =>
    case Some(h) => ReactSpends(c.(input := h.rest), h.code, h.size, k, code);
  }

  lemma ReactSpends(c: Client, answer: nat, size: nat, k: Crypto, code: nat)
    requires Counted(c.phase) && !Ended(c.phase) && Requested(code)
    ensures Spends(c, React(c, answer, size, k), code)
  {
    hide AfterReconnect, AfterRegister, AfterKey, AfterUpload, AfterVerdict, Count;
    match c.phase
    case Reconnecting(f) => ReconnectSpends(c, answer, size, f + 1, k, code);
    case Registering(f) => RegisteringSpends(c, answer, f + 1, code);
    case SendingKey(f) => SendingKeySpends(c, answer, size, f + 1, k, code);
    case Uploading(f) => UploadingSpends(c, answer, f + 1, k, code);
    case Ending(_, f) => EndingSpends(c, answer, f + 1, code);
  }

  lemma ReconnectSpends(c: Client, answer: nat, size: nat, f: nat, k: Crypto, code: nat)
    requires c.phase.Reconnecting? && f == c.phase.failures + 1 <= MAX_TRIES && Requested(code)
    ensures Spends(c, AfterReconnect(c, answer, size, f, k), code)
  {
    hide Send, AcceptKey, Count;
    SendSpends(c, Reconnect(c.id, Field(c.setup.name)), Reconnecting(f), code);
    if |c.input| >= CLIENT_ID_SIZE {
      RegisterSpends(c.(input := c.input[CLIENT_ID_SIZE..]), 0, code);
    }
    AcceptSpends(c, size, k, code);
  }

  lemma RegisteringSpends(c: Client, answer: nat, f: nat, code: nat)
    requires c.phase.Registering? && f == c.phase.failures + 1 <= MAX_TRIES && Requested(code)
    ensures Spends(c, AfterRegister(c, answer, f), code)
  {
    hide AskRegister, SendKey, Count;
    RegisterSpends(c, f, code);
    if |c.input| >= CLIENT_ID_SIZE {
      KeySpends(c.(id := c.input[..CLIENT_ID_SIZE], input := c.input[CLIENT_ID_SIZE..]), 0, code);
    }
  }

  lemma SendingKeySpends(c: Client, answer: nat, size: nat, f: nat, k: Crypto, code: nat)
    requires c.phase.SendingKey? && f == c.phase.failures + 1 <= MAX_TRIES && Requested(code)
    ensures Spends(c, AfterKey(c, answer, size, f, k), code)
  {
    hide SendKey, AcceptKey, Count;
    KeySpends(c, f, code);
    AcceptSpends(c, size, k, code);
  }

  lemma UploadingSpends(c: Client, answer: nat, f: nat, k: Crypto, code: nat)
    requires c.phase.Uploading? && f == c.phase.failures + 1 <= MAX_TRIES && Requested(code)
    ensures Spends(c, AfterUpload(c, answer, f, k), code)
  {
    hide SendUpload, ReadReport, Judge, Count;
    if f < MAX_TRIES { UploadSpends(c, f, k, code); }
    match ReadReport(c)
    case None =>
    case Some(report) => JudgeSpends(c.(input := report.rest), report.crc, k, code);
  }

  lemma EndingSpends(c: Client, answer: nat, f: nat, code: nat)
    requires c.phase.Ending? && f == c.phase.failures + 1 <= MAX_TRIES && Requested(code)
    ensures Spends(c, AfterVerdict(c, answer, f), code)
  {
    hide Send, Checked, Count;
    var result := c.phase.code;
    SendSpends(c, Verdict(c.id, result, Field(c.setup.fileName)), Ending(result, f), code);
  }

  lemma RegisterSpends(c: Client, f: nat, code: nat)
    ensures AskRegister(c, f).phase == Registering(f)
    ensures Count(AskRegister(c, f).sent, code) == Count(c.sent, code) + if code == 825 then 1 else 0
  {
    SendSpends(c, Register(ZeroOctets(CLIENT_ID_SIZE), Field(c.setup.name)), Registering(f), code);
  }

  lemma KeySpends(c: Client, f: nat, code: nat)
    ensures SendKey(c, f).phase == SendingKey(f)
    ensures Count(SendKey(c, f).sent, code) == Count(c.sent, code) + if code == 826 then 1 else 0
  {
    var pair := c.setup.keys(c.attempts);
    SendSpends(c.(privateKey := pair.private, attempts := c.attempts + 1),
               PublicKey(c.id, Field(c.setup.name), pair.public), SendingKey(f), code);
  }

  lemma {:induction false} RunSpends(c: Client, k: Crypto, code: nat)
    requires Counted(c.phase) && Requested(code)
    ensures Count(Run(c, k).sent, code) <= Count(c.sent, code) + Left(c.phase, code)
    decreases Rank(c.phase)
  {
    hide Next, Count;
    if !Ended(c.phase) {
      NextSpends(c, k, code);
      RunSpends(Next(c, k), k, code);
    }
  }

  ghost predicate WithinLimits(log: seq<Sent>) {
    && Count(log, 827) <= 4 && Count(log, 825) <= 4 && Count(log, 826) <= 4 && Count(log, 828) <= 4
    && Count(log, 901) <= 3 && Count(log, 900) <= 4 && Count(log, 902) <= 4
  }

  /** Against every stream of octets a client ends, and has sent each request at most four times,
      its file at most four times and 901 at most three times. */
  lemma NewClientLimits(setup: Setup, input: Bytes, k: Crypto)
    ensures var d := Run(NewClient(setup, input), k); Ended(d.phase) && WithinLimits(d.sent)
  {
    hide Run, WithinLimits, Pad, ZeroOctets;
    LimitsFrom(NewClient(setup, input), 825, k);
  }

  lemma KnownClientLimits(setup: Setup, id: Bytes, privateKey: Bytes, input: Bytes, k: Crypto)
    ensures var d := Run(KnownClient(setup, id, privateKey, input), k); Ended(d.phase) && WithinLimits(d.sent)
  {
    hide Run, WithinLimits, Pad;
    LimitsFrom(KnownClient(setup, id, privateKey, input), 827, k);
  }

  lemma LimitsFrom(c: Client, first: nat, k: Crypto)
    requires |c.sent| == 1 && SentCode(c.sent[0]) == first
    requires (first == 825 && c.phase == Registering(0)) || (first == 827 && c.phase == Reconnecting(0))
    ensures Ended(Run(c, k).phase) && WithinLimits(Run(c, k).sent)
  {
    hide Run;
    forall code ensures Count(c.sent, code) == if code == first then 1 else 0 {
      CountOneMore([], c.sent[0], code);
      assert [] + [c.sent[0]] == c.sent;
    }
    hide Count;
    AllSpend(c, k);
  }

  lemma AllSpend(c: Client, k: Crypto)
    requires Counted(c.phase)
    ensures forall code :: Requested(code) ==> Count(Run(c, k).sent, code) <= Count(c.sent, code) + Left(c.phase, code)
  {
    forall code | Requested(code)
      ensures Count(Run(c, k).sent, code) <= Count(c.sent, code) + Left(c.phase, code)
    {
      RunSpends(c, k, code);
    }
  }
}
