/** How a client's uploads end, and in which order it sends things. */
module ClientOutcomes {
  import opened Octets
  import opened Text
  import opened Wire
  import opened Cryptography
  import opened Packets
  import opened ClientModel
  import opened ClientRuns

  // ---- What an answer to an upload says ----

  datatype UploadAnswer = Refused | Reported(crc: nat) | Malformed

  function Interpret(c: Client): UploadAnswer {
    match ReadHeader(c.input)
    case None => Malformed
    case Some(h) =>
      if h.code == 1607 then Refused
      else if h.code != 1603 then Malformed
      else
        match ReadReport(c.(input := h.rest))
        case None => Malformed
        case Some(report) => Reported(report.crc)
  }

  /** The answers a client takes until it stops uploading. */
  function UploadAnswers(c: Client, k: Crypto): (answers: seq<UploadAnswer>)
    requires c.phase.Uploading? && Counted(c.phase)
    ensures answers != []
    decreases Rank(c.phase)
  {
    var d := Next(c, k);
    [Interpret(c)] + if d.phase.Uploading? then UploadAnswers(d, k) else []
  }

  /** The client when it has stopped uploading. */
  function Settled(c: Client, k: Crypto): (d: Client)
    requires Counted(c.phase)
    ensures Counted(d.phase) && !d.phase.Uploading?
    decreases Rank(c.phase)
  {
    if c.phase.Uploading? then Settled(Next(c, k), k) else c
  }

  /** The key can be used and the file is not too big. */
  predicate Able(c: Client, k: Crypto) {
    var key := k.unwrap(c.privateKey, c.wrappedKey);
    key.Some? && TotalPackets(Int32(|k.encrypt(key.value, c.setup.file)|)).Some?
  }

  function PiecesOf(c: Client, k: Crypto): Sent
    requires Able(c, k)
  {
    var key := k.unwrap(c.privateKey, c.wrappedKey).value;
    Pieces(AllPackets(UploadOf(c, k.encrypt(key, c.setup.file))))
  }

  function VerdictOf(c: Client, code: nat): Sent {
    Message(Verdict(c.id, code, Field(c.setup.fileName)))
  }

  /** A refusal is followed by another upload, a wrong checksum by 901 and another upload. */
  function Replies(c: Client, answers: seq<UploadAnswer>, k: Crypto): seq<Sent>
    requires Able(c, k)
  {
    if answers == [] then []
    else
      (if answers[0].Reported? then [VerdictOf(c, 901)] else []) + [PiecesOf(c, k)] + Replies(c, answers[1..], k)
  }

  predicate Failure(c: Client, a: UploadAnswer) {
    a == Refused || (a.Reported? && a.crc != LocalCrc(c))
  }

  ghost predicate SameWork(c: Client, d: Client) {
    d.setup == c.setup && d.id == c.id && d.privateKey == c.privateKey && d.wrappedKey == c.wrappedKey
  }

  lemma UploadStep(c: Client, k: Crypto)
    requires c.phase.Uploading? && Counted(c.phase) && Able(c, k)
    ensures var a, d, f := Interpret(c), Next(c, k), c.phase.failures + 1;
            && (a == Malformed ==> d.phase == Exited && d.sent == c.sent)
            && (a == Reported(LocalCrc(c)) ==> d.phase == Ending(900, 0) && d.sent == c.sent + [VerdictOf(c, 900)])
            && (Failure(c, a) && f < MAX_TRIES ==>
                  && d.phase == Uploading(f) && SameWork(c, d)
                  && d.sent == c.sent + (if a == Refused then [] else [VerdictOf(c, 901)]) + [PiecesOf(c, k)])
            && (a == Refused && f == MAX_TRIES ==> d.phase == Exited && d.sent == c.sent)
            && (a.Reported? && Failure(c, a) && f == MAX_TRIES ==>
                  d.phase == Ending(902, 0) && d.sent == c.sent + [VerdictOf(c, 902)])
  {
    hide ReadHeader, ReadReport, AllPackets, Int32, TotalPackets, Transmitted;
  }

  /** What has been sent when the client stops uploading after these answers. */
  function LogAfter(c: Client, answers: seq<UploadAnswer>, k: Crypto): seq<Sent>
    requires Able(c, k) && answers != []
  {
    var n := |answers| - 1;
    c.sent + Replies(c, answers[..n], k)
    + match answers[n]
      case Reported(crc) => [VerdictOf(c, if crc == LocalCrc(c) then 900 else 902)]
      case _ => []
  }

  /** Checksum mismatches and error answers count together, every answer before the last is one
      of them, and the last one decides: the right checksum leads to 900, a mismatch that is the
      fourth failure to 902, a fourth error answer or anything malformed to the client's exit. */
  lemma {:induction false} UploadOutcome(c: Client, k: Crypto)
    requires c.phase.Uploading? && Counted(c.phase) && Able(c, k)
    ensures var answers, d := UploadAnswers(c, k), Settled(c, k);
            var n := |answers| - 1;
            && c.phase.failures + n < MAX_TRIES
            && (forall i :: 0 <= i < n ==> Failure(c, answers[i]))
            && (answers[n] == Reported(LocalCrc(c)) <==> d.phase == Ending(900, 0))
            && (answers[n].Reported? && answers[n].crc != LocalCrc(c) <==> d.phase == Ending(902, 0))
            && (answers[n] == Refused || answers[n] == Malformed <==> d.phase == Exited)
            && (Failure(c, answers[n]) ==> c.phase.failures + n == MAX_TRIES - 1)
            && d.sent == LogAfter(c, answers, k)
    decreases Rank(c.phase)
  {
    hide Next, Interpret, Able, LocalCrc, PiecesOf, VerdictOf;
    UploadStep(c, k);
    var d := Next(c, k);
    var answers := UploadAnswers(c, k);
    if d.phase.Uploading? {
      SameOutcome(c, d, k);
      UploadOutcome(d, k);
      var rest := UploadAnswers(d, k);
      assert answers == [Interpret(c)] + rest;
      LogExtends(c, d, Interpret(c), rest, k);
    } else {
      assert answers[..0] == [];
    }
  }

  lemma SameOutcome(c: Client, d: Client, k: Crypto)
    requires SameWork(c, d) && Able(c, k)
    ensures Able(d, k) && PiecesOf(d, k) == PiecesOf(c, k) && LocalCrc(d) == LocalCrc(c)
    ensures forall code :: VerdictOf(d, code) == VerdictOf(c, code)
  {
    hide AllPackets, TotalPackets, Int32, Transmitted;
  }

  lemma {:induction false} SameReplies(c: Client, d: Client, answers: seq<UploadAnswer>, k: Crypto)
    requires SameWork(c, d) && Able(c, k) && Able(d, k)
    ensures Replies(d, answers, k) == Replies(c, answers, k)
  {
    hide PiecesOf, VerdictOf, Able;
    SameOutcome(c, d, k);
    if answers != [] { SameReplies(c, d, answers[1..], k); }
  }

  lemma LogExtends(c: Client, d: Client, a: UploadAnswer, rest: seq<UploadAnswer>, k: Crypto)
    requires SameWork(c, d) && Able(c, k) && Able(d, k) && rest != [] && Failure(c, a)
    requires d.sent == c.sent + (if a == Refused then [] else [VerdictOf(c, 901)]) + [PiecesOf(c, k)]
    ensures LogAfter(d, rest, k) == LogAfter(c, [a] + rest, k)
  {
    hide PiecesOf, VerdictOf, Able, LocalCrc;
    SameOutcome(c, d, k);
    var n := |rest| - 1;
    SameReplies(c, d, rest[..n], k);
    assert ([a] + rest)[..n + 1] == [a] + rest[..n];
    assert ([a] + rest[..n])[1..] == rest[..n];
  }

  lemma {:induction false} RunOfSettled(c: Client, k: Crypto)
    requires Counted(c.phase)
    ensures Run(c, k) == Run(Settled(c, k), k)
    decreases Rank(c.phase)
  {
    hide Next;
    if c.phase.Uploading? { RunOfSettled(Next(c, k), k); }
  }

  lemma SetupStays(c: Client, k: Crypto)
    requires Counted(c.phase) && !Ended(c.phase)
    ensures Next(c, k).setup == c.setup
  {
    hide ReadHeader, ReadReport, Checked, AllPackets, Int32, TotalPackets, Transmitted;
  }

  lemma EndingStays(c: Client, k: Crypto)
    requires c.phase.Ending? && Counted(c.phase)
    ensures var d := Next(c, k);
            && (d.phase == Exited || d.phase == Finished(c.phase.code)
                || (d.phase.Ending? && d.phase.code == c.phase.code))
  {
  }

  lemma {:induction false} RunFromEnding(c: Client, k: Crypto)
    requires c.phase.Ending? && Counted(c.phase)
    ensures var d := Run(c, k); d.phase == Exited || d.phase == Finished(c.phase.code)
    decreases Rank(c.phase)
  {
    hide Next;
    EndingStays(c, k);
    if Next(c, k).phase.Ending? { RunFromEnding(Next(c, k), k); }
  }

  /** A client that finishes with 900 was told its own checksum; one that finishes with 902 was
      told a wrong one after three failures. */
  lemma FinishedMeans(c: Client, k: Crypto)
    requires c.phase == Uploading(0) && Able(c, k)
    ensures var p, answers := Run(c, k).phase, UploadAnswers(c, k);
            && (p == Exited || p == Finished(900) || p == Finished(902))
            && (p == Finished(900) ==> answers[|answers| - 1] == Reported(LocalCrc(c)))
            && (p == Finished(902) ==> |answers| == 4 && answers[3].Reported? && Failure(c, answers[3]))
  {
    hide Next, Interpret, Able, LocalCrc, LogAfter;
    UploadOutcome(c, k);
    RunOfSettled(c, k);
    var d := Settled(c, k);
    if d.phase.Ending? { RunFromEnding(d, k); }
  }

  // ---- From the start ----

  predicate BeforeUpload(p: Phase) { p.Reconnecting? || p.Registering? || p.SendingKey? }

  /** The client when it has sent its file for the first time, or has exited before. */
  function FirstUpload(c: Client, k: Crypto): (d: Client)
    requires Counted(c.phase)
    ensures Counted(d.phase) && !BeforeUpload(d.phase)
    decreases Rank(c.phase)
  {
    if BeforeUpload(c.phase) then FirstUpload(Next(c, k), k) else c
  }

  lemma UploadIsAble(c: Client, failures: nat, k: Crypto)
    ensures SendUpload(c, failures, k).phase.Uploading? ==> Able(SendUpload(c, failures, k), k)
  {
    hide AllPackets, Int32, TotalPackets, Transmitted;
  }

  lemma AcceptIsAble(c: Client, size: nat, k: Crypto)
    ensures AcceptKey(c, size, k).phase.Uploading? ==> Able(AcceptKey(c, size, k), k)
  {
    hide SendUpload, Able, Checked;
    match Checked(c.input, c.id, CLIENT_ID_SIZE)
    case None =>
    case Some(rest) =>
      if CLIENT_ID_SIZE <= size < 0x8000_0000 && |rest| >= size - CLIENT_ID_SIZE {
        var n := size - CLIENT_ID_SIZE;
        UploadIsAble(c.(wrappedKey := rest[..n], input := rest[n..]), 0, k);
      }
  }

  lemma NextTowardsUpload(c: Client, k: Crypto)
    requires Counted(c.phase) && BeforeUpload(c.phase)
    ensures var d := Next(c, k); BeforeUpload(d.phase) || d.phase == Exited || (d.phase == Uploading(0) && Able(d, k))
  {
    hide ReadHeader, AcceptKey, Able, SendKey, AskRegister, AskReconnect;
    match ReadHeader(c.input)
    case None =>
    case Some(h) =>
      AcceptIsAble(c.(input := h.rest), h.size, k);
      AcceptPhase(c.(input := h.rest), h.size, k);
      AsksBefore(c.(input := h.rest));
  }

  lemma AcceptPhase(c: Client, size: nat, k: Crypto)
    ensures AcceptKey(c, size, k).phase == Exited || AcceptKey(c, size, k).phase == Uploading(0)
  {
  }

  lemma AsksBefore(c: Client)
    ensures forall d, f :: SendKey(d, f).phase == SendingKey(f) && AskRegister(d, f).phase == Registering(f)
    ensures forall d, f :: AskReconnect(d, f).phase == Reconnecting(f)
  {
  }

  /** A client that has come to its first upload can go through with it. */
  lemma {:induction false} FirstUploadIsAble(c: Client, k: Crypto)
    requires Counted(c.phase) && BeforeUpload(c.phase)
    ensures var d := FirstUpload(c, k);
            && (d.phase == Exited || (d.phase == Uploading(0) && Able(d, k)))
            && Run(c, k) == Run(d, k)
    decreases Rank(c.phase)
  {
    hide Next, Able;
    NextTowardsUpload(c, k);
    if BeforeUpload(Next(c, k).phase) { FirstUploadIsAble(Next(c, k), k); }
  }

  /** What a whole run comes to, told from the answers to its uploads. A client that never uploads
      exits. Otherwise every answer before the last is a failure, there are at most four, and the
      last one decides what is sent next and how the run can end. */
  ghost predicate Outcome(u: Client, end: Client, k: Crypto) {
    || (u.phase == Exited && end == u)
    || (u.phase == Uploading(0) && Able(u, k) &&
        var answers, d := UploadAnswers(u, k), Settled(u, k);
        var last := answers[|answers| - 1];
        && |answers| <= MAX_TRIES
        && (forall i :: 0 <= i < |answers| - 1 ==> Failure(u, answers[i]))
        && d.sent == LogAfter(u, answers, k)
        && (if last == Reported(LocalCrc(u)) then
              d.phase == Ending(900, 0) && (end.phase == Finished(900) || end.phase == Exited)
            else if last.Reported? then
              |answers| == MAX_TRIES && d.phase == Ending(902, 0) && (end.phase == Finished(902) || end.phase == Exited)
            else
              (last == Refused ==> |answers| == MAX_TRIES) && d.phase == Exited && end == d))
  }

  lemma OutcomeFrom(c: Client, k: Crypto)
    requires Counted(c.phase) && BeforeUpload(c.phase)
    ensures Outcome(FirstUpload(c, k), Run(c, k), k)
  {
    hide Next, Able, Interpret, LocalCrc, LogAfter, BeforeUpload;
    FirstUploadIsAble(c, k);
    var u := FirstUpload(c, k);
    if u.phase == Uploading(0) {
      UploadOutcome(u, k);
      RunOfSettled(u, k);
      var d := Settled(u, k);
      if d.phase.Ending? { RunFromEnding(d, k); }
    }
  }

  /** For every stream of octets, from either start. */
  lemma ClientsOutcome(setup: Setup, id: Bytes, privateKey: Bytes, input: Bytes, k: Crypto)
    ensures var c := NewClient(setup, input); Outcome(FirstUpload(c, k), Run(c, k), k)
    ensures var c := KnownClient(setup, id, privateKey, input); Outcome(FirstUpload(c, k), Run(c, k), k)
  {
    hide Outcome, FirstUpload, Run;
    OutcomeFrom(NewClient(setup, input), k);
    OutcomeFrom(KnownClient(setup, id, privateKey, input), k);
  }

  // ---- The order of what is sent ----

  function Stage(code: nat): nat {
    if code == 827 then 0
    else if code == 825 then 1
    else if code == 826 then 2
    else if code == 828 || code == 901 then 3
    else 4
  }

  predicate Final(code: nat) { code == 900 || code == 902 }

  /** Reconnection, then registration, then keys, then uploads with their 901s, then one kind of
      final verdict; and 901 only right after an upload. */
  ghost predicate Ordered(log: seq<Sent>) {
    && (forall i, j :: 0 <= i < j < |log| ==> Stage(SentCode(log[i])) <= Stage(SentCode(log[j])))
    && (forall i, j :: 0 <= i < j < |log| && Final(SentCode(log[i])) ==> SentCode(log[j]) == SentCode(log[i]))
    && (forall i :: 0 <= i < |log| && SentCode(log[i]) == 901 ==> i > 0 && log[i - 1].Pieces?)
  }

  function PhaseCode(p: Phase): nat {
    match p
    case Reconnecting(_) => 827
    case Registering(_) => 825
    case SendingKey(_) => 826
    case Uploading(_) => 828
    case Ending(code, _) => code
    case Finished(code) => code
    case Exited => 0
  }

  ghost predicate InOrder(c: Client) {
    && Ordered(c.sent)
    && (c.phase.Ending? ==> Final(c.phase.code))
    && (!Ended(c.phase) ==> c.sent != [] && SentCode(c.sent[|c.sent| - 1]) == PhaseCode(c.phase))
    && (c.phase.Uploading? ==> c.sent[|c.sent| - 1].Pieces?)
  }

  lemma Later(log: seq<Sent>, s: Sent)
    requires Ordered(log)
    requires log != [] ==>
               var last := SentCode(log[|log| - 1]);
               && Stage(last) <= Stage(SentCode(s))
               && (Final(last) ==> SentCode(s) == last)
    requires SentCode(s) == 901 ==> log != [] && log[|log| - 1].Pieces?
    ensures Ordered(log + [s])
  {
    hide SentCode, Stage, Final;
    var more := log + [s];
    forall i, j | 0 <= i < j < |more|
      ensures Stage(SentCode(more[i])) <= Stage(SentCode(more[j]))
      ensures Final(SentCode(more[i])) ==> SentCode(more[j]) == SentCode(more[i])
    {
      if j == |log| { LastBounds(log, i); }
    }
  }

  lemma LastBounds(log: seq<Sent>, i: nat)
    requires Ordered(log) && i < |log|
    ensures var first, last := SentCode(log[i]), SentCode(log[|log| - 1]);
            Stage(first) <= Stage(last) && (Final(first) ==> last == first)
  {
    hide SentCode, Stage, Final;
  }

  lemma UploadInOrder(c: Client, failures: nat, k: Crypto)
    requires Ordered(c.sent) && c.sent != [] && Stage(SentCode(c.sent[|c.sent| - 1])) <= 3
    ensures InOrder(SendUpload(c, failures, k))
  {
    hide Ordered, AllPackets, TotalPackets, Int32;
    var d := SendUpload(c, failures, k);
    if d.phase != Exited { Later(c.sent, d.sent[|c.sent|]); }
  }

  lemma SendInOrder(c: Client, r: Request, p: Phase)
    requires Ordered(c.sent) && c.sent != [] && Code(r) == PhaseCode(p) && !p.Uploading? && !Ended(p)
    requires p.Ending? ==> Final(p.code)
    requires var last := SentCode(c.sent[|c.sent| - 1]);
             Stage(last) <= Stage(Code(r)) && (Final(last) ==> Code(r) == last)
    requires Code(r) != 901
    ensures InOrder(Send(c, r, p))
  {
    hide Ordered;
    Later(c.sent, Message(r));
  }

  lemma ExitInOrder(c: Client)
    requires Ordered(c.sent)
    ensures InOrder(Exit(c))
  {
  }

  lemma AcceptInOrder(c: Client, size: nat, k: Crypto)
    requires InOrder(c) && (c.phase.Reconnecting? || c.phase.SendingKey?)
    ensures InOrder(AcceptKey(c, size, k))
  {
    hide Ordered, SendUpload, Checked;
    match Checked(c.input, c.id, CLIENT_ID_SIZE)
    case None =>
    case Some(rest) =>
      if CLIENT_ID_SIZE <= size < 0x8000_0000 && |rest| >= size - CLIENT_ID_SIZE {
        var n := size - CLIENT_ID_SIZE;
        UploadInOrder(c.(wrappedKey := rest[..n], input := rest[n..]), 0, k);
      }
  }

  lemma JudgeInOrder(c: Client, crc: nat, k: Crypto)
    requires InOrder(c) && c.phase.Uploading?
    ensures InOrder(Judge(c, crc, k))
  {
    hide Ordered, SendUpload, Checked;
    var r := Verdict(c.id, 900, Field(c.setup.fileName));
    var f := c.phase.failures + 1;
    if crc == LocalCrc(c) {
      SendInOrder(c, r, Ending(900, 0));
    } else if f == MAX_TRIES {
      SendInOrder(c, r.(code := 902), Ending(902, 0));
    } else {
      Later(c.sent, Message(r.(code := 901)));
      UploadInOrder(SendVerdict(c, 901, c.phase), f, k);
    }
  }

  lemma NextInOrder(c: Client, k: Crypto)
    requires InOrder(c) && Counted(c.phase) && !Ended(c.phase)
    ensures InOrder(Next(c, k))
  {
    hide Ordered, AcceptKey, SendUpload, Judge, Checked, ReadReport, ReadHeader;
    ExitInOrder(c);
    match ReadHeader(c.input)
    case None =>
    case Some(h) =>
      var e := c.(input := h.rest);
      ExitInOrder(e);
      match e.phase {
        case Reconnecting(f) => ReconnectInOrder(e, h.code, h.size, f + 1, k);
        case Registering(f) => RegisterInOrder(e, h.code, f + 1);
        case SendingKey(f) => KeyInOrder(e, h.code, h.size, f + 1, k);
        case Uploading(f) =>
          UploadInOrder(e, f + 1, k);
          if ReadReport(e).Some? {
            JudgeInOrder(e.(input := ReadReport(e).value.rest), ReadReport(e).value.crc, k);
          }
        case Ending(code, f) => SendInOrder(e, Verdict(e.id, code, Field(e.setup.fileName)), Ending(code, f + 1));
      }
  }

  lemma ReconnectInOrder(c: Client, code: nat, size: nat, f: nat, k: Crypto)
    requires InOrder(c) && c.phase.Reconnecting?
    ensures InOrder(AfterReconnect(c, code, size, f, k))
  {
    hide Ordered, AcceptKey;
    ExitInOrder(c);
    SendInOrder(c, Reconnect(c.id, Field(c.setup.name)), Reconnecting(f));
    if |c.input| >= CLIENT_ID_SIZE {
      SendInOrder(c.(input := c.input[CLIENT_ID_SIZE..]),
                  Register(ZeroOctets(CLIENT_ID_SIZE), Field(c.setup.name)), Registering(0));
    }
    AcceptInOrder(c, size, k);
  }

  lemma KeySentInOrder(c: Client, f: nat)
    requires Ordered(c.sent) && c.sent != [] && Stage(SentCode(c.sent[|c.sent| - 1])) <= 2
    ensures InOrder(SendKey(c, f))
  {
    hide Ordered;
    var pair := c.setup.keys(c.attempts);
    SendInOrder(c.(privateKey := pair.private, attempts := c.attempts + 1),
                PublicKey(c.id, Field(c.setup.name), pair.public), SendingKey(f));
  }

  lemma RegisterInOrder(c: Client, code: nat, f: nat)
    requires InOrder(c) && c.phase.Registering?
    ensures InOrder(AfterRegister(c, code, f))
  {
    hide Ordered, SendKey;
    ExitInOrder(c);
    SendInOrder(c, Register(ZeroOctets(CLIENT_ID_SIZE), Field(c.setup.name)), Registering(f));
    if |c.input| >= CLIENT_ID_SIZE {
      KeySentInOrder(c.(id := c.input[..CLIENT_ID_SIZE], input := c.input[CLIENT_ID_SIZE..]), 0);
    }
  }

  lemma KeyInOrder(c: Client, code: nat, size: nat, f: nat, k: Crypto)
    requires InOrder(c) && c.phase.SendingKey?
    ensures InOrder(AfterKey(c, code, size, f, k))
  {
    hide Ordered, SendKey, AcceptKey;
    ExitInOrder(c);
    KeySentInOrder(c, f);
    AcceptInOrder(c, size, k);
  }

  lemma {:induction false} RunInOrder(c: Client, k: Crypto)
    requires InOrder(c) && Counted(c.phase)
    ensures Ordered(Run(c, k).sent)
    decreases Rank(c.phase)
  {
    hide Next, Ordered;
    if !Ended(c.phase) {
      NextInOrder(c, k);
      RunInOrder(Next(c, k), k);
    }
  }

  /** In every run, from either start: no upload follows a final verdict, 900 and 902 are never
      both sent, and nothing goes back to an earlier stage. */
  lemma ClientsSendInOrder(setup: Setup, id: Bytes, privateKey: Bytes, input: Bytes, k: Crypto)
    ensures Ordered(Run(NewClient(setup, input), k).sent)
    ensures Ordered(Run(KnownClient(setup, id, privateKey, input), k).sent)
  {
    RunInOrder(NewClient(setup, input), k);
    RunInOrder(KnownClient(setup, id, privateKey, input), k);
  }

  // ---- Identifiers ----

  /** The check of a fixed-width string: it passes only for strings without a zero octet. */
  lemma CheckedIdentifier(s: Bytes, id: Bytes)
    requires |id| == CLIENT_ID_SIZE
    ensures Checked(s, id, CLIENT_ID_SIZE).Some? <==> NoZero(id) && id <= s
  {
    if |s| >= CLIENT_ID_SIZE {
      var t := s[..CLIENT_ID_SIZE];
      assert |CutAtZero(t)| == |t| ==> CutAtZero(t) == t;
    }
  }

  /** A client that was given an identifier with a zero octet exits before it uploads anything. */
  lemma {:induction false} ZeroInIdentifier(c: Client, k: Crypto)
    requires c.phase.SendingKey? && Counted(c.phase) && |c.id| == CLIENT_ID_SIZE && !NoZero(c.id)
    ensures Run(c, k).phase == Exited
    ensures Count(Run(c, k).sent, 828) == Count(c.sent, 828)
    decreases Rank(c.phase)
  {
    hide Run, NoZero, ReadHeader, Count;
    ZeroStep(c, k);
    var d := Next(c, k);
    UnfoldRun(c, k);
    if d.phase.SendingKey? { ZeroInIdentifier(d, k); } else { UnfoldRun(d, k); }
  }

  lemma UnfoldRun(c: Client, k: Crypto)
    requires Counted(c.phase)
    ensures Run(c, k) == if Ended(c.phase) then c else Run(Next(c, k), k)
  {
  }

  /** So does one that reconnects with such an identifier, unless it is sent to register. */
  lemma {:induction false} ZeroInSavedIdentifier(c: Client, k: Crypto)
    requires c.phase.Reconnecting? && Counted(c.phase) && |c.id| == CLIENT_ID_SIZE && !NoZero(c.id)
    ensures var d := Credentials(c, k);
            && (d.phase == Registering(0) || (d.phase == Exited && Run(c, k) == d))
            && Count(d.sent, 828) == Count(c.sent, 828)
    decreases Rank(c.phase)
  {
    hide NoZero, Next, Count;
    ZeroReconnects(c, k);
    var d := Next(c, k);
    if d.phase.Reconnecting? { ZeroInSavedIdentifier(d, k); }
  }

  /** The client when the server has decided about its saved credentials. */
  function Credentials(c: Client, k: Crypto): (d: Client)
    requires Counted(c.phase)
    ensures !d.phase.Reconnecting?
    decreases Rank(c.phase)
  {
    if c.phase.Reconnecting? then Credentials(Next(c, k), k) else c
  }

  lemma ZeroReconnects(c: Client, k: Crypto)
    requires c.phase.Reconnecting? && Counted(c.phase) && |c.id| == CLIENT_ID_SIZE && !NoZero(c.id)
    ensures var d := Next(c, k);
            && (d.phase == Exited || d.phase == Registering(0) || (d.phase.Reconnecting? && d.id == c.id))
            && Count(d.sent, 828) == Count(c.sent, 828)
  {
    hide NoZero, ReadHeader, Count, Checked, Pad;
    match ReadHeader(c.input)
    case None =>
    case Some(h) =>
      var e := c.(input := h.rest);
      CheckedIdentifier(h.rest, c.id);
      SendSpends(e, Reconnect(c.id, Field(c.setup.name)), Reconnecting(c.phase.failures + 1), 828);
      if |h.rest| >= CLIENT_ID_SIZE { RegisterSpends(e.(input := h.rest[CLIENT_ID_SIZE..]), 0, 828); }
  }

  lemma ZeroStep(c: Client, k: Crypto)
    requires c.phase.SendingKey? && Counted(c.phase) && |c.id| == CLIENT_ID_SIZE && !NoZero(c.id)
    ensures var d := Next(c, k);
            && d.id == c.id && (d.phase == Exited || d.phase.SendingKey?)
            && Count(d.sent, 828) == Count(c.sent, 828)
  {
    hide NoZero, ReadHeader, Count, Checked;
    match ReadHeader(c.input)
    case None =>
    case Some(h) =>
      CheckedIdentifier(h.rest, c.id);
      KeySpends(c.(input := h.rest), c.phase.failures + 1, 828);
  }
}
