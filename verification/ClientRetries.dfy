/** Exactly what a client makes of every answer in every phase, and how often it asks again. */
module ClientRetries {
  import opened Octets
  import opened Text
  import opened Wire
  import opened Cryptography
  import opened Packets
  import opened ClientModel
  import opened ClientRuns
  import opened Layouts
  import ClientOutcomes

  // ---- The octets of an answer ----

  /** The code of a complete header of version 3. */
  function CodeRead(s: Bytes): Option<nat> {
    if |s| < 7 || Value(s[0]) != 3 then None else Some(CodeAt(s, 1))
  }

  /** The octets carry the client's identifier and then a wrapped key that the client can use for
      its file. */
  predicate KeyGiven(c: Client, k: Crypto) {
    var s := c.input;
    && |s| >= 7
    && var size := WordAt(s, 3);
       && 16 <= size < 0x8000_0000 && |s| >= 7 + size && NoZero(c.id) && s[7..23] == c.id
       && ClientOutcomes.Able(c.(wrappedKey := s[23..7 + size]), k)
  }

  /** The octets carry an identifier without zeros, and it is the client's. */
  predicate IdentifierGiven(c: Client) {
    |c.input| >= 23 && NoZero(c.id) && c.input[7..23] == c.id
  }

  // ---- What is sent ----

  function NameField(c: Client): Bytes {
    Pad(c.setup.name, 255)
  }

  function Message825(c: Client): Sent {
    Message(Register(ZeroOctets(16), NameField(c)))
  }

  function Message827(c: Client): Sent {
    Message(Reconnect(c.id, NameField(c)))
  }

  /** With the n-th key pair. */
  function Message826(c: Client, n: nat): Sent {
    Message(PublicKey(c.id, NameField(c), c.setup.keys(n).public))
  }

  function MessageVerdict(c: Client, code: nat): Sent {
    Message(Verdict(c.id, code, Pad(c.setup.fileName, 255)))
  }

  /** The client has left: it sends and reads nothing more. */
  predicate Left(c: Client, d: Client) {
    d.phase == Exited && d.sent == c.sent && d.input == []
  }

  /** The client has gone on to a phase, with these messages, this input left, and otherwise as it
      was. */
  ghost predicate Goes(c: Client, d: Client, p: Phase, messages: seq<Sent>, read: nat) {
    && d.phase == p && d.sent == c.sent + messages && read <= |c.input| && d.input == c.input[read..]
    && d.setup == c.setup
  }

  ghost predicate SamePerson(c: Client, d: Client) {
    d.id == c.id && d.privateKey == c.privateKey && d.attempts == c.attempts
  }

  // ---- Accepting a key ----

  lemma AcceptExactly(c: Client, size: nat, k: Crypto)
    requires |c.id| == 16
    ensures var s, d := c.input, AcceptKey(c, size, k);
            if && 16 <= size < 0x8000_0000 && |s| >= size && NoZero(c.id) && s[..16] == c.id
               && ClientOutcomes.Able(c.(wrappedKey := s[16..size]), k)
            then
              && d.phase == Uploading(0) && d.wrappedKey == s[16..size] && d.input == s[size..]
              && d.sent == c.sent + [ClientOutcomes.PiecesOf(c.(wrappedKey := s[16..size]), k)]
              && d.setup == c.setup && SamePerson(c, d)
            else d.phase == Exited && d.sent == c.sent && d.input == []
  {
    hide NoZero, Checked, SendUpload, ClientOutcomes.Able, ClientOutcomes.PiecesOf;
    var s := c.input;
    CheckedExactly(s, c.id, 16);
    if |s| >= size >= 16 {
      var rest := s[16..];
      assert rest[..size - 16] == s[16..size] && rest[size - 16..] == s[size..];
      UploadExactly(c.(wrappedKey := s[16..size], input := s[size..]), k);
      SameKeyWork(c, c.(input := s[size..]), k);
    }
  }

  /** The first upload. */
  lemma UploadExactly(c: Client, k: Crypto)
    ensures var d := SendUpload(c, 0, k);
            if ClientOutcomes.Able(c, k) then
              && d.phase == Uploading(0) && d.sent == c.sent + [ClientOutcomes.PiecesOf(c, k)]
              && d.wrappedKey == c.wrappedKey && d.input == c.input && d.setup == c.setup && SamePerson(c, d)
            else d.phase == Exited && d.sent == c.sent && d.input == []
  {
    hide AllPackets, TotalPackets, Int32, Transmitted, Pad;
  }

  // ---- Each phase ----

  /** Waiting for the answer to 827. */
  lemma ReconnectExactly(c: Client, k: Crypto)
    requires c.phase.Reconnecting? && Counted(c.phase) && |c.id| == 16
    ensures var d, f := Next(c, k), c.phase.failures + 1;
            match CodeRead(c.input)
            case None => Left(c, d)
            case Some(code) =>
              if code == 1607 && f < 4 then Goes(c, d, Reconnecting(f), [Message827(c)], 7) && SamePerson(c, d)
              else if code == 1606 && |c.input| >= 23 then
                Goes(c, d, Registering(0), [Message825(c)], 23) && SamePerson(c, d)
              else if code == 1605 && KeyGiven(c, k) then
                var size := WordAt(c.input, 3);
                var e := c.(wrappedKey := c.input[23..7 + size]);
                && Goes(c, d, Uploading(0), [ClientOutcomes.PiecesOf(e, k)], 7 + size)
                && SamePerson(c, d) && d.wrappedKey == c.input[23..7 + size]
              else Left(c, d)
  {
    hide ReadHeader, AcceptKey, Pad, ClientOutcomes.Able, ClientOutcomes.PiecesOf, Value, NoZero;
    ReadHeaderExactly(c.input);
    if |c.input| >= 7 {
      var e := c.(input := c.input[7..]);
      AcceptExactly(e, WordAt(c.input, 3), k);
      SlicesFrom7(c.input, WordAt(c.input, 3));
      SameKeyWork(c, e, k);
    }
  }

  lemma SlicesFrom7(s: Bytes, size: nat)
    requires |s| >= 7
    ensures var t := s[7..];
            && (|t| >= 16 ==> t[..16] == s[7..23] && t[16..] == s[23..])
            && (|t| >= size ==> t[size..] == s[7 + size..])
            && (|t| >= size >= 16 ==> t[16..size] == s[23..7 + size])
  {
  }

  lemma SameKeyWork(c: Client, e: Client, k: Crypto)
    requires e == c.(input := e.input)
    ensures forall w :: ClientOutcomes.Able(c.(wrappedKey := w), k) == ClientOutcomes.Able(e.(wrappedKey := w), k)
    ensures forall w :: ClientOutcomes.Able(c.(wrappedKey := w), k) ==>
              ClientOutcomes.PiecesOf(c.(wrappedKey := w), k) == ClientOutcomes.PiecesOf(e.(wrappedKey := w), k)
  {
    hide AllPackets, TotalPackets, Int32, Transmitted, Pad;
  }

  /** Waiting for the answer to 825. */
  lemma RegisterExactly(c: Client, k: Crypto)
    requires c.phase.Registering? && Counted(c.phase)
    ensures var d, f := Next(c, k), c.phase.failures + 1;
            match CodeRead(c.input)
            case None => Left(c, d)
            case Some(code) =>
              if (code == 1607 || code == 1601) && f < 4 then
                Goes(c, d, Registering(f), [Message825(c)], 7) && SamePerson(c, d)
              else if code == 1600 && |c.input| >= 23 then
                && d.id == c.input[7..23]
                && Goes(c, d, SendingKey(0), [Message826(d, c.attempts)], 23)
                && d.privateKey == c.setup.keys(c.attempts).private && d.attempts == c.attempts + 1
              else Left(c, d)
  {
    hide ReadHeader, Pad, Value;
    ReadHeaderExactly(c.input);
    if |c.input| >= 7 { SlicesFrom7(c.input, 0); }
  }

  /** Waiting for the answer to 826: every attempt has a key pair of its own. */
  lemma KeyExactly(c: Client, k: Crypto)
    requires c.phase.SendingKey? && Counted(c.phase) && |c.id| == 16
    ensures var d, f := Next(c, k), c.phase.failures + 1;
            match CodeRead(c.input)
            case None => Left(c, d)
            case Some(code) =>
              if code == 1607 && f < 4 then
                && Goes(c, d, SendingKey(f), [Message826(c, c.attempts)], 7) && d.id == c.id
                && d.privateKey == c.setup.keys(c.attempts).private && d.attempts == c.attempts + 1
              else if code == 1602 && KeyGiven(c, k) then
                var size := WordAt(c.input, 3);
                var e := c.(wrappedKey := c.input[23..7 + size]);
                && Goes(c, d, Uploading(0), [ClientOutcomes.PiecesOf(e, k)], 7 + size)
                && SamePerson(c, d) && d.wrappedKey == c.input[23..7 + size]
              else Left(c, d)
  {
    hide ReadHeader, AcceptKey, Pad, ClientOutcomes.Able, ClientOutcomes.PiecesOf, Value, NoZero;
    ReadHeaderExactly(c.input);
    if |c.input| >= 7 {
      var e := c.(input := c.input[7..]);
      AcceptExactly(e, WordAt(c.input, 3), k);
      SlicesFrom7(c.input, WordAt(c.input, 3));
      SameKeyWork(c, e, k);
    }
  }

  /** Waiting for the answer to the final verdict. */
  lemma VerdictExactly(c: Client, k: Crypto)
    requires c.phase.Ending? && Counted(c.phase) && |c.id| == 16
    ensures var d, f, code := Next(c, k), c.phase.failures + 1, c.phase.code;
            match CodeRead(c.input)
            case None => Left(c, d)
            case Some(answer) =>
              if answer == 1607 && f < 4 then
                Goes(c, d, Ending(code, f), [MessageVerdict(c, code)], 7) && SamePerson(c, d)
              else if answer == 1604 && IdentifierGiven(c) then Goes(c, d, Finished(code), [], 23)
              else Left(c, d)
  {
    hide ReadHeader, Checked, Pad, Value, NoZero;
    ReadHeaderExactly(c.input);
    if |c.input| >= 7 {
      CheckedExactly(c.input[7..], c.id, 16);
      SlicesFrom7(c.input, 0);
    }
  }

  /** Waiting for the answer to an upload: how the octets are understood. */
  lemma InterpretExactly(c: Client)
    requires |c.id| == 16 && |c.setup.fileName| < 255
    ensures var s, n := c.input, |c.setup.fileName|;
            ClientOutcomes.Interpret(c) ==
              if CodeRead(s) == Some(1607) then ClientOutcomes.Refused
              else if && CodeRead(s) == Some(1603) && |s| >= 286
                      && NoZero(c.id) && s[7..23] == c.id && WordAt(s, 23) == c.contentSize
                      && NoZero(c.setup.fileName) && s[27..27 + n] == c.setup.fileName && s[27 + n] == 0
              then ClientOutcomes.Reported(WordAt(s, 282))
              else ClientOutcomes.Malformed
  {
    hide ReadHeader, ReadReport, Value, NoZero, Number;
    ReadHeaderExactly(c.input);
    var s, n := c.input, |c.setup.fileName|;
    if |s| >= 7 {
      var e := c.(input := s[7..]);
      ReadReportExactly(e);
      SlicesFrom7(s, 0);
      if |s| >= 286 {
        assert e.input[20..20 + n] == s[27..27 + n] && e.input[20 + n] == s[27 + n];
        assert WordAt(e.input, 16) == WordAt(s, 23) && WordAt(e.input, 275) == WordAt(s, 282);
      }
    }
  }

  // ---- Asking again ----

  /** A request that is repeated until something other than an error is answered. */
  predicate Asking(p: Phase) {
    p.Reconnecting? || p.Registering? || p.SendingKey? || p.Ending?
  }

  /** Still waiting for the answer to the same request. */
  predicate StillAsking(p: Phase, q: Phase) {
    || (p.Reconnecting? && q.Reconnecting?) || (p.Registering? && q.Registering?)
    || (p.SendingKey? && q.SendingKey?) || (p.Ending? && q.Ending? && p.code == q.code)
  }

  /** The answers that say: an error. A registration has one of its own. */
  predicate ErrorAnswer(p: Phase, code: Option<nat>) {
    code == Some(1607) || (p.Registering? && code == Some(1601))
  }

  /** The i-th repetition of what the client is waiting to have answered. */
  function Repetition(c: Client, i: nat): Sent
    requires Asking(c.phase)
  {
    match c.phase
    case Reconnecting(_) => Message827(c)
    case Registering(_) => Message825(c)
    case SendingKey(_) => Message826(c, c.attempts + i)
    case Ending(code, _) => MessageVerdict(c, code)
  }

  function Repetitions(c: Client, n: nat): (log: seq<Sent>)
    requires Asking(c.phase)
    ensures |log| == n && forall i :: 0 <= i < n ==> log[i] == Repetition(c, i)
  {
    if n == 0 then [] else Repetitions(c, n - 1) + [Repetition(c, n - 1)]
  }

  /** The codes of the answers that the client takes while it asks, the deciding one included. */
  function Codes(c: Client, k: Crypto): (codes: seq<Option<nat>>)
    requires Asking(c.phase) && Counted(c.phase)
    ensures codes != []
    decreases Rank(c.phase)
  {
    var d := Next(c, k);
    [CodeRead(c.input)] + if StillAsking(c.phase, d.phase) then Codes(d, k) else []
  }

  /** The client before the deciding answer. */
  function BeforeLast(c: Client, k: Crypto): (e: Client)
    requires Asking(c.phase) && Counted(c.phase)
    ensures Asking(e.phase) && Counted(e.phase)
    decreases Rank(c.phase)
  {
    var d := Next(c, k);
    if StillAsking(c.phase, d.phase) then BeforeLast(d, k) else c
  }

  ghost predicate Identified(c: Client) {
    c.phase.Registering? || |c.id| == 16
  }

  lemma AskStep(c: Client, k: Crypto)
    requires Asking(c.phase) && Counted(c.phase) && Identified(c)
    ensures var d, f, code := Next(c, k), c.phase.failures + 1, CodeRead(c.input);
            && (StillAsking(c.phase, d.phase) <==> ErrorAnswer(c.phase, code) && f < 4)
            && (StillAsking(c.phase, d.phase) ==>
                  && d.phase.failures == f && d.sent == c.sent + [Repetition(c, 0)] && Identified(d)
                  && d.input == c.input[7..] && d.setup == c.setup && d.id == c.id
                  && d.attempts == c.attempts + if c.phase.SendingKey? then 1 else 0)
            && (ErrorAnswer(c.phase, code) && f == 4 ==> Left(c, d))
  {
    hide Next, KeyGiven, IdentifierGiven, CodeRead, Pad;
    match c.phase
    case Reconnecting(_) => ReconnectExactly(c, k);
    case Registering(_) => RegisterExactly(c, k);
    case SendingKey(_) => KeyExactly(c, k);
    case Ending(_, _) => VerdictExactly(c, k);
  }

  lemma RepetitionsShift(c: Client, d: Client, n: nat)
    requires Asking(c.phase) && StillAsking(c.phase, d.phase) && d.setup == c.setup && d.id == c.id
    requires d.attempts == c.attempts + if c.phase.SendingKey? then 1 else 0
    ensures [Repetition(c, 0)] + Repetitions(d, n) == Repetitions(c, n + 1)
  {
    hide Pad;
    forall i | 0 <= i < n ensures Repetition(d, i) == Repetition(c, i + 1) {}
  }

  /** Over every run: a request is repeated after each error answer until it has been sent four
      times; every repetition is the same request, but for the key pair of 826. Only something else
      than an error, or the fourth error, ends the asking; and the fourth error ends the program. */
  lemma {:induction false} AsksAgain(c: Client, k: Crypto)
    requires Asking(c.phase) && Counted(c.phase) && Identified(c)
    ensures var codes, e := Codes(c, k), BeforeLast(c, k);
            var n := |codes| - 1;
            && (forall i :: 0 <= i < n ==> ErrorAnswer(c.phase, codes[i]))
            && c.phase.failures + n < 4
            && (ErrorAnswer(c.phase, codes[n]) ==> c.phase.failures + n == 3 && Left(e, Next(e, k)))
            && codes[n] == CodeRead(e.input)
            && (e.phase == c.phase || StillAsking(c.phase, e.phase)) && e.phase.failures == c.phase.failures + n
            && e.sent == c.sent + Repetitions(c, n) && e.setup == c.setup && e.id == c.id
            && Run(c, k) == Run(Next(e, k), k)
            && !StillAsking(e.phase, Next(e, k).phase)
    decreases Rank(c.phase)
  {
    hide Next, CodeRead, Pad, Repetition;
    AskStep(c, k);
    var d := Next(c, k);
    if StillAsking(c.phase, d.phase) {
      AsksAgain(d, k);
      var codes, rest := Codes(c, k), Codes(d, k);
      assert codes == [CodeRead(c.input)] + rest;
      RepetitionsShift(c, d, |rest| - 1);
      SameErrors(c.phase, d.phase);
    }
  }

  lemma SameErrors(p: Phase, q: Phase)
    requires StillAsking(p, q)
    ensures forall code :: ErrorAnswer(p, code) == ErrorAnswer(q, code)
    ensures forall r :: StillAsking(q, r) ==> StillAsking(p, r)
  {
  }

  function Errors(p: Phase, codes: seq<Option<nat>>): nat {
    if codes == [] then 0 else (if ErrorAnswer(p, codes[0]) then 1 else 0) + Errors(p, codes[1..])
  }

  lemma {:induction false} AllErrors(p: Phase, codes: seq<Option<nat>>)
    requires forall i :: 0 <= i < |codes| ==> ErrorAnswer(p, codes[i])
    ensures Errors(p, codes) == |codes|
  {
    if codes != [] { AllErrors(p, codes[1..]); }
  }

  lemma {:induction false} LastMayDiffer(p: Phase, codes: seq<Option<nat>>)
    requires codes != [] && forall i :: 0 <= i < |codes| - 1 ==> ErrorAnswer(p, codes[i])
    ensures Errors(p, codes) == |codes| - 1 + if ErrorAnswer(p, codes[|codes| - 1]) then 1 else 0
  {
    if |codes| > 1 {
      LastMayDiffer(p, codes[1..]);
      assert codes[1..][|codes| - 2] == codes[|codes| - 1];
    } else {
      assert codes[1..] == [];
    }
  }

  /** Counted from the first sending: a request is sent once more than it is answered by an error,
      and four times at most. */
  lemma SentOnceMore(c: Client, k: Crypto)
    requires Asking(c.phase) && Counted(c.phase) && Identified(c) && c.phase.failures == 0
    ensures var errors, repeated := Errors(c.phase, Codes(c, k)), |BeforeLast(c, k).sent| - |c.sent|;
            && errors <= 4
            && 1 + repeated == (if errors < 4 then errors + 1 else 4)
            && (errors == 4 ==> Run(c, k).phase == Exited)
  {
    hide Next, CodeRead, Pad, Repetition, Identified;
    AsksAgain(c, k);
    var codes := Codes(c, k);
    LastMayDiffer(c.phase, codes);
    if Errors(c.phase, codes) == 4 { RunEnds(Next(BeforeLast(c, k), k), k); }
  }

  lemma RunEnds(c: Client, k: Crypto)
    requires Ended(c.phase)
    ensures Run(c, k) == c
  {
  }

  // ---- Why a client exits ----

  /** The reasons, phase by phase: a fourth error, an answer that is not expected, incomplete or
      about someone else, or a key that cannot be used. */
  ghost predicate Reason(c: Client, k: Crypto)
    requires Counted(c.phase) && !Ended(c.phase)
  {
    var code, last := CodeRead(c.input), c.phase.failures == 3;
    match c.phase
    case Reconnecting(_) =>
      || (code == Some(1607) && last)
      || (code == Some(1606) && |c.input| < 23)
      || (code == Some(1605) && !KeyGiven(c, k))
      || (code != Some(1605) && code != Some(1606) && code != Some(1607))
    case Registering(_) =>
      || (ErrorAnswer(c.phase, code) && last)
      || (code == Some(1600) && |c.input| < 23)
      || (code != Some(1600) && !ErrorAnswer(c.phase, code))
    case SendingKey(_) =>
      || (code == Some(1607) && last)
      || (code == Some(1602) && !KeyGiven(c, k))
      || (code != Some(1602) && code != Some(1607))
    case Uploading(_) =>
      || ClientOutcomes.Interpret(c) == ClientOutcomes.Malformed
      || (ClientOutcomes.Interpret(c) == ClientOutcomes.Refused && last)
    case Ending(_, _) =>
      || (code == Some(1607) && last)
      || (code == Some(1604) && !IdentifierGiven(c))
      || (code != Some(1604) && code != Some(1607))
  }

  /** A client exits for one of these reasons and for no other. While it uploads, it has a usable
      key, as every client that comes to its first upload does. */
  lemma ExitsExactly(c: Client, k: Crypto)
    requires Counted(c.phase) && !Ended(c.phase) && Identified(c)
    requires c.phase.Uploading? ==> ClientOutcomes.Able(c, k)
    ensures Next(c, k).phase == Exited <==> Reason(c, k)
  {
    hide Next, KeyGiven, IdentifierGiven, CodeRead, Pad, ClientOutcomes.Interpret, ClientOutcomes.Able;
    hide ClientOutcomes.PiecesOf;
    match c.phase
    case Reconnecting(_) => ReconnectExactly(c, k);
    case Registering(_) => RegisterExactly(c, k);
    case SendingKey(_) => KeyExactly(c, k);
    case Uploading(_) => ClientOutcomes.UploadStep(c, k);
    case Ending(_, _) => VerdictExactly(c, k);
  }

  // ---- Over whole runs ----

  /** The client after n answers, or at its end. */
  function After(c: Client, n: nat, k: Crypto): (d: Client)
    requires Counted(c.phase)
    ensures Counted(d.phase)
    decreases n
  {
    if n == 0 || Ended(c.phase) then c else After(Next(c, k), n - 1, k)
  }

  /** What holds of every client in a run: it knows its identifier as soon as it needs it, and a
      usable key while it uploads. */
  ghost predicate Fit(c: Client, k: Crypto) {
    Counted(c.phase) && (!Ended(c.phase) ==> Identified(c)) && (c.phase.Uploading? ==> ClientOutcomes.Able(c, k))
  }

  lemma UploadStaysFit(c: Client, k: Crypto)
    requires Fit(c, k) && c.phase.Uploading?
    ensures Fit(Next(c, k), k)
  {
    hide Next, ClientOutcomes.Able, ClientOutcomes.Interpret, ClientOutcomes.PiecesOf;
    ClientOutcomes.UploadStep(c, k);
    var d := Next(c, k);
    if d.phase.Uploading? { ClientOutcomes.SameOutcome(c, d, k); }
    UploadKeepsIdentifier(c, k);
  }

  lemma UploadKeepsIdentifier(c: Client, k: Crypto)
    requires c.phase.Uploading? && Counted(c.phase)
    ensures Next(c, k).id == c.id
  {
    hide ReadHeader, ReadReport, AllPackets, Int32, TotalPackets, Transmitted, Pad;
  }

  lemma StaysFit(c: Client, k: Crypto)
    requires Fit(c, k) && !Ended(c.phase)
    ensures Fit(Next(c, k), k)
  {
    hide Next, KeyGiven, IdentifierGiven, CodeRead, Pad, ClientOutcomes.Able, ClientOutcomes.PiecesOf;
    match c.phase
    case Reconnecting(_) =>
      ReconnectExactly(c, k);
      ClientOutcomes.NextTowardsUpload(c, k);
    case Registering(_) => RegisterExactly(c, k);
    case SendingKey(_) =>
      KeyExactly(c, k);
      ClientOutcomes.NextTowardsUpload(c, k);
    case Uploading(_) => UploadStaysFit(c, k);
    case Ending(_, _) => VerdictExactly(c, k);
  }

  /** Somewhere in the run there is a reason to exit. */
  ghost predicate ReasonSomewhere(c: Client, k: Crypto)
    requires Counted(c.phase)
  {
    exists n: nat :: !Ended(After(c, n, k).phase) && Reason(After(c, n, k), k)
  }

  /** At once, or after the next answer. */
  lemma ReasonUnfolds(c: Client, k: Crypto)
    requires Counted(c.phase) && !Ended(c.phase)
    ensures ReasonSomewhere(c, k) <==> Reason(c, k) || ReasonSomewhere(Next(c, k), k)
  {
    hide Next, Reason;
    var d := Next(c, k);
    assert After(c, 0, k) == c;
    if ReasonSomewhere(c, k) && !Reason(c, k) {
      var n: nat :| !Ended(After(c, n, k).phase) && Reason(After(c, n, k), k);
      assert n > 0 && After(c, n, k) == After(d, n - 1, k);
    }
    if ReasonSomewhere(d, k) {
      var n: nat :| !Ended(After(d, n, k).phase) && Reason(After(d, n, k), k);
      assert After(c, n + 1, k) == After(d, n, k);
    }
  }

  lemma NoReasonAtEnd(c: Client, k: Crypto)
    requires Ended(c.phase)
    ensures !ReasonSomewhere(c, k)
  {
  }

  /** A run ends with the client's exit if and only if somewhere in it there was a reason. */
  lemma {:induction false} RunExitsExactly(c: Client, k: Crypto)
    requires Fit(c, k) && !Ended(c.phase)
    ensures Run(c, k).phase == Exited <==> ReasonSomewhere(c, k)
    decreases Rank(c.phase)
  {
    hide Next, Reason, Fit, ReasonSomewhere;
    FitIs(c, k);
    ExitsExactly(c, k);
    StaysFit(c, k);
    ReasonUnfolds(c, k);
    var d := Next(c, k);
    if Ended(d.phase) {
      RunEnds(d, k);
      NoReasonAtEnd(d, k);
    } else {
      RunExitsExactly(d, k);
    }
  }

  lemma FitIs(c: Client, k: Crypto)
    requires Fit(c, k)
    ensures Counted(c.phase) && (!Ended(c.phase) ==> Identified(c))
    ensures c.phase.Uploading? ==> ClientOutcomes.Able(c, k)
  {
  }

  /** From either start: exits only, and always, for a reason; and 825 or 827 sent once more than it
      is answered by an error. */
  lemma ClientsAskAgain(setup: Setup, id: Bytes, privateKey: Bytes, input: Bytes, k: Crypto)
    requires |id| == 16
    ensures var c := NewClient(setup, input);
            && (Run(c, k).phase == Exited <==> ReasonSomewhere(c, k))
            && var errors := Errors(c.phase, Codes(c, k));
               |BeforeLast(c, k).sent| == if errors < 4 then errors + 1 else 4
    ensures var c := KnownClient(setup, id, privateKey, input);
            && (Run(c, k).phase == Exited <==> ReasonSomewhere(c, k))
            && var errors := Errors(c.phase, Codes(c, k));
               |BeforeLast(c, k).sent| == if errors < 4 then errors + 1 else 4
  {
    hide Pad, ZeroOctets, Codes, BeforeLast, Run, ReasonSomewhere, Next;
    var c, d := NewClient(setup, input), KnownClient(setup, id, privateKey, input);
    RunExitsExactly(c, k);
    SentOnceMore(c, k);
    RunExitsExactly(d, k);
    SentOnceMore(d, k);
  }
}
