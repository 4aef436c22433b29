/** UTF-8 by its definition, as the encoding of Unicode scalar values (RFC 3629, section 3), and that
    the test of Text accepts exactly the encodings. */
module Unicode {
  import opened Octets
  import opened Text

  /** A code point that is not a surrogate. */
  predicate Scalar(c: nat) {
    c < 0xd800 || 0xe000 <= c < 0x11_0000
  }

  predicate AllScalars(cs: seq<nat>) {
    forall c :: c in cs ==> Scalar(c)
  }

  function Encoded(c: nat): (s: Bytes)
    requires Scalar(c)
    ensures 1 <= |s| <= 4
  {
    if c < 0x80 then [OctetOf(c)]
    else if c < 0x800 then [OctetOf(0xc0 + c / 64), OctetOf(0x80 + c % 64)]
    else if c < 0x1_0000 then
      [OctetOf(0xe0 + c / 4096), OctetOf(0x80 + c / 64 % 64), OctetOf(0x80 + c % 64)]
    else
      [OctetOf(0xf0 + c / 262144), OctetOf(0x80 + c / 4096 % 64), OctetOf(0x80 + c / 64 % 64), OctetOf(0x80 + c % 64)]
  }

  function EncodedText(cs: seq<nat>): Bytes
    requires AllScalars(cs)
  {
    if cs == [] then [] else Encoded(cs[0]) + EncodedText(cs[1..])
  }

  // ---- Every encoding is accepted ----

  lemma ValuesOfEncoded(c: nat)
    requires Scalar(c)
    ensures var s := Encoded(c);
            if c < 0x80 then Value(s[0]) == c
            else if c < 0x800 then |s| == 2 && Value(s[0]) == 0xc0 + c / 64 && Value(s[1]) == 0x80 + c % 64
            else if c < 0x1_0000 then
              |s| == 3 && Value(s[0]) == 0xe0 + c / 4096 && Value(s[1]) == 0x80 + c / 64 % 64
              && Value(s[2]) == 0x80 + c % 64
            else
              |s| == 4 && Value(s[0]) == 0xf0 + c / 262144 && Value(s[1]) == 0x80 + c / 4096 % 64
              && Value(s[2]) == 0x80 + c / 64 % 64 && Value(s[3]) == 0x80 + c % 64
  {
    hide Value, OctetOf;
    if c < 0x80 {
      ValueOfOctet(c);
    } else if c < 0x800 {
      ValueOfOctet(0xc0 + c / 64);
      ValueOfOctet(0x80 + c % 64);
    } else if c < 0x1_0000 {
      ValueOfOctet(0xe0 + c / 4096);
      ValueOfOctet(0x80 + c / 64 % 64);
      ValueOfOctet(0x80 + c % 64);
    } else {
      ValueOfOctet(0xf0 + c / 262144);
      ValueOfOctet(0x80 + c / 4096 % 64);
      ValueOfOctet(0x80 + c / 64 % 64);
      ValueOfOctet(0x80 + c % 64);
    }
  }

  lemma CharOfTwo(s: Bytes, c: nat)
    requires 0x80 <= c < 0x800 && |s| >= 2 && Value(s[0]) == 0xc0 + c / 64 && Value(s[1]) == 0x80 + c % 64
    ensures CharLength(s) == 2
  {
    hide Value;
  }

  lemma CharOfThree(s: Bytes, c: nat)
    requires Scalar(c) && 0x800 <= c < 0x1_0000 && |s| >= 3 && Value(s[0]) == 0xe0 + c / 4096
    requires Value(s[1]) == 0x80 + c / 64 % 64 && Value(s[2]) == 0x80 + c % 64
    ensures CharLength(s) == 3
  {
    hide Value;
    Parts(c);
  }

  lemma CharOfFour(s: Bytes, c: nat)
    requires 0x1_0000 <= c < 0x11_0000 && |s| >= 4 && Value(s[0]) == 0xf0 + c / 262144
    requires Value(s[1]) == 0x80 + c / 4096 % 64 && Value(s[2]) == 0x80 + c / 64 % 64 && Value(s[3]) == 0x80 + c % 64
    ensures CharLength(s) == 4
  {
    hide Value;
    Parts(c);
  }

  lemma Parts(c: nat)
    ensures c / 64 == 64 * (c / 4096) + c / 64 % 64
    ensures c / 4096 == 64 * (c / 262144) + c / 4096 % 64
    ensures c == 64 * (c / 64) + c % 64
  {
  }

  lemma EncodedIsOneChar(c: nat, tail: Bytes)
    requires Scalar(c)
    ensures CharLength(Encoded(c) + tail) == |Encoded(c)|
  {
    ValuesOfEncoded(c);
    EncodedLength(c);
    hide Encoded, CharLength, Value, OctetOf;
    var s := Encoded(c) + tail;
    assert forall i :: 0 <= i < |Encoded(c)| ==> s[i] == Encoded(c)[i];
    if c < 0x80 {
      CharOfOne(s);
    } else if c < 0x800 {
      CharOfTwo(s, c);
    } else if c < 0x1_0000 {
      CharOfThree(s, c);
    } else {
      CharOfFour(s, c);
    }
  }

  lemma CharOfOne(s: Bytes)
    requires s != [] && Value(s[0]) < 0x80
    ensures CharLength(s) == 1
  {
    hide Value;
  }

  lemma EncodedLength(c: nat)
    requires Scalar(c)
    ensures |Encoded(c)| == if c < 0x80 then 1 else if c < 0x800 then 2 else if c < 0x1_0000 then 3 else 4
  {
    hide OctetOf;
  }

  lemma {:induction false} EncodedIsValid(cs: seq<nat>)
    requires AllScalars(cs)
    ensures ValidUtf8(EncodedText(cs))
  {
    if cs != [] {
      var first, rest := Encoded(cs[0]), EncodedText(cs[1..]);
      EncodedIsOneChar(cs[0], rest);
      EncodedIsValid(cs[1..]);
      hide Encoded, CharLength;
      assert (first + rest)[|first|..] == rest;
    }
  }

  // ---- Everything accepted is an encoding ----

  /** The octets with these values. */
  lemma OctetsAre(s: Bytes, v0: nat, v1: nat, v2: nat, v3: nat)
    requires v0 < 256 && v1 < 256 && v2 < 256 && v3 < 256
    ensures |s| >= 1 && Value(s[0]) == v0 ==> s[0] == OctetOf(v0)
    ensures |s| >= 2 && Value(s[1]) == v1 ==> s[1] == OctetOf(v1)
    ensures |s| >= 3 && Value(s[2]) == v2 ==> s[2] == OctetOf(v2)
    ensures |s| >= 4 && Value(s[3]) == v3 ==> s[3] == OctetOf(v3)
  {
    hide Value, OctetOf;
    forall i | 0 <= i < |s| ensures s[i] == OctetOf(Value(s[i])) { OctetOfValue(s[i]); }
  }

  lemma Digits2(h: nat, l: nat)
    requires l < 64
    ensures (64 * h + l) / 64 == h && (64 * h + l) % 64 == l
  {
  }

  lemma Digits3(h: nat, m: nat, l: nat)
    requires m < 64 && l < 64
    ensures var c := 64 * (64 * h + m) + l; c / 4096 == h && c / 64 % 64 == m && c % 64 == l
  {
    Digits2(64 * h + m, l);
    Digits2(h, m);
  }

  lemma Digits4(h: nat, n: nat, m: nat, l: nat)
    requires n < 64 && m < 64 && l < 64
    ensures var c := 64 * (64 * (64 * h + n) + m) + l;
            c / 262144 == h && c / 4096 % 64 == n && c / 64 % 64 == m && c % 64 == l
  {
    Digits3(64 * h + n, m, l);
    Digits2(h, n);
  }

  lemma OneOctet(s: Bytes) returns (c: nat)
    requires s != [] && CharLength(s) == 1
    ensures Scalar(c) && s[..1] == Encoded(c)
  {
    hide OctetOf;
    c := Value(s[0]);
    OctetsAre(s, c, 0, 0, 0);
  }

  lemma TwoOctets(s: Bytes) returns (c: nat)
    requires s != [] && CharLength(s) == 2
    ensures Scalar(c) && s[..2] == Encoded(c)
  {
    hide Value, OctetOf;
    var b0, b1 := Value(s[0]), Value(s[1]);
    c := 64 * (b0 - 0xc0) + (b1 - 0x80);
    Digits2(b0 - 0xc0, b1 - 0x80);
    OctetsAre(s, b0, b1, 0, 0);
  }

  lemma ThreeOctets(s: Bytes) returns (c: nat)
    requires s != [] && CharLength(s) == 3
    ensures Scalar(c) && s[..3] == Encoded(c)
  {
    hide Value, OctetOf;
    var b0, b1, b2 := Value(s[0]), Value(s[1]), Value(s[2]);
    c := 64 * (64 * (b0 - 0xe0) + (b1 - 0x80)) + (b2 - 0x80);
    Digits3(b0 - 0xe0, b1 - 0x80, b2 - 0x80);
    OctetsAre(s, b0, b1, b2, 0);
  }

  lemma FourOctets(s: Bytes) returns (c: nat)
    requires s != [] && CharLength(s) == 4
    ensures Scalar(c) && s[..4] == Encoded(c)
  {
    hide Value, OctetOf;
    var b0, b1, b2, b3 := Value(s[0]), Value(s[1]), Value(s[2]), Value(s[3]);
    c := 64 * (64 * (64 * (b0 - 0xf0) + (b1 - 0x80)) + (b2 - 0x80)) + (b3 - 0x80);
    Digits4(b0 - 0xf0, b1 - 0x80, b2 - 0x80, b3 - 0x80);
    OctetsAre(s, b0, b1, b2, b3);
  }

  lemma OneCharIsEncoded(s: Bytes) returns (c: nat)
    requires s != [] && CharLength(s) > 0
    ensures Scalar(c) && s[..CharLength(s)] == Encoded(c)
  {
    LengthCases(s);
    hide Encoded, CharLength;
    var n := CharLength(s);
    if n == 1 {
      c := OneOctet(s);
    } else if n == 2 {
      c := TwoOctets(s);
    } else if n == 3 {
      c := ThreeOctets(s);
    } else {
      c := FourOctets(s);
    }
  }

  lemma LengthCases(s: Bytes)
    requires s != []
    ensures CharLength(s) <= 4
  {
  }

  lemma ValidUnfolds(s: Bytes)
    requires ValidUtf8(s) && s != []
    ensures 0 < CharLength(s) <= |s| && ValidUtf8(s[CharLength(s)..])
  {
    hide CharLength;
  }

  lemma EncodedCons(c: nat, cs: seq<nat>)
    requires Scalar(c) && AllScalars(cs)
    ensures AllScalars([c] + cs) && EncodedText([c] + cs) == Encoded(c) + EncodedText(cs)
  {
    hide Encoded;
    assert ([c] + cs)[1..] == cs;
  }

  lemma {:induction false} ValidIsEncoded(s: Bytes) returns (cs: seq<nat>)
    requires ValidUtf8(s)
    ensures AllScalars(cs) && s == EncodedText(cs)
    decreases |s|
  {
    hide Encoded, CharLength, ValidUtf8;
    if s == [] {
      cs := [];
    } else {
      ValidUnfolds(s);
      var n := CharLength(s);
      var c := OneCharIsEncoded(s);
      var rest := ValidIsEncoded(s[n..]);
      cs := [c] + rest;
      EncodedCons(c, rest);
      assert s == s[..n] + s[n..];
    }
  }

  /** The test accepts an octet string if and only if it encodes a sequence of scalar values. */
  lemma ValidExactly(s: Bytes)
    ensures ValidUtf8(s) <==> exists cs :: AllScalars(cs) && EncodedText(cs) == s
  {
    hide ValidUtf8;
    if ValidUtf8(s) {
      var cs := ValidIsEncoded(s);
    }
    forall cs | AllScalars(cs) && EncodedText(cs) == s ensures ValidUtf8(s) { EncodedIsValid(cs); }
  }

  /** What a field is read as: its octets without the zeros, if they encode scalar values. */
  lemma TextExactly(field: Bytes)
    ensures TextOf(field).Some? <==> exists cs :: AllScalars(cs) && EncodedText(cs) == field
    ensures TextOf(field).Some? ==> TextOf(field).value == StripZeros(field)
  {
    hide ValidUtf8, StripZeros;
    ValidExactly(field);
  }

  /** The encoding contains no zero octet unless the scalar is zero. */
  lemma {:induction false} NoZeroScalars(cs: seq<nat>)
    requires AllScalars(cs) && 0 !in cs
    ensures NoZero(EncodedText(cs))
  {
    hide Encoded;
    if cs != [] {
      NoZeroScalars(cs[1..]);
      NoZeroScalar(cs[0]);
    }
  }

  lemma NoZeroScalar(c: nat)
    requires Scalar(c) && c != 0
    ensures NoZero(Encoded(c))
  {
    ValuesOfEncoded(c);
    EncodedLength(c);
    ZeroHasNoValue();
    hide Encoded, Value, OctetOf;
    var s := Encoded(c);
    assert forall i :: 0 <= i < |s| ==> Value(s[i]) > 0;
  }

  lemma ZeroHasNoValue()
    ensures Value(0) == 0
  {
  }

  /** A name, given by its characters, is what is read from its padded field. */
  lemma NameIsRead(cs: seq<nat>, width: nat)
    requires AllScalars(cs) && 0 !in cs && |EncodedText(cs)| <= width
    ensures TextOf(Pad(EncodedText(cs), width)) == Some(EncodedText(cs))
  {
    hide ValidUtf8, TextOf, Pad;
    EncodedIsValid(cs);
    NoZeroScalars(cs);
    FieldRoundTrip(EncodedText(cs), width);
  }
}
