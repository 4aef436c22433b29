/** Saving and reading back the client's identifier, and the name of the file to be sent
    (Client/various_functions.cpp). */
module SavedFiles {
  import opened Octets
  import Wire

  // ---- Hexadecimal ----

  function HexDigit(n: nat): Octet
    requires n < 16
  {
    OctetOf(if n < 10 then 0x30 + n else 0x57 + n)
  }

  /** Two lower-case digits per octet. */
  function HexOf(s: Bytes): (h: Bytes)
    ensures |h| == 2 * |s|
  {
    if s == [] then []
    else [HexDigit(Value(s[0]) / 16), HexDigit(Value(s[0]) % 16)] + HexOf(s[1..])
  }

  /** The value of a character as a hexadecimal digit, or 16 if it is none. */
  function DigitValue(c: Octet): (n: nat)
    ensures n <= 16
  {
    var v := Value(c);
    if 0x30 <= v <= 0x39 then v - 0x30
    else if 0x41 <= v <= 0x46 then v - 0x37
    else if 0x61 <= v <= 0x66 then v - 0x57
    else 16
  }

  predicate Space(c: Octet) {
    Value(c) == 0x20 || 0x09 <= Value(c) <= 0x0d
  }

  /** The number that the leading digits denote. */
  function Digits(s: Bytes, acc: nat): int
    decreases |s|
  {
    if s == [] || DigitValue(s[0]) == 16 then acc else Digits(s[1..], 16 * acc + DigitValue(s[0]))
  }

  /** `strtol` in base 16 for at most two characters: spaces, a sign, digits. */
  function Strtol(s: Bytes): int {
    if s == [] then 0
    else if Space(s[0]) then Strtol(s[1..])
    else if Value(s[0]) == 0x2d then -Digits(s[1..], 0)
    else if Value(s[0]) == 0x2b then Digits(s[1..], 0)
    else Digits(s, 0)
  }

  /** Any text, two characters at a time, the last one possibly alone. */
  function BytesOfHex(h: Bytes): (s: Bytes)
    ensures |s| == (|h| + 1) / 2
  {
    if h == [] then []
    else
      var n := if |h| == 1 then 1 else 2;
      [OctetOf(Strtol(h[..n]) % 256)] + BytesOfHex(h[n..])
  }

  lemma DigitOfHexDigit(n: nat)
    requires n < 16
    ensures DigitValue(HexDigit(n)) == n && !Space(HexDigit(n))
    ensures Value(HexDigit(n)) != 0x2d && Value(HexDigit(n)) != 0x2b
  {
    hide Value, OctetOf;
    ValueOfOctet(if n < 10 then 0x30 + n else 0x57 + n);
  }

  /** The digits, as they are written. */
  const DIGITS: string := "0123456789abcdef"

  const CAPITALS: string := "0123456789ABCDEF"

  /** The characters that `isspace` accepts. */
  const SPACES: string := " \t\n\U{000b}\U{000c}\r"

  lemma SpacesAreRead(c: Octet)
    ensures Space(c) <==> exists i :: 0 <= i < |SPACES| && Value(c) == SPACES[i] as int
  {
    hide Value;
    assert |SPACES| == 6 && SPACES[0] == ' ' && SPACES[1] == '\t' && SPACES[2] == '\n' && SPACES[5] == '\r';
    assert SPACES[3] as int == 0x0b && SPACES[4] as int == 0x0c;
  }

  lemma DigitsAreWritten(n: nat)
    requires n < 16
    ensures Value(HexDigit(n)) == DIGITS[n] as int
  {
    hide Value, OctetOf;
    ValueOfOctet(if n < 10 then 0x30 + n else 0x57 + n);
    assert n == 0 || n == 1 || n == 2 || n == 3 || n == 4 || n == 5 || n == 6 || n == 7
        || n == 8 || n == 9 || n == 10 || n == 11 || n == 12 || n == 13 || n == 14 || n == 15;
  }

  /** A character is a digit exactly if it is written in one of the two alphabets. */
  lemma DigitsAreRead(c: Octet, n: nat)
    requires n < 16
    ensures DigitValue(c) == n <==> Value(c) == DIGITS[n] as int || Value(c) == CAPITALS[n] as int
  {
    hide Value;
    assert n == 0 || n == 1 || n == 2 || n == 3 || n == 4 || n == 5 || n == 6 || n == 7
        || n == 8 || n == 9 || n == 10 || n == 11 || n == 12 || n == 13 || n == 14 || n == 15;
  }

  /** What two characters are read as: two digits, one digit before or after something else, and
      the signs. */
  lemma PairsAreRead(a: Octet, b: Octet)
    ensures var x, y := DigitValue(a), DigitValue(b);
            var first := if y < 16 then y else 0;
            Strtol([a, b]) ==
              if x < 16 && y < 16 then 16 * x + y
              else if x < 16 then x
              else if Space(a) || Value(a) == '+' as int then first
              else if Value(a) == '-' as int then -first
              else 0
  {
    hide Value, DigitValue, Space;
    DigitsAreNoSigns(a);
    DigitsAreNoSigns(b);
    OneDigit(b, 0);
    OneDigit(b, DigitValue(a));
    assert [a, b][1..] == [b] && [b][1..] == [];
    assert Strtol([]) == 0 == Digits([], 0);
    assert Strtol([b]) == if Space(b) then 0 else Digits([b], 0);
    assert Digits([a, b], 0) == if DigitValue(a) == 16 then 0 else Digits([b], DigitValue(a));
  }

  lemma OneDigit(c: Octet, acc: nat)
    ensures Digits([c], acc) == if DigitValue(c) == 16 then acc else 16 * acc + DigitValue(c)
  {
    hide DigitValue;
    assert [c][1..] == [];
  }

  lemma DigitsAreNoSigns(c: Octet)
    ensures DigitValue(c) < 16 ==> !Space(c) && Value(c) != 0x2d && Value(c) != 0x2b
  {
    hide Value;
  }

  lemma TwoDigits(b: Octet)
    ensures OctetOf(Strtol([HexDigit(Value(b) / 16), HexDigit(Value(b) % 16)]) % 256) == b
  {
    hide OctetOf, Value, HexDigit, DigitValue, Space;
    var hi, lo := Value(b) / 16, Value(b) % 16;
    DigitOfHexDigit(hi);
    DigitOfHexDigit(lo);
    var s := [HexDigit(hi), HexDigit(lo)];
    assert s[1..] == [HexDigit(lo)] && s[1..][1..] == [];
    assert Digits(s, 0) == Digits(s[1..], hi) == Digits([], 16 * hi + lo) == Value(b);
    OctetOfValue(b);
  }

  /** A saved identifier is read back as it was. */
  lemma {:induction false} HexRoundTrip(s: Bytes)
    ensures BytesOfHex(HexOf(s)) == s
  {
    hide HexDigit, Strtol, OctetOf;
    if s != [] {
      var h := HexOf(s);
      assert h[..2] == [HexDigit(Value(s[0]) / 16), HexDigit(Value(s[0]) % 16)];
      assert h[2..] == HexOf(s[1..]);
      TwoDigits(s[0]);
      HexRoundTrip(s[1..]);
    }
  }

  /** What the size check on reconnection accepts: 31 or 32 characters, whatever they are. */
  lemma SizeCheck(h: Bytes)
    ensures |BytesOfHex(h)| == Wire.CLIENT_ID_SIZE <==> |h| == 31 || |h| == 32
  {
  }

  lemma HexStep(s: Bytes, i: nat)
    requires i < |s|
    ensures HexOf(s[i..]) == [HexDigit(Value(s[i]) / 16), HexDigit(Value(s[i]) % 16)] + HexOf(s[i + 1..])
  {
    assert s[i..][1..] == s[i + 1..];
  }

  method ConvertStringToHex(s: Bytes) returns (h: Bytes)
    ensures h == HexOf(s) && |h| == 2 * |s|
  {
    hide HexOf, HexDigit, Value;
    h := [];
    var i := 0;
    assert s[0..] == s;
    while i < |s|
      invariant i <= |s| && HexOf(s) == h + HexOf(s[i..])
    {
      HexStep(s, i);
      h := h + [HexDigit(Value(s[i]) / 16), HexDigit(Value(s[i]) % 16)];
      i := i + 1;
    }
  }

  /** Where the next pair of characters ends. */
  function PairEnd(h: Bytes, i: nat): nat {
    if i + 2 <= |h| then i + 2 else |h|
  }

  lemma BytesStep(h: Bytes, i: nat)
    requires i < |h|
    ensures BytesOfHex(h[i..]) == [OctetOf(Strtol(h[i..PairEnd(h, i)]) % 256)] + BytesOfHex(h[PairEnd(h, i)..])
  {
    hide Strtol, OctetOf;
    var n := PairEnd(h, i) - i;
    assert h[i..][..n] == h[i..i + n] && h[i..][n..] == h[i + n..];
  }

  method ConvertHexToBytes(hex: Bytes) returns (s: Bytes)
    ensures s == BytesOfHex(hex)
  {
    hide BytesOfHex, Strtol, OctetOf;
    s := [];
    var i := 0;
    assert hex[0..] == hex;
    while i < |hex|
      invariant i <= |hex| + 1
      invariant BytesOfHex(hex) == s + BytesOfHex(hex[if i <= |hex| then i else |hex|..])
    {
      BytesStep(hex, i);
      s := s + [OctetOf(Strtol(hex[i..PairEnd(hex, i)]) % 256)];
      i := i + 2;
    }
  }

  // ---- The file name ----

  const BACKSLASH: Octet := 0x5c

  /** What follows the last backslash of the path, or the whole path. */
  function FindFileName(path: Bytes): (name: Bytes)
    ensures BACKSLASH !in name && |name| <= |path| && path[|path| - |name|..] == name
    ensures |name| < |path| ==> path[|path| - |name| - 1] == BACKSLASH
  {
    if BACKSLASH !in path then path
    else
      var rest := path[1..];
      var name := FindFileName(rest);
      assert rest[|rest| - |name|..] == path[|path| - |name|..];
      name
  }
}
