/** Fixed-width text fields: zero padding, UTF-8 validity, and reading a field back. */
module Text {
  import opened Octets

  datatype Option<+T> = None | Some(value: T)

  /** Pads with zero octets up to `width`; longer text is left as it is. */
  function Pad(s: Bytes, width: nat): (p: Bytes)
    ensures if |s| <= width then |p| == width else p == s
    ensures s <= p && forall i :: |s| <= i < |p| ==> p[i] == 0
  {
    if |s| < width then s + ZeroOctets(width - |s|) else s
  }

  predicate NoZero(s: Bytes) {
    forall i :: 0 <= i < |s| ==> s[i] != 0
  }

  function StripZeros(s: Bytes): (t: Bytes)
    ensures NoZero(t) && |t| <= |s|
    ensures forall x :: x in t ==> x in s
  {
    if s == [] then []
    else if s[0] == 0 then StripZeros(s[1..])
    else [s[0]] + StripZeros(s[1..])
  }

  predicate Continuation(b: Octet) { 0x80 <= Value(b) <= 0xbf }

  /** The length of the first UTF-8 character of `s`, or 0 if it is not one (RFC 3629, section 4). */
  function CharLength(s: Bytes): (n: nat)
    requires s != []
    ensures n <= |s|
  {
    var b := Value(s[0]);
    if b < 0x80 then 1
    else if 0xc2 <= b <= 0xdf then
      if |s| >= 2 && Continuation(s[1]) then 2 else 0
    else if 0xe0 <= b <= 0xef then
      if |s| >= 3 && Continuation(s[1]) && Continuation(s[2])
         && (b == 0xe0 ==> Value(s[1]) >= 0xa0) && (b == 0xed ==> Value(s[1]) <= 0x9f) then 3 else 0
    else if 0xf0 <= b <= 0xf4 then
      if |s| >= 4 && Continuation(s[1]) && Continuation(s[2]) && Continuation(s[3])
         && (b == 0xf0 ==> Value(s[1]) >= 0x90) && (b == 0xf4 ==> Value(s[1]) <= 0x8f) then 4 else 0
    else 0
  }

  predicate ValidUtf8(s: Bytes)
    decreases |s|
  {
    s == [] || (CharLength(s) > 0 && ValidUtf8(s[CharLength(s)..]))
  }

  /** What `decode('utf-8').replace('\0', '')` makes of a field. */
  function TextOf(field: Bytes): (t: Option<Bytes>)
    ensures t.Some? ==> NoZero(t.value) && |t.value| <= |field|
  {
    if ValidUtf8(field) then Some(StripZeros(field)) else None
  }

  lemma {:induction false} Utf8Zeros(n: nat)
    ensures ValidUtf8(ZeroOctets(n))
  {
    if n > 0 {
      assert CharLength(ZeroOctets(n)) == 1;
      assert ZeroOctets(n)[1..] == ZeroOctets(n - 1);
      Utf8Zeros(n - 1);
    }
  }

  lemma {:induction false} Utf8Padded(s: Bytes, n: nat)
    requires ValidUtf8(s)
    ensures ValidUtf8(s + ZeroOctets(n))
    decreases |s|
  {
    var z := ZeroOctets(n);
    if s == [] {
      assert s + z == z;
      Utf8Zeros(n);
    } else {
      var c := CharLength(s);
      assert CharLength(s + z) == c;
      assert (s + z)[c..] == s[c..] + z;
      Utf8Padded(s[c..], n);
    }
  }

  lemma {:induction false} StripPadded(s: Bytes, n: nat)
    requires NoZero(s)
    ensures StripZeros(s + ZeroOctets(n)) == s
  {
    if s == [] {
      assert s + ZeroOctets(n) == ZeroOctets(n);
      if n > 0 {
        assert ZeroOctets(n)[1..] == [] + ZeroOctets(n - 1);
        StripPadded([], n - 1);
      }
    } else {
      assert (s + ZeroOctets(n))[1..] == s[1..] + ZeroOctets(n);
      StripPadded(s[1..], n);
    }
  }

  /** A name that has no zero octet survives the fixed-width field. */
  lemma FieldRoundTrip(name: Bytes, width: nat)
    requires NoZero(name) && ValidUtf8(name) && |name| <= width
    ensures TextOf(Pad(name, width)) == Some(name)
  {
    hide ValidUtf8, StripZeros, ZeroOctets, Pad, NoZero;
    var n := width - |name|;
    PadIs(name, width);
    Utf8Padded(name, n);
    StripPadded(name, n);
  }

  lemma PadIs(name: Bytes, width: nat)
    requires |name| <= width
    ensures Pad(name, width) == name + ZeroOctets(width - |name|)
  {
    if |name| == width { assert name + ZeroOctets(0) == name; }
  }

  /** Every zero octet is left out, wherever it stands, and nothing else. */
  lemma {:induction false} StripZerosConcat(a: Bytes, b: Bytes)
    ensures StripZeros(a + b) == StripZeros(a) + StripZeros(b)
    ensures forall x: Octet :: StripZeros([x]) == if x == 0 then [] else [x]
  {
    if a == [] {
      assert a + b == b;
    } else {
      assert (a + b)[1..] == a[1..] + b;
      StripZerosConcat(a[1..], b);
    }
  }
}
