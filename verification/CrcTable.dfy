/** The lookup table: first table of the C++ program, the only table of the Python program. */
module CrcTable {
  import opened Octets
  import opened Register

  function Row(r: nat): (row: seq<bv32>)
    requires r < 16
    ensures |row| == 16
  {
    match r
    case 0 => [
      0x00000000, 0x04c11db7, 0x09823b6e, 0x0d4326d9, 0x130476dc, 0x17c56b6b, 0x1a864db2, 0x1e475005,
      0x2608edb8, 0x22c9f00f, 0x2f8ad6d6, 0x2b4bcb61, 0x350c9b64, 0x31cd86d3, 0x3c8ea00a, 0x384fbdbd]
    case 1 => [
      0x4c11db70, 0x48d0c6c7, 0x4593e01e, 0x4152fda9, 0x5f15adac, 0x5bd4b01b, 0x569796c2, 0x52568b75,
      0x6a1936c8, 0x6ed82b7f, 0x639b0da6, 0x675a1011, 0x791d4014, 0x7ddc5da3, 0x709f7b7a, 0x745e66cd]
    case 2 => [
      0x9823b6e0, 0x9ce2ab57, 0x91a18d8e, 0x95609039, 0x8b27c03c, 0x8fe6dd8b, 0x82a5fb52, 0x8664e6e5,
      0xbe2b5b58, 0xbaea46ef, 0xb7a96036, 0xb3687d81, 0xad2f2d84, 0xa9ee3033, 0xa4ad16ea, 0xa06c0b5d]
    case 3 => [
      0xd4326d90, 0xd0f37027, 0xddb056fe, 0xd9714b49, 0xc7361b4c, 0xc3f706fb, 0xceb42022, 0xca753d95,
      0xf23a8028, 0xf6fb9d9f, 0xfbb8bb46, 0xff79a6f1, 0xe13ef6f4, 0xe5ffeb43, 0xe8bccd9a, 0xec7dd02d]
    case 4 => [
      0x34867077, 0x30476dc0, 0x3d044b19, 0x39c556ae, 0x278206ab, 0x23431b1c, 0x2e003dc5, 0x2ac12072,
      0x128e9dcf, 0x164f8078, 0x1b0ca6a1, 0x1fcdbb16, 0x018aeb13, 0x054bf6a4, 0x0808d07d, 0x0cc9cdca]
    case 5 => [
      0x7897ab07, 0x7c56b6b0, 0x71159069, 0x75d48dde, 0x6b93dddb, 0x6f52c06c, 0x6211e6b5, 0x66d0fb02,
      0x5e9f46bf, 0x5a5e5b08, 0x571d7dd1, 0x53dc6066, 0x4d9b3063, 0x495a2dd4, 0x44190b0d, 0x40d816ba]
    case 6 => [
      0xaca5c697, 0xa864db20, 0xa527fdf9, 0xa1e6e04e, 0xbfa1b04b, 0xbb60adfc, 0xb6238b25, 0xb2e29692,
      0x8aad2b2f, 0x8e6c3698, 0x832f1041, 0x87ee0df6, 0x99a95df3, 0x9d684044, 0x902b669d, 0x94ea7b2a]
    case 7 => [
      0xe0b41de7, 0xe4750050, 0xe9362689, 0xedf73b3e, 0xf3b06b3b, 0xf771768c, 0xfa325055, 0xfef34de2,
      0xc6bcf05f, 0xc27dede8, 0xcf3ecb31, 0xcbffd686, 0xd5b88683, 0xd1799b34, 0xdc3abded, 0xd8fba05a]
    case 8 => [
      0x690ce0ee, 0x6dcdfd59, 0x608edb80, 0x644fc637, 0x7a089632, 0x7ec98b85, 0x738aad5c, 0x774bb0eb,
      0x4f040d56, 0x4bc510e1, 0x46863638, 0x42472b8f, 0x5c007b8a, 0x58c1663d, 0x558240e4, 0x51435d53]
    case 9 => [
      0x251d3b9e, 0x21dc2629, 0x2c9f00f0, 0x285e1d47, 0x36194d42, 0x32d850f5, 0x3f9b762c, 0x3b5a6b9b,
      0x0315d626, 0x07d4cb91, 0x0a97ed48, 0x0e56f0ff, 0x1011a0fa, 0x14d0bd4d, 0x19939b94, 0x1d528623]
    case 10 => [
      0xf12f560e, 0xf5ee4bb9, 0xf8ad6d60, 0xfc6c70d7, 0xe22b20d2, 0xe6ea3d65, 0xeba91bbc, 0xef68060b,
      0xd727bbb6, 0xd3e6a601, 0xdea580d8, 0xda649d6f, 0xc423cd6a, 0xc0e2d0dd, 0xcda1f604, 0xc960ebb3]
    case 11 => [
      0xbd3e8d7e, 0xb9ff90c9, 0xb4bcb610, 0xb07daba7, 0xae3afba2, 0xaafbe615, 0xa7b8c0cc, 0xa379dd7b,
      0x9b3660c6, 0x9ff77d71, 0x92b45ba8, 0x9675461f, 0x8832161a, 0x8cf30bad, 0x81b02d74, 0x857130c3]
    case 12 => [
      0x5d8a9099, 0x594b8d2e, 0x5408abf7, 0x50c9b640, 0x4e8ee645, 0x4a4ffbf2, 0x470cdd2b, 0x43cdc09c,
      0x7b827d21, 0x7f436096, 0x7200464f, 0x76c15bf8, 0x68860bfd, 0x6c47164a, 0x61043093, 0x65c52d24]
    case 13 => [
      0x119b4be9, 0x155a565e, 0x18197087, 0x1cd86d30, 0x029f3d35, 0x065e2082, 0x0b1d065b, 0x0fdc1bec,
      0x3793a651, 0x3352bbe6, 0x3e119d3f, 0x3ad08088, 0x2497d08d, 0x2056cd3a, 0x2d15ebe3, 0x29d4f654]
    case 14 => [
      0xc5a92679, 0xc1683bce, 0xcc2b1d17, 0xc8ea00a0, 0xd6ad50a5, 0xd26c4d12, 0xdf2f6bcb, 0xdbee767c,
      0xe3a1cbc1, 0xe760d676, 0xea23f0af, 0xeee2ed18, 0xf0a5bd1d, 0xf464a0aa, 0xf9278673, 0xfde69bc4]
    case _ => [
      0x89b8fd09, 0x8d79e0be, 0x803ac667, 0x84fbdbd0, 0x9abc8bd5, 0x9e7d9662, 0x933eb0bb, 0x97ffad0c,
      0xafb010b1, 0xab710d06, 0xa6322bdf, 0xa2f33668, 0xbcb4666d, 0xb8757bda, 0xb5365d03, 0xb1f740b4]
  }

  const ROWS: seq<seq<bv32>> := [
    Row(0), Row(1), Row(2), Row(3), Row(4), Row(5), Row(6), Row(7),
    Row(8), Row(9), Row(10), Row(11), Row(12), Row(13), Row(14), Row(15)]

  const CRCTAB: seq<bv32> := Flatten(ROWS)

  function Flatten(rows: seq<seq<bv32>>): seq<bv32> {
    if rows == [] then [] else rows[0] + Flatten(rows[1..])
  }

  lemma {:induction false} FlattenAt(rows: seq<seq<bv32>>, r: nat, c: nat)
    requires forall q :: 0 <= q < |rows| ==> |rows[q]| == 16
    requires r < |rows| && c < 16
    ensures |Flatten(rows)| == 16 * |rows|
    ensures Flatten(rows)[16 * r + c] == rows[r][c]
  {
    hide Row;
    FlattenLength(rows);
    if r > 0 {
      FlattenAt(rows[1..], r - 1, c);
      assert Flatten(rows)[16 * r + c] == Flatten(rows[1..])[16 * (r - 1) + c];
    }
  }

  lemma {:induction false} FlattenLength(rows: seq<seq<bv32>>)
    requires forall q :: 0 <= q < |rows| ==> |rows[q]| == 16
    ensures |Flatten(rows)| == 16 * |rows|
  {
    hide Row;
    if rows != [] { FlattenLength(rows[1..]); }
  }

  /** Each row is its first entry added to row zero (whose entries are written out here). */
  predicate RowOk(row: seq<bv32>)
    requires |row| == 16
  {
    && row[1] == Add(row[0], 0x04c11db7)
    && row[2] == Add(row[0], 0x09823b6e)
    && row[3] == Add(row[0], 0x0d4326d9)
    && row[4] == Add(row[0], 0x130476dc)
    && row[5] == Add(row[0], 0x17c56b6b)
    && row[6] == Add(row[0], 0x1a864db2)
    && row[7] == Add(row[0], 0x1e475005)
    && row[8] == Add(row[0], 0x2608edb8)
    && row[9] == Add(row[0], 0x22c9f00f)
    && row[10] == Add(row[0], 0x2f8ad6d6)
    && row[11] == Add(row[0], 0x2b4bcb61)
    && row[12] == Add(row[0], 0x350c9b64)
    && row[13] == Add(row[0], 0x31cd86d3)
    && row[14] == Add(row[0], 0x3c8ea00a)
    && row[15] == Add(row[0], 0x384fbdbd)
  }

  lemma Row1Ok()
    ensures RowOk(Row(1))
  {
  }

  lemma Row2Ok()
    ensures RowOk(Row(2))
  {
  }

  lemma Row3Ok()
    ensures RowOk(Row(3))
  {
  }

  lemma Row4Ok()
    ensures RowOk(Row(4))
  {
  }

  lemma Row5Ok()
    ensures RowOk(Row(5))
  {
  }

  lemma Row6Ok()
    ensures RowOk(Row(6))
  {
  }

  lemma Row7Ok()
    ensures RowOk(Row(7))
  {
  }

  lemma Row8Ok()
    ensures RowOk(Row(8))
  {
  }

  lemma Row9Ok()
    ensures RowOk(Row(9))
  {
  }

  lemma Row10Ok()
    ensures RowOk(Row(10))
  {
  }

  lemma Row11Ok()
    ensures RowOk(Row(11))
  {
  }

  lemma Row12Ok()
    ensures RowOk(Row(12))
  {
  }

  lemma Row13Ok()
    ensures RowOk(Row(13))
  {
  }

  lemma Row14Ok()
    ensures RowOk(Row(14))
  {
  }

  lemma Row15Ok()
    ensures RowOk(Row(15))
  {
  }

  lemma Row0Ok()
    ensures RowOk(Row(0))
  {
  }

  /** The combination of four words selected by the binary digits of `k`. */
  function Combine(w1: bv32, w2: bv32, w4: bv32, w8: bv32, k: int): bv32
    requires 0 <= k < 16
  {
    Add(Add(if k % 2 == 1 then w1 else 0, if k / 2 % 2 == 1 then w2 else 0),
        Add(if k / 4 % 2 == 1 then w4 else 0, if k / 8 == 1 then w8 else 0))
  }

  lemma T8Combine(w1: bv32, w2: bv32, w4: bv32, w8: bv32, k: int)
    requires 0 <= k < 16
    ensures T8(Combine(w1, w2, w4, w8, k)) == Combine(T8(w1), T8(w2), T8(w4), T8(w8), k)
  {
    T8Zero();
    hide T8, Add;
    var a, b := if k % 2 == 1 then w1 else 0, if k / 2 % 2 == 1 then w2 else 0;
    var c, d := if k / 4 % 2 == 1 then w4 else 0, if k / 8 == 1 then w8 else 0;
    T8Linear(a, b);
    T8Linear(c, d);
    T8Linear(Add(a, b), Add(c, d));
  }

  lemma T8Zero()
    ensures T8(0) == 0
  {
  }

  predicate Digit(k: int) {
    || k == 0 || k == 1 || k == 2 || k == 3 || k == 4 || k == 5 || k == 6 || k == 7
    || k == 8 || k == 9 || k == 10 || k == 11 || k == 12 || k == 13 || k == 14 || k == 15
  }

  lemma DigitBits(h: bv32)
    requires h < 16
    ensures 0 <= Nat(h) < 16
    ensures h << 28 == Combine(0x1000_0000, 0x2000_0000, 0x4000_0000, 0x8000_0000, Nat(h))
    ensures h << 24 == Combine(0x0100_0000, 0x0200_0000, 0x0400_0000, 0x0800_0000, Nat(h))
  {
    assert h == 0 || h == 1 || h == 2 || h == 3 || h == 4 || h == 5 || h == 6 || h == 7
        || h == 8 || h == 9 || h == 10 || h == 11 || h == 12 || h == 13 || h == 14 || h == 15;
  }

  lemma FirstRow(k: int)
    requires Digit(k)
    ensures var r := Row(0); r[k] == Combine(r[1], r[2], r[4], r[8], k)
  {
    hide Row, Combine;
    if k < 8 { FirstRowStart(k); } else { FirstRowEnd(k); }
  }

  lemma FirstRowStart(k: int)
    requires k == 0 || k == 1 || k == 2 || k == 3 || k == 4 || k == 5 || k == 6 || k == 7
    ensures var r := Row(0); r[k] == Combine(r[1], r[2], r[4], r[8], k)
  {
  }

  lemma FirstRowEnd(k: int)
    requires k == 8 || k == 9 || k == 10 || k == 11 || k == 12 || k == 13 || k == 14 || k == 15
    ensures var r := Row(0); r[k] == Combine(r[1], r[2], r[4], r[8], k)
  {
  }

  lemma FirstColumn(k: int)
    requires Digit(k)
    ensures Row(k)[0] == Combine(Row(1)[0], Row(2)[0], Row(4)[0], Row(8)[0], k)
  {
    hide Row, Combine;
    if k < 4 {
      FirstColumnStart(k);
    } else if k < 8 {
      FirstColumnMiddle(k);
    } else {
      FirstColumnEnd(k);
    }
  }

  lemma FirstColumnStart(k: int)
    requires k == 0 || k == 1 || k == 2 || k == 3
    ensures Row(k)[0] == Combine(Row(1)[0], Row(2)[0], Row(4)[0], Row(8)[0], k)
  {
  }

  lemma FirstColumnMiddle(k: int)
    requires k == 4 || k == 5 || k == 6 || k == 7
    ensures Row(k)[0] == Combine(Row(1)[0], Row(2)[0], Row(4)[0], Row(8)[0], k)
  {
  }

  lemma FirstColumnEnd(k: int)
    requires k == 8 || k == 9 || k == 10 || k == 11 || k == 12 || k == 13 || k == 14 || k == 15
    ensures Row(k)[0] == Combine(Row(1)[0], Row(2)[0], Row(4)[0], Row(8)[0], k)
  {
  }

  lemma LowBasis()
    ensures Row(0)[1] == T8(0x0100_0000) && Row(0)[2] == T8(0x0200_0000)
    ensures Row(0)[4] == T8(0x0400_0000) && Row(0)[8] == T8(0x0800_0000)
  {
    LowBasisWords();
    hide T8;
  }

  lemma LowBasisWords()
    ensures T8(0x0100_0000) == 0x04c11db7 && T8(0x0200_0000) == 0x09823b6e
    ensures T8(0x0400_0000) == 0x130476dc && T8(0x0800_0000) == 0x2608edb8
  {
  }

  lemma HighBasis()
    ensures Row(1)[0] == T8(0x1000_0000) && Row(2)[0] == T8(0x2000_0000)
    ensures Row(4)[0] == T8(0x4000_0000) && Row(8)[0] == T8(0x8000_0000)
  {
    HighBasisWords();
    hide T8;
  }

  lemma HighBasisWords()
    ensures T8(0x1000_0000) == 0x4c11db70 && T8(0x2000_0000) == 0x9823b6e0
    ensures T8(0x4000_0000) == 0x34867077 && T8(0x8000_0000) == 0x690ce0ee
  {
  }

  lemma RowShape(r: int, k: int)
    requires 0 <= r < 16 && 0 <= k < 16
    ensures Row(r)[k] == Add(Row(r)[0], Row(0)[k])
  {
    hide RowOk, Row;
    Row0Ok();
    Row1Ok();
    Row2Ok();
    Row3Ok();
    Row4Ok();
    Row5Ok();
    Row6Ok();
    Row7Ok();
    Row8Ok();
    Row9Ok();
    Row10Ok();
    Row11Ok();
    Row12Ok();
    Row13Ok();
    Row14Ok();
    Row15Ok();
    assert Digit(r);
    assert Row(0)[0] == 0 by { FirstEntry(); }
    RowColumn(Row(r), Row(0), k);
  }

  lemma RowColumn(row: seq<bv32>, base: seq<bv32>, k: int)
    requires |row| == |base| == 16 && 0 <= k < 16
    requires RowOk(row) && RowOk(base) && base[0] == 0
    ensures row[k] == Add(row[0], base[k])
  {
    AddZero();
    hide Add;
    assert Digit(k);
  }

  lemma AddZero()
    ensures forall x: bv32 :: Add(0, x) == x
    ensures forall x: bv32 :: Add(x, 0) == x
  {
  }

  lemma FirstEntry()
    ensures Row(0)[0] == 0
  {
  }

  lemma DigitsOfIndex(x: bv32) returns (h: bv32, l: bv32)
    requires x < 256
    ensures h < 16 && l < 16
    ensures 0 <= Nat(h) < 16 && 0 <= Nat(l) < 16 && Nat(x) == 16 * (Nat(h)) + (Nat(l))
    ensures x << 24 == Add(h << 28, l << 24)
  {
    h, l := x >> 4, x & 15;
  }

  /** Every entry is the register after the eight bits of its index. */
  lemma TableEntry(x: bv32)
    requires x < 256
    ensures |CRCTAB| == 256 && 0 <= Nat(x) < 256
    ensures CRCTAB[Nat(x)] == T8(x << 24)
  {
    hide *;
    var h, l := DigitsOfIndex(x);
    DigitEntry(h, l);
    TableAt(Nat(h), Nat(l));
  }

  lemma TableAt(r: nat, c: nat)
    requires r < 16 && c < 16
    ensures |CRCTAB| == 256 && CRCTAB[16 * r + c] == Row(r)[c]
  {
    TableRows();
    hide *;
    FlattenAt(ROWS, r, c);
  }

  lemma TableRows()
    ensures CRCTAB == Flatten(ROWS) && |ROWS| == 16
    ensures forall r :: 0 <= r < 16 ==> ROWS[r] == Row(r)
  {
    hide Row, Flatten;
  }

  lemma DigitEntry(h: bv32, l: bv32)
    requires h < 16 && l < 16
    ensures 0 <= Nat(h) < 16 && 0 <= Nat(l) < 16
    ensures Row(Nat(h))[Nat(l)] == T8(Add(h << 28, l << 24))
  {
    hide *;
    DigitBits(h);
    DigitBits(l);
    var r, c := Nat(h), Nat(l);
    RowShape(r, c);
    FirstRowEntry(c);
    FirstColumnEntry(r);
    T8Linear(h << 28, l << 24);
  }

  lemma FirstRowEntry(k: int)
    requires 0 <= k < 16
    ensures Row(0)[k] == T8(Combine(0x0100_0000, 0x0200_0000, 0x0400_0000, 0x0800_0000, k))
  {
    assert Digit(k);
    hide *;
    FirstRow(k);
    LowBasis();
    T8Combine(0x0100_0000, 0x0200_0000, 0x0400_0000, 0x0800_0000, k);
  }

  lemma FirstColumnEntry(k: int)
    requires 0 <= k < 16
    ensures Row(k)[0] == T8(Combine(0x1000_0000, 0x2000_0000, 0x4000_0000, 0x8000_0000, k))
  {
    assert Digit(k);
    hide *;
    FirstColumn(k);
    HighBasis();
    T8Combine(0x1000_0000, 0x2000_0000, 0x4000_0000, 0x8000_0000, k);
  }
}
