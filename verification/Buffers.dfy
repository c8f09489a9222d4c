/** Byte buffers and the 32-bit integer operations of JavaScript (packages/rpc/src/buffer.ts).

    A VSBuffer is modelled as the sequence of its bytes: once a buffer has been handed over, nobody
    writes into it again.  While a buffer is being filled it is an array. */
module Buffers {
  type byte = b: int | 0 <= b < 0x100
  type bytes = seq<byte>
  type uint32 = w: int | 0 <= w < TWO_TO_32

  const TWO_TO_31 := 0x8000_0000
  const TWO_TO_32 := 0x1_0000_0000

  function Pow2(n: nat): (r: nat)
    ensures r > 0
  {
    if n == 0 then 1 else 2 * Pow2(n - 1)
  }

  /** Bitwise or of two naturals, bit by bit from the low end. */
  function Or(a: nat, b: nat): nat
    decreases a + b
  {
    if a == 0 then b
    else if b == 0 then a
    else 2 * Or(a / 2, b / 2) + (if a % 2 == 1 || b % 2 == 1 then 1 else 0)
  }

  /** `x << n`, read as an unsigned word: the shift count is taken modulo 32. */
  function Shl(x: nat, n: nat): uint32 {
    (x * Pow2(n % 32)) % TWO_TO_32
  }

  /** The two's complement reading of a word, which is what `|` yields in JavaScript. */
  function ToSigned(w: uint32): int {
    if w < TWO_TO_31 then w else w - TWO_TO_32
  }

  /** The word behind an integer: ToUint32 of ECMAScript. */
  function ToUnsigned(n: int): uint32 {
    n % TWO_TO_32
  }

  lemma {:induction false} OrOfDisjoint(a: nat, b: nat, n: nat)
    requires a < Pow2(n)
    ensures Or(a, b * Pow2(n)) == a + b * Pow2(n)
  {
    if n > 0 && a > 0 && b > 0 {
      var high := b * Pow2(n - 1);
      assert b * Pow2(n) == 2 * high by { assert Pow2(n) == 2 * Pow2(n - 1); }
      assert high > 0;
      OrOfDisjoint(a / 2, b, n - 1);
    }
  }

  lemma Pow2Values()
    ensures Pow2(7) == 0x80 && Pow2(8) == 0x100 && Pow2(14) == 0x4000 && Pow2(16) == 0x1_0000
    ensures Pow2(21) == 0x20_0000 && Pow2(24) == 0x100_0000 && Pow2(28) == 0x1000_0000
  {
    assert Pow2(4) == 16;
    assert Pow2(8) == 0x100;
    assert Pow2(12) == 0x1000;
    assert Pow2(16) == 0x1_0000;
    assert Pow2(20) == 0x10_0000;
    assert Pow2(24) == 0x100_0000;
  }

  /** The four bytes that writeUInt32BE stores; higher bits of `value` are lost. */
  function UInt32BE(value: nat): (r: bytes)
    ensures |r| == 4
  {
    [value / 0x100_0000 % 0x100, value / 0x1_0000 % 0x100, value / 0x100 % 0x100, value % 0x100]
  }

  /** The number that bytes stand for, most significant first. */
  function BigEndian(b: bytes): nat {
    if b == [] then 0 else 0x100 * BigEndian(b[..|b| - 1]) + b[|b| - 1]
  }

  /** The big-endian number of four bytes that stands at `offset`. */
  function UInt32At(b: bytes, offset: nat): nat
    requires offset + 4 <= |b|
  {
    BigEndian(b[offset..offset + 4])
  }

  lemma BigEndianOfFour(b: bytes)
    requires |b| == 4
    ensures BigEndian(b) == Positional(b[0], b[1], b[2], b[3])
  {
    assert BigEndian(b[..2]) == 0x100 * (b[0] as int) + b[1] as int by {
      assert BigEndian(b[..1]) == b[0] by {
        assert b[..1][..0] == [] && BigEndian([]) == 0;
      }
      assert b[..2][..1] == b[..1];
    }
    assert b[..3][..2] == b[..2];
  }

  lemma OrCommutes(a: nat, b: nat)
    ensures Or(a, b) == Or(b, a)
    decreases a + b
  {
    if a > 0 && b > 0 {
      OrCommutes(a / 2, b / 2);
    }
  }

  function Positional(b0: nat, b1: nat, b2: nat, b3: nat): nat {
    b0 * 0x100_0000 + b1 * 0x1_0000 + b2 * 0x100 + b3
  }

  lemma DigitsAddUp(value: nat)
    ensures Positional(value / 0x100_0000 % 0x100, value / 0x1_0000 % 0x100, value / 0x100 % 0x100, value % 0x100)
         == value % TWO_TO_32
  {
    var q1, q2, q3 := value / 0x100, value / 0x1_0000, value / 0x100_0000;
    assert value == q1 * 0x100 + value % 0x100;
    assert q1 == q2 * 0x100 + q1 % 0x100;
    assert q2 == q3 * 0x100 + q2 % 0x100;
    assert q3 == value / TWO_TO_32 * 0x100 + q3 % 0x100;
  }

  /** Or-ing the digit `low` in just below the digits `high`. */
  lemma AddLowDigit(high: nat, low: nat, unit: nat)
    requires low < 0x100 && (unit == 1 || unit == 0x100 || unit == 0x1_0000)
    ensures Or(high * (0x100 * unit), low * unit) == high * (0x100 * unit) + low * unit
  {
    hide Or;
    Pow2Values();
    OrCommutes(high * (0x100 * unit), low * unit);
    OrOfDisjoint(low * unit, high, if unit == 1 then 8 else if unit == 0x100 then 16 else 24);
  }

  lemma ShiftedByte(b: byte)
    ensures Shl(b, 24) == b * 0x100_0000 && Shl(b, 16) == b * 0x1_0000 && Shl(b, 8) == b * 0x100
  {
    hide Pow2;
    Pow2Values();
  }

  lemma {:induction false} OrStaysBelow(a: nat, b: nat, n: nat)
    requires a < Pow2(n) && b < Pow2(n)
    ensures Or(a, b) < Pow2(n)
    decreases n
  {
    if n > 0 && a > 0 && b > 0 {
      OrStaysBelow(a / 2, b / 2, n - 1);
    }
  }

  lemma WordSize()
    ensures Pow2(32) == TWO_TO_32
  {
    Pow2Values();
    assert Pow2(32) == 0x10 * Pow2(28);
  }

  function OrWord(a: uint32, b: uint32): uint32 {
    WordSize();
    OrStaysBelow(a, b, 32);
    Or(a, b)
  }

  /** `x | y` of JavaScript: the operands are taken as words, the result is signed. */
  function BitOr(x: int, y: int): int {
    ToSigned(OrWord(ToUnsigned(x), ToUnsigned(y)))
  }

  /** `x << n` of JavaScript, signed like every bit operation but `>>>`. */
  function ShiftLeft(x: int, n: nat): int {
    ToSigned(Shl(ToUnsigned(x), n))
  }

  /** The expression of readUInt32BE, with `>>> 0` as its last step. */
  function OrBytes(b0: byte, b1: byte, b2: byte, b3: byte): uint32 {
    ToUnsigned(BitOr(BitOr(BitOr(ShiftLeft(b0, 24), ShiftLeft(b1, 16)), ShiftLeft(b2, 8)), b3))
  }

  /** A signed result used as an operand is the same word again, negative or not. */
  lemma SignsCancel(w: uint32)
    ensures ToUnsigned(ToSigned(w)) == w
  {
  }

  lemma OrBytesIsOr(b0: byte, b1: byte, b2: byte, b3: byte)
    ensures OrBytes(b0, b1, b2, b3) == Or(Or(Or(Shl(b0, 24), Shl(b1, 16)), Shl(b2, 8)), b3)
  {
    hide Or, Shl, ToSigned, ToUnsigned;
    assert ToUnsigned(b0) == b0 && ToUnsigned(b1) == b1 && ToUnsigned(b2) == b2 && ToUnsigned(b3) == b3 by {
      BytesAreWords(b0);
      BytesAreWords(b1);
      BytesAreWords(b2);
      BytesAreWords(b3);
    }
    var w0, w1, w2 := Shl(b0, 24), Shl(b1, 16), Shl(b2, 8);
    SignsCancel(w0);
    SignsCancel(w1);
    SignsCancel(w2);
    SignsCancel(OrWord(w0, w1));
    SignsCancel(OrWord(OrWord(w0, w1), w2));
    SignsCancel(OrWord(OrWord(OrWord(w0, w1), w2), b3));
  }

  /** Or-ing a shifted byte into a signed value does so to its word. */
  lemma BitOrIsOrWord(x: int, y: byte, n: nat)
    ensures ToUnsigned(BitOr(x, ShiftLeft(y, n))) == OrWord(ToUnsigned(x), Shl(y, n))
    ensures ToSigned(ToUnsigned(BitOr(x, ShiftLeft(y, n)))) == BitOr(x, ShiftLeft(y, n))
  {
    hide OrWord, Shl, ToSigned, ToUnsigned;
    BytesAreWords(y);
    SignsCancel(Shl(y, n));
    SignsCancel(OrWord(ToUnsigned(x), Shl(y, n)));
  }

  lemma BytesAreWords(b: byte)
    ensures ToUnsigned(b) == b
  {
  }

  lemma OrIsPositional(b0: byte, b1: byte, b2: byte, b3: byte)
    ensures OrBytes(b0, b1, b2, b3) == Positional(b0, b1, b2, b3)
  {
    hide Or, Shl, OrBytes;
    OrBytesIsOr(b0, b1, b2, b3);
    ShiftedByte(b0);
    ShiftedByte(b1);
    ShiftedByte(b2);
    var t: nat := b0 as int * 0x100 + b1;
    AddLowDigit(b0, b1, 0x1_0000);
    AddLowDigit(t, b2, 0x100);
    AddLowDigit(t * 0x100 + b2, b3, 1);
  }

  /** The field at `offset` is the low 32 bits of the value that was written there. */
  lemma UInt32RoundTrip(b: bytes, offset: nat, value: nat)
    requires offset + 4 <= |b|
    requires b[offset..offset + 4] == UInt32BE(value)
    ensures UInt32At(b, offset) == value % TWO_TO_32
  {
    BigEndianOfFour(UInt32BE(value));
    DigitsAddUp(value);
  }

  /** VSBuffer.readUInt32BE: four bytes, shifted and or-ed as words. */
  method ReadUInt32BE(buffer: bytes, offset: nat) returns (r: nat)
    requires offset + 4 <= |buffer|
    ensures r == UInt32At(buffer, offset)
  {
    BigEndianOfFour(buffer[offset..offset + 4]);
    OrIsPositional(buffer[offset], buffer[offset + 1], buffer[offset + 2], buffer[offset + 3]);
    r := OrBytes(buffer[offset], buffer[offset + 1], buffer[offset + 2], buffer[offset + 3]);
  }

  function Flatten(chunks: seq<bytes>): bytes {
    if chunks == [] then [] else chunks[0] + Flatten(chunks[1..])
  }

  lemma Regroup<T>(x: seq<T>, y: seq<T>, z: seq<T>)
    ensures x + (y + z) == x + y + z
  {
  }

  lemma {:induction false} FlattenAppend(a: seq<bytes>, b: seq<bytes>)
    ensures Flatten(a + b) == Flatten(a) + Flatten(b)
  {
    if a == [] {
      assert a + b == b;
    } else {
      FlattenAppend(a[1..], b);
      assert (a + b)[0] == a[0] && (a + b)[1..] == a[1..] + b;
      Regroup(a[0], Flatten(a[1..]), Flatten(b));
    }
  }

  /** VSBuffer.writeUInt32BE. */
  method WriteUInt32BE(buffer: array<byte>, value: nat, offset: nat)
    requires offset + 4 <= buffer.Length
    modifies buffer
    ensures buffer[..] == old(buffer[..offset]) + UInt32BE(value) + old(buffer[offset + 4..])
  {
    var w := UInt32BE(value);
    buffer[offset] := w[0];
    buffer[offset + 1] := w[1];
    buffer[offset + 2] := w[2];
    buffer[offset + 3] := w[3];
  }

  /** VSBuffer.set: copies `source` into the buffer from `offset` on. */
  method Set(buffer: array<byte>, source: bytes, offset: nat)
    requires offset + |source| <= buffer.Length
    modifies buffer
    ensures buffer[..] == old(buffer[..offset]) + source + old(buffer[offset + |source|..])
  {
    forall i | 0 <= i < |source| {
      buffer[offset + i] := source[i];
    }
  }

  /** VSBuffer.concat without a given length: allocate the sum of the lengths and copy one by one. */
  method Concat(buffers: seq<bytes>) returns (result: bytes)
    ensures result == Flatten(buffers)
  {
    var len := 0;
    for i := 0 to |buffers|
      invariant len == |Flatten(buffers[..i])|
    {
      TakeOneMore(buffers, i);
      len := len + |buffers[i]|;
    }
    assert buffers[..|buffers|] == buffers;
    var filled := new byte[len](_ => 0);
    var offset := 0;
    for i := 0 to |buffers|
      invariant offset == |Flatten(buffers[..i])| <= len
      invariant filled[..offset] == Flatten(buffers[..i])
    {
      TakeOneMore(buffers, i);
      FlattenAppend(buffers[..i + 1], buffers[i + 1..]);
      assert buffers[..i + 1] + buffers[i + 1..] == buffers;
      Set(filled, buffers[i], offset);
      offset := offset + |buffers[i]|;
    }
    result := filled[..];
    assert filled[..] == filled[..offset];
  }

  lemma TakeOneMore(chunks: seq<bytes>, i: nat)
    requires i < |chunks|
    ensures Flatten(chunks[..i + 1]) == Flatten(chunks[..i]) + chunks[i]
  {
    assert chunks[..i + 1] == chunks[..i] + [chunks[i]];
    FlattenAppend(chunks[..i], [chunks[i]]);
    assert Flatten([chunks[i]]) == chunks[i];
  }
}
