/** The tagged binary codec of RPC messages (packages/rpc/src/serialization.ts).

    A string is its UTF-8 bytes and a JSON fallback is its text's bytes; the conversions are not modelled. */
module Serialization {
  import opened Buffers

  datatype Data =
    | Undefined
    | Text(utf8: bytes)
    | Binary(content: bytes)
    | Shared(content: bytes)
    | List(items: seq<Data>)
    | Other(json: bytes)
    | Integer(n: int)

  const UNDEFINED: byte := 0
  const STRING: byte := 1
  const BUFFER: byte := 2
  const VS_BUFFER: byte := 3
  const ARRAY: byte := 4
  const OBJECT: byte := 5
  const INT: byte := 6

  // ---------- variable-length integers ----------

  /** Seven bits a byte, low end first; the top bit says that more follow. */
  function Vql(w: nat): (r: bytes)
    ensures r != []
  {
    if w < 0x80 then [w] else [w % 0x80 + 0x80] + Vql(w / 0x80)
  }

  datatype Read<T> = Read(value: T, next: nat)

  /** The loop of readIntVQL: `shift` counts 7 a byte.  Past the end of the buffer a byte reads as zero. */
  function ReadVql(b: bytes, pos: nat, shift: nat, value: uint32): (r: Read<uint32>)
    requires pos <= |b|
    ensures pos <= r.next <= |b|
    decreases |b| - pos
  {
    if pos == |b| then Read(value, pos)
    else
      var combined := OrWord(value, Shl(b[pos] % 0x80, shift));
      if b[pos] < 0x80 then Read(combined, pos + 1) else ReadVql(b, pos + 1, shift + 7, combined)
  }

  function ReadInt(b: bytes, pos: nat): (r: Read<int>)
    requires pos <= |b|
    ensures pos <= r.next <= |b|
  {
    var word := ReadVql(b, pos, 0, 0);
    Read(ToSigned(word.value), word.next)
  }

  ghost predicate ByteAligned(shift: nat) {
    shift == 0 || shift == 7 || shift == 14 || shift == 21 || shift == 28
  }

  /** The power of two at a byte-aligned shift. */
  function Unit(shift: nat): (r: nat)
    requires ByteAligned(shift)
    ensures r == Pow2(shift)
  {
    Pow2Values();
    if shift == 0 then 1 else if shift == 7 then 0x80 else if shift == 14 then 0x4000
    else if shift == 21 then 0x20_0000 else 0x1000_0000
  }

  lemma AddSevenBits(value: uint32, low: nat, shift: nat)
    requires ByteAligned(shift) && value < Unit(shift) && low < 0x80 && low * Unit(shift) < TWO_TO_32
    ensures OrWord(value, Shl(low, shift)) == value + low * Unit(shift)
  {
    hide Or, Pow2;
    assert Shl(low, shift) == low * Pow2(shift);
    OrOfDisjoint(value, low, shift);
  }

  lemma {:induction false} ReadVqlReads(b: bytes, pos: nat, shift: nat, value: uint32, w: nat)
    requires pos + |Vql(w)| <= |b| && b[pos..pos + |Vql(w)|] == Vql(w)
    requires ByteAligned(shift) && value < Unit(shift) && w * Unit(shift) < TWO_TO_32
    ensures value + w * Unit(shift) < TWO_TO_32
    ensures ReadVql(b, pos, shift, value) == Read(value + w * Unit(shift), pos + |Vql(w)|)
    decreases w
  {
    hide OrWord, Shl, Pow2;
    assert b[pos] == b[pos..pos + |Vql(w)|][0] == Vql(w)[0];
    if w < 0x80 {
      AddSevenBits(value, w, shift);
    } else {
      var low, high := w % 0x80, w / 0x80;
      assert w == high * 0x80 + low;
      AddSevenBits(value, low, shift);
      assert shift < 28;
      assert Unit(shift + 7) == 0x80 * Unit(shift);
      assert b[pos + 1..pos + 1 + |Vql(high)|] == b[pos..pos + |Vql(w)|][1..] == Vql(high);
      assert high * Unit(shift + 7) + low * Unit(shift) == w * Unit(shift);
      ReadVqlReads(b, pos + 1, shift + 7, value + low * Unit(shift), high);
    }
  }

  lemma {:induction false} VqlLength(w: nat)
    ensures w < 0x80 ==> |Vql(w)| == 1
    ensures w < TWO_TO_32 ==> |Vql(w)| <= 5
  {
    if w >= 0x80 {
      assert Vql(w) == [w % 0x80 + 0x80] + Vql(w / 0x80);
      if w / 0x80 >= 0x80 {
        assert Vql(w / 0x80) == [w / 0x80 % 0x80 + 0x80] + Vql(w / 0x80 / 0x80);
        if w / 0x80 / 0x80 >= 0x80 {
          assert |Vql(w / 0x80 / 0x80)| == 1 + |Vql(w / 0x80 / 0x80 / 0x80)|;
          if w / 0x80 / 0x80 / 0x80 >= 0x80 {
            assert |Vql(w / 0x80 / 0x80 / 0x80)| == 1 + |Vql(w / 0x80 / 0x80 / 0x80 / 0x80)|;
          }
        }
      }
    }
  }

  /** For every signed 32-bit integer: at most five bytes, read back exactly, nothing else consumed. */
  lemma IntegerRoundTrip(before: bytes, n: int, after: bytes)
    requires -TWO_TO_31 <= n < TWO_TO_31
    ensures var code := Vql(ToUnsigned(n));
      && |code| <= 5
      && ReadInt(before + code + after, |before|) == Read(n, |before| + |code|)
  {
    hide Vql, ReadVql;
    var code := Vql(ToUnsigned(n));
    VqlLength(ToUnsigned(n));
    var b := before + code + after;
    assert b[|before|..|before| + |code|] == code;
    ReadVqlReads(b, |before|, 0, 0, ToUnsigned(n));
  }

  /** The number that seven-bit digits stand for, low end first. */
  function DigitSum(digits: bytes): nat {
    if digits == [] then 0 else digits[0] % 0x80 + 0x80 * DigitSum(digits[1..])
  }

  /** The form of a written number: its seven-bit digits, low end first; all bytes but the last have the top bit; and no
      byte is wasted on leading zeros. */
  lemma {:induction false} VqlDigits(w: nat)
    ensures DigitSum(Vql(w)) == w
    ensures forall k :: 0 <= k < |Vql(w)| ==> (Vql(w)[k] >= 0x80 <==> k + 1 < |Vql(w)|)
    ensures w > 0 ==> Vql(w)[|Vql(w)| - 1] > 0
  {
    if w < 0x80 {
      assert [w as byte][1..] == [];
    } else {
      var rest := Vql(w / 0x80);
      VqlDigits(w / 0x80);
      assert Vql(w) == [w % 0x80 + 0x80] + rest;
      assert Vql(w)[1..] == rest;
      assert forall k :: 0 < k < |Vql(w)| ==> Vql(w)[k] == rest[k - 1];
    }
  }

  // ---------- values ----------

  function Sized(tag: byte, content: bytes): bytes {
    [tag] + Vql(ToUnsigned(|content|)) + content
  }

  function Serialized(d: Data): (r: bytes)
    ensures r != []
    decreases d, 1
  {
    match d
    case Undefined => [UNDEFINED]
    case Text(utf8) => Sized(STRING, utf8)
    case Binary(content) => Sized(BUFFER, content)
    case Shared(content) => Sized(VS_BUFFER, content)
    case List(items) => [ARRAY] + Vql(ToUnsigned(|items|)) + SerializedAll(items)
    case Other(json) => Sized(OBJECT, json)
    case Integer(n) => [INT] + Vql(ToUnsigned(n))
  }

  function SerializedAll(items: seq<Data>): bytes
    decreases items, 0
  {
    if items == [] then [] else Serialized(items[0]) + SerializedAll(items[1..])
  }

  /** Uint8Array.slice(start, end): a negative end counts from the back, and an end before the start gives nothing. */
  function Slice(b: bytes, start: nat, end: int): (r: bytes)
    requires start <= |b|
    ensures |r| <= |b| - start
  {
    var stop := if end < 0 then |b| + end else if end > |b| then |b| else end;
    if stop <= start then [] else b[start..stop]
  }

  /** BufferReader.read of a length that was just decoded. */
  function Take(b: bytes, length: Read<int>): (r: Read<bytes>)
    requires length.next <= |b|
    ensures length.next <= r.next <= |b|
  {
    var content := Slice(b, length.next, length.next + length.value);
    Read(content, length.next + |content|)
  }

  /** Total on arbitrary bytes: a missing or unknown tag decodes to undefined. */
  function Deserialized(b: bytes, pos: nat): (r: Read<Data>)
    requires pos <= |b|
    ensures pos <= r.next <= |b|
    decreases |b| - pos, 0, 0
  {
    if pos == |b| then Read(Undefined, pos)
    else
      var tag := b[pos];
      if tag == STRING then var c := Take(b, ReadInt(b, pos + 1)); Read(Text(c.value), c.next)
      else if tag == BUFFER then var c := Take(b, ReadInt(b, pos + 1)); Read(Binary(c.value), c.next)
      else if tag == VS_BUFFER then var c := Take(b, ReadInt(b, pos + 1)); Read(Shared(c.value), c.next)
      else if tag == OBJECT then var c := Take(b, ReadInt(b, pos + 1)); Read(Other(c.value), c.next)
      else if tag == INT then var n := ReadInt(b, pos + 1); Read(Integer(n.value), n.next)
      else if tag == ARRAY then
        var n := ReadInt(b, pos + 1);
        var items := DeserializedAll(b, n.next, if n.value < 0 then 0 else n.value, []);
        Read(List(items.value), items.next)
      else Read(Undefined, pos + 1)
  }

  function DeserializedAll(b: bytes, pos: nat, count: nat, before: seq<Data>): (r: Read<seq<Data>>)
    requires pos <= |b|
    ensures pos <= r.next <= |b|
    decreases |b| - pos, 1, count
  {
    if count == 0 then Read(before, pos)
    else
      var first := Deserialized(b, pos);
      DeserializedAll(b, first.next, count - 1, before + [first.value])
  }

  /** Lengths below 2^31 and 32-bit integers, all the way down. */
  ghost predicate Encodable(d: Data) {
    match d
    case Undefined => true
    case Text(content) => |content| < TWO_TO_31
    case Binary(content) => |content| < TWO_TO_31
    case Shared(content) => |content| < TWO_TO_31
    case Other(content) => |content| < TWO_TO_31
    case List(items) => |items| < TWO_TO_31 && forall k :: 0 <= k < |items| ==> Encodable(items[k])
    case Integer(n) => -TWO_TO_31 <= n < TWO_TO_31
  }

  /** The form on the wire: a tag byte, then for sized content its length and the content, for a list the number of its
      items and the items, for an integer its digits. */
  lemma WireForm(d: Data)
    ensures Serialized(d) ==
      match d
      case Undefined => [0]
      case Text(utf8) => [1] + Vql(|utf8| % TWO_TO_32) + utf8
      case Binary(content) => [2] + Vql(|content| % TWO_TO_32) + content
      case Shared(content) => [3] + Vql(|content| % TWO_TO_32) + content
      case List(items) => [4] + Vql(|items| % TWO_TO_32) + SerializedAll(items)
      case Other(json) => [5] + Vql(|json| % TWO_TO_32) + json
      case Integer(n) => [6] + Vql(n % TWO_TO_32)
  {
    hide Vql, SerializedAll;
  }

  lemma SizedReadsBack(b: bytes, pos: nat, tag: byte, content: bytes, before: bytes, after: bytes)
    requires |content| < TWO_TO_31 && |before| == pos && b == before + Sized(tag, content) + after
    ensures pos < |b| && b[pos] == tag
    ensures Take(b, ReadInt(b, pos + 1)) == Read(content, pos + |Sized(tag, content)|)
  {
    hide Vql, ReadInt;
    var code := Vql(ToUnsigned(|content|));
    assert b == (before + [tag]) + code + (content + after);
    IntegerRoundTrip(before + [tag], |content|, content + after);
    assert b[pos + 1 + |code|..pos + 1 + |code| + |content|] == content;
  }

  /** Where the input ends, and at a tag that is none of the six with content, decoding gives undefined. */
  lemma UnknownTagDecodes(b: bytes, pos: nat)
    requires pos <= |b| && (pos < |b| ==> b[pos] == 0 || b[pos] > 6)
    ensures Deserialized(b, pos) == Read(Undefined, if pos < |b| then pos + 1 else pos)
  {
  }

  /** Content that ends before its announced length decodes to what is there. */
  lemma CutContentDecodes(before: bytes, tag: byte, length: nat, content: bytes)
    requires |content| <= length < TWO_TO_31 && (1 <= tag <= 3 || tag == 5)
    ensures var b := before + [tag] + Vql(length) + content;
      Deserialized(b, |before|) == Read(
        if tag == 1 then Text(content) else if tag == 2 then Binary(content) else if tag == 3 then Shared(content) else Other(content), |b|)
  {
    hide Vql, ReadInt;
    var b, code := before + [tag] + Vql(length) + content, Vql(length);
    IntegerRoundTrip(before + [tag], length, content);
    assert b[|before|] == tag;
    assert Slice(b, |before| + 1 + |code|, |before| + 1 + |code| + length) == content;
  }

  /** Decoding gives the value back and stops exactly behind it, whatever bytes follow. */
  lemma {:induction false} SerializedReadsBack(d: Data, b: bytes, pos: nat, before: bytes, after: bytes)
    requires Encodable(d) && |before| == pos && b == before + Serialized(d) + after
    ensures Deserialized(b, pos) == Read(d, pos + |Serialized(d)|)
    decreases d, 1
  {
    hide Sized, Take, ReadInt, Vql, SerializedAll, DeserializedAll, Encodable;
    match d
    case Undefined =>
    case Text(content) => ContentIsShort(d); SizedReadsBack(b, pos, STRING, content, before, after);
    case Binary(content) => ContentIsShort(d); SizedReadsBack(b, pos, BUFFER, content, before, after);
    case Shared(content) => ContentIsShort(d); SizedReadsBack(b, pos, VS_BUFFER, content, before, after);
    case Other(content) => ContentIsShort(d); SizedReadsBack(b, pos, OBJECT, content, before, after);
    case Integer(n) =>
      ContentIsShort(d);
      assert b == (before + [INT]) + Vql(ToUnsigned(n)) + after;
      IntegerRoundTrip(before + [INT], n, after);
    case List(items) =>
      ListReadsBack(items, b, pos, before, after);
  }

  lemma ContentIsShort(d: Data)
    requires Encodable(d)
    ensures match d
      case Undefined => true
      case Text(content) => |content| < TWO_TO_31
      case Binary(content) => |content| < TWO_TO_31
      case Shared(content) => |content| < TWO_TO_31
      case Other(content) => |content| < TWO_TO_31
      case List(items) => |items| < TWO_TO_31
      case Integer(n) => -TWO_TO_31 <= n < TWO_TO_31
  {
  }

  lemma {:induction false} ListReadsBack(items: seq<Data>, b: bytes, pos: nat, before: bytes, after: bytes)
    requires Encodable(List(items)) && |before| == pos && b == before + Serialized(List(items)) + after
    ensures Deserialized(b, pos) == Read(List(items), pos + |Serialized(List(items))|)
    decreases items, 1
  {
    hide ReadInt, Vql, SerializedAll, DeserializedAll;
    var code, all := Vql(ToUnsigned(|items|)), SerializedAll(items);
    assert Serialized(List(items)) == [ARRAY] + code + all;
    assert b == (before + [ARRAY]) + code + (all + after);
    IntegerRoundTrip(before + [ARRAY], |items|, all + after);
    assert b == (before + [ARRAY] + code) + all + after;
    ItemsReadBack(items, [], b, pos + 1 + |code|, before + [ARRAY] + code, after);
    assert [] + items == items;
  }

  lemma {:induction false} ItemsReadBack(items: seq<Data>, done: seq<Data>, b: bytes, pos: nat, before: bytes, after: bytes)
    requires forall k :: 0 <= k < |items| ==> Encodable(items[k])
    requires |before| == pos && b == before + SerializedAll(items) + after
    ensures DeserializedAll(b, pos, |items|, done) == Read(done + items, pos + |SerializedAll(items)|)
    decreases items, 0
  {
    hide Serialized, Deserialized, Encodable;
    if items == [] {
      assert done + items == done;
    } else {
      var first, rest := Serialized(items[0]), SerializedAll(items[1..]);
      assert b == before + first + (rest + after);
      SerializedReadsBack(items[0], b, pos, before, rest + after);
      assert b == (before + first) + rest + after;
      ItemsReadBack(items[1..], done + [items[0]], b, pos + |first|, before + first, after);
      assert done + [items[0]] + items[1..] == done + items;
    }
  }

  /** An RPC message is a header followed by a body; both are recovered. */
  lemma MessageReadsBack(header: Data, body: Data)
    requires Encodable(header) && Encodable(body)
    ensures var b := Serialized(header) + Serialized(body);
      && Deserialized(b, 0) == Read(header, |Serialized(header)|)
      && Deserialized(b, |Serialized(header)|) == Read(body, |b|)
  {
    hide Serialized, Deserialized;
    var h, t := Serialized(header), Serialized(body);
    assert h + t == [] + h + t && h + t == h + t + [];
    SerializedReadsBack(header, h + t, 0, [], t);
    SerializedReadsBack(body, h + t, |h|, h, []);
  }

  // ---------- the code ----------

  class BufferReader {
    const buffer: bytes
    var pos: nat

    ghost predicate Valid()
      reads this
    {
      pos <= |buffer|
    }

    constructor (buffer: bytes)
      ensures Valid() && this.buffer == buffer && pos == 0
    {
      this.buffer, pos := buffer, 0;
    }

    method ReadBytes(count: int) returns (r: bytes)
      requires Valid()
      modifies this
      ensures Valid() && r == Slice(buffer, old(pos), old(pos) + count) && pos == old(pos) + |r|
    {
      r := Slice(buffer, pos, pos + count);
      pos := pos + |r|;
    }
  }

  class BufferWriter {
    var buffers: seq<bytes>

    constructor ()
      ensures buffers == []
    {
      buffers := [];
    }

    method Write(buffer: bytes)
      modifies this
      ensures buffers == old(buffers) + [buffer] && Flatten(buffers) == old(Flatten(buffers)) + buffer
    {
      FlattenAppend(buffers, [buffer]);
      assert Flatten([buffer]) == buffer + Flatten([]);
      buffers := buffers + [buffer];
    }

    method Buffer() returns (r: bytes)
      ensures r == Flatten(buffers)
    {
      r := Concat(buffers);
    }
  }

  /** A value whose low 32 bits are all zero is written as a single zero byte, like zero itself. */
  method WriteInt32VQL(writer: BufferWriter, value: int)
    modifies writer
    ensures Flatten(writer.buffers) == old(Flatten(writer.buffers)) + Vql(ToUnsigned(value))
  {
    hide Vql, Flatten, LowByte;
    var word := ToUnsigned(value);
    if word == 0 {
      writer.Write([0]);
      VqlOfZero();
      return;
    }
    var len, v := 0, word;
    while v != 0
      invariant v >= 0 && len >= 0 && writer.buffers == old(writer.buffers)
      invariant len + |MoreVql(v)| == |Vql(word)|
    {
      VqlUnfolds(v);
      len, v := len + 1, v / 0x80;
    }
    var scratch := FillVql(word, len);
    writer.Write(scratch);
  }

  /** The byte that writeInt32VQL stores for the low seven bits. */
  function LowByte(w: nat): byte {
    if w / 0x80 > 0 then w % 0x80 + 0x80 else w % 0x80
  }

  method FillVql(word: nat, len: nat) returns (filled: bytes)
    requires word > 0 && len == |Vql(word)|
    ensures filled == Vql(word)
  {
    hide Vql, LowByte, MoreVql;
    assert MoreVql(0) == [] && MoreVql(word) == Vql(word) by { MoreVqlEnds(word); }
    var scratch := new byte[len](_ => 0);
    var i, rest := 0, word;
    while rest != 0
      invariant rest >= 0 && 0 <= i == len - |MoreVql(rest)|
      invariant scratch[..i] + MoreVql(rest) == Vql(word)
    {
      OneMoreByte(scratch[..i], rest);
      ghost var had := scratch[..i];
      scratch[i] := LowByte(rest);
      assert scratch[..i + 1] == had + [scratch[i]];
      i, rest := i + 1, rest / 0x80;
    }
    assert scratch[..] == scratch[..i];
    filled := scratch[..];
  }

  function MoreVql(rest: nat): bytes {
    if rest == 0 then [] else Vql(rest)
  }

  lemma MoreVqlEnds(w: nat)
    ensures MoreVql(0) == [] && (w != 0 ==> MoreVql(w) == Vql(w))
  {
  }

  lemma OneMoreByte(had: bytes, rest: nat)
    requires rest != 0
    ensures had + MoreVql(rest) == had + [LowByte(rest)] + MoreVql(rest / 0x80)
    ensures |MoreVql(rest)| == 1 + |MoreVql(rest / 0x80)|
  {
    hide Vql, LowByte;
    VqlUnfolds(rest);
    assert had + ([LowByte(rest)] + MoreVql(rest / 0x80)) == had + [LowByte(rest)] + MoreVql(rest / 0x80);
  }

  lemma VqlOfZero()
    ensures Vql(0) == [0]
  {
  }

  lemma VqlUnfolds(w: nat)
    ensures Vql(w) == [LowByte(w)] + MoreVql(w / 0x80)
  {
  }

  method ReadIntVQL(reader: BufferReader) returns (r: int)
    requires reader.Valid()
    modifies reader
    ensures reader.Valid()
    ensures Read(r, reader.pos) == ReadInt(reader.buffer, old(reader.pos))
  {
    hide OrWord, BitOr, ShiftLeft, Shl;
    var value, n := 0, 0;
    while true
      invariant reader.Valid() && 0 <= n && ToSigned(ToUnsigned(value)) == value
      invariant ReadVql(reader.buffer, old(reader.pos), 0, 0) == ReadVql(reader.buffer, reader.pos, n, ToUnsigned(value))
      decreases |reader.buffer| - reader.pos
    {
      ghost var at := reader.pos;
      var next := reader.ReadBytes(1);
      if next == [] {
        return value;
      }
      assert next[0] == reader.buffer[at] && reader.pos == at + 1;
      BitOrIsOrWord(value, next[0] % 0x80, n);
      value := BitOr(value, ShiftLeft(next[0] % 0x80, n));
      if next[0] < 0x80 {
        return value;
      }
      n := n + 7;
    }
  }

  method Serialize(writer: BufferWriter, d: Data)
    modifies writer
    ensures Flatten(writer.buffers) == old(Flatten(writer.buffers)) + Serialized(d)
    decreases d, 1
  {
    hide Vql, Flatten;
    match d
    case Undefined =>
      writer.Write([UNDEFINED]);
    case Text(content) =>
      WriteSized(writer, STRING, content);
    case Binary(content) =>
      WriteSized(writer, BUFFER, content);
    case Shared(content) =>
      WriteSized(writer, VS_BUFFER, content);
    case Other(content) =>
      WriteSized(writer, OBJECT, content);
    case Integer(n) =>
      writer.Write([INT]);
      WriteInt32VQL(writer, n);
    case List(items) =>
      writer.Write([ARRAY]);
      WriteInt32VQL(writer, |items|);
      SerializeItems(writer, items);
  }

  method SerializeItems(writer: BufferWriter, items: seq<Data>)
    modifies writer
    ensures Flatten(writer.buffers) == old(Flatten(writer.buffers)) + SerializedAll(items)
    decreases items, 0
  {
    hide Flatten, Serialized;
    for k := 0 to |items|
      invariant Flatten(writer.buffers) == old(Flatten(writer.buffers)) + SerializedAll(items[..k])
    {
      Serialize(writer, items[k]);
      SerializedAllOneMore(items, k);
    }
    assert items[..|items|] == items;
  }

  lemma {:induction false} SerializedAllAppend(a: seq<Data>, b: seq<Data>)
    ensures SerializedAll(a + b) == SerializedAll(a) + SerializedAll(b)
    decreases |a|
  {
    hide Serialized;
    if a == [] {
      assert a + b == b;
    } else {
      SerializedAllAppend(a[1..], b);
      assert (a + b)[1..] == a[1..] + b;
    }
  }

  lemma SerializedAllOneMore(items: seq<Data>, k: nat)
    requires k < |items|
    ensures SerializedAll(items[..k + 1]) == SerializedAll(items[..k]) + Serialized(items[k])
  {
    hide Serialized;
    assert items[..k + 1] == items[..k] + [items[k]];
    SerializedAllAppend(items[..k], [items[k]]);
    assert SerializedAll([items[k]]) == Serialized(items[k]) + SerializedAll([]);
  }

  method WriteSized(writer: BufferWriter, tag: byte, content: bytes)
    modifies writer
    ensures Flatten(writer.buffers) == old(Flatten(writer.buffers)) + Sized(tag, content)
  {
    hide Vql, Flatten;
    writer.Write([tag]);
    WriteInt32VQL(writer, |content|);
    writer.Write(content);
  }

  method Deserialize(reader: BufferReader) returns (r: Data)
    requires reader.Valid()
    modifies reader
    ensures reader.Valid()
    ensures Read(r, reader.pos) == Deserialized(reader.buffer, old(reader.pos))
    decreases |reader.buffer| - reader.pos, 0, 0
  {
    hide ReadInt, Slice;
    ghost var at := reader.pos;
    SliceOfOne(reader.buffer, reader.pos);
    var tagByte := reader.ReadBytes(1);
    if tagByte == [] {
      return Undefined;
    }
    var tag := tagByte[0];
    if tag == UNDEFINED || tag > INT {
      return Undefined;
    }
    var n := ReadIntVQL(reader);
    if tag == INT {
      return Integer(n);
    }
    if tag == ARRAY {
      var items := DeserializeItems(reader, n);
      return List(items);
    }
    var content := reader.ReadBytes(n);
    return if tag == STRING then Text(content) else if tag == BUFFER then Binary(content)
      else if tag == VS_BUFFER then Shared(content) else Other(content);
  }

  lemma SliceOfOne(b: bytes, pos: nat)
    requires pos <= |b|
    ensures Slice(b, pos, pos + 1) == if pos == |b| then [] else [b[pos]]
  {
  }

  method DeserializeItems(reader: BufferReader, length: int) returns (result: seq<Data>)
    requires reader.Valid()
    modifies reader
    ensures reader.Valid()
    ensures Read(result, reader.pos)
         == DeserializedAll(reader.buffer, old(reader.pos), if length < 0 then 0 else length, [])
    decreases |reader.buffer| - reader.pos, 1, 0
  {
    hide Deserialized;
    result := [];
    var i := 0;
    while i < length
      invariant reader.Valid() && reader.pos >= old(reader.pos) && (length < 0 || i <= length)
      invariant DeserializedAll(reader.buffer, old(reader.pos), if length < 0 then 0 else length, [])
             == DeserializedAll(reader.buffer, reader.pos, if length < 0 then 0 else length - i, result)
      decreases length - i
    {
      var item := Deserialize(reader);
      result := result + [item];
      i := i + 1;
    }
  }
}
