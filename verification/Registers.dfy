/** Modbus registers: packing words into bytes, multi-word numbers, text fields,
    and the arithmetic of the decode helpers offered to Lua drivers. */
module Registers {
  import opened Bytes
  import Bits

  // ---- words and bytes ----

  /** Big-endian bytes of a register list. */
  function Pack(values: seq<word>): seq<byte> {
    seq(2 * |values|, k requires 0 <= k < 2 * |values| =>
      if k % 2 == 0 then values[k / 2] / 256 else values[k / 2] % 256)
  }

  /** The registers in a byte string; a last odd byte is dropped. */
  function Unpack(data: seq<byte>): seq<word> {
    seq(|data| / 2, i requires 0 <= i < |data| / 2 => Word(data[2 * i], data[2 * i + 1]))
  }

  lemma PackAt(values: seq<word>, i: nat)
    requires i < |values|
    ensures Pack(values)[2 * i] == values[i] / 256 && Pack(values)[2 * i + 1] == values[i] % 256
    ensures Word(Pack(values)[2 * i], Pack(values)[2 * i + 1]) == values[i]
  {
    assert 2 * i % 2 == 0 && 2 * i / 2 == i && (2 * i + 1) % 2 == 1 && (2 * i + 1) / 2 == i;
  }

  lemma UnpackPack(values: seq<word>)
    ensures Unpack(Pack(values)) == values
  {
    var data := Pack(values);
    assert |data| / 2 == |values|;
    hide Pack, Word;
    forall i | 0 <= i < |values| ensures Unpack(data)[i] == values[i] {
      PackAt(values, i);
    }
    hide Unpack;
  }

  lemma PackUnpack(data: seq<byte>)
    ensures Pack(Unpack(data)) == data[..|data| / 2 * 2]
    ensures Pack(Unpack(data)) == data <==> |data| % 2 == 0
  {
    forall k | 0 <= k < |data| / 2 * 2 ensures Pack(Unpack(data))[k] == data[k] {
      assert Unpack(data)[k / 2] == Word(data[2 * (k / 2)], data[2 * (k / 2) + 1]);
    }
  }

  /** The buffer `WriteMultipleRegisters` fills for the wire. */
  method PackRegisters(values: seq<word>) returns (data: array<byte>)
    ensures fresh(data) && data[..] == Pack(values)
  {
    data := new byte[2 * |values|](_ => 0);
    for i := 0 to |values|
      invariant data[..2 * i] == Pack(values)[..2 * i]
    {
      data[i * 2] := values[i] / 256;
      data[i * 2 + 1] := values[i] % 256;
      assert data[..2 * (i + 1)] == data[..2 * i] + [values[i] / 256, values[i] % 256];
      assert Pack(values)[..2 * (i + 1)] == Pack(values)[..2 * i] + [values[i] / 256, values[i] % 256];
    }
    assert data[..] == data[..2 * |values|];
  }

  method BytesToRegisters(data: seq<byte>) returns (regs: array<word>)
    ensures fresh(regs) && regs[..] == Unpack(data)
  {
    var count := |data| / 2;
    regs := new word[count](_ => 0);
    for i := 0 to count
      invariant regs[..i] == Unpack(data)[..i]
    {
      regs[i] := Word(data[i * 2], data[i * 2 + 1]);
      assert regs[..i + 1] == regs[..i] + [regs[i]];
      assert Unpack(data)[..i + 1] == Unpack(data)[..i] + [Unpack(data)[i]];
    }
    assert regs[..] == regs[..count];
  }

  /** Two bytes per register up to the first NUL. */
  method DecodeString(registers: seq<word>) returns (text: seq<byte>)
    ensures text == UpToNul(Pack(registers))
  {
    var bytes: seq<byte> := [];
    for i := 0 to |registers|
      invariant bytes == Pack(registers[..i])
    {
      bytes := bytes + [registers[i] / 256, registers[i] % 256];
      assert registers[..i + 1] == registers[..i] + [registers[i]];
      assert bytes == Pack(registers[..i + 1]);
    }
    assert registers[..|registers|] == registers;
    for i := 0 to |bytes|
      invariant NUL !in bytes[..i]
    {
      if bytes[i] == NUL {
        UpToNulUnique(bytes, bytes[..i]);
        return bytes[..i];
      }
      assert bytes[..i + 1] == bytes[..i] + [bytes[i]];
    }
    assert bytes[..|bytes|] == bytes;
    UpToNulUnique(bytes, bytes);
    text := bytes;
  }

  // ---- numbers ----

  datatype DataType = U16 | I16 | U32 | I32 | F32 | STR | U64
  datatype Endianness = Big | Little

  const W: nat := 0x1_0000
  const W2: nat := 0x1_0000_0000
  const W3: nat := 0x1_0000_0000_0000
  const W4: nat := 0x1_0000_0000_0000_0000

  function WordCount(t: DataType): nat {
    match t
    case U32 => 2
    case I32 => 2
    case F32 => 2
    case U64 => 4
    case _ => 1
  }

  /** The positional value of two words; `DecodedBits` shows it to be what shifting and or-ing gives. */
  function DecodeU32(r: seq<word>, e: Endianness): nat
    requires |r| >= 2
  {
    if e == Big then r[0] * W + r[1] else r[1] * W + r[0]
  }

  function DecodeU64(r: seq<word>, e: Endianness): nat
    requires |r| >= 4
  {
    if e == Big then r[0] * W3 + r[1] * W2 + r[2] * W + r[3]
    else r[3] * W3 + r[2] * W2 + r[1] * W + r[0]
  }

  /** Reinterpreting an unsigned number below `2 * half` as a signed one of the same width. */
  function Signed(x: int, half: int): int {
    if x < half then x else x - 2 * half
  }

  /** The integer part of decoding. `Pattern` holds the bits of an F32, `OutOfRange` is an index panic. */
  datatype Decoded = Raw(value: int) | Pattern(bits: nat) | TooShort | UseDecodeString | OutOfRange

  /** The indexes decoding reads, in the order in which it reads them. */
  function Reads(t: DataType, e: Endianness): seq<nat> {
    match t
    case U16 => [0]
    case I16 => [0]
    case STR => []
    case U64 => if e == Big then [0, 1, 2, 3] else [3, 2, 1, 0]
    case _ => if e == Big then [0, 1] else [1, 0]
  }

  /** Some index read lies past the end. */
  predicate ReadsPastEnd(r: seq<word>, t: DataType, e: Endianness) {
    exists i :: i in Reads(t, e) && i >= |r|
  }

  function DecodeValue(r: seq<word>, t: DataType, words: int, e: Endianness): Decoded {
    if |r| < words then TooShort
    else if t == STR then UseDecodeString
    else if ReadsPastEnd(r, t, e) then OutOfRange
    else
      assert forall i :: i in Reads(t, e) ==> i < |r|;
      match t
      case U16 => assert 0 in Reads(t, e); Raw(r[0])
      case I16 => assert 0 in Reads(t, e); Raw(Signed(r[0], 0x8000))
      case U32 => assert 1 in Reads(t, e); Raw(DecodeU32(r, e))
      case I32 => assert 1 in Reads(t, e); Raw(Signed(DecodeU32(r, e), 0x8000_0000))
      case F32 => assert 1 in Reads(t, e); Pattern(DecodeU32(r, e))
      case U64 => assert 3 in Reads(t, e); Raw(Signed(DecodeU64(r, e), 0x8000_0000_0000_0000))
  }

  function DecodeRawValue(r: seq<word>, t: DataType, e: Endianness): Decoded {
    DecodeValue(r, t, WordCount(t), e)
  }

  /** A type's word count is one more than the highest index its decoding reads. So decoding by type
      alone never reads past the end, and only a definition that asks for fewer words can. */
  lemma DecodeOutOfRange(r: seq<word>, t: DataType, words: int, e: Endianness)
    ensures DecodeValue(r, t, words, e).OutOfRange? <==> t != STR && words <= |r| < WordCount(t)
    ensures !DecodeRawValue(r, t, e).OutOfRange?
    ensures DecodeRawValue(r, t, e).TooShort? <==> |r| < WordCount(t)
  {
    if t != STR {
      assert WordCount(t) - 1 in Reads(t, e);
      assert forall i :: i in Reads(t, e) ==> i < WordCount(t);
    }
  }

  /** What decoding computes is what its shifts and ors compute, in either word order. */
  lemma DecodedBits(r: seq<word>, x: nat)
    ensures |r| == 2 ==>
              (Bits.IsShiftOr(x, r) <==> x == DecodeU32(r, Big))
              && (Bits.IsShiftOr(x, [r[1], r[0]]) <==> x == DecodeU32(r, Little))
    ensures |r| == 4 ==>
              (Bits.IsShiftOr(x, r) <==> x == DecodeU64(r, Big))
              && (Bits.IsShiftOr(x, [r[3], r[2], r[1], r[0]]) <==> x == DecodeU64(r, Little))
  {
    hide Bits.IsShiftOr;
    if |r| == 2 {
      ValueOfTwo(r[0], r[1]);
      ValueOfTwo(r[1], r[0]);
      assert r == [r[0], r[1]];
      Bits.ShiftOrIsValue(x, r);
      Bits.ShiftOrIsValue(x, [r[1], r[0]]);
    } else if |r| == 4 {
      ValueOfFour(r[0], r[1], r[2], r[3]);
      ValueOfFour(r[3], r[2], r[1], r[0]);
      assert r == [r[0], r[1], r[2], r[3]];
      Bits.ShiftOrIsValue(x, r);
      Bits.ShiftOrIsValue(x, [r[3], r[2], r[1], r[0]]);
    }
  }

  lemma ValueOfTwo(a: word, b: word)
    ensures Bits.Value([a, b]) == a * W + b
  {
    assert [a][..0] == [];
    assert Bits.Value([a]) == a;
    assert [a, b][..1] == [a];
  }

  lemma ValueOfFour(a: word, b: word, c: word, d: word)
    ensures Bits.Value([a, b, c, d]) == a * W3 + b * W2 + c * W + d
  {
    assert [a, b, c, d][..3] == [a, b, c] && [a, b, c][..2] == [a, b];
    ValueOfTwo(a, b);
  }

  function WordsOf32(v: nat): seq<word>
    requires v < W2
  {
    [v / W, v % W]
  }

  function WordsOf64(v: nat): seq<word>
    requires v < W4
  {
    [v / W3, v / W2 % W, v / W % W, v % W]
  }

  function Reverse(r: seq<word>): seq<word> {
    seq(|r|, i requires 0 <= i < |r| => r[|r| - 1 - i])
  }

  lemma U32Bijection(r: seq<word>, v: nat)
    requires |r| == 2 && v < W2
    ensures DecodeU32(r, Big) < W2
    ensures DecodeU32(r, Big) == v <==> r == WordsOf32(v)
  {
  }

  lemma U64Range(r: seq<word>)
    requires |r| == 4
    ensures DecodeU64(r, Big) == DecodeU32(r[..2], Big) * W2 + DecodeU32(r[2..], Big)
    ensures DecodeU64(r, Big) < W4
  {
    U32Bijection(r[..2], 0);
    U32Bijection(r[2..], 0);
  }

  lemma U64Words(v: nat)
    requires v < W4
    ensures DecodeU64(WordsOf64(v), Big) == v
  {
    var a, b, c := v / W, v / W2, v / W3;
    assert v == a * W + v % W;
    assert a / W == b && a == b * W + a % W;
    assert b / W == c && b == c * W + b % W;
  }

  lemma U64Injective(r: seq<word>, q: seq<word>)
    requires |r| == 4 && |q| == 4
    requires DecodeU64(r, Big) == DecodeU64(q, Big)
    ensures r == q
  {
    hide DecodeU32, DecodeU64, WordsOf32;
    U64Range(r);
    U64Range(q);
    var high, low := DecodeU32(q[..2], Big), DecodeU32(q[2..], Big);
    U32Bijection(q[..2], 0);
    U32Bijection(q[2..], 0);
    U32Bijection(r[..2], high);
    U32Bijection(r[2..], low);
    U32Bijection(q[..2], high);
    U32Bijection(q[2..], low);
    assert r == r[..2] + r[2..] && q == q[..2] + q[2..];
  }

  lemma U64Bijection(r: seq<word>, v: nat)
    requires |r| == 4 && v < W4
    ensures DecodeU64(r, Big) < W4
    ensures DecodeU64(r, Big) == v <==> r == WordsOf64(v)
  {
    U64Range(r);
    U64Words(v);
    if DecodeU64(r, Big) == v {
      U64Injective(r, WordsOf64(v));
    }
  }

  lemma LittleIsReversedBig(r: seq<word>)
    ensures |r| == 2 ==> DecodeU32(r, Little) == DecodeU32(Reverse(r), Big)
    ensures |r| == 4 ==> DecodeU64(r, Little) == DecodeU64(Reverse(r), Big)
  {
  }

  lemma SmallMod(d: int, m: int)
    requires m > 0 && -m < d < 2 * m
    ensures d % m == if d < 0 then d + m else if d < m then d else d - m
  {
    var q, r := d / m, d % m;
    assert d == m * q + r && 0 <= r < m;
    assert q >= 2 ==> m * q >= m * 2;
    assert q <= -2 ==> m * q <= m * -2;
    assert q == -1 || q == 0 || q == 1;
  }

  /** Two's complement: the one number of the signed range congruent to `x`. */
  lemma SignedUnique(x: int, half: int, y: int)
    requires half > 0 && 0 <= x < 2 * half
    ensures y == Signed(x, half) <==> -half <= y < half && (x - y) % (2 * half) == 0
  {
    if -half <= y < half {
      SmallMod(x - y, 2 * half);
    }
  }

  // ---- helpers for Lua drivers ----

  /** The result of converting `x` to a signed integer of the given width. */
  predicate IsSigned(y: int, x: int, half: int)
    requires half > 0
  {
    -half <= y < half && (x - y) % (2 * half) == 0
  }

  /** A 16-bit field is its first register as it stands, or the signed number congruent to it. */
  lemma Decodes16(r: seq<word>, words: int, e: Endianness, y: int)
    requires words <= |r| && |r| >= 1 && IsSigned(y, r[0], 0x8000)
    ensures DecodeValue(r, U16, words, e) == Raw(r[0])
    ensures DecodeValue(r, I16, words, e) == Raw(y)
  {
    SignedUnique(r[0], 0x8000, y);
  }

  /** A 32-bit field is made of the first two registers, or-ed together in the given word order:
      unsigned, signed or as the bits of a float. Registers after them are ignored. */
  lemma Decodes32(r: seq<word>, words: int, e: Endianness, x: nat, y: int)
    requires words <= |r| && |r| >= 2 && IsSigned(y, x, 0x8000_0000)
    requires Bits.IsShiftOr(x, if e == Big then [r[0], r[1]] else [r[1], r[0]])
    ensures DecodeValue(r, U32, words, e) == Raw(x)
    ensures DecodeValue(r, F32, words, e) == Pattern(x)
    ensures DecodeValue(r, I32, words, e) == Raw(y)
  {
    hide Bits.IsShiftOr;
    DecodedBits(r[..2], x);
    U32Bijection([r[0], r[1]], 0);
    U32Bijection([r[1], r[0]], 0);
    assert r[..2] == [r[0], r[1]];
    SignedUnique(x, 0x8000_0000, y);
  }

  /** A 64-bit field is made of the first four registers and passes through a signed integer. */
  lemma Decodes64(r: seq<word>, words: int, e: Endianness, x: nat, y: int)
    requires words <= |r| && |r| >= 4 && IsSigned(y, x, 0x8000_0000_0000_0000)
    requires Bits.IsShiftOr(x, if e == Big then [r[0], r[1], r[2], r[3]] else [r[3], r[2], r[1], r[0]])
    ensures DecodeValue(r, U64, words, e) == Raw(y)
  {
    hide Bits.IsShiftOr;
    DecodedBits(r[..4], x);
    U64Range([r[0], r[1], r[2], r[3]]);
    U64Range([r[3], r[2], r[1], r[0]]);
    assert r[..4] == [r[0], r[1], r[2], r[3]];
    SignedUnique(x, 0x8000_0000_0000_0000, y);
  }

  /** Too few registers for the definition is the first error; text is refused after it. */
  lemma DecodeRefuses(r: seq<word>, t: DataType, words: int, e: Endianness)
    ensures DecodeValue(r, t, words, e).TooShort? <==> |r| < words
    ensures DecodeValue(r, t, words, e).UseDecodeString? <==> t == STR && |r| >= words
  {
    hide ReadsPastEnd;
  }

  /** The drivers' helpers shift their arguments into place, or them together and convert; the
      decoder agrees with them on all 16 and 32-bit integers, in both word orders. */
  lemma LuaAgrees32(hi: word, lo: word, x: nat, y: int, z: int)
    requires Bits.IsShiftOr(x, [hi, lo]) && IsSigned(y, x, 0x8000_0000) && IsSigned(z, hi, 0x8000)
    ensures DecodeRawValue([hi], I16, Big) == DecodeRawValue([hi], I16, Little) == Raw(z)
    ensures DecodeRawValue([hi, lo], U32, Big) == DecodeRawValue([lo, hi], U32, Little) == Raw(x)
    ensures DecodeRawValue([hi, lo], I32, Big) == DecodeRawValue([lo, hi], I32, Little) == Raw(y)
  {
    hide Bits.IsShiftOr;
    DecodedBits([hi, lo], x);
    DecodedBits([lo, hi], x);
    U32Bijection([hi, lo], 0);
    SignedUnique(x, 0x8000_0000, y);
    SignedUnique(hi, 0x8000, z);
  }

  /** The 64-bit helper keeps all bits; the register decoder goes through a signed 64-bit integer.
      They agree exactly while the top word's top bit is clear. */
  lemma LuaAgrees64(a: word, b: word, c: word, d: word, x: nat)
    requires Bits.IsShiftOr(x, [a, b, c, d])
    ensures DecodeRawValue([a, b, c, d], U64, Big) == Raw(x) <==> a < 0x8000
    ensures a >= 0x8000 ==> DecodeRawValue([a, b, c, d], U64, Big) == Raw(x - W4)
  {
    hide Bits.IsShiftOr;
    DecodedBits([a, b, c, d], x);
    U64Range([a, b, c, d]);
  }
}
