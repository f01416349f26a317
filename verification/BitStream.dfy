/**
 Little-endian, least-significant-bit-first packets (crates/core/src/binary.rs).

 The specification is a stream of bits; `BitWriter` and `BitReader` are the source's two objects,
 each a byte vector and a bit position, and are proved against it.  A byte is a number below 256,
 float payloads are their bit patterns, and a string is its UTF-8 bytes with the validity test
 passed in as a predicate.
 */
module BitStream {
  import opened Wrappers
  import opened Decimals

  const U32: nat := 0x1_0000_0000

  datatype Failure = EndOfBits | EndOfBytes | Exceeds32Bits | ExceedsFiveBytes | TextTooLong | InvalidUtf8

  /** What a read reports and how far it moved the position, on success and on failure. */
  datatype Read<+T> = Read(outcome: Result<T, Failure>, used: nat)

  // ---------------------------------------------------------------- bits of a number

  function Low(value: nat, count: nat): (bits: seq<bool>)
    ensures |bits| == count
  {
    if count == 0 then [] else [value % 2 == 1] + Low(value / 2, count - 1)
  }

  function FromBits(bits: seq<bool>): nat
  {
    if bits == [] then 0 else (if bits[0] then 1 else 0) + 2 * FromBits(bits[1..])
  }

  lemma {:induction false} LowRoundTrip(value: nat, count: nat)
    requires value < Pow(2, count)
    ensures FromBits(Low(value, count)) == value
  {
    if count > 0 {
      LowRoundTrip(value / 2, count - 1);
      assert Low(value, count)[1..] == Low(value / 2, count - 1);
    }
  }

  lemma {:induction false} FromBitsRoundTrip(bits: seq<bool>)
    ensures FromBits(bits) < Pow(2, |bits|)
    ensures Low(FromBits(bits), |bits|) == bits
  {
    if bits != [] {
      FromBitsRoundTrip(bits[1..]);
      assert bits == [bits[0]] + bits[1..];
      assert FromBits(bits) / 2 == FromBits(bits[1..]);
    }
  }

  lemma {:induction false} FromBitsAppend(bits: seq<bool>, bit: bool)
    ensures FromBits(bits + [bit]) == FromBits(bits) + (if bit then Pow(2, |bits|) else 0)
  {
    if bits == [] {
      assert [bit][1..] == [];
    } else {
      assert (bits + [bit])[1..] == bits[1..] + [bit];
      FromBitsAppend(bits[1..], bit);
    }
  }

  /** The shift-and-mask form `(value >> index) & 1` reads the same bit. */
  lemma {:induction false} ShiftAndMask(value: nat, index: nat)
    ensures TestBit(value, index) == (value / Pow(2, index) % 2 == 1)
  {
    if index == 0 {
      assert Pow(2, 0) == 1;
    } else {
      ShiftAndMask(value / 2, index - 1);
      HalveThenDivide(value, Pow(2, index - 1));
    }
  }

  lemma HalveThenDivide(value: nat, p: nat)
    requires p >= 1
    ensures value / 2 / p == value / (2 * p)
  {
    var q, r := value / (2 * p), value % (2 * p);
    assert value == 2 * p * q + r;
    assert value / 2 == p * q + r / 2;
    assert r / 2 < p;
    QuotientOf(value / 2, p, q, r / 2);
  }

  lemma QuotientOf(n: nat, p: nat, q: nat, r: nat)
    requires r < p && n == p * q + r
    ensures n / p == q
  {
    var d := n / p - q;
    assert n == p * (n / p) + n % p;
    assert p * d == r - n % p;
    assert d >= 1 ==> p * d >= p;
    assert d <= -1 ==> p * d <= -(p as int);
  }

  // ---------------------------------------------------------------- bits of a byte vector

  function TestBit(b: nat, index: nat): bool
  {
    if index == 0 then b % 2 == 1 else TestBit(b / 2, index - 1)
  }

  lemma {:induction false} TestBitLow(b: nat, count: nat, index: nat)
    requires index < count
    ensures Low(b, count)[index] == TestBit(b, index)
  {
    if index > 0 {
      TestBitLow(b / 2, count - 1, index - 1);
    }
  }

  function BitAt(data: seq<Byte>, position: nat): bool
    requires position < 8 * |data|
  {
    TestBit(data[position / 8], position % 8)
  }

  function Stream(data: seq<Byte>, from: nat, to: nat): (bits: seq<bool>)
    requires from <= to <= 8 * |data|
    ensures |bits| == to - from
    ensures forall i | 0 <= i < to - from :: bits[i] == BitAt(data, from + i)
  {
    seq(to - from, i requires 0 <= i < to - from => BitAt(data, from + i))
  }

  lemma EvenPart(value: nat, half: nat)
    ensures (value + 2 * half) / 2 == value / 2 + half && (value + 2 * half) % 2 == value % 2
  {
  }

  lemma {:induction false} SetBit(value: nat, count: nat, index: nat)
    requires index < count && value < Pow(2, count) && !TestBit(value, index)
    ensures value + Pow(2, index) < Pow(2, count)
    ensures forall k: nat :: TestBit(value + Pow(2, index), k) == (k == index || TestBit(value, k))
  {
    if index == 0 {
      assert (value + 1) / 2 == value / 2;
    } else {
      SetBit(value / 2, count - 1, index - 1);
      var half, next := Pow(2, index - 1), value + Pow(2, index);
      assert Pow(2, index) == 2 * half && Pow(2, count) == 2 * Pow(2, count - 1);
      hide Pow;
      EvenPart(value, half);
      forall k: nat ensures TestBit(next, k) == (k == index || TestBit(value, k)) {
        if k > 0 {
          assert TestBit(next, k) == TestBit(next / 2, k - 1);
        }
      }
    }
  }

  lemma ByteBelow(b: Byte)
    ensures b < Pow(2, 8)
  {
    assert Pow(2, 4) == 16;
    assert Pow(2, 8) == 256;
  }

  /** `byte | (bit << index)`. */
  function OrBit(b: Byte, index: nat, bit: bool): (r: Byte)
    requires index < 8
    ensures forall k: nat :: TestBit(r, k) == (TestBit(b, k) || (bit && k == index))
  {
    if bit && !TestBit(b, index) then
      ByteBelow(b);
      SetBit(b, 8, index);
      assert Pow(2, 4) == 16 && Pow(2, 8) == 256;
      b + Pow(2, index)
    else b
  }

  // ---------------------------------------------------------------- variable-length integers

  function EncodeVar(value: nat): (bytes: seq<Byte>)
    ensures |bytes| >= 1
  {
    if value < 128 then [value] else [128 + value % 128] + EncodeVar(value / 128)
  }

  function BytesBits(bytes: seq<Byte>): (bits: seq<bool>)
    ensures |bits| == 8 * |bytes|
  {
    if bytes == [] then [] else Low(bytes[0], 8) + BytesBits(bytes[1..])
  }

  /** `x << (index * 7)` before truncation, for the five byte positions. */
  function Scale(x: nat, index: nat): nat
    requires index <= 4
  {
    if index == 0 then x
    else if index == 1 then 0x80 * x
    else if index == 2 then 0x4000 * x
    else if index == 3 then 0x20_0000 * x
    else 0x1000_0000 * x
  }

  datatype Step = Done(value: nat) | More(next: nat) | Bad(failure: Failure)

  /** One turn of the reader's loop: byte `index`, with the value gathered so far. */
  function VarStep(byte: Byte, index: nat, gathered: nat): Step
    requires index <= 4
  {
    if index == 4 && byte / 16 != 0 then Bad(Exceeds32Bits) else
    var next := gathered + Scale(byte % 128, index);
    if byte / 128 == 0 then Done(next)
    else if index == 4 then Bad(ExceedsFiveBytes)
    else More(next)
  }

  function ByteAt(bits: seq<bool>): Byte
    requires |bits| >= 8
  {
    ByteBound(bits);
    FromBits(bits[..8])
  }

  function DecodeVar(bits: seq<bool>, index: nat, gathered: nat): (r: Read<nat>)
    requires index <= 4
    ensures r.used <= |bits|
    decreases 5 - index
  {
    if |bits| < 8 then Read(Err(EndOfBits), 0) else
    match VarStep(ByteAt(bits), index, gathered)
    case Done(value) => Read(Ok(value), 8)
    case Bad(failure) => Read(Err(failure), 8)
    case More(next) =>
      if index == 4 then Read(Err(ExceedsFiveBytes), 8) else
      var rest := DecodeVar(bits[8..], index + 1, next);
      Read(rest.outcome, 8 + rest.used)
  }

  /** The number an accepted byte string spells in base 128, little end first. */
  function Base128(bits: seq<bool>): nat
    decreases |bits|
  {
    if |bits| < 8 then 0 else ByteAt(bits) % 128 + 128 * Base128(bits[8..])
  }

  lemma ByteBound(bits: seq<bool>)
    requires |bits| >= 8
    ensures FromBits(bits[..8]) < 256
  {
    FromBitsRoundTrip(bits[..8]);
    assert Pow(2, 4) == 16 && Pow(2, 8) == 256;
  }

  /** What an accepted read from byte `index` on has to mean. */
  ghost predicate Means(r: Read<nat>, bits: seq<bool>, index: nat, gathered: nat)
    requires r.used <= |bits| && index <= 4
  {
    && r.outcome != Err(ExceedsFiveBytes)
    && (r.outcome.Ok? ==>
          var sum := Base128(bits[..r.used]);
          && 8 <= r.used <= 8 * (5 - index)
          && sum < Pow(128, r.used / 8)
          && Scale(sum, index) < U32
          && r.outcome.value == gathered + Scale(sum, index))
  }

  /** An accepted encoding loses no bits, stays below 2^32, and "exceeds five bytes" is unreachable. */
  lemma {:induction false} DecodeVarMeans(bits: seq<bool>, index: nat, gathered: nat)
    requires index <= 4
    ensures Means(DecodeVar(bits, index, gathered), bits, index, gathered)
    decreases 5 - index
  {
    if |bits| >= 8 {
      var step := VarStep(ByteAt(bits), index, gathered);
      if step.Done? {
        LastSeptet(bits, index, gathered);
      } else if step.More? {
        DecodeVarMeans(bits[8..], index + 1, step.next);
        MeansStep(DecodeVar(bits[8..], index + 1, step.next), bits, index, gathered);
      }
    }
  }

  lemma LastSeptet(bits: seq<bool>, index: nat, gathered: nat)
    requires index <= 4 && |bits| >= 8 && VarStep(ByteAt(bits), index, gathered).Done?
    ensures Means(Read(Ok(VarStep(ByteAt(bits), index, gathered).value), 8), bits, index, gathered)
  {
    assert bits[..8][..8] == bits[..8] && bits[..8][8..] == [];
    assert Base128(bits[..8]) == ByteAt(bits);
    assert Pow(128, 1) == 128 * Pow(128, 0) == 128;
  }

  lemma MeansStep(rest: Read<nat>, bits: seq<bool>, index: nat, gathered: nat)
    requires index < 4 && |bits| >= 8 && rest.used <= |bits| - 8
    requires VarStep(ByteAt(bits), index, gathered).More?
    requires Means(rest, bits[8..], index + 1, VarStep(ByteAt(bits), index, gathered).next)
    ensures Means(Read(rest.outcome, 8 + rest.used), bits, index, gathered)
  {
    if rest.outcome.Ok? {
      var used := 8 + rest.used;
      var whole, tail := bits[..used], bits[8..][..rest.used];
      assert whole[..8] == bits[..8] && whole[8..] == tail;
      assert Base128(whole) == ByteAt(bits) % 128 + 128 * Base128(tail);
      assert used / 8 == rest.used / 8 + 1;
      assert Pow(128, used / 8) == 128 * Pow(128, rest.used / 8);
    }
  }

  /** A number takes at most `k` bytes exactly when it is below 128^k. */
  lemma {:induction false} EncodeVarLength(value: nat, k: nat)
    requires k >= 1
    ensures |EncodeVar(value)| <= k <==> value < Pow(128, k)
    decreases k
  {
    if k == 1 {
      assert Pow(128, 1) == 128 * Pow(128, 0) == 128;
    } else if value < 128 {
      assert Pow(128, k) == 128 * Pow(128, k - 1);
      assert Pow(128, k - 1) >= 1;
    } else {
      EncodeVarLength(value / 128, k - 1);
      DivBelow(value, 128, Pow(128, k - 1));
    }
  }

  /** Every accepted encoding of a value is at least as long as the one the writer emits. */
  lemma EncodeVarShortest(bits: seq<bool>)
    requires DecodeVar(bits, 0, 0).outcome.Ok?
    ensures var r := DecodeVar(bits, 0, 0);
      && r.outcome.value == Base128(bits[..r.used]) < U32
      && 1 <= |EncodeVar(r.outcome.value)| <= r.used / 8 <= 5
  {
    DecodeVarMeans(bits, 0, 0);
    var r := DecodeVar(bits, 0, 0);
    EncodeVarLength(r.outcome.value, r.used / 8);
  }

  lemma EncodeVarUnfold(rest: nat)
    ensures rest / 128 == 0 ==> EncodeVar(rest) == [rest % 128]
    ensures rest / 128 != 0 ==> EncodeVar(rest) == [rest % 128 + 128] + EncodeVar(rest / 128) && rest / 128 < rest
  {
  }

  lemma {:induction false} VarRoundTrip(value: nat, index: nat, gathered: nat, tail: seq<bool>)
    requires index <= 4 && Scale(value, index) < U32
    ensures DecodeVar(BytesBits(EncodeVar(value)) + tail, index, gathered)
         == Read(Ok(gathered + Scale(value, index)), 8 * |EncodeVar(value)|)
    decreases 4 - index
  {
    hide DecodeVar, BytesBits, VarStep, Scale;
    if value < 128 {
      VarLast(value, index, gathered, tail);
    } else {
      VarSplit(value, index);
      var next := gathered + Scale(value % 128, index);
      VarContinues(value, index, gathered);
      VarRoundTrip(value / 128, index + 1, next, tail);
      VarNext(128 + value % 128, EncodeVar(value / 128), tail, index, gathered);
    }
  }

  lemma VarLast(value: nat, index: nat, gathered: nat, tail: seq<bool>)
    requires value < 128 && index <= 4 && Scale(value, index) < U32
    ensures DecodeVar(BytesBits(EncodeVar(value)) + tail, index, gathered)
         == Read(Ok(gathered + Scale(value, index)), 8 * |EncodeVar(value)|)
  {
    VarByte(value, [], tail);
    assert EncodeVar(value) == [value] + [];
    assert VarStep(value, index, gathered) == Done(gathered + Scale(value, index));
  }

  lemma VarContinues(value: nat, index: nat, gathered: nat)
    requires value >= 128 && index < 4 && Scale(value, index) < U32
    ensures VarStep(128 + value % 128, index, gathered) == More(gathered + Scale(value % 128, index))
  {
    VarSplit(value, index);
  }

  lemma VarNext(head: Byte, rest: seq<Byte>, tail: seq<bool>, index: nat, gathered: nat)
    requires index < 4 && VarStep(head, index, gathered).More?
    ensures var r := DecodeVar(BytesBits(rest) + tail, index + 1, VarStep(head, index, gathered).next);
      DecodeVar(BytesBits([head] + rest) + tail, index, gathered) == Read(r.outcome, 8 + r.used)
  {
    VarByte(head, rest, tail);
  }

  /** The septet the writer emits at `index`, and what it leaves for the next byte. */
  lemma VarSplit(value: nat, index: nat)
    requires index <= 4 && Scale(value, index) < U32 && value >= 128
    ensures index < 4
    ensures Scale(value / 128, index + 1) < U32
    ensures Scale(value, index) == Scale(value % 128, index) + Scale(value / 128, index + 1)
  {
    if index == 0 {
    } else if index == 1 {
    } else if index == 2 {
    } else {
      assert index == 3;
    }
  }

  lemma VarByte(head: Byte, rest: seq<Byte>, tail: seq<bool>)
    ensures var bits := BytesBits([head] + rest) + tail;
      |bits| >= 8 && ByteAt(bits) == head && bits[8..] == BytesBits(rest) + tail
  {
    var bits := BytesBits([head] + rest) + tail;
    assert ([head] + rest)[1..] == rest;
    ByteBelow(head);
    LowRoundTrip(head, 8);
    assert bits[..8] == Low(head, 8);
  }

  // ---------------------------------------------------------------- typed values

  datatype Width = W8 | W16 | W32 | W64
  {
    function Bits(): nat
    {
      match this case W8 => 8 case W16 => 16 case W32 => 32 case W64 => 64
    }
  }

  datatype Value =
    | Boolean(flag: bool)
    | Unsigned(width: Width, n: nat)
    | Signed(width: Width, z: int)
    | Float(width: Width, pattern: nat)
    | VarUInt32(v: nat)
    | Bytes(bytes: seq<Byte>)
    | Text(utf8: seq<Byte>)

  /** What the reader is asked for: a byte string by length, a string by the largest length allowed. */
  datatype Kind =
    | BooleanKind
    | UnsignedKind(width: Width)
    | SignedKind(width: Width)
    | FloatKind(width: Width)
    | VarKind
    | BytesKind(length: nat)
    | TextKind(maximum: nat)

  /** `as u32` and `as u64` of a negative number. */
  function Wrap(z: int, width: Width): nat
  {
    z % Pow(2, width.Bits())
  }

  /** `as i32` and `as i64` of an unsigned word. */
  function Unwrap(n: nat, width: Width): int
  {
    if n < Pow(2, width.Bits() - 1) then n else n - Pow(2, width.Bits())
  }

  /** The range each Rust type gives its values, and a text the reader's limit admits. */
  ghost predicate Fits(value: Value, kind: Kind, valid: seq<Byte> -> bool)
  {
    match (value, kind)
    case (Boolean(_), BooleanKind) => true
    case (Unsigned(w, n), UnsignedKind(k)) => w == k && n < Pow(2, w.Bits())
    case (Signed(w, z), SignedKind(k)) =>
      w == k && -(Pow(2, w.Bits() - 1) as int) <= z < Pow(2, w.Bits() - 1)
    case (Float(w, n), FloatKind(k)) => w == k && n < Pow(2, w.Bits())
    case (VarUInt32(v), VarKind) => v < U32
    case (Bytes(bytes), BytesKind(length)) => |bytes| == length
    case (Text(utf8), TextKind(maximum)) => |utf8| <= maximum && |utf8| < U32 && valid(utf8)
    case _ => false
  }

  function Encode(value: Value): seq<bool>
  {
    match value
    case Boolean(flag) => [flag]
    case Unsigned(w, n) => Low(n, w.Bits())
    case Signed(w, z) => Low(Wrap(z, w), w.Bits())
    case Float(w, n) => Low(n, w.Bits())
    case VarUInt32(v) => BytesBits(EncodeVar(v))
    case Bytes(bytes) => BytesBits(bytes)
    case Text(utf8) => BytesBits(EncodeVar(|utf8|)) + BytesBits(utf8)
  }

  function EncodeAll(values: seq<Value>): seq<bool>
  {
    if values == [] then [] else Encode(values[0]) + EncodeAll(values[1..])
  }

  function DecodeBits(bits: seq<bool>, count: nat): Read<nat>
  {
    if 1 <= count <= 64 && count <= |bits| then Read(Ok(FromBits(bits[..count])), count)
    else Read(Err(EndOfBits), 0)
  }

  function BytesOf(bits: seq<bool>, length: nat): (bytes: seq<Byte>)
    requires 8 * length <= |bits|
    ensures |bytes| == length
  {
    if length == 0 then [] else
    [ByteAt(bits)] + BytesOf(bits[8..], length - 1)
  }

  function DecodeBytes(bits: seq<bool>, length: nat): Read<seq<Byte>>
  {
    if length <= |bits| / 8 then Read(Ok(BytesOf(bits, length)), 8 * length)
    else Read(Err(EndOfBytes), 0)
  }

  function DecodeText(bits: seq<bool>, maximum: nat, valid: seq<Byte> -> bool): Read<seq<Byte>>
  {
    var head := DecodeVar(bits, 0, 0);
    if head.outcome.Err? then Read(Err(head.outcome.error), head.used) else
    if head.outcome.value > maximum then Read(Err(TextTooLong), head.used) else
    var body := DecodeBytes(bits[head.used..], head.outcome.value);
    if body.outcome.Ok? && !valid(body.outcome.value) then Read(Err(InvalidUtf8), head.used + body.used)
    else Read(body.outcome, head.used + body.used)
  }

  /**
   An accepted text is within the maximum, valid and written behind its length; a refused one has no
   length, one above the maximum, too few bytes, or bytes that are not valid.
   */
  lemma TextMeans(bits: seq<bool>, maximum: nat, valid: seq<Byte> -> bool)
    ensures var r, head := DecodeText(bits, maximum, valid), DecodeVar(bits, 0, 0);
      match r.outcome
      case Ok(text) =>
        && head.outcome == Ok(|text|) && |text| <= maximum && valid(text)
        && r.used == head.used + 8 * |text| <= |bits| && text == BytesOf(bits[head.used..], |text|)
      case Err(TextTooLong) => head.outcome.Ok? && head.outcome.value > maximum
      case Err(InvalidUtf8) =>
        && head.outcome.Ok? && 8 * head.outcome.value <= |bits| - head.used
        && !valid(BytesOf(bits[head.used..], head.outcome.value))
      case Err(EndOfBytes) => head.outcome.Ok? && 8 * head.outcome.value > |bits| - head.used
      case Err(e) => head.outcome == Err(e)
  {
    TextHead(bits);
    hide DecodeVar, BytesOf;
  }

  lemma TextHead(bits: seq<bool>)
    ensures DecodeVar(bits, 0, 0).outcome !in {Err(TextTooLong), Err(InvalidUtf8), Err(EndOfBytes)}
  {
    DecodeVarMeans(bits, 0, 0);
    hide DecodeVar;
  }

  function MapRead<S, T>(r: Read<S>, f: S -> T): Read<T>
  {
    match r.outcome
    case Ok(v) => Read(Ok(f(v)), r.used)
    case Err(e) => Read(Err(e), r.used)
  }

  function Decode(bits: seq<bool>, kind: Kind, valid: seq<Byte> -> bool): (r: Read<Value>)
    ensures r.used <= |bits|
  {
    match kind
    case BooleanKind => MapRead(DecodeBits(bits, 1), n => Boolean(n != 0))
    case UnsignedKind(w) => MapRead(DecodeBits(bits, w.Bits()), n => Unsigned(w, n))
    case SignedKind(w) => MapRead(DecodeBits(bits, w.Bits()), n => Signed(w, Unwrap(n, w)))
    case FloatKind(w) => MapRead(DecodeBits(bits, w.Bits()), n => Float(w, n))
    case VarKind => MapRead(DecodeVar(bits, 0, 0), n => VarUInt32(n))
    case BytesKind(length) => MapRead(DecodeBytes(bits, length), b => Bytes(b))
    case TextKind(maximum) => MapRead(DecodeText(bits, maximum, valid), b => Text(b))
  }

  function DecodeAll(bits: seq<bool>, kinds: seq<Kind>, valid: seq<Byte> -> bool): Result<seq<Value>, Failure>
  {
    if kinds == [] then Ok([]) else
    var head := Decode(bits, kinds[0], valid);
    if head.outcome.Err? then Err(head.outcome.error) else
    var rest := DecodeAll(bits[head.used..], kinds[1..], valid);
    if rest.Err? then rest else Ok([head.outcome.value] + rest.value)
  }

  // ---------------------------------------------------------------- round trips

  lemma {:induction false} BytesRoundTrip(bytes: seq<Byte>, tail: seq<bool>)
    ensures BytesOf(BytesBits(bytes) + tail, |bytes|) == bytes
  {
    var bits := BytesBits(bytes) + tail;
    if bytes != [] {
      ByteBelow(bytes[0]);
      LowRoundTrip(bytes[0], 8);
      assert bits[..8] == Low(bytes[0], 8);
      assert bits[8..] == BytesBits(bytes[1..]) + tail;
      BytesRoundTrip(bytes[1..], tail);
    }
  }

  /** The bytes of a number, least significant first. */
  ghost function LittleEndian(n: nat, count: nat): (bytes: seq<Byte>)
    ensures |bytes| == count
  {
    if count == 0 then [] else [n % 256] + LittleEndian(n / 256, count - 1)
  }

  lemma {:induction false} LowIsLittleEndian(n: nat, count: nat)
    ensures Low(n, 8 * count) == BytesBits(LittleEndian(n, count))
    decreases count
  {
    if count > 0 {
      LowIsLittleEndian(n / 256, count - 1);
      LowSplit(n, 8 * count - 8);
      var bytes := LittleEndian(n, count);
      assert bytes[0] == n % 256 && bytes[1..] == LittleEndian(n / 256, count - 1);
      assert BytesBits(bytes) == Low(n % 256, 8) + BytesBits(bytes[1..]);
    }
  }

  /** Eight low bits and the rest. */
  lemma LowSplit(n: nat, count: nat)
    ensures Low(n, count + 8) == Low(n % 256, 8) + Low(n / 256, count)
  {
    LowSplitAt(n, 8, count);
    assert Pow(2, 4) == 16 && Pow(2, 8) == 256;
  }

  lemma {:induction false} LowSplitAt(n: nat, k: nat, count: nat)
    ensures Low(n, count + k) == Low(n % Pow(2, k), k) + Low(n / Pow(2, k), count)
    decreases k
  {
    if k == 0 {
      assert Pow(2, 0) == 1;
    } else {
      LowSplitAt(n / 2, k - 1, count);
      HalfRemainder(n, Pow(2, k - 1));
    }
  }

  lemma HalfRemainder(n: nat, p: nat)
    requires p > 0
    ensures n % (2 * p) / 2 == n / 2 % p && n % (2 * p) % 2 == n % 2 && n / (2 * p) == n / 2 / p
  {
    HalveThenDivide(n, p);
    var q := n / 2 / p;
    assert n / 2 == p * q + n / 2 % p;
    assert n == 2 * (n / 2) + n % 2;
    assert n % (2 * p) == n - 2 * p * (n / (2 * p));
    assert 2 * p * q == 2 * (p * q);
  }

  /** Words, of one, two, four or eight bytes, are written least significant byte first. */
  lemma WordsAreLittleEndian(n: nat)
    ensures Encode(Unsigned(W8, n)) == BytesBits(LittleEndian(n, 1))
    ensures Encode(Unsigned(W16, n)) == BytesBits(LittleEndian(n, 2))
    ensures Encode(Unsigned(W32, n)) == BytesBits(LittleEndian(n, 4))
    ensures Encode(Unsigned(W64, n)) == BytesBits(LittleEndian(n, 8))
  {
    LowIsLittleEndian(n, 1);
    LowIsLittleEndian(n, 2);
    LowIsLittleEndian(n, 4);
    LowIsLittleEndian(n, 8);
    hide Low, LittleEndian, BytesBits;
  }

  lemma WordRoundTrip(n: nat, width: Width, tail: seq<bool>)
    requires n < Pow(2, width.Bits())
    ensures DecodeBits(Low(n, width.Bits()) + tail, width.Bits()) == Read(Ok(n), width.Bits())
  {
    var bits := Low(n, width.Bits());
    assert (bits + tail)[..|bits|] == bits;
    LowRoundTrip(n, width.Bits());
  }

  lemma SignedRoundTrip(z: int, width: Width)
    requires -(Pow(2, width.Bits() - 1) as int) <= z < Pow(2, width.Bits() - 1)
    ensures Wrap(z, width) < Pow(2, width.Bits())
    ensures Unwrap(Wrap(z, width), width) == z
  {
    var half := Pow(2, width.Bits() - 1);
    assert Pow(2, width.Bits()) == 2 * half;
    WrapUnwrap(z, half);
  }

  lemma WrapUnwrap(z: int, half: nat)
    requires -(half as int) <= z < half
    ensures z % (2 * half) == if z < 0 then z + 2 * half else z
  {
    var m := 2 * half;
    var r := if z < 0 then z + m else z;
    var q := if z < 0 then -1 else 0;
    assert z == q * m + r;
    var d := z / m - q;
    assert z == m * (z / m) + z % m;
    assert m * d == r - z % m;
    assert d >= 1 ==> m * d >= m;
    assert d <= -1 ==> m * d <= -(m as int);
  }

  lemma ValueRoundTrip(value: Value, kind: Kind, tail: seq<bool>, valid: seq<Byte> -> bool)
    requires Fits(value, kind, valid)
    ensures Decode(Encode(value) + tail, kind, valid) == Read(Ok(value), |Encode(value)|)
  {
    match value
    case Boolean(flag) =>
      assert ([flag] + tail)[..1] == [flag];
      assert FromBits([flag]) == if flag then 1 else 0;
    case Unsigned(w, n) => WordRoundTrip(n, w, tail);
    case Signed(w, z) =>
      SignedRoundTrip(z, w);
      WordRoundTrip(Wrap(z, w), w, tail);
    case Float(w, n) => WordRoundTrip(n, w, tail);
    case VarUInt32(v) =>
      VarRoundTrip(v, 0, 0, tail);
    case Bytes(bytes) => BytesRoundTrip(bytes, tail);
    case Text(utf8) => TextRoundTrip(utf8, kind.maximum, tail, valid);
  }

  lemma TextRoundTrip(utf8: seq<Byte>, maximum: nat, tail: seq<bool>, valid: seq<Byte> -> bool)
    requires |utf8| <= maximum && |utf8| < U32 && valid(utf8)
    ensures DecodeText(Encode(Text(utf8)) + tail, maximum, valid) == Read(Ok(utf8), |Encode(Text(utf8))|)
  {
    var head := BytesBits(EncodeVar(|utf8|));
    var body := BytesBits(utf8) + tail;
    VarRoundTrip(|utf8|, 0, 0, body);
    assert Encode(Text(utf8)) + tail == head + body;
    assert (head + body)[|head|..] == body;
    BytesRoundTrip(utf8, tail);
  }

  /** Reading the same types back returns the same values, whatever follows them. */
  lemma {:induction false} RoundTrip(values: seq<Value>, kinds: seq<Kind>, tail: seq<bool>, valid: seq<Byte> -> bool)
    requires |values| == |kinds|
    requires forall i | 0 <= i < |values| :: Fits(values[i], kinds[i], valid)
    ensures DecodeAll(EncodeAll(values) + tail, kinds, valid) == Ok(values)
  {
    hide Fits, Encode, Decode;
    if values != [] {
      var rest := EncodeAll(values[1..]) + tail;
      var head := Encode(values[0]);
      assert EncodeAll(values) + tail == head + rest;
      ValueRoundTrip(values[0], kinds[0], rest, valid);
      assert (head + rest)[|head|..] == rest;
      RoundTrip(values[1..], kinds[1..], tail, valid);
      assert values == [values[0]] + values[1..];
    }
  }

  // ---------------------------------------------------------------- bitwise or

  /** The bitwise `|` of two numbers. */
  function BitOr(a: nat, b: nat): nat
  {
    if a == 0 then b else if b == 0 then a
    else (if a % 2 == 1 || b % 2 == 1 then 1 else 0) + 2 * BitOr(a / 2, b / 2)
  }

  /** A bit of the result is set exactly when it is set in either. */
  lemma {:induction false} OrMeans(a: nat, b: nat, index: nat)
    ensures TestBit(BitOr(a, b), index) <==> TestBit(a, index) || TestBit(b, index)
    decreases index
  {
    var low, rest := if a % 2 == 1 || b % 2 == 1 then 1 else 0, BitOr(a / 2, b / 2);
    if a == 0 && b == 0 {
      ZeroBits(index);
    } else {
      assert BitOr(a, b) == low + 2 * rest && (low + 2 * rest) / 2 == rest;
      if index > 0 {
        OrMeans(a / 2, b / 2, index - 1);
      }
    }
  }

  /** Bits above all those of a number are disjoint from them, so setting them adds them. */
  lemma {:induction false} OrDisjoint(a: nat, b: nat, index: nat)
    requires a < Pow(2, index)
    ensures BitOr(a, b * Pow(2, index)) == a + b * Pow(2, index)
  {
    if a > 0 && b > 0 {
      var half := b * Pow(2, index - 1);
      assert b * Pow(2, index) == 2 * half;
      OrDisjoint(a / 2, b, index - 1);
    }
  }

  lemma OrAbove(a: nat, index: nat)
    requires a < Pow(2, index)
    ensures BitOr(a, Pow(2, index)) == a + Pow(2, index)
  {
    OrDisjoint(a, 1, index);
  }

  lemma SevenMore(n: nat)
    ensures Pow(2, n + 7) == 0x80 * Pow(2, n)
  {
    assert Pow(2, n + 1) == 2 * Pow(2, n) && Pow(2, n + 2) == 2 * Pow(2, n + 1) && Pow(2, n + 3) == 2 * Pow(2, n + 2);
    assert Pow(2, n + 4) == 2 * Pow(2, n + 3) && Pow(2, n + 5) == 2 * Pow(2, n + 4) && Pow(2, n + 6) == 2 * Pow(2, n + 5);
  }

  lemma ScaleIsShift(x: nat, index: nat)
    requires index <= 4
    ensures Scale(x, index) == x * Pow(2, 7 * index)
  {
    SevenMore(0);
    SevenMore(7);
    SevenMore(14);
    SevenMore(21);
    hide Pow;
    assert Pow(2, 0) == 1 by { PowZero(); }
  }

  lemma PowZero()
    ensures Pow(2, 0) == 1
  {
  }

  /** The septets of a number do not overlap. */
  lemma OrSeptet(gathered: nat, septet: nat, index: nat)
    requires index <= 4 && gathered < Pow(2, 7 * index) && septet < 128
    ensures BitOr(gathered, Scale(septet, index)) == gathered + Scale(septet, index) < Pow(2, 7 * (index + 1))
  {
    ScaleIsShift(septet, index);
    OrDisjoint(gathered, septet, 7 * index);
    SevenMore(7 * index);
    hide Pow, BitOr, Scale;
    SeptetBound(gathered, septet, Pow(2, 7 * index));
  }

  lemma SeptetBound(gathered: nat, septet: nat, p: nat)
    requires gathered < p && septet < 128
    ensures gathered + septet * p < 128 * p
  {
    assert (127 - septet) * p >= 0;
  }

  // ---------------------------------------------------------------- the writer

  class BitWriter {
    var data: seq<Byte>
    var position: nat

    /** No spare byte, and nothing but zero bits after the position. */
    ghost predicate Valid()
      reads this
    {
      && |data| == (position + 7) / 8
      && forall p | position <= p < 8 * |data| :: !BitAt(data, p)
    }

    ghost function Written(): seq<bool>
      reads this
      requires Valid()
    {
      Stream(data, 0, position)
    }

    constructor ()
      ensures Valid() && Written() == []
    {
      data, position := [], 0;
    }

    method Bits(value: nat, count: nat)
      requires Valid()
      modifies this
      ensures Valid() && Written() == old(Written()) + Low(value, count)
    {
      hide Low, BitAt, Stream, Pow, OrBit, Zeros;
      var size := (position + count + 7) / 8;
      PatchStart(data, position, Low(value, count), size);
      data := data + Zeros(size - |data|);
      ghost var before := data;
      for bit := 0 to count
        invariant position == old(position)
        invariant Patched(data, before, position, Low(value, count), bit)
      {
        ShiftAndMask(value, bit);
        TestBitLow(value, count, bit);
        PatchBit(data, before, position, Low(value, count), bit);
        var at := position + bit;
        data := data[at / 8 := OrBit(data[at / 8], at % 8, value / Pow(2, bit) % 2 == 1)];
      }
      PatchDone(data, old(data), before, position, Low(value, count));
      position := position + count;
    }

    method Boolean(value: bool)
      requires Valid()
      modifies this
      ensures Valid() && Written() == old(Written()) + [value]
    {
      Bits(if value then 1 else 0, 1);
      assert Low(if value then 1 else 0, 1) == [value] + Low(0, 0);
    }

    method Byte(value: Byte)
      requires Valid()
      modifies this
      ensures Valid() && Written() == old(Written()) + Low(value, 8)
    {
      Bits(value, 8);
    }

    method Word(width: Width, value: nat)
      requires Valid()
      modifies this
      ensures Valid() && Written() == old(Written()) + Low(value, width.Bits())
    {
      Bits(value, width.Bits());
    }

    method VariableUInt32(value: nat)
      requires Valid()
      modifies this
      ensures Valid() && Written() == old(Written()) + BytesBits(EncodeVar(value))
    {
      hide BytesBits, Low, BitWriter.Written, BitWriter.Valid, EncodeVar, BitOr, Pow;
      var rest := value;
      assert BytesBits([]) == [] by { EmptyBytes(); }
      ghost var emitted: seq<Byte> := [];
      while true
        invariant Valid() && Written() == old(Written()) + BytesBits(emitted)
        invariant EncodeVar(value) == emitted + EncodeVar(rest)
        decreases rest
      {
        EncodeVarUnfold(rest);
        SevenMore(0);
        PowZero();
        var byte := rest % 128;
        rest := rest / 128;
        if rest != 0 {
          OrAbove(byte, 7);
          byte := BitOr(byte, 128);
        }
        Byte(byte);
        BytesBitsAppend(emitted, byte);
        emitted := emitted + [byte];
        if rest == 0 {
          break;
        }
      }
      assert emitted == EncodeVar(value);
    }

    method Bytes(value: seq<Byte>)
      requires Valid()
      modifies this
      ensures Valid() && Written() == old(Written()) + BytesBits(value)
    {
      hide BytesBits, Low, BitWriter.Written, BitWriter.Valid;
      EmptyBytes();
      for i := 0 to |value|
        invariant Valid() && Written() == old(Written()) + BytesBits(value[..i])
      {
        Byte(value[i]);
        BytesBitsAppend(value[..i], value[i]);
        assert value[..i] + [value[i]] == value[..i + 1];
      }
      assert value[..|value|] == value;
    }

    /** A text whose length does not fit a u32 is refused before anything is written. */
    method Text(utf8: seq<Byte>) returns (ok: bool)
      requires Valid()
      modifies this
      ensures Valid() && ok == (|utf8| < U32)
      ensures Written() == if ok then old(Written()) + Encode(Value.Text(utf8)) else old(Written())
    {
      if |utf8| >= U32 {
        return false;
      }
      VariableUInt32(|utf8|);
      Bytes(utf8);
      ok := true;
      assert Encode(Value.Text(utf8)) == BytesBits(EncodeVar(|utf8|)) + BytesBits(utf8);
    }

    method Write(value: Value) returns (ok: bool)
      requires Valid()
      modifies this
      ensures Valid() && ok == (value.Text? ==> |value.utf8| < U32)
      ensures Written() == if ok then old(Written()) + Encode(value) else old(Written())
    {
      ok := true;
      match value
      case Boolean(flag) => Boolean(flag);
      case Unsigned(w, n) => Word(w, n);
      case Signed(w, z) => Word(w, Wrap(z, w));
      case Float(w, pattern) => Word(w, pattern);
      case VarUInt32(v) => VariableUInt32(v);
      case Bytes(bytes) => Bytes(bytes);
      case Text(utf8) => ok := Text(utf8);
    }
  }

  /** `bits[..done]` has been written over the zero bits of `before` from `position` on. */
  ghost predicate Patched(data: seq<Byte>, before: seq<Byte>, position: nat, bits: seq<bool>, done: nat)
  {
    && |data| == |before| && done <= |bits| && position + |bits| <= 8 * |before|
    && (forall p | position <= p < 8 * |before| :: !BitAt(before, p))
    && forall p | 0 <= p < 8 * |data| ::
      BitAt(data, p) == if position <= p < position + done then bits[p - position] else BitAt(before, p)
  }

  lemma PatchBit(data: seq<Byte>, before: seq<Byte>, position: nat, bits: seq<bool>, done: nat)
    requires Patched(data, before, position, bits, done) && done < |bits|
    ensures var at := position + done;
      Patched(data[at / 8 := OrBit(data[at / 8], at % 8, bits[done])], before, position, bits, done + 1)
  {
    var at := position + done;
    var changed := data[at / 8 := OrBit(data[at / 8], at % 8, bits[done])];
    forall p | 0 <= p < 8 * |data|
      ensures BitAt(changed, p) == if p == at then bits[done] else BitAt(data, p)
    {
      assert !BitAt(data, at);
      if p / 8 == at / 8 {
        assert p % 8 == at % 8 <==> p == at;
      }
    }
  }

  lemma PatchDone(data: seq<Byte>, start: seq<Byte>, before: seq<Byte>, position: nat, bits: seq<bool>)
    requires Patched(data, before, position, bits, |bits|)
    requires position <= 8 * |start| && |start| <= |before|
    requires forall p | 0 <= p < position :: BitAt(before, p) == BitAt(start, p)
    ensures Stream(data, 0, position + |bits|) == Stream(start, 0, position) + bits
    ensures forall p | position + |bits| <= p < 8 * |data| :: !BitAt(data, p)
  {
  }

  function Zeros(n: nat): (z: seq<Byte>)
    ensures |z| == n && forall i | 0 <= i < n :: z[i] == 0
  {
    seq(n, (_: nat) => 0)
  }

  lemma ZeroPadding(data: seq<Byte>, size: nat)
    requires size >= |data|
    ensures var padded := data + Zeros(size - |data|);
      forall p | 0 <= p < 8 * size :: BitAt(padded, p) == (p < 8 * |data| && BitAt(data, p))
  {
    var padded := data + Zeros(size - |data|);
    forall p | 0 <= p < 8 * size ensures BitAt(padded, p) == (p < 8 * |data| && BitAt(data, p)) {
      assert padded[p / 8] == if p < 8 * |data| then data[p / 8] else 0;
      ZeroBits(p % 8);
    }
  }

  lemma PatchStart(start: seq<Byte>, position: nat, bits: seq<bool>, size: nat)
    requires |start| == (position + 7) / 8 && size == (position + |bits| + 7) / 8
    requires forall p | position <= p < 8 * |start| :: !BitAt(start, p)
    ensures var padded := start + Zeros(size - |start|);
      && Patched(padded, padded, position, bits, 0)
      && forall p | 0 <= p < position :: BitAt(padded, p) == BitAt(start, p)
  {
    ZeroPadding(start, size);
    hide BitAt, Zeros;
    var padded := start + Zeros(size - |start|);
    assert |padded| == size;
    forall p | position <= p < 8 * size ensures !BitAt(padded, p) {
      assert p < 8 * |start| ==> !BitAt(start, p);
    }
  }

  lemma {:induction false} ZeroBits(index: nat)
    ensures !TestBit(0, index)
  {
    if index > 0 {
      ZeroBits(index - 1);
    }
  }

  lemma StreamDrop(data: seq<Byte>, from: nat, to: nat, count: nat)
    requires from + count <= to <= 8 * |data|
    ensures Stream(data, from, to)[count..] == Stream(data, from + count, to)
  {
  }

  /** One more bit ORed in at its place. */
  lemma GatherBit(bits: seq<bool>, count: nat)
    requires count < |bits|
    ensures FromBits(bits[..count + 1]) == FromBits(bits[..count]) + (if bits[count] then Pow(2, count) else 0)
  {
    FromBitsAppend(bits[..count], bits[count]);
    assert bits[..count] + [bits[count]] == bits[..count + 1];
  }

  lemma NoBits(bits: seq<bool>)
    ensures FromBits(bits[..0]) == 0
  {
  }

  lemma ReadBits(bits: seq<bool>, count: nat)
    requires 1 <= count <= 64 && count <= |bits|
    ensures DecodeBits(bits, count) == Read(Ok(FromBits(bits[..count])), count)
  {
    hide FromBits;
  }

  lemma OrNextBit(bits: seq<bool>, count: nat)
    requires count < |bits|
    ensures var gathered, bit := FromBits(bits[..count]), if bits[count] then Pow(2, count) else 0;
      BitOr(gathered, bit) == gathered + bit
  {
    FromBitsRoundTrip(bits[..count]);
    OrAbove(FromBits(bits[..count]), count);
  }

  /** One more bit of the buffer, shifted, masked and ORed in. */
  lemma GatherNext(data: seq<Byte>, position: nat, bit: nat)
    requires position + bit < 8 * |data|
    ensures var all, at := Stream(data, position, 8 * |data|), position + bit;
      FromBits(all[..bit + 1])
      == BitOr(FromBits(all[..bit]), if data[at / 8] / Pow(2, at % 8) % 2 == 1 then Pow(2, bit) else 0)
  {
    var all, at := Stream(data, position, 8 * |data|), position + bit;
    GatherBit(all, bit);
    ShiftAndMask(data[at / 8], at % 8);
    OrNextBit(all, bit);
    hide FromBits, BitOr, Pow;
  }

  lemma EmptyBytes()
    ensures BytesBits([]) == []
  {
  }

  lemma {:induction false} BytesBitsAppend(bytes: seq<Byte>, byte: Byte)
    ensures BytesBits(bytes + [byte]) == BytesBits(bytes) + Low(byte, 8)
  {
    if bytes == [] {
      assert [byte][1..] == [];
    } else {
      assert (bytes + [byte])[1..] == bytes[1..] + [byte];
      BytesBitsAppend(bytes[1..], byte);
    }
  }

  // ---------------------------------------------------------------- the reader

  class BitReader {
    const data: seq<Byte>
    var position: nat

    ghost predicate Valid()
      reads this
    {
      position <= 8 * |data|
    }

    ghost function Remaining(): seq<bool>
      reads this
      requires Valid()
    {
      Stream(data, position, 8 * |data|)
    }

    constructor (data: seq<Byte>)
      ensures Valid() && this.data == data && position == 0
    {
      this.data := data;
      position := 0;
    }

    method Bits(count: nat) returns (r: Result<nat, Failure>)
      requires Valid()
      modifies this
      ensures Valid() && var read := DecodeBits(old(Remaining()), count);
        && r == read.outcome && position == old(position) + read.used
        && Remaining() == old(Remaining())[read.used..]
    {
      if !(1 <= count <= 64 && count <= 8 * |data| - position) {
        return Err(EndOfBits);
      }
      var result := 0;
      ghost var all := Remaining();
      NoBits(all);
      hide FromBits, BitOr, Pow, DecodeBits, Stream;
      for bit := 0 to count
        invariant position == old(position)
        invariant result == FromBits(all[..bit])
      {
        var at := position + bit;
        GatherNext(data, position, bit);
        result := BitOr(result, if data[at / 8] / Pow(2, at % 8) % 2 == 1 then Pow(2, bit) else 0);
      }
      StreamDrop(data, position, 8 * |data|, count);
      ReadBits(all, count);
      position := position + count;
      r := Ok(result);
    }

    method Byte() returns (r: Result<Byte, Failure>)
      requires Valid()
      modifies this
      ensures Valid()
      ensures if |old(Remaining())| < 8 then r == Err(EndOfBits) && position == old(position)
              else r == Ok(ByteAt(old(Remaining()))) && position == old(position) + 8
      ensures |old(Remaining())| >= 8 ==> Remaining() == old(Remaining())[8..]
    {
      ghost var all := Remaining();
      var n := Bits(8);
      if n.Err? {
        return Err(n.error);
      }
      ByteBound(all);
      r := Ok(n.value);
    }

    /** The "exceeds five bytes" failure at the end of the loop is never reached. */
    method VariableUInt32() returns (r: Result<nat, Failure>)
      requires Valid()
      modifies this
      ensures Valid() && var read := DecodeVar(old(Remaining()), 0, 0);
        r == read.outcome && position == old(position) + read.used
      ensures r != Err(ExceedsFiveBytes)
      ensures r.Ok? ==> r.value < U32
    {
      hide DecodeVar, FromBits, ByteAt, BitOr, Pow;
      PowZero();
      var result: nat := 0;
      var index := 0;
      ghost var whole := DecodeVar(Remaining(), 0, 0);
      ghost var rest := whole;
      EncodeVarSound(Remaining());
      while index < 5
        invariant index <= 5 && Valid() && position >= old(position) && result < Pow(2, 7 * index)
        invariant whole.outcome == rest.outcome && whole.used == position - old(position) + rest.used
        invariant if index < 5 then rest == DecodeVar(Remaining(), index, result) else rest.outcome == Err(ExceedsFiveBytes)
        decreases 5 - index
      {
        ghost var here := Remaining();
        var byte := Byte();
        if byte.Err? {
          ShortVar(here, index, result);
          return Err(byte.error);
        }
        ghost var step := VarStep(byte.value, index, result);
        rest := AfterByte(here, index, result);
        if index == 4 && byte.value / 16 != 0 {
          return Err(Exceeds32Bits);
        }
        // The 32-bit shift keeps every bit of the septet.
        assert Scale(byte.value % 128, index) < U32;
        OrSeptet(result, byte.value % 128, index);
        result := BitOr(result, Scale(byte.value % 128, index) % U32);
        assert step.More? ==> result == step.next;
        if byte.value / 128 == 0 {
          return Ok(result);
        }
        index := index + 1;
      }
      assert false;
      r := Err(ExceedsFiveBytes);
    }

    /** Byte-aligned reads copy the slice; the result is the bit-by-bit one. */
    method Bytes(length: nat) returns (r: Result<seq<Byte>, Failure>)
      requires Valid()
      modifies this
      ensures Valid() && var read := DecodeBytes(old(Remaining()), length);
        r == read.outcome && position == old(position) + read.used
    {
      if length > (8 * |data| - position) / 8 {
        return Err(EndOfBytes);
      }
      if position % 8 == 0 {
        var start := position / 8;
        AlignedBytes(data, start, length);
        position := position + length * 8;
        return Ok(data[start..start + length]);
      }
      var bytes := UnalignedBytes(length);
      r := Ok(bytes);
    }

    method UnalignedBytes(length: nat) returns (bytes: seq<Byte>)
      requires Valid() && 8 * length <= |Remaining()|
      modifies this
      ensures Valid() && position == old(position) + 8 * length
      ensures bytes == BytesOf(old(Remaining()), length)
    {
      hide BytesOf, ByteAt, Stream;
      bytes := [];
      ghost var all := Remaining();
      for i := 0 to length
        invariant Valid() && position == old(position) + 8 * i
        invariant |Remaining()| >= 8 * (length - i)
        invariant BytesOf(all, length) == bytes + BytesOf(Remaining(), length - i)
      {
        ghost var rest := Remaining();
        NextByte(rest, length - i);
        var byte := Byte();
        assert Remaining() == rest[8..];
        bytes := bytes + [byte.value];
      }
      NoBytes(Remaining());
    }

    method Text(maximum: nat, valid: seq<Byte> -> bool) returns (r: Result<seq<Byte>, Failure>)
      requires Valid()
      modifies this
      ensures Valid() && var read := DecodeText(old(Remaining()), maximum, valid);
        r == read.outcome && position == old(position) + read.used
    {
      ghost var all := Remaining();
      var length := VariableUInt32();
      if length.Err? {
        return Err(length.error);
      }
      if length.value > maximum {
        return Err(TextTooLong);
      }
      assert Remaining() == all[position - old(position)..];
      var bytes := Bytes(length.value);
      if bytes.Ok? && !valid(bytes.value) {
        return Err(InvalidUtf8);
      }
      r := bytes;
    }

    method Next(kind: Kind, valid: seq<Byte> -> bool) returns (r: Result<Value, Failure>)
      requires Valid()
      modifies this
      ensures Valid() && var read := Decode(old(Remaining()), kind, valid);
        && r == read.outcome && position == old(position) + read.used
        && Remaining() == old(Remaining())[read.used..]
    {
      hide DecodeBits, DecodeVar, DecodeBytes, DecodeText, Unwrap;
      ghost var used := Decode(Remaining(), kind, valid).used;
      StreamDrop(data, position, 8 * |data|, used);
      match kind
      case BooleanKind =>
        var n := Bits(1);
        r := if n.Ok? then Ok(Value.Boolean(n.value != 0)) else Err(n.error);
      case UnsignedKind(w) =>
        var n := Bits(w.Bits());
        r := if n.Ok? then Ok(Unsigned(w, n.value)) else Err(n.error);
      case SignedKind(w) =>
        var n := Bits(w.Bits());
        r := if n.Ok? then Ok(Signed(w, Unwrap(n.value, w))) else Err(n.error);
      case FloatKind(w) =>
        var n := Bits(w.Bits());
        r := if n.Ok? then Ok(Float(w, n.value)) else Err(n.error);
      case VarKind =>
        var n := VariableUInt32();
        r := if n.Ok? then Ok(VarUInt32(n.value)) else Err(n.error);
      case BytesKind(length) =>
        var b := Bytes(length);
        r := if b.Ok? then Ok(Value.Bytes(b.value)) else Err(b.error);
      case TextKind(maximum) =>
        var b := Text(maximum, valid);
        r := if b.Ok? then Ok(Value.Text(b.value)) else Err(b.error);
    }
  }

  lemma NextByte(bits: seq<bool>, length: nat)
    requires length > 0 && 8 * length <= |bits|
    ensures BytesOf(bits, length) == [ByteAt(bits)] + BytesOf(bits[8..], length - 1)
  {
  }

  lemma NoBytes(bits: seq<bool>)
    ensures BytesOf(bits, 0) == []
  {
  }

  lemma ShortVar(bits: seq<bool>, index: nat, gathered: nat)
    requires index <= 4 && |bits| < 8
    ensures DecodeVar(bits, index, gathered) == Read(Err(EndOfBits), 0)
  {
  }

  /** What the specification has left to do once the byte at the front has been taken. */
  ghost function AfterByte(bits: seq<bool>, index: nat, gathered: nat): (rest: Read<nat>)
    requires index <= 4 && |bits| >= 8
    ensures DecodeVar(bits, index, gathered) == Read(rest.outcome, 8 + rest.used)
    ensures match VarStep(ByteAt(bits), index, gathered)
      case Done(value) => rest == Read(Ok(value), 0)
      case Bad(failure) => rest == Read(Err(failure), 0)
      case More(next) => index < 4 && rest == DecodeVar(bits[8..], index + 1, next)
  {
    var r := DecodeVar(bits, index, gathered);
    Read(r.outcome, r.used - 8)
  }

  lemma EncodeVarSound(bits: seq<bool>)
    ensures var r := DecodeVar(bits, 0, 0);
      r.outcome != Err(ExceedsFiveBytes) && (r.outcome.Ok? ==> r.outcome.value < U32)
  {
    DecodeVarMeans(bits, 0, 0);
  }

  lemma {:induction false} AlignedBytes(data: seq<Byte>, start: nat, length: nat)
    requires start + length <= |data|
    ensures BytesOf(Stream(data, 8 * start, 8 * |data|), length) == data[start..start + length]
    decreases length
  {
    if length > 0 {
      var bits := Stream(data, 8 * start, 8 * |data|);
      StreamByte(data, start);
      StreamDrop(data, 8 * start, 8 * |data|, 8);
      AlignedBytes(data, start + 1, length - 1);
    }
  }

  lemma StreamByte(data: seq<Byte>, start: nat)
    requires start < |data|
    ensures ByteAt(Stream(data, 8 * start, 8 * |data|)) == data[start]
  {
    var bits := Stream(data, 8 * start, 8 * |data|)[..8];
    forall k | 0 <= k < 8 ensures bits[k] == Low(data[start], 8)[k] {
      assert (8 * start + k) / 8 == start && (8 * start + k) % 8 == k;
      TestBitLow(data[start], 8, k);
    }
    assert bits == Low(data[start], 8);
    ByteBelow(data[start]);
    LowRoundTrip(data[start], 8);
  }

  // ---------------------------------------------------------------- end to end

  method WriteAll(writer: BitWriter, values: seq<Value>)
    requires writer.Valid()
    requires forall i | 0 <= i < |values| :: values[i].Text? ==> |values[i].utf8| < U32
    modifies writer
    ensures writer.Valid() && writer.Written() == old(writer.Written()) + EncodeAll(values)
  {
    hide Encode, EncodeAll, BitWriter.Written, BitWriter.Valid;
    ghost var start := writer.Written();
    EncodeNone();
    for i := 0 to |values|
      invariant writer.Valid()
      invariant writer.Written() == start + EncodeAll(values[..i])
    {
      var ok := writer.Write(values[i]);
      EncodeAllAppend(values[..i], values[i]);
      assert values[..i] + [values[i]] == values[..i + 1];
    }
    assert values[..|values|] == values;
  }

  lemma EncodeNone()
    ensures EncodeAll([]) == []
  {
  }

  lemma {:induction false} EncodeAllAppend(values: seq<Value>, value: Value)
    ensures EncodeAll(values + [value]) == EncodeAll(values) + Encode(value)
  {
    hide Encode;
    if values == [] {
      assert [value][1..] == [];
    } else {
      EncodeAllAppend(values[1..], value);
      assert (values + [value])[1..] == values[1..] + [value];
      var first, rest, last := Encode(values[0]), EncodeAll(values[1..]), Encode(value);
      assert first + rest + last == first + (rest + last);
    }
  }

  method ReadAll(reader: BitReader, kinds: seq<Kind>, valid: seq<Byte> -> bool) returns (r: Result<seq<Value>, Failure>)
    requires reader.Valid()
    modifies reader
    ensures r == DecodeAll(old(reader.Remaining()), kinds, valid)
  {
    hide Decode, DecodeAll, BitReader.Remaining, BitReader.Valid;
    var out: seq<Value> := [];
    ghost var whole := DecodeAll(reader.Remaining(), kinds, valid);
    ghost var rest := whole;
    assert kinds[0..] == kinds;
    AfterNone(rest);
    for i := 0 to |kinds|
      invariant reader.Valid()
      invariant rest == DecodeAll(reader.Remaining(), kinds[i..], valid)
      invariant whole == After(out, rest)
    {
      DecodeNext(reader.Remaining(), kinds[i..], valid);
      assert kinds[i..][1..] == kinds[i + 1..];
      var next := reader.Next(kinds[i], valid);
      if next.Err? {
        return Err(next.error);
      }
      rest := DecodeAll(reader.Remaining(), kinds[i + 1..], valid);
      AfterOne(out, next.value, rest);
      out := out + [next.value];
    }
    assert kinds[|kinds|..] == [];
    DecodeNone(reader.Remaining(), valid);
    assert out + [] == out;
    r := Ok(out);
  }

  lemma DecodeNext(bits: seq<bool>, kinds: seq<Kind>, valid: seq<Byte> -> bool)
    requires kinds != []
    ensures var head := Decode(bits, kinds[0], valid);
      DecodeAll(bits, kinds, valid) ==
        if head.outcome.Err? then Err(head.outcome.error)
        else After([head.outcome.value], DecodeAll(bits[head.used..], kinds[1..], valid))
  {
  }

  lemma DecodeNone(bits: seq<bool>, valid: seq<Byte> -> bool)
    ensures DecodeAll(bits, [], valid) == Ok([])
  {
  }

  ghost function After(out: seq<Value>, rest: Result<seq<Value>, Failure>): (r: Result<seq<Value>, Failure>)
  {
    if rest.Err? then rest else Ok(out + rest.value)
  }

  lemma AfterNone(rest: Result<seq<Value>, Failure>)
    ensures After([], rest) == rest
  {
    assert rest.Ok? ==> [] + rest.value == rest.value;
  }

  lemma AfterOne(out: seq<Value>, value: Value, rest: Result<seq<Value>, Failure>)
    ensures After(out, After([value], rest)) == After(out + [value], rest)
  {
    assert rest.Ok? ==> out + ([value] + rest.value) == out + [value] + rest.value;
  }

  /** Written after any `lead` bits and read from that offset, the same values come back. */
  method WriteThenRead(lead: seq<bool>, values: seq<Value>, kinds: seq<Kind>, valid: seq<Byte> -> bool)
      returns (r: Result<seq<Value>, Failure>)
    requires |values| == |kinds|
    requires forall i | 0 <= i < |values| :: Fits(values[i], kinds[i], valid)
    ensures r == Ok(values)
  {
    var writer := new BitWriter();
    for i := 0 to |lead|
      invariant writer.Valid() && writer.Written() == lead[..i] && fresh(writer)
    {
      writer.Boolean(lead[i]);
    }
    assert forall i | 0 <= i < |values| :: Fits(values[i], kinds[i], valid);
    WriteAll(writer, values);
    var reader := new BitReader(writer.data);
    reader.position := |lead|;
    ghost var padding := Stream(writer.data, writer.position, 8 * |writer.data|);
    assert reader.Remaining() == EncodeAll(values) + padding by {
      ghost var written := writer.Written();
      assert written[|lead|..] == EncodeAll(values);
      assert reader.Remaining() == written[|lead|..] + padding;
    }
    RoundTrip(values, kinds, padding, valid);
    r := ReadAll(reader, kinds, valid);
  }
}
