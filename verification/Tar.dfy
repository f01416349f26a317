/**
 The ustar and pax blocks of an archive (crates/inspector-zeep/src/archive.rs): what `write_entry` and
 `pax_path` lay out, and an independent reader that gets the same files back.
 */
module Tar {
  import opened Wrappers
  import opened Decimals

  /** One physical record: what a header names, its contents, and its type flag. */
  datatype Record = Record(name: seq<Byte>, bytes: seq<Byte>, kind: Byte)

  /** One file: its UTF-8 path and its contents. */
  datatype Entry = Entry(path: seq<Byte>, bytes: seq<Byte>)

  const FILE: Byte := 48
  const PAX: Byte := 120
  const NAME_LIMIT: nat := 100
  const PAX_NAME: seq<Byte> := [80, 97, 120, 72, 101, 97, 100, 101, 114]
  const FILE_NAME: seq<Byte> := [102, 105, 108, 101]
  const MAGIC: seq<Byte> := [117, 115, 116, 97, 114, 0, 48, 48]
  const PATH: seq<Byte> := [112, 97, 116, 104]

  // ---------------------------------------------------------------- numerals as bytes

  function Zeros(n: nat): (z: seq<Byte>)
    ensures |z| == n && forall i | 0 <= i < n :: z[i] == 0
  {
    seq(n, i => 0)
  }

  predicate Digits(s: string) { forall c | c in s :: '0' <= c <= '9' }

  function DigitByte(c: char): Byte { if '0' <= c <= '9' then c as int else 0 }

  function DigitBytes(s: string): (b: seq<Byte>)
    requires Digits(s)
    ensures |b| == |s| && Chars(b) == s
    ensures forall i | 0 <= i < |b| :: 48 <= b[i] <= 57
  {
    var b := seq(|s|, i requires 0 <= i < |s| => DigitByte(s[i]));
    assert forall i | 0 <= i < |s| :: s[i] in s;
    b
  }

  function Chars(b: seq<Byte>): (s: string)
    ensures |s| == |b|
  {
    seq(|b|, i requires 0 <= i < |b| => b[i] as char)
  }

  lemma NumeralDigits(n: nat, base: nat)
    requires 2 <= base <= 10
    ensures Digits(Numeral(n, base))
  {
    assert forall c | c in DIGITS :: '0' <= c <= '9';
  }

  function Numerals(n: nat, base: nat): (s: string)
    requires 2 <= base <= 10
    ensures Digits(s) && |s| >= 1
  {
    NumeralDigits(n, base);
    Numeral(n, base)
  }

  /** Octal, zero-padded on the left to at least `width` digits. */
  function PaddedOctal(value: nat, width: nat): (s: string)
    ensures Digits(s) && |s| >= width
  {
    var digits := Numerals(value, 8);
    if |digits| >= width then digits else seq(width - |digits|, i => '0') + digits
  }

  function OctalField(value: nat, width: nat): (b: seq<Byte>)
    requires width >= 2
    ensures |b| >= width
  {
    DigitBytes(PaddedOctal(value, width - 1)) + [0]
  }

  function ChecksumField(sum: nat): seq<Byte>
  {
    DigitBytes(PaddedOctal(sum, 6)) + [0, 32]
  }

  lemma PaddedOctalFits(value: nat, width: nat)
    requires width >= 1 && value < Pow(8, width)
    ensures |PaddedOctal(value, width)| == width
    ensures NumeralValue(PaddedOctal(value, width), 8) == value
    ensures OctalDigits(PaddedOctal(value, width))
  {
    hide Pow, NumeralValue;
    NumeralLength(value, 8, width);
    NumeralRoundTrip(value, 8);
    OctalNumeral(value);
    LeadingZeros(width - |Numeral(value, 8)|, Numeral(value, 8));
  }

  predicate OctalDigits(s: string) { forall c | c in s :: '0' <= c <= '7' }

  lemma {:induction false} OctalNumeral(n: nat)
    ensures OctalDigits(Numeral(n, 8))
  {
    if n >= 8 {
      OctalNumeral(n / 8);
    }
  }

  lemma {:induction false} LeadingZeros(zeros: nat, s: string)
    ensures NumeralValue(seq(zeros, i => '0') + s, 8) == NumeralValue(s, 8)
  {
    var z := seq(zeros, i => '0');
    if s == [] {
      assert z + s == z;
      AllZeros(zeros);
    } else {
      var k := |s| - 1;
      LeadingZeros(zeros, s[..k]);
      assert (z + s)[..|z + s| - 1] == z + s[..k];
    }
  }

  lemma {:induction false} AllZeros(zeros: nat)
    ensures NumeralValue(seq(zeros, i => '0'), 8) == 0
  {
    if zeros > 0 {
      AllZeros(zeros - 1);
      assert seq(zeros, i => '0')[..zeros - 1] == seq(zeros - 1, i => '0');
    }
  }

  // ---------------------------------------------------------------- headers

  function Sum(b: seq<Byte>): nat
  {
    if b == [] then 0 else Sum(b[..|b| - 1]) + b[|b| - 1]
  }

  lemma {:induction false} SumBound(b: seq<Byte>)
    ensures Sum(b) <= 255 * |b|
  {
    if b != [] {
      SumBound(b[..|b| - 1]);
    }
  }

  const SPACES: seq<Byte> := [32, 32, 32, 32, 32, 32, 32, 32]

  /** The header with its checksum field blanked, as the checksum is taken. */
  function Blanked(h: seq<Byte>): (b: seq<Byte>)
    requires |h| == 512
    ensures |b| == 512
  {
    h[..148] + SPACES + h[156..]
  }

  /** 'ustar Interchange Format' of IEEE Std 1003.1-2017, byte for byte as this writer fills it. */
  ghost predicate IsHeader(h: seq<Byte>, name: seq<Byte>, size: nat, kind: Byte)
  {
    && |h| == 512 && |name| <= NAME_LIMIT
    && h[..100] == name + Zeros(100 - |name|)
    && Numbers(h, size)
    && h[148..156] == ChecksumField(Sum(Blanked(h)))
    && h[156] == kind
    && h[157..257] == Zeros(100) && h[257..265] == MAGIC && h[265..] == Zeros(247)
  }

  ghost predicate Numbers(h: seq<Byte>, size: nat)
    requires |h| == 512
  {
    && h[100..108] == OctalField(0x1A4, 8) && h[108..116] == OctalField(0, 8) && h[116..124] == OctalField(0, 8)
    && h[124..136] == OctalField(size, 12) && h[136..148] == OctalField(0, 12)
  }

  ghost predicate Ascii(b: seq<Byte>) { forall x | x in b :: x <= 0x7F }

  /** `copy_from_slice` into a part of the header. */
  method Copy(a: array<Byte>, from: nat, data: seq<Byte>)
    requires from + |data| <= a.Length
    modifies a
    ensures forall i | 0 <= i < |data| :: a[from + i] == data[i]
    ensures forall i | 0 <= i < a.Length && !(from <= i < from + |data|) :: a[i] == old(a[i])
  {
    for k := 0 to |data|
      invariant forall i | 0 <= i < k :: a[from + i] == data[i]
      invariant forall i | 0 <= i < a.Length && !(from <= i < from + k) :: a[i] == old(a[i])
    {
      a[from + k] := data[k];
    }
  }

  /** Fills a field with a number: digits, zero-padded, and a terminator. */
  method Octal(a: array<Byte>, from: nat, width: nat, value: nat)
    requires width >= 2 && from + width <= a.Length && value < Pow(8, width - 1)
    modifies a
    ensures a[from..from + width] == OctalField(value, width)
    ensures forall i | 0 <= i < a.Length && !(from <= i < from + width) :: a[i] == old(a[i])
  {
    hide Pow, PaddedOctal, NumeralValue;
    PaddedOctalFits(value, width - 1);
    Copy(a, from, DigitBytes(PaddedOctal(value, width - 1)) + [0]);
    assert a[from..from + width] == OctalField(value, width);
  }

  method Checksum(a: array<Byte>) returns (checksum: nat)
    ensures checksum == Sum(a[..])
  {
    checksum := 0;
    for i := 0 to a.Length
      invariant checksum == Sum(a[..i])
    {
      assert a[..i + 1][..i] == a[..i];
      checksum := checksum + a[i];
    }
    assert a[..a.Length] == a[..];
  }

  /** Everything but the checksum, which holds spaces. */
  ghost predicate Unsigned(h: seq<Byte>, name: seq<Byte>, size: nat, kind: Byte)
  {
    && |h| == 512 && |name| <= NAME_LIMIT
    && h[..100] == name + Zeros(100 - |name|)
    && Numbers(h, size)
    && h[148..156] == SPACES
    && h[156] == kind
    && h[157..257] == Zeros(100) && h[257..265] == MAGIC && h[265..] == Zeros(247)
  }

  lemma SmallPowers()
    ensures Pow(8, 7) == 0x20_0000 && Pow(8, 11) == 0x2_0000_0000 && Pow(8, 6) == 0x4_0000
  {
  }

  method FillNumbers(a: array<Byte>, size: nat)
    requires a.Length == 512 && size < Pow(8, 11)
    modifies a
    ensures Numbers(a[..], size)
    ensures forall i | 0 <= i < 512 && !(100 <= i < 148) :: a[i] == old(a[i])
  {
    SmallPowers();
    hide Pow, OctalField;
    Octal(a, 100, 8, 0x1A4);
    ghost var mode := a[100..108];
    Octal(a, 108, 8, 0);
    ghost var uid := a[108..116];
    Octal(a, 116, 8, 0);
    ghost var gid := a[116..124];
    Octal(a, 124, 12, size);
    ghost var length := a[124..136];
    Octal(a, 136, 12, 0);
    assert a[..][100..108] == mode && a[..][108..116] == uid && a[..][116..124] == gid;
    assert a[..][124..136] == length && a[..][136..148] == a[136..148];
  }

  method Unfilled(name: seq<Byte>, size: nat, kind: Byte) returns (header: array<Byte>)
    requires |name| <= NAME_LIMIT && size < Pow(8, 11)
    ensures fresh(header) && header.Length == 512 && Unsigned(header[..], name, size, kind)
  {
    hide Pow, OctalField, Numbers;
    header := new Byte[512](_ => 0);
    Copy(header, 0, name);
    label Named:
    Copy(header, 148, SPACES);
    header[156] := kind;
    Copy(header, 257, MAGIC);
    label Marked:
    FillNumbers(header, size);
    ghost var h := header[..];
    assert forall i | 100 <= i < 512 :: old@Named(header[i]) == 0;
    assert h[..100] == name + Zeros(100 - |name|);
    assert h[148..156] == SPACES && h[156] == kind && h[257..265] == MAGIC;
    assert h[157..257] == Zeros(100) && h[265..] == Zeros(247);
  }

  method Header(name: seq<Byte>, size: nat, kind: Byte) returns (header: array<Byte>)
    requires |name| <= NAME_LIMIT && size < Pow(8, 11)
    ensures fresh(header) && IsHeader(header[..], name, size, kind)
  {
    hide Pow, OctalField, Sum, NumeralValue, PaddedOctal, Unsigned;
    header := Unfilled(name, size, kind);
    ghost var before := header[..];
    assert header.Length == 512;
    var checksum := Checksum(header);
    ChecksumFits(before);
    Copy(header, 148, DigitBytes(PaddedOctal(checksum, 6)) + [0, 32]);
    assert header[..][148..156] == ChecksumField(checksum);
    assert header[..][..148] == before[..148] && header[..][156..] == before[156..];
    Signed(before, header[..], name, size, kind);
  }

  lemma ChecksumFits(h: seq<Byte>)
    requires |h| == 512
    ensures |PaddedOctal(Sum(h), 6)| == 6 && |ChecksumField(Sum(h))| == 8
  {
    hide Sum, Pow, PaddedOctal, NumeralValue;
    SumBound(h);
    SmallPowers();
    PaddedOctalFits(Sum(h), 6);
  }

  lemma Signed(before: seq<Byte>, after: seq<Byte>, name: seq<Byte>, size: nat, kind: Byte)
    requires Unsigned(before, name, size, kind) && |after| == 512
    requires after[..148] == before[..148] && after[156..] == before[156..]
    requires after[148..156] == ChecksumField(Sum(before))
    ensures IsHeader(after, name, size, kind)
  {
    hide Sum, ChecksumField, Numbers;
    assert Blanked(after) == before;
    assert after[..100] == after[..148][..100];
    assert after[156] == after[156..][0] && before[156] == before[156..][0];
    SameTail(before, after, 157, 257);
    SameTail(before, after, 257, 265);
    SameTail(before, after, 265, 512);
    SameNumbers(before, after, size);
    assert after[265..512] == after[265..] && before[265..512] == before[265..];
  }

  lemma SameTail(before: seq<Byte>, after: seq<Byte>, from: nat, to: nat)
    requires |before| == |after| == 512 && after[156..] == before[156..] && 156 <= from <= to <= 512
    ensures after[from..to] == before[from..to]
  {
    forall i | from <= i < to ensures after[i] == before[i] {
      assert after[i] == after[156..][i - 156] && before[i] == before[156..][i - 156];
    }
  }

  lemma SameNumbers(before: seq<Byte>, after: seq<Byte>, size: nat)
    requires |before| == |after| == 512 && after[..148] == before[..148] && Numbers(before, size)
    ensures Numbers(after, size)
  {
    hide OctalField;
    SameFront(before, after, 100, 108);
    SameFront(before, after, 108, 116);
    SameFront(before, after, 116, 124);
    SameFront(before, after, 124, 136);
    SameFront(before, after, 136, 148);
  }

  lemma SameFront(before: seq<Byte>, after: seq<Byte>, from: nat, to: nat)
    requires |before| == |after| == 512 && after[..148] == before[..148] && from <= to <= 148
    ensures after[from..to] == before[from..to]
  {
    forall i | from <= i < to ensures after[i] == before[i] {
      assert after[..148][i] == before[..148][i];
    }
  }

  /** The checksum a header stores is six octal digits and verifies. */
  lemma HeaderVerifies(h: seq<Byte>, name: seq<Byte>, size: nat, kind: Byte)
    requires IsHeader(h, name, size, kind) && size < Pow(8, 11)
    ensures ReadOctal(h[148..154]) == Some(Sum(Blanked(h)))
    ensures h[154] == 0 && h[155] == 32
    ensures ReadOctal(TrimNul(h[124..136])) == Some(size)
    ensures h[257..265] == MAGIC && h[156] == kind
    ensures name != [] && name[|name| - 1] != 0 ==> TrimNul(h[..100]) == name
  {
    hide Sum, Pow, NumeralValue, PaddedOctal, TrimNul;
    var sum := Sum(Blanked(h));
    SmallPowers();
    SumBound(Blanked(h));
    ReadsBack(sum, 6);
    ReadsBack(size, 11);
    var digits := DigitBytes(PaddedOctal(sum, 6));
    assert h[148..154] == h[148..156][..6] == digits;
    assert h[154] == h[148..156][6] && h[155] == h[148..156][7];
    TrimZeros(DigitBytes(PaddedOctal(size, 11)), 1);
    assert h[124..136] == DigitBytes(PaddedOctal(size, 11)) + Zeros(1);
    if name != [] && name[|name| - 1] != 0 {
      TrimZeros(name, 100 - |name|);
    }
  }

  lemma ReadsBack(value: nat, width: nat)
    requires width >= 1 && value < Pow(8, width)
    ensures |PaddedOctal(value, width)| == width
    ensures ReadOctal(DigitBytes(PaddedOctal(value, width))) == Some(value)
    ensures var b := DigitBytes(PaddedOctal(value, width)); b[|b| - 1] != 0
  {
    hide Pow, NumeralValue, PaddedOctal;
    PaddedOctalFits(value, width);
    var b := DigitBytes(PaddedOctal(value, width));
    assert b[|b| - 1] in b;
  }

  // ---------------------------------------------------------------- records

  function Padded(size: nat): nat { (size + 511) / 512 * 512 }

  ghost predicate IsRecord(chunk: seq<Byte>, r: Record)
  {
    && |chunk| == 512 + Padded(|r.bytes|)
    && IsHeader(chunk[..512], r.name, |r.bytes|, r.kind)
    && chunk[512..512 + |r.bytes|] == r.bytes
    && chunk[512 + |r.bytes|..] == Zeros(Padded(|r.bytes|) - |r.bytes|)
  }

  /** The writer: the bytes handed to the compressor so far. */
  class Output {
    var data: seq<Byte>

    constructor ()
      ensures data == []
    {
      data := [];
    }

    method WriteAll(bytes: seq<Byte>)
      modifies this
      ensures data == old(data) + bytes
    {
      data := data + bytes;
    }

    /** Writes one record of whole blocks, or refuses a name that does not fit and writes nothing. */
    method WriteEntry(name: seq<Byte>, bytes: seq<Byte>, kind: Byte) returns (ok: bool)
      requires |bytes| < Pow(8, 11)
      modifies this
      ensures ok <==> |name| <= 100 && Ascii(name)
      ensures !ok ==> data == old(data)
      ensures ok ==> old(data) <= data && IsRecord(data[|old(data)|..], Record(name, bytes, kind))
    {
      hide Pow, IsHeader;
      if |name| > NAME_LIMIT || exists x | x in name :: x >= 0x80 {
        return false;
      }
      var header := Header(name, |bytes|, kind);
      ghost var h := header[..];
      assert |h| == 512 by { HeaderSize(h, name, |bytes|, kind); }
      WriteAll(header[..]);
      WriteAll(bytes);
      var padding := (512 - |bytes| % 512) % 512;
      PaddingFills(|bytes|);
      WriteAll(Zeros(padding));
      assert data[|old(data)|..] == h + bytes + Zeros(padding);
      Whole(h, Record(name, bytes, kind), padding);
      return true;
    }
  }

  lemma HeaderSize(h: seq<Byte>, name: seq<Byte>, size: nat, kind: Byte)
    requires IsHeader(h, name, size, kind)
    ensures |h| == 512
  {
  }

  lemma PaddingFills(size: nat)
    ensures size + (512 - size % 512) % 512 == Padded(size)
  {
  }

  lemma Whole(h: seq<Byte>, r: Record, padding: nat)
    requires |h| == 512 && IsHeader(h, r.name, |r.bytes|, r.kind) && |r.bytes| + padding == Padded(|r.bytes|)
    ensures IsRecord(h + r.bytes + Zeros(padding), r)
  {
    hide IsHeader;
    var chunk := h + r.bytes + Zeros(padding);
    assert chunk[..512] == h;
    assert chunk[512..512 + |r.bytes|] == r.bytes;
    assert chunk[512 + |r.bytes|..] == Zeros(padding);
  }

  ghost predicate IsTar(data: seq<Byte>, records: seq<Record>)
    decreases |records|
  {
    if records == [] then data == []
    else
      var n := 512 + Padded(|records[0].bytes|);
      n <= |data| && IsRecord(data[..n], records[0]) && IsTar(data[n..], records[1..])
  }

  lemma {:induction false} TarAppend(data: seq<Byte>, records: seq<Record>, chunk: seq<Byte>, r: Record)
    requires IsTar(data, records) && IsRecord(chunk, r)
    ensures IsTar(data + chunk, records + [r])
    decreases |records|
  {
    hide IsRecord;
    if records == [] {
      assert data + chunk == chunk && records + [r] == [r];
      assert |chunk| == 512 + Padded(|r.bytes|) by { RecordSize(chunk, r); }
      assert chunk[..|chunk|] == chunk && chunk[|chunk|..] == [] && [r][1..] == [];
    } else {
      var n := 512 + Padded(|records[0].bytes|);
      TarAppend(data[n..], records[1..], chunk, r);
      assert (data + chunk)[..n] == data[..n] && (data + chunk)[n..] == data[n..] + chunk;
      assert (records + [r])[1..] == records[1..] + [r];
    }
  }

  lemma RecordSize(chunk: seq<Byte>, r: Record)
    requires IsRecord(chunk, r)
    ensures |chunk| == 512 + Padded(|r.bytes|) && |chunk| % 512 == 0
  {
  }

  // ---------------------------------------------------------------- pax records

  predicate SelfSized(n: nat, body: nat) { n == |Decimal(n)| + 1 + body }

  lemma {:induction false} DigitsHalve(n: nat)
    requires n >= 2
    ensures |Decimal(n)| <= n / 2
  {
    if n >= 20 {
      DigitsHalve(n / 10);
    } else if n >= 10 {
      assert |Decimal(n)| == |Decimal(n / 10)| + 1 == 2;
    }
  }

  /** The least length that counts its own numeral; `body` is "path=", the path and a newline. */
  ghost function PaxSize(body: nat): (n: nat)
    requires body >= 1
    ensures SelfSized(n, body) && forall m: nat | SelfSized(m, body) :: n <= m
  {
    Climb(body, body + 2)
  }

  ghost predicate Climbing(body: nat, size: nat)
  {
    && body + 2 <= size <= 2 * body + 2 && size <= |Decimal(size)| + 1 + body
    && forall m: nat | SelfSized(m, body) :: size <= m
  }

  ghost function Climb(body: nat, size: nat): (n: nat)
    requires body >= 1 && (size == body + 2 || Climbing(body, size))
    ensures SelfSized(n, body) && forall m: nat | SelfSized(m, body) :: n <= m
    decreases 2 * body + 2 - size
  {
    ClimbStep(body, size);
    var actual := |Decimal(size)| + 1 + body;
    if actual == size then size else Climb(body, actual)
  }

  lemma ClimbStep(body: nat, size: nat)
    requires body >= 1 && (size == body + 2 || Climbing(body, size))
    ensures Climbing(body, size)
    ensures var actual := |Decimal(size)| + 1 + body; actual >= size && Climbing(body, actual)
  {
    hide Numeral;
    var actual := |Decimal(size)| + 1 + body;
    forall m: nat | SelfSized(m, body) ensures size <= m && actual <= m {
      NumeralMonotone(size, m, 10);
    }
    NumeralMonotone(size, actual, 10);
    DigitsHalve(2 * body + 2);
    NumeralMonotone(size, 2 * body + 2, 10);
  }

  lemma ClimbOnce(body: nat, size: nat)
    requires body >= 1 && (size == body + 2 || Climbing(body, size))
    ensures var actual := |Numerals(size, 10)| + 1 + body;
      && size <= actual <= 2 * body + 2 && Climbing(body, actual)
      && Climb(body, size) == if actual == size then size else Climb(body, actual)
  {
    hide Numeral;
    ClimbStep(body, size);
  }

  ghost function PaxRecord(path: seq<Byte>): (r: seq<Byte>)
    ensures |r| == PaxSize(|path| + 6)
  {
    var n := PaxSize(|path| + 6);
    DigitBytes(Numerals(n, 10)) + [32] + PATH + [61] + path + [10]
  }

  /** The loop stops, and at the shortest record whose length is what its prefix says. */
  method PaxPath(path: seq<Byte>) returns (record: seq<Byte>)
    ensures record == PaxRecord(path)
    ensures |record| == PaxSize(|path| + 6)
  {
    hide Climb, Climbing, Numerals;
    var body := PATH + [61] + path + [10];
    var size := |body| + 2;
    while true
      invariant size == |body| + 2 || Climbing(|body|, size)
      invariant Climb(|body|, size) == PaxSize(|path| + 6)
      decreases 2 * |body| + 2 - size
    {
      ClimbOnce(|body|, size);
      var actual := |Numerals(size, 10)| + 1 + |body|;
      if actual == size {
        record := DigitBytes(Numerals(size, 10)) + [32] + body;
        assert record == PaxRecord(path);
        return;
      }
      size := actual;
    }
  }

  // ---------------------------------------------------------------- an independent reader

  function TrimNul(b: seq<Byte>): seq<Byte>
  {
    if b != [] && b[|b| - 1] == 0 then TrimNul(b[..|b| - 1]) else b
  }

  lemma {:induction false} TrimZeros(b: seq<Byte>, zeros: nat)
    requires b == [] || b[|b| - 1] != 0
    ensures TrimNul(b + Zeros(zeros)) == b
  {
    if zeros == 0 {
      assert b + Zeros(0) == b;
    } else {
      assert (b + Zeros(zeros))[..|b| + zeros - 1] == b + Zeros(zeros - 1);
      TrimZeros(b, zeros - 1);
    }
  }

  function ReadOctal(b: seq<Byte>): Option<nat>
  {
    var s := Chars(b);
    if s != [] && OctalDigits(s) then Some(NumeralValue(s, 8)) else None
  }

  /** The position of the first `byte`, or the length. */
  function Find(b: seq<Byte>, byte: Byte): (i: nat)
    ensures i <= |b| && (forall k | 0 <= k < i :: b[k] != byte) && (i < |b| ==> b[i] == byte)
  {
    if b == [] || b[0] == byte then 0 else 1 + Find(b[1..], byte)
  }

  /** 'pax Extended Header': `length keyword=value\n` records; the last `path` wins. */
  function ReadPax(content: seq<Byte>, path: Option<seq<Byte>>): (r: Option<seq<Byte>>)
    decreases |content|
  {
    if content == [] then path
    else
      var space := Find(content, 32);
      var digits := Chars(content[..space]);
      if space == |content| || digits == [] || !Digits(digits) then None
      else
        var n := NumeralValue(digits, 10);
        if !(space + 1 < n <= |content|) || content[n - 1] != 10 then None
        else
          var body := content[space + 1..n - 1];
          var equals := Find(body, 61);
          if equals == |body| then None
          else ReadPax(content[n..], if body[..equals] == PATH then Some(body[equals + 1..]) else path)
  }

  predicate Blank(b: seq<Byte>) { forall x | x in b :: x == 0 }

  function ReadHeader(h: seq<Byte>): Option<(seq<Byte>, nat, Byte)>
    requires |h| == 512
  {
    var size := ReadOctal(TrimNul(h[124..136]));
    if ReadOctal(h[148..154]) == Some(Sum(Blanked(h))) && h[154] == 0 && h[155] == 32
      && h[257..265] == MAGIC && size.Some?
    then Some((TrimNul(h[..100]), size.value, h[156])) else None
  }

  function ReadRecords(data: seq<Byte>): Option<seq<Record>>
    decreases |data|
  {
    if |data| < 512 then None
    else if Blank(data[..512]) then Some([])
    else
      var header := ReadHeader(data[..512]);
      if header.None? then None
      else
        var (name, size, kind) := header.value;
        if 512 + Padded(size) > |data| then None
        else
          var rest := ReadRecords(data[512 + Padded(size)..]);
          if rest.None? then None
          else Some([Record(name, data[512..512 + size], kind)] + rest.value)
  }

  function Resolve(records: seq<Record>, path: Option<seq<Byte>>): Option<seq<Entry>>
  {
    if records == [] then (if path.None? then Some([]) else None)
    else if records[0].kind == PAX then
      var next := ReadPax(records[0].bytes, path);
      if next.None? then None else Resolve(records[1..], next)
    else if records[0].kind == FILE then
      var rest := Resolve(records[1..], None);
      if rest.None? then None else Some([Entry(path.GetOr(records[0].name), records[0].bytes)] + rest.value)
    else None
  }

  function ReadArchive(data: seq<Byte>): Option<seq<Entry>>
  {
    var records := ReadRecords(data);
    if records.None? then None else Resolve(records.value, None)
  }

  // ---------------------------------------------------------------- round trips

  predicate Named(r: Record)
  {
    r.name != [] && r.name[|r.name| - 1] != 0 && r.kind != 0
  }

  ghost predicate Storable(r: Record)
  {
    Named(r) && |r.bytes| < Pow(8, 11)
  }

  lemma {:induction false} RecordsRoundTrip(data: seq<Byte>, records: seq<Record>)
    requires IsTar(data, records) && forall r | r in records :: Storable(r)
    ensures ReadRecords(data + Zeros(1024)) == Some(records)
    decreases |records|
  {
    hide IsRecord, Pow, Sum, ReadHeader, Storable, ReadRecords;
    NoRecords();
    var all := data + Zeros(1024);
    if records == [] {
      assert all == Zeros(1024);
    } else {
      var r := records[0];
      var n := 512 + Padded(|r.bytes|);
      assert forall x | x in records[1..] :: x in records;
      RecordsRoundTrip(data[n..], records[1..]);
      assert all[..n] == data[..n] && all[n..] == data[n..] + Zeros(1024);
      assert r in records;
      OneRecord(data[..n], r);
      assert all[..512] == data[..n][..512];
      assert all[512..512 + |r.bytes|] == data[..n][512..512 + |r.bytes|] == r.bytes;
      ReadFirst(all, r, records[1..]);
      assert records == [r] + records[1..];
    }
  }

  lemma NoRecords()
    ensures ReadRecords(Zeros(1024)) == Some([])
  {
  }

  lemma ReadFirst(all: seq<Byte>, r: Record, rest: seq<Record>)
    requires 512 + Padded(|r.bytes|) <= |all| && !Blank(all[..512])
    requires ReadHeader(all[..512]) == Some((r.name, |r.bytes|, r.kind)) && all[512..512 + |r.bytes|] == r.bytes
    requires ReadRecords(all[512 + Padded(|r.bytes|)..]) == Some(rest)
    ensures ReadRecords(all) == Some([r] + rest)
  {
    hide ReadHeader, Blank, Padded;
  }

  lemma OneRecord(chunk: seq<Byte>, r: Record)
    requires IsRecord(chunk, r) && Storable(r)
    ensures |chunk| == 512 + Padded(|r.bytes|) && !Blank(chunk[..512])
    ensures ReadHeader(chunk[..512]) == Some((r.name, |r.bytes|, r.kind))
    ensures chunk[512..512 + |r.bytes|] == r.bytes
  {
    hide IsHeader, Pow, Sum, ReadOctal, TrimNul;
    var h := chunk[..512];
    HeaderVerifies(h, r.name, |r.bytes|, r.kind);
    assert h[156] in h;
  }

  lemma PaxRoundTrip(path: seq<Byte>, before: Option<seq<Byte>>)
    ensures ReadPax(PaxRecord(path), before) == Some(path)
  {
    hide PaxSize, Decimal, NumeralValue;
    var n := PaxSize(|path| + 6);
    var digits := DigitBytes(Numerals(n, 10));
    var content := PaxRecord(path);
    var body := PATH + [61] + path;
    FirstIs(content, digits, 32);
    NumeralRoundTrip(n, 10);
    assert content[..|digits|] == digits && content[n - 1] == 10;
    assert content[|digits| + 1..n - 1] == body;
    FirstIs(body, PATH, 61);
    assert body[..4] == PATH && body[5..] == path;
    assert content[n..] == [];
  }

  lemma FirstIs(b: seq<Byte>, prefix: seq<Byte>, byte: Byte)
    requires |prefix| < |b| && prefix <= b && byte !in prefix && b[|prefix|] == byte
    ensures Find(b, byte) == |prefix|
  {
    assert forall k | 0 <= k < |prefix| :: prefix[k] == b[k] && prefix[k] in prefix;
  }

  /** A path that does not fit the name field. */
  ghost predicate NeedsPax(path: seq<Byte>) { !(|path| <= 100 && Ascii(path)) }

  /** How a file is stored: behind an extended header when its path does not fit the name field. */
  ghost function Stored(e: Entry): seq<Record>
  {
    if NeedsPax(e.path) then [Record(PAX_NAME, PaxRecord(e.path), PAX), Record(FILE_NAME, e.bytes, FILE)]
    else [Record(e.path, e.bytes, FILE)]
  }

  ghost function AllStored(entries: seq<Entry>): seq<Record>
  {
    if entries == [] then [] else AllStored(entries[..|entries| - 1]) + Stored(entries[|entries| - 1])
  }

  lemma {:induction false} ResolveStored(entries: seq<Entry>, rest: seq<Record>)
    ensures Resolve(AllStored(entries) + rest, None)
         == (match Resolve(rest, None) case None => None case Some(tail) => Some(entries + tail))
  {
    hide ReadPax, PaxRecord, NeedsPax;
    if entries == [] {
      assert AllStored(entries) + rest == rest;
      assert Resolve(rest, None).Some? ==> entries + Resolve(rest, None).value == Resolve(rest, None).value;
    } else {
      var k := |entries| - 1;
      var e := entries[k];
      ResolveOne(e, rest);
      ResolveStored(entries[..k], Stored(e) + rest);
      assert AllStored(entries) + rest == AllStored(entries[..k]) + (Stored(e) + rest);
      assert entries == entries[..k] + [e];
      if Resolve(rest, None).Some? {
        assert entries[..k] + ([e] + Resolve(rest, None).value) == entries + Resolve(rest, None).value;
      }
    }
  }

  lemma ResolveOne(e: Entry, rest: seq<Record>)
    ensures Resolve(Stored(e) + rest, None)
         == (match Resolve(rest, None) case None => None case Some(tail) => Some([e] + tail))
  {
    hide ReadPax, PaxRecord, NeedsPax;
    var all := Stored(e) + rest;
    if NeedsPax(e.path) {
      PaxRoundTrip(e.path, None);
      assert all[1..][1..] == rest && all[1..][0] == Record(FILE_NAME, e.bytes, FILE);
    } else {
      assert all[1..] == rest;
    }
  }

  /** What the writer asks of a file: contents and extended header fit eleven octal digits. */
  ghost predicate Writable(e: Entry)
  {
    |e.bytes| < Pow(8, 11) && (NeedsPax(e.path) ==> |PaxRecord(e.path)| < Pow(8, 11))
  }

  predicate NulFree(path: seq<Byte>) { path != [] && path[|path| - 1] != 0 }

  lemma {:induction false} AllStorable(entries: seq<Entry>)
    requires forall e | e in entries :: Writable(e) && NulFree(e.path)
    ensures forall r | r in AllStored(entries) :: Storable(r)
  {
    hide PaxRecord, Pow, NeedsPax, Stored;
    if entries != [] {
      var k := |entries| - 1;
      assert entries[k] in entries && forall e | e in entries[..k] :: e in entries;
      AllStorable(entries[..k]);
      OneStorable(entries[k]);
    }
  }

  lemma OneStorable(e: Entry)
    requires Writable(e) && NulFree(e.path)
    ensures forall r | r in Stored(e) :: Storable(r)
  {
    hide PaxRecord, Pow, NeedsPax;
  }

  /** The archive of any list of files reads back as the same list, in order. */
  lemma ArchiveRoundTrip(data: seq<Byte>, entries: seq<Entry>)
    requires IsTar(data, AllStored(entries)) && forall e | e in entries :: Writable(e) && NulFree(e.path)
    ensures ReadArchive(data + Zeros(1024)) == Some(entries)
  {
    hide IsTar, ReadRecords, Storable, Writable;
    AllStorable(entries);
    RecordsRoundTrip(data, AllStored(entries));
    ResolveStored(entries, []);
    assert AllStored(entries) + [] == AllStored(entries) && entries + [] == entries;
  }

  lemma {:induction false} TarIsWholeBlocks(data: seq<Byte>, records: seq<Record>)
    requires IsTar(data, records)
    ensures |data| % 512 == 0
    decreases |records|
  {
    hide IsRecord;
    if records != [] {
      var n := 512 + Padded(|records[0].bytes|);
      RecordSize(data[..n], records[0]);
      TarIsWholeBlocks(data[n..], records[1..]);
      WholeSum(n, |data| - n);
    }
  }

  lemma WholeSum(a: nat, b: nat)
    requires a % 512 == 0 && b % 512 == 0
    ensures (a + b) % 512 == 0
  {
  }
}
