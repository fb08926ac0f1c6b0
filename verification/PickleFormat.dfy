// The byte format of a Pickle's payload: what each Write method appends and what each
// Read method takes, as functions on values, and that reading undoes writing.
module PickleFormat {
  import opened Arith
  import opened Bits
  import opened BitUtilities
  import opened DeferredRemoval

  const INT_MAX: int := 0x7FFF_FFFF
  const UINT32_MAX: int := 0xFFFF_FFFF

  /** n rounded up to a multiple of 4. */
  function Rounded(n: nat): (r: nat)
    ensures n <= r < n + 4 && r % 4 == 0
  {
    (n + 3) / 4 * 4
  }

  lemma AlignFour(n: nat)
    requires n + 4 <= 0x1_0000_0000_0000_0000
    ensures 4 <= SizeModulus() && Align(n, 4) == Rounded(n)
  {
    hide Align, Pow2, Low;
    Pow2Of64();
    Pow2Small();
    AlignRoundsUp(n, 2);
    LowDef(Align(n, 4), 2);
  }

  lemma Pow2Of64()
    ensures SizeModulus() == 0x1_0000_0000_0000_0000
    ensures Pow2(64) == 0x1_0000_0000_0000_0000
  {
    hide Pow2, Times;
    Pow2Big();
    Pow2Add(32, 32);
    TimesOf32();
  }

  lemma TimesOf32()
    ensures Times(0x1_0000_0000, 0x1_0000_0000) == 0x1_0000_0000_0000_0000
  {
  }

  function Zeros(n: nat): (z: seq<byte>)
    ensures |z| == n
  {
    seq(n, _ => 0)
  }

  /** Bytes followed by zeros up to the next multiple of 4. */
  function Padded(s: seq<byte>): (p: seq<byte>)
    ensures |p| == Rounded(|s|) && s <= p
  {
    s + Zeros(Rounded(|s|) - |s|)
  }

  /** The n low-order bytes of a number, as a little-endian host stores it. */
  function ToBytes(v: nat, n: nat): (b: seq<byte>)
    ensures |b| == n
  {
    if n == 0 then [] else [(v % 256) as byte] + ToBytes(v / 256, n - 1)
  }

  lemma {:induction false} FromToBytes(v: nat, n: nat)
    requires v < Pow2(8 * n)
    ensures LittleEndian(ToBytes(v, n)) == v
  {
    if n > 0 {
      Pow2Byte(n - 1);
      FromToBytes(v / 256, n - 1);
      assert ToBytes(v, n)[1..] == ToBytes(v / 256, n - 1);
    }
  }

  /** Two's complement: a signed value modulo 2^bits, and back. */
  function Unsigned(i: int, modulus: nat): (n: nat)
    requires modulus > 0 && 0 <= 2 * i + modulus < 2 * modulus
    ensures n < modulus
  {
    if i < 0 then i + modulus else i
  }

  function Signed(n: nat, modulus: nat): int
  {
    if 2 * n >= modulus then n - modulus else n
  }

  const M16: nat := 0x1_0000
  const M32: nat := 0x1_0000_0000
  const M64: nat := 0x1_0000_0000_0000_0000

  predicate Fits(i: int, modulus: nat)
  {
    0 <= 2 * i + modulus < 2 * modulus
  }

  /** A typed field as it is written. */
  datatype Field =
    | Bool(b: bool)
    | Int(i: int)
    | UInt16(n: nat)
    | UInt32(n: nat)
    | Int64(i: int)
    | UInt64(n: nat)
    | SizeT(n: nat)
    | String(s: seq<byte>)
    | String16(units: seq<nat>)
    | Data(s: seq<byte>)
    | Bytes(s: seq<byte>)

  /** The values that the C++ parameter types and length conversions can carry. */
  predicate Writable(f: Field)
  {
    match f
    case Bool(b) => true
    case Int(i) => Fits(i, M32)
    case UInt16(n) => n < M16
    case UInt32(n) => n < M32
    case Int64(i) => Fits(i, M64)
    case UInt64(n) => n < M64
    case SizeT(n) => n < M64
    case String(s) => |s| <= INT_MAX
    case String16(units) => 2 * |units| <= INT_MAX && forall k :: 0 <= k < |units| ==> units[k] < M16
    case Data(s) => |s| <= INT_MAX
    case Bytes(s) => |s| <= INT_MAX
  }

  /** The bytes of a string of 16-bit units. */
  function UnitBytes(units: seq<nat>): (b: seq<byte>)
    ensures |b| == 2 * |units|
  {
    if units == [] then [] else ToBytes(units[0], 2) + UnitBytes(units[1..])
  }

  function Units(b: seq<byte>): (units: seq<nat>)
    requires |b| % 2 == 0
    ensures |units| == |b| / 2
  {
    if b == [] then [] else [LittleEndian(b[..2])] + Units(b[2..])
  }

  lemma {:induction false} UnitsOfBytes(units: seq<nat>)
    requires forall k :: 0 <= k < |units| ==> units[k] < M16
    ensures Units(UnitBytes(units)) == units
  {
    if units != [] {
      var b := UnitBytes(units);
      assert b[..2] == ToBytes(units[0], 2) && b[2..] == UnitBytes(units[1..]);
      assert units[0] < Pow2(8 * 2) by { Pow2Big(); }
      FromToBytes(units[0], 2);
      UnitsOfBytes(units[1..]);
    }
  }

  /** What writing a field appends to the payload. */
  function Encode(f: Field): seq<byte>
    requires Writable(f)
  {
    match f
    case Bool(b) => ToBytes(if b then 1 else 0, 4)
    case Int(i) => ToBytes(Unsigned(i, M32), 4)
    case UInt16(n) => Padded(ToBytes(n, 2))
    case UInt32(n) => ToBytes(n, 4)
    case Int64(i) => ToBytes(Unsigned(i, M64), 8)
    case UInt64(n) => ToBytes(n, 8)
    case SizeT(n) => ToBytes(n, 8)
    case String(s) => ToBytes(|s|, 4) + Padded(s)
    case String16(units) => ToBytes(|units|, 4) + Padded(UnitBytes(units))
    case Data(s) => ToBytes(|s|, 4) + Padded(s)
    case Bytes(s) => Padded(s)
  }

  // ------------------------------------------------------------ reading

  /** What a reader asks for. */
  datatype Kind =
    | KBool | KInt | KUInt16 | KUInt32 | KInt64 | KUInt64 | KSizeT | KString | KString16 | KData
    | KLength               // ReadLength
    | KBytes(length: int)   // ReadBytes, SkipBytes

  /** The outcome of a read: what was taken, and the next read index. */
  datatype Read<T> = Read(taken: Option<T>, index: nat)

  /** PickleIterator::Advance. */
  function Advanced(index: nat, size: nat, end: nat): (r: nat)
    requires index <= end
    ensures index <= r <= end
  {
    if end - index < Rounded(size) then end else index + Rounded(size)
  }

  /** GetReadPointerAndAdvance(num_bytes). */
  function Take(payload: seq<byte>, index: nat, size: int): (r: Read<seq<byte>>)
    requires index <= |payload|
    ensures index <= r.index <= |payload|
    ensures r.taken.Some? <==> 0 <= size <= |payload| - index
    ensures r.taken.Some? ==> r.taken.value == payload[index..index + size] && r.index == Advanced(index, size, |payload|)
    ensures r.taken.None? ==> r.index == |payload|
  {
    if size < 0 || |payload| - index < size then Read(None, |payload|)
    else Read(Some(payload[index..index + size]), Advanced(index, size, |payload|))
  }

  /** ReadInt. */
  function TakeInt(payload: seq<byte>, index: nat): (r: Read<int>)
    requires index <= |payload|
    ensures index <= r.index <= |payload|
    ensures r.taken.None? ==> r.index == |payload|
  {
    var t := Take(payload, index, 4);
    if t.taken.None? then Read(None, t.index) else Read(Some(Signed(LittleEndian(t.taken.value), M32)), t.index)
  }

  /** A length and then that many elements of the given size. The conversion of the byte
      count to int is checked, and when it fails the read index stays where it is. */
  function TakeSized(payload: seq<byte>, index: nat, element: nat): (r: Read<seq<byte>>)
    requires index <= |payload|
    ensures index <= r.index <= |payload|
  {
    var len := TakeInt(payload, index);
    if len.taken.None? then Read(None, len.index)
    else if !Fits(len.taken.value * element, M32) then Read(None, len.index)
    else Take(payload, len.index, len.taken.value * element)
  }

  /** A field of a fixed number of bytes. */
  function TakeNumber(payload: seq<byte>, index: nat, size: nat): (r: Read<nat>)
    requires index <= |payload|
    ensures index <= r.index <= |payload|
    ensures r.taken.None? ==> r.index == |payload|
  {
    var t := Take(payload, index, size);
    if t.taken.None? then Read(None, t.index) else Read(Some(LittleEndian(t.taken.value)), t.index)
  }

  function Wrap<T>(r: Read<T>, make: T -> Field): (w: Read<Field>)
    ensures w.index == r.index && (w.taken.None? <==> r.taken.None?)
  {
    if r.taken.None? then Read(None, r.index) else Read(Some(make(r.taken.value)), r.index)
  }

  /** What reading a field of a kind at an index gives. */
  function Decode(kind: Kind, payload: seq<byte>, index: nat): (r: Read<Field>)
    requires index <= |payload|
    ensures index <= r.index <= |payload|
  {
    match kind
    case KBool => Wrap(TakeNumber(payload, index, 1), n => Bool(n != 0))
    case KInt => Wrap(TakeInt(payload, index), i => Int(i))
    case KUInt16 => Wrap(TakeNumber(payload, index, 2), n => UInt16(n))
    case KUInt32 => Wrap(TakeNumber(payload, index, 4), n => UInt32(n))
    case KInt64 => Wrap(TakeNumber(payload, index, 8), n => Int64(Signed(n, M64)))
    case KUInt64 => Wrap(TakeNumber(payload, index, 8), n => UInt64(n))
    case KSizeT => Wrap(TakeNumber(payload, index, 8), n => SizeT(n))
    case KString => Wrap(TakeSized(payload, index, 1), s => String(s))
    case KString16 => Wrap(TakeSized(payload, index, 2), s => String16(if |s| % 2 == 0 then Units(s) else []))
    case KData => Wrap(TakeSized(payload, index, 1), s => Data(s))
    case KLength =>
      var t := TakeInt(payload, index);
      if t.taken.Some? && t.taken.value < 0 then Read(None, t.index) else Wrap(t, i => Int(i))
    case KBytes(length) => Wrap(Take(payload, index, length), s => Bytes(s))
  }

  /** The kind with which to read a field back. */
  function KindOf(f: Field): Kind
  {
    match f
    case Bool(b) => KBool
    case Int(i) => KInt
    case UInt16(n) => KUInt16
    case UInt32(n) => KUInt32
    case Int64(i) => KInt64
    case UInt64(n) => KUInt64
    case SizeT(n) => KSizeT
    case String(s) => KString
    case String16(units) => KString16
    case Data(s) => KData
    case Bytes(s) => KBytes(|s|)
  }

  // ------------------------------------------------------------ round trip

  /** Reading a slice that is there. */
  lemma TakeAt(before: seq<byte>, s: seq<byte>, after: seq<byte>)
    ensures Take(before + Padded(s) + after, |before|, |s|) == Read(Some(s), |before| + |Padded(s)|)
  {
    var payload := before + Padded(s) + after;
    assert payload[|before|..|before| + |s|] == s;
  }

  lemma TakeNumberAt(before: seq<byte>, v: nat, n: nat, after: seq<byte>)
    requires v < Pow2(8 * n)
    ensures var p := Padded(ToBytes(v, n)); TakeNumber(before + p + after, |before|, n) == Read(Some(v), |before| + |p|)
  {
    TakeAt(before, ToBytes(v, n), after);
    FromToBytes(v, n);
  }

  lemma PaddedWhole(s: seq<byte>)
    requires |s| % 4 == 0
    ensures Padded(s) == s
  {
    assert Rounded(|s|) == |s|;
  }

  lemma Powers()
    ensures Pow2(8 * 1) == 256 && Pow2(8 * 2) == M16 && Pow2(8 * 4) == M32 && Pow2(8 * 8) == M64
  {
    hide Pow2;
    Pow2Small();
    Pow2Big();
    Pow2Of64();
  }

  lemma TakeIntAt(before: seq<byte>, i: int, after: seq<byte>)
    requires Fits(i, M32)
    ensures TakeInt(before + ToBytes(Unsigned(i, M32), 4) + after, |before|) == Read(Some(i), |before| + 4)
  {
    hide Pow2;
    var b := ToBytes(Unsigned(i, M32), 4);
    Powers();
    PaddedWhole(b);
    TakeAt(before, b, after);
    FromToBytes(Unsigned(i, M32), 4);
  }

  lemma TakeSizedAt(before: seq<byte>, count: nat, element: nat, s: seq<byte>, after: seq<byte>)
    requires |s| == count * element && Fits(count, M32) && Fits(|s|, M32)
    ensures var p := ToBytes(count, 4) + Padded(s); TakeSized(before + p + after, |before|, element) == Read(Some(s), |before| + |p|)
  {
    hide TakeInt, Take, ToBytes, Padded;
    var head := ToBytes(count, 4);
    var payload := before + (head + Padded(s)) + after;
    assert TakeInt(payload, |before|) == Read(Some(count), |before| + 4) by {
      TakeIntAt(before, count, Padded(s) + after);
      assert payload == before + head + (Padded(s) + after);
    }
    assert Take(payload, |before| + 4, |s|) == Read(Some(s), |before| + 4 + |Padded(s)|) by {
      TakeAt(before + head, s, after);
      assert payload == (before + head) + Padded(s) + after;
    }
  }

  lemma BoolAt(before: seq<byte>, b: bool, after: seq<byte>)
    ensures TakeNumber(before + ToBytes(if b then 1 else 0, 4) + after, |before|, 1) == Read(Some(if b then 1 else 0), |before| + 4)
  {
    hide Pow2;
    var v: nat := if b then 1 else 0;
    Powers();
    assert ToBytes(v, 4) == Padded(ToBytes(v, 1));
    TakeNumberAt(before, v, 1, after);
  }

  /** Reading a field back where it was written gives its value, and leaves the read
      index just behind it. */
  lemma FieldRoundTrip(before: seq<byte>, f: Field, after: seq<byte>)
    requires Writable(f)
    ensures Decode(KindOf(f), before + Encode(f) + after, |before|) == Read(Some(f), |before| + |Encode(f)|)
  {
    hide TakeNumber, TakeInt, TakeSized, Take, ToBytes, Padded, Pow2;
    Powers();
    match f
    case Bool(b) => BoolAt(before, b, after);
    case Int(i) => TakeIntAt(before, i, after);
    case UInt16(n) => TakeNumberAt(before, n, 2, after);
    case UInt32(n) =>
      PaddedWhole(ToBytes(n, 4));
      TakeNumberAt(before, n, 4, after);
    case Int64(i) =>
      PaddedWhole(ToBytes(Unsigned(i, M64), 8));
      TakeNumberAt(before, Unsigned(i, M64), 8, after);
    case UInt64(n) =>
      PaddedWhole(ToBytes(n, 8));
      TakeNumberAt(before, n, 8, after);
    case SizeT(n) =>
      PaddedWhole(ToBytes(n, 8));
      TakeNumberAt(before, n, 8, after);
    case String(s) => TakeSizedAt(before, |s|, 1, s, after);
    case String16(units) =>
      TakeSizedAt(before, |units|, 2, UnitBytes(units), after);
      UnitsOfBytes(units);
    case Data(s) => TakeSizedAt(before, |s|, 1, s, after);
    case Bytes(s) => TakeAt(before, s, after);
  }

  function EncodeAll(fields: seq<Field>): seq<byte>
    requires forall f :: f in fields ==> Writable(f)
  {
    if fields == [] then [] else Encode(fields[0]) + EncodeAll(fields[1..])
  }

  /** Reading one field after another. */
  function DecodeAll(kinds: seq<Kind>, payload: seq<byte>, index: nat): Read<seq<Field>>
    requires index <= |payload|
    decreases |kinds|
  {
    if kinds == [] then Read(Some([]), index)
    else
      var first := Decode(kinds[0], payload, index);
      if first.taken.None? then Read(None, first.index)
      else
        var rest := DecodeAll(kinds[1..], payload, first.index);
        if rest.taken.None? then Read(None, rest.index) else Read(Some([first.taken.value] + rest.taken.value), rest.index)
  }

  function KindsOf(fields: seq<Field>): (kinds: seq<Kind>)
    ensures |kinds| == |fields|
  {
    if fields == [] then [] else [KindOf(fields[0])] + KindsOf(fields[1..])
  }

  lemma {:induction false} RoundTripFrom(before: seq<byte>, fields: seq<Field>)
    requires forall f :: f in fields ==> Writable(f)
    ensures var payload := before + EncodeAll(fields); DecodeAll(KindsOf(fields), payload, |before|) == Read(Some(fields), |payload|)
    decreases |fields|
  {
    hide Decode, Encode, KindOf, Writable;
    if fields == [] {
      assert before + EncodeAll(fields) == before;
    } else {
      var head, rest := Encode(fields[0]), fields[1..];
      FieldRoundTrip(before, fields[0], EncodeAll(rest));
      RoundTripFrom(before + head, rest);
      assert before + EncodeAll(fields) == before + head + EncodeAll(rest);
      assert KindsOf(fields)[1..] == KindsOf(rest);
      assert fields == [fields[0]] + rest;
    }
  }

  /** Reading any sequence of fields back in the order written gives exactly the values
      written and ends at the end of the payload. */
  lemma RoundTrip(fields: seq<Field>)
    requires forall f :: f in fields ==> Writable(f)
    ensures DecodeAll(KindsOf(fields), EncodeAll(fields), 0) == Read(Some(fields), |EncodeAll(fields)|)
  {
    RoundTripFrom([], fields);
    assert [] + EncodeAll(fields) == EncodeAll(fields);
  }

  // ------------------------------------------------------------ reading arbitrary bytes

  /** The low-order n bytes at the index as a number. */
  function NumberAt(payload: seq<byte>, index: nat, n: nat): nat
    requires index + n <= |payload|
  {
    LittleEndian(payload[index..index + n])
  }

  /** What a read hands out, and the bytes of the payload from which it must come. */
  predicate FromPayload(f: Field, payload: seq<byte>, index: nat)
  {
    match f
    case Bool(b) => index + 1 <= |payload| && b == (payload[index] != 0)
    case Int(i) => index + 4 <= |payload| && Fits(i, M32) && Unsigned(i, M32) == NumberAt(payload, index, 4)
    case UInt16(n) => index + 2 <= |payload| && n == NumberAt(payload, index, 2)
    case UInt32(n) => index + 4 <= |payload| && n == NumberAt(payload, index, 4)
    case Int64(i) => index + 8 <= |payload| && Fits(i, M64) && Unsigned(i, M64) == NumberAt(payload, index, 8)
    case UInt64(n) => index + 8 <= |payload| && n == NumberAt(payload, index, 8)
    case SizeT(n) => index + 8 <= |payload| && n == NumberAt(payload, index, 8)
    case Bytes(s) => index + |s| <= |payload| && s == payload[index..index + |s|]
    case String(s) => SizedAt(payload, index, |s|) && s == payload[index + 4..index + 4 + |s|]
    case Data(s) => SizedAt(payload, index, |s|) && s == payload[index + 4..index + 4 + |s|]
    case String16(units) =>
      SizedAt(payload, index, |units|) && index + 4 + 2 * |units| <= |payload|
      && units == Units(payload[index + 4..index + 4 + 2 * |units|])
  }

  /** A count at the index, and at least so many bytes behind it. */
  predicate SizedAt(payload: seq<byte>, index: nat, count: nat)
  {
    index + 4 + count <= |payload| && NumberAt(payload, index, 4) == count
  }

  lemma NumberTaken(payload: seq<byte>, index: nat, n: nat)
    requires index <= |payload| && TakeNumber(payload, index, n).taken.Some?
    ensures index + n <= |payload| && TakeNumber(payload, index, n).taken.value == NumberAt(payload, index, n)
  {
    hide LittleEndian;
  }

  lemma NumberBound(payload: seq<byte>, index: nat, n: nat)
    requires index + n <= |payload|
    ensures NumberAt(payload, index, n) < Pow2(8 * n)
  {
    hide LittleEndian, Pow2;
    LittleEndianBound(payload[index..index + n]);
  }

  lemma SignedFits(n: nat, modulus: nat)
    requires n < modulus && modulus % 2 == 0
    ensures Fits(Signed(n, modulus), modulus) && Unsigned(Signed(n, modulus), modulus) == n
  {
  }

  lemma IntTaken(payload: seq<byte>, index: nat)
    requires index <= |payload| && TakeInt(payload, index).taken.Some?
    ensures var i := TakeInt(payload, index).taken.value;
        index + 4 <= |payload| && Fits(i, M32) && Unsigned(i, M32) == NumberAt(payload, index, 4)
  {
    hide LittleEndian, Pow2, Signed;
    Powers();
    NumberBound(payload, index, 4);
    SignedFits(NumberAt(payload, index, 4), M32);
  }

  lemma Int64Taken(payload: seq<byte>, index: nat)
    requires index <= |payload| && TakeNumber(payload, index, 8).taken.Some?
    ensures var i := Signed(TakeNumber(payload, index, 8).taken.value, M64);
        index + 8 <= |payload| && Fits(i, M64) && Unsigned(i, M64) == NumberAt(payload, index, 8)
  {
    hide LittleEndian, Pow2, Signed, TakeNumber;
    NumberTaken(payload, index, 8);
    Pow2Of64();
    NumberBound(payload, index, 8);
    SignedFits(NumberAt(payload, index, 8), M64);
  }

  /** The elements handed out are as many as the count says, and lie behind it. */
  lemma SizedTaken(payload: seq<byte>, index: nat, element: nat) returns (count: nat)
    requires index <= |payload| && element > 0 && TakeSized(payload, index, element).taken.Some?
    ensures var s := TakeSized(payload, index, element).taken.value;
        |s| == Times(count, element) && index + 4 + |s| <= |payload|
        && count == NumberAt(payload, index, 4) && s == payload[index + 4..index + 4 + |s|]
  {
    hide LittleEndian, Signed;
    IntTaken(payload, index);
    var i := TakeInt(payload, index).taken.value;
    assert i * element == Times(i, element) == |TakeSized(payload, index, element).taken.value|;
    CountNotNegative(i, element);
    count := i;
  }

  lemma CountNotNegative(i: int, element: nat)
    requires element > 0 && Times(i, element) >= 0
    ensures i >= 0
  {
    hide Times;
    if i < 0 {
      TimesPositive(-i, element);
      TimesSigns(i, element);
    }
  }

  lemma OneByte(payload: seq<byte>, index: nat)
    requires index < |payload|
    ensures NumberAt(payload, index, 1) == payload[index] as int
  {
    LittleEndianOfOne(payload[index]);
    assert payload[index..index + 1] == [payload[index]];
  }

  lemma ByOneOrTwo(n: nat)
    ensures Times(n, 1) == n && Times(n, 2) == 2 * n
  {
  }

  /** On arbitrary bytes, a number that a read hands out is that of the payload's bytes at the
      index, little-endian and in two's complement if signed; a string is as long as the count
      at the index says, and is the slice of the payload behind it. */
  lemma ReadStaysInside(kind: Kind, payload: seq<byte>, index: nat)
    requires index <= |payload| && Decode(kind, payload, index).taken.Some?
    ensures FromPayload(Decode(kind, payload, index).taken.value, payload, index)
  {
    hide LittleEndian, Units, TakeSized, TakeInt, TakeNumber, Times, Signed, Unsigned, Fits;
    match kind
    case KBool =>
      NumberTaken(payload, index, 1);
      OneByte(payload, index);
    case KInt => IntTaken(payload, index);
    case KLength => IntTaken(payload, index);
    case KUInt16 => NumberTaken(payload, index, 2);
    case KUInt32 => NumberTaken(payload, index, 4);
    case KInt64 => Int64Taken(payload, index);
    case KUInt64 => NumberTaken(payload, index, 8);
    case KSizeT => NumberTaken(payload, index, 8);
    case KBytes(length) =>
    case KString16 =>
      var count := SizedTaken(payload, index, 2);
      ByOneOrTwo(count);
    case _ =>
      var count := SizedTaken(payload, index, 1);
      ByOneOrTwo(count);
  }

  lemma TakeAligned(payload: seq<byte>, index: nat, size: int)
    requires index <= |payload| && (index % 4 == 0 || index == |payload|)
    ensures var r := Take(payload, index, size); r.index % 4 == 0 || r.index == |payload|
  {
  }

  lemma SizedAligned(payload: seq<byte>, index: nat, element: nat)
    requires index <= |payload| && (index % 4 == 0 || index == |payload|)
    ensures var r := TakeSized(payload, index, element); r.index % 4 == 0 || r.index == |payload|
  {
    hide LittleEndian, Take, Signed, Fits;
    TakeAligned(payload, index, 4);
    var len := TakeInt(payload, index);
    if len.taken.Some? {
      TakeAligned(payload, len.index, len.taken.value * element);
    }
  }

  /** The read index stays a multiple of 4, or is the end. */
  lemma ReadStaysAligned(kind: Kind, payload: seq<byte>, index: nat)
    requires index <= |payload| && (index % 4 == 0 || index == |payload|)
    ensures var r := Decode(kind, payload, index); r.index % 4 == 0 || r.index == |payload|
  {
    hide LittleEndian, Units, TakeSized, Take, Signed;
    match kind
    case KBool => TakeAligned(payload, index, 1);
    case KUInt16 => TakeAligned(payload, index, 2);
    case KInt64 => TakeAligned(payload, index, 8);
    case KUInt64 => TakeAligned(payload, index, 8);
    case KSizeT => TakeAligned(payload, index, 8);
    case KString16 => SizedAligned(payload, index, 2);
    case KString => SizedAligned(payload, index, 1);
    case KData => SizedAligned(payload, index, 1);
    case KBytes(length) => TakeAligned(payload, index, length);
    case _ => TakeAligned(payload, index, 4);
  }

  /** The read of a 16-bit string whose byte count does not fit an int. */
  predicate CountOverflows(kind: Kind, payload: seq<byte>, index: nat)
    requires index <= |payload|
  {
    kind == KString16 && var len := TakeInt(payload, index); len.taken.Some? && !Fits(len.taken.value * 2, M32)
  }

  /** The read of a length that is negative. */
  predicate NegativeLength(kind: Kind, payload: seq<byte>, index: nat)
    requires index <= |payload|
  {
    kind == KLength && var len := TakeInt(payload, index); len.taken.Some? && len.taken.value < 0
  }

  /** The failed read passes only the four bytes of a count or length, and more follow. */
  predicate LeavesBytes(kind: Kind, payload: seq<byte>, index: nat)
    requires index <= |payload|
  {
    (CountOverflows(kind, payload, index) || NegativeLength(kind, payload, index)) && |payload| - index > 4
  }

  /** A failed read moves the read index to the end if and only if it is not one that
      leaves bytes; that one passes the four bytes it has read. */
  lemma FailureGoesToEnd(kind: Kind, payload: seq<byte>, index: nat)
    requires index <= |payload| && Decode(kind, payload, index).taken.None?
    ensures Decode(kind, payload, index).index == |payload| <==> !LeavesBytes(kind, payload, index)
    ensures LeavesBytes(kind, payload, index) ==> Decode(kind, payload, index).index == index + 4
  {
    hide LittleEndian, Units, TakeNumber, TakeInt;
    if TakeInt(payload, index).taken.Some? {
      LengthFits(payload, index);
      TakeIntIndex(payload, index);
    }
  }

  lemma TakeIntIndex(payload: seq<byte>, index: nat)
    requires index <= |payload| && TakeInt(payload, index).taken.Some?
    ensures TakeInt(payload, index).index == Advanced(index, 4, |payload|) && index + 4 <= |payload|
  {
  }

  lemma LengthFits(payload: seq<byte>, index: nat)
    requires index <= |payload| && TakeInt(payload, index).taken.Some?
    ensures Fits(TakeInt(payload, index).taken.value, M32)
  {
    hide Pow2;
    Powers();
    LittleEndianBound(Take(payload, index, 4).taken.value);
  }

  /** At the end of the payload every read fails and stays there, except one of no bytes. */
  lemma NothingAfterTheEnd(kind: Kind, payload: seq<byte>)
    ensures Decode(kind, payload, |payload|).taken.Some? <==> kind == KBytes(0)
    ensures Decode(kind, payload, |payload|).index == |payload|
  {
  }

  /** The documented promise that nothing can be read after a failed read: of reads that
      ask for at least one byte it holds if and only if the failed one left no bytes. A
      read of no bytes succeeds after every failure. */
  lemma NothingAfterFailure(kind: Kind, payload: seq<byte>, index: nat)
    requires index <= |payload| && Decode(kind, payload, index).taken.None?
    ensures var e := Decode(kind, payload, index).index;
        (forall k :: k != KBytes(0) ==> Decode(k, payload, e).taken.None?) <==> !LeavesBytes(kind, payload, index)
    ensures Decode(KBytes(0), payload, Decode(kind, payload, index).index).taken.Some?
  {
    hide LeavesBytes, Decode;
    var e := Decode(kind, payload, index).index;
    FailureGoesToEnd(kind, payload, index);
    ReadNoBytes(payload, e);
    if LeavesBytes(kind, payload, index) {
      ReadOneByte(payload, e);
    } else {
      forall k | k != KBytes(0)
        ensures Decode(k, payload, e).taken.None?
      {
        NothingAfterTheEnd(k, payload);
      }
    }
  }

  lemma ReadNoBytes(payload: seq<byte>, index: nat)
    requires index <= |payload|
    ensures Decode(KBytes(0), payload, index).taken.Some?
  {
  }

  lemma ReadOneByte(payload: seq<byte>, index: nat)
    requires index < |payload|
    ensures KBool != KBytes(0) && Decode(KBool, payload, index).taken.Some?
  {
    hide LittleEndian;
  }

  /** A payload for which the promise fails: after a 16-bit string with an overflowing count the next field is read. */
  lemma ReadAfterFailure()
    ensures var p := ToBytes(0x7FFF_FFFF, 4) + ToBytes(7, 4); Decode(KString16, p, 0) == Read(None, 4) && Decode(KInt, p, 4) == Read(Some(Int(7)), 8)
  {
    var a, b := ToBytes(0x7FFF_FFFF, 4), ToBytes(7, 4);
    TakeIntAt([], 0x7FFF_FFFF, b);
    assert [] + a + b == a + b;
    TakeIntAt(a, 7, []);
    assert a + b + [] == a + b;
  }

  // ------------------------------------------------------------ what is written

  /** The bytes of a field before its padding. */
  function ContentSize(f: Field): nat
  {
    match f
    case UInt16(n) => 2
    case Int64(_) => 8
    case UInt64(_) => 8
    case SizeT(_) => 8
    case String(s) => 4 + |s|
    case String16(units) => 4 + 2 * |units|
    case Data(s) => 4 + |s|
    case Bytes(s) => |s|
    case _ => 4
  }

  /** What is written for a field is the field's bytes, as the reads take them, and zeros up
      to the next multiple of four; a boolean is the number 1 or 0. */
  lemma EncodingIsExact(f: Field)
    requires Writable(f)
    ensures FromPayload(f, Encode(f), 0) && |Encode(f)| == Rounded(ContentSize(f))
    ensures forall k :: ContentSize(f) <= k < |Encode(f)| ==> Encode(f)[k] == 0
    ensures f.Bool? ==> NumberAt(Encode(f), 0, 4) == if f.b then 1 else 0
  {
    hide FromPayload, Decode, LittleEndian, Writable, Encode, ContentSize;
    FieldRoundTrip([], f, []);
    assert [] + Encode(f) + [] == Encode(f);
    ReadStaysInside(KindOf(f), Encode(f), 0);
    EncodingIsPadded(f);
  }

  lemma EncodingIsPadded(f: Field)
    requires Writable(f)
    ensures |Encode(f)| == Rounded(ContentSize(f))
    ensures forall k :: ContentSize(f) <= k < |Encode(f)| ==> Encode(f)[k] == 0
    ensures f.Bool? ==> NumberAt(Encode(f), 0, 4) == if f.b then 1 else 0
  {
    hide ToBytes, Units, UnitBytes, Fits, Unsigned, LittleEndian, Padded, Rounded;
    match f
    case Bool(b) => BoolNumber(b);
    case UInt16(n) => PaddedBehind([], ToBytes(n, 2));
    case String(s) => PaddedBehind(ToBytes(|s|, 4), s);
    case String16(units) => PaddedBehind(ToBytes(|units|, 4), UnitBytes(units));
    case Data(s) => PaddedBehind(ToBytes(|s|, 4), s);
    case Bytes(s) => PaddedBehind([], s);
    case _ => PaddedBehind(Encode(f), []);
  }

  lemma PaddedBehind(count: seq<byte>, s: seq<byte>)
    requires |count| % 4 == 0
    ensures |count + Padded(s)| == Rounded(|count| + |s|) && [] + Padded(s) == Padded(s)
    ensures forall k :: |count| + |s| <= k < |count| + |Padded(s)| ==> (count + Padded(s))[k] == 0
  {
  }

  lemma BoolNumber(b: bool)
    ensures NumberAt(ToBytes(if b then 1 else 0, 4), 0, 4) == if b then 1 else 0
  {
    hide Pow2, ToBytes;
    Powers();
    var s := ToBytes(if b then 1 else 0, 4);
    FromToBytes(if b then 1 else 0, 4);
    assert s[0..0 + 4] == s;
  }
}
