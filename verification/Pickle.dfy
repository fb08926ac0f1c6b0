// Pickle and PickleIterator: a header and a growing payload in one block of memory, the
// fields appended to it, and an iterator that reads them in place.
module Pickle {
  import opened Arith
  import opened Bits
  import opened BitUtilities
  import opened DeferredRemoval
  import opened PickleFormat

  /** kPayloadUnit. */
  const PAYLOAD_UNIT: nat := 64

  /** capacity_after_header_ of a pickle over constant data. */
  const READ_ONLY: nat := 0xFFFF_FFFF_FFFF_FFFF

  // ------------------------------------------------------------ the block as a value

  /** The payload size that a header holds. */
  function SizeField(mem: seq<byte>): nat
    requires |mem| >= 4
  {
    LittleEndian(mem[..4])
  }

  function Max(a: nat, b: nat): nat
  {
    if a >= b then a else b
  }

  /** n rounded up to the allocation granularity. */
  function Rounded64(n: nat): (r: nat)
    ensures n <= r < n + 64 && r % 64 == 0
  {
    (n + 63) / 64 * 64
  }

  lemma AlignUnit(n: nat)
    requires n + 64 <= 0x1_0000_0000_0000_0000
    ensures 64 <= SizeModulus() && Align(n, 64) == Rounded64(n)
  {
    hide Align, Pow2, Low;
    Pow2Of64();
    Pow2Small();
    AlignRoundsUp(n, 6);
    LowDef(Align(n, 64), 6);
  }

  lemma AlignPage(n: nat)
    requires n + 4096 <= 0x1_0000_0000_0000_0000
    ensures 4096 <= SizeModulus() && n <= Align(n, 4096) < n + 4096 && Align(n, 4096) % 4096 == 0
  {
    hide Align, Pow2, Low, Times;
    Pow2Of64();
    Pow2Small();
    Pow2Add(8, 4);
    assert Pow2(12) == 4096 by { PageTimes(); }
    AlignRoundsUp(n, 12);
    LowDef(Align(n, 4096), 12);
  }

  lemma PageTimes()
    ensures Times(256, 16) == 4096
  {
  }

  /** The block after bytes are stored at an offset. */
  function Stored(mem: seq<byte>, at: nat, bytes: seq<byte>): (r: seq<byte>)
    requires at + |bytes| <= |mem|
    ensures |r| == |mem|
  {
    mem[..at] + bytes + mem[at + |bytes|..]
  }

  /** The header size that the constructor over constant data deduces, or 0. */
  function DeducedHeaderSize(data: seq<byte>): nat
  {
    if |data| < 4 then 0
    else
      var h := (|data| - SizeField(data)) % M32;
      if h > |data| then 0
      else if h != Rounded(h) then 0
      else h
  }

  lemma SizeFieldBound(data: seq<byte>)
    requires |data| >= 4
    ensures SizeField(data) < M32
  {
    hide Pow2;
    Powers();
    LittleEndianBound(data[..4]);
  }

  /** For any bytes the deduced header and the payload fill the data exactly, and the data
      is refused just when there is no such header. */
  lemma DeducedHeader(data: seq<byte>)
    requires |data| <= INT_MAX
    ensures var h := DeducedHeaderSize(data); h > 0 ==> |data| >= 4 && h >= 4 && h % 4 == 0 && h + SizeField(data) == |data|
    ensures |data| >= 4 && SizeField(data) + 4 <= |data| && (|data| - SizeField(data)) % 4 == 0 ==> DeducedHeaderSize(data) > 0
  {
    hide LittleEndian;
    if |data| >= 4 {
      SizeFieldBound(data);
      var n := |data| - SizeField(data);
      if n < 0 {
        assert n % M32 == n + M32;
      } else {
        assert n % M32 == n;
      }
    }
  }

  // ------------------------------------------------------------ framing

  /** PeekNext: the size that the header at the start of the bytes announces. size_t has
      the given maximum. */
  function PeekNext(headerSize: nat, bytes: seq<byte>, sizeMax: nat): (r: Option<nat>)
    requires headerSize >= 4
  {
    if |bytes| < 4 then None
    else if |bytes| < headerSize then None
    else if SizeField(bytes) + headerSize > sizeMax then Some(sizeMax)
    else Some(headerSize + SizeField(bytes))
  }

  /** PeekNext answers just when the whole header is there, with the size of the pickle or,
      if that is more than a size_t holds, the largest size_t; so a size that it gives below
      that is the pickle's own. */
  lemma PeekNextAnswers(headerSize: nat, bytes: seq<byte>, sizeMax: nat)
    requires headerSize >= 4
    ensures var r := PeekNext(headerSize, bytes, sizeMax);
        if headerSize > |bytes| then r == None
        else var size := headerSize + LittleEndian(bytes[..4]); r == Some(if size < sizeMax then size else sizeMax)
  {
    hide LittleEndian;
  }

  /** FindNext: where the pickle at the start of the bytes ends. */
  function FindNext(headerSize: nat, bytes: seq<byte>, sizeMax: nat): (r: Option<nat>)
    requires headerSize >= 4
    ensures r.Some? ==> r.value <= |bytes|
  {
    var size := PeekNext(headerSize, bytes, sizeMax);
    if size.None? then None else if size.value > |bytes| then None else size
  }

  /** The bytes of one whole pickle with this header size. */
  predicate Whole(headerSize: nat, image: seq<byte>)
    requires headerSize >= 4
  {
    headerSize <= |image| && |image| == headerSize + SizeField(image)
  }

  /** In a block that fits the address space, FindNext succeeds just when a whole pickle
      is there, and it finds its end. */
  lemma FindNextFindsWhole(headerSize: nat, bytes: seq<byte>, sizeMax: nat, n: nat)
    requires headerSize >= 4 && |bytes| < sizeMax
    ensures FindNext(headerSize, bytes, sizeMax) == Some(n) <==> n <= |bytes| && Whole(headerSize, bytes[..n])
  {
    hide LittleEndian, PeekNext;
    PeekNextAnswers(headerSize, bytes, sizeMax);
    if |bytes| >= 4 && 4 <= n <= |bytes| {
      assert bytes[..n][..4] == bytes[..4];
    }
  }

  function Join(images: seq<seq<byte>>): seq<byte>
  {
    if images == [] then [] else images[0] + Join(images[1..])
  }

  /** Repeated FindNext: the pieces found, and what is left. */
  function Split(headerSize: nat, bytes: seq<byte>, sizeMax: nat): (seq<seq<byte>>, seq<byte>)
    requires headerSize >= 4
    decreases |bytes|
  {
    var n := FindNext(headerSize, bytes, sizeMax);
    if n.None? || n.value == 0 then ([], bytes)
    else
      var (pieces, rest) := Split(headerSize, bytes[n.value..], sizeMax);
      ([bytes[..n.value]] + pieces, rest)
  }

  /** Pickles written one behind the other are found again one by one. */
  lemma {:induction false} SplitJoin(headerSize: nat, images: seq<seq<byte>>, sizeMax: nat)
    requires headerSize >= 4 && |Join(images)| < sizeMax
    requires forall image :: image in images ==> Whole(headerSize, image)
    ensures Split(headerSize, Join(images), sizeMax) == (images, [])
    decreases |images|
  {
    hide LittleEndian, Whole, FindNext;
    if images == [] {
      EmptyNotFound(headerSize, sizeMax);
    } else {
      var bytes, n := Join(images), |images[0]|;
      assert bytes[..n] == images[0] && bytes[n..] == Join(images[1..]);
      FindNextFindsWhole(headerSize, bytes, sizeMax, n);
      assert Whole(headerSize, images[0]);
      WholeNotEmpty(headerSize, images[0]);
      SplitJoin(headerSize, images[1..], sizeMax);
      assert images == [images[0]] + images[1..];
    }
  }

  lemma EmptyNotFound(headerSize: nat, sizeMax: nat)
    requires headerSize >= 4
    ensures FindNext(headerSize, [], sizeMax) == None
  {
  }

  lemma WholeNotEmpty(headerSize: nat, image: seq<byte>)
    requires headerSize >= 4 && Whole(headerSize, image)
    ensures |image| > 0
  {
  }

  // ------------------------------------------------------------ growth

  /** The capacity after room is made for size bytes of payload. */
  function Grown(capacity: nat, size: nat): nat
  {
    if size <= capacity then capacity else Rounded64(Max(Doubled(capacity), size))
  }

  /** Twice the capacity, and beyond a page one unit less than whole pages. */
  function Doubled(capacity: nat): nat
  {
    if 2 * capacity > 4096 then (2 * capacity + 4095) / 4096 * 4096 - PAYLOAD_UNIT else 2 * capacity
  }

  /** Growth makes enough room, keeps the granularity, and nearly doubles the capacity. */
  lemma GrownCovers(capacity: nat, size: nat)
    requires capacity % 64 == 0
    ensures Grown(capacity, size) >= size && Grown(capacity, size) % 64 == 0
    ensures size > capacity ==> Grown(capacity, size) >= 2 * capacity - 64
    ensures capacity <= 0x4_0000_0000 && size <= UINT32_MAX ==> Grown(capacity, size) <= 0x4_0000_0000
  {
  }

  lemma PageMultiple(n: nat, r: nat)
    requires n <= r < n + 4096 && r % 4096 == 0
    ensures r == (n + 4095) / 4096 * 4096
  {
  }

  // ------------------------------------------------------------ the pickle

  /** The payload of a block with a header of the given size. */
  function PayloadOf(mem: seq<byte>, headerSize: nat): (p: seq<byte>)
    requires headerSize >= 4 && headerSize <= |mem| && headerSize + SizeField(mem) <= |mem|
  {
    mem[headerSize..headerSize + SizeField(mem)]
  }

  /** What a pickle holds: the header behind its size field, the payload, and where the
      next field goes. */
  datatype Contents = Contents(headerSize: nat, user: seq<byte>, payload: seq<byte>, offset: nat)

  /** The next field replaces what is behind the offset. */
  function Appended(c: Contents, bytes: seq<byte>): Contents
    requires c.offset <= |c.payload|
  {
    c.(payload := c.payload[..c.offset] + bytes, offset := c.offset + |bytes|)
  }

  lemma AppendedTwice(c: Contents, a: seq<byte>, b: seq<byte>)
    requires c.offset <= |c.payload|
    ensures Appended(Appended(c, a), b) == Appended(c, a + b)
  {
    var p := c.payload[..c.offset];
    assert (p + a)[..|p| + |a|] == p + a;
    assert p + a + b == p + (a + b);
  }

  lemma AppendedNothing(c: Contents)
    requires c.offset == |c.payload|
    ensures Appended(c, []) == c
  {
    assert c.payload[..c.offset] + [] == c.payload;
  }

  lemma OffsetAfter(c: Contents, bytes: seq<byte>)
    requires c.offset <= |c.payload|
    ensures Appended(c, bytes).offset == c.offset + |bytes|
  {
  }

  class Pickle {
    var header: array?<byte>
    var headerSize: nat
    var capacity: nat        // capacity_after_header_
    var writeOffset: nat

    /** The shape of the block that header_ points to. */
    ghost predicate Shape()
      reads this, header
    {
      header != null && headerSize % 4 == 0 && 4 <= headerSize <= header.Length
      && (if capacity == READ_ONLY then writeOffset == 0 else
            header.Length == headerSize + capacity && capacity % 64 == 0 && capacity <= 0x4_0000_0000)
    }

    /** A pickle that holds a payload, possibly over constant data. */
    ghost predicate Valid()
      reads this, header
    {
      Shape() && headerSize + SizeField(header[..]) <= header.Length
      && writeOffset % 4 == 0 && writeOffset <= SizeField(header[..])
      && (capacity == READ_ONLY ==> headerSize + SizeField(header[..]) == header.Length)
    }

    /** The constructor over constant data has refused the data. */
    predicate Refused()
      reads this
    {
      header == null && headerSize == 0 && capacity == READ_ONLY && writeOffset == 0
    }

    ghost function Payload(): seq<byte>
      requires Valid()
      reads this, header
    {
      PayloadOf(header[..], headerSize)
    }

    /** data() and size(). */
    ghost function Image(): seq<byte>
      requires Valid()
      reads this, header
    {
      header[..headerSize + SizeField(header[..])]
    }

    ghost function Held(): (c: Contents)
      requires Valid()
      reads this, header
      ensures c.offset <= |c.payload|
    {
      Contents(headerSize, Image()[4..headerSize], Payload(), writeOffset)
    }

    /** The pickle is not over constant data and takes n more bytes. */
    ghost predicate Takes(n: nat)
      reads this, header
    {
      Valid() && capacity != READ_ONLY && writeOffset + n <= UINT32_MAX
    }

    /** Writing continues behind the payload. */
    ghost predicate AtEnd()
      requires Valid()
      reads this, header
    {
      writeOffset == SizeField(header[..]) && capacity != READ_ONLY
    }

    constructor ()
      ensures Valid() && AtEnd() && fresh(header) && headerSize == 4 && capacity == 64
      ensures Payload() == []
    {
      hide SizeField, Align;
      header, headerSize, capacity, writeOffset := null, 4, 0, 0;
      new;
      Resize(PAYLOAD_UNIT);
      StoreSize(0);
      NoPayload(header[..], headerSize);
    }

    constructor WithHeader(size: nat)
      requires 4 <= size <= PAYLOAD_UNIT
      ensures Valid() && AtEnd() && fresh(header) && headerSize == Rounded(size) && capacity == 64
      ensures Payload() == []
    {
      hide SizeField, Align;
      AlignFour(size);
      header, headerSize, capacity, writeOffset := null, Align(size, 4), 0, 0;
      new;
      Resize(PAYLOAD_UNIT);
      StoreSize(0);
      NoPayload(header[..], headerSize);
    }

    /** The constructor over constant data, which it does not copy. */
    constructor FromData(data: array<byte>)
      requires data.Length <= INT_MAX
      ensures if DeducedHeaderSize(data[..]) > 0 then Valid() && header == data else Refused()
      ensures capacity == READ_ONLY && headerSize == DeducedHeaderSize(data[..])
      ensures header != null ==> Valid() && Image() == data[..]
    {
      hide SizeField, DeducedHeaderSize;
      var size := DeduceHeaderSize(data);
      DeducedHeader(data[..]);
      headerSize, capacity, writeOffset := size, READ_ONLY, 0;
      header := if size == 0 then null else data;
      new;
      assert header != null ==> Image() == data[..];
    }

    /** The deep copy. It takes over the write offset, which is 0 for constant data. */
    constructor Copy(other: Pickle)
      requires other.Valid()
      ensures Valid() && fresh(header) && headerSize == other.headerSize && writeOffset == other.writeOffset
      ensures Image() == other.Image() && capacity == Rounded64(SizeField(other.Image()))
      ensures Payload() == other.Payload()
    {
      hide SizeField, LittleEndian;
      header, headerSize, capacity, writeOffset := null, other.headerSize, 0, other.writeOffset;
      new;
      SizeFieldBound(other.header[..]);
      var size := SizeField(other.header[..]);
      Resize(size);
      forall k | 0 <= k < headerSize + size {
        header[k] := other.header[k];
      }
      SameSizeField(header[..], other.header[..]);
      SameSizeField(other.Image(), other.header[..]);
      assert Image() == other.Image();
      assert Payload() == Image()[headerSize..];
      assert other.Payload() == other.Image()[headerSize..];
    }

    /** realloc: what fits of the old block is kept. */
    method Resize(newCapacity: nat)
      requires capacity != READ_ONLY && 4 <= headerSize && newCapacity <= 0x4_0000_0000
      modifies `header, `capacity
      ensures header != null && fresh(header) && header.Length == headerSize + capacity && capacity == Rounded64(newCapacity)
      ensures var p := old(header); p != null ==> forall k :: 0 <= k < p.Length && k < header.Length ==> header[k] == old(p[k])
    {
      AlignUnit(newCapacity);
      capacity := Align(newCapacity, PAYLOAD_UNIT);
      var p := new byte[headerSize + capacity];
      if header != null {
        var q := header;
        forall k | 0 <= k < q.Length && k < p.Length {
          p[k] := q[k];
        }
      }
      header := p;
    }

    /** header_->payload_size = size */
    method StoreSize(size: nat)
      requires header != null && header.Length >= 4 && size < M32
      modifies header
      ensures SizeField(header[..]) == size && header[..] == Stored(old(header[..]), 0, ToBytes(size, 4))
    {
      var bytes := ToBytes(size, 4);
      forall k | 0 <= k < 4 {
        header[k] := bytes[k];
      }
      SizeStored(header[..], size);
    }

    /** Makes room for size bytes of payload. */
    method Grow(size: nat)
      requires Valid() && capacity != READ_ONLY && size <= UINT32_MAX
      modifies `header, `capacity
      ensures Valid() && capacity == Grown(old(capacity), size) && size <= capacity != READ_ONLY
      ensures SizeField(header[..]) == old(SizeField(header[..])) && Image() == old(Image()) && Payload() == old(Payload())
      ensures header == old(header) || fresh(header)
    {
      hide SizeField, Align, Low, Pow2;
      GrownCovers(capacity, size);
      if size > capacity {
        var newCapacity := capacity * 2;
        AlignPage(newCapacity);
        if newCapacity > 4096 {
          PageMultiple(newCapacity, Align(newCapacity, 4096));
          newCapacity := Align(newCapacity, 4096) - PAYLOAD_UNIT;
        }
        Resize(Max(newCapacity, size));
        SameSizeField(header[..], old(header[..]));
        assert Image() == old(Image());
        assert Payload() == Image()[headerSize..] && old(Payload()) == old(Image())[headerSize..];
      }
    }

    /** Reserve: room for length more bytes, without changing what is written. */
    method Reserve(length: nat)
      requires Valid() && capacity != READ_ONLY && writeOffset + Rounded(length) <= UINT32_MAX
      modifies `header, `capacity
      ensures Valid() && READ_ONLY != capacity >= writeOffset + Rounded(length) && capacity >= old(capacity)
      ensures Image() == old(Image()) && (header == old(header) || fresh(header))
    {
      hide SizeField, Align, Pow2;
      AlignFour(length);
      var dataLen := Align(length, 4);
      var newSize := writeOffset + dataLen;
      if newSize > capacity {
        Resize(capacity * 2 + newSize);
        SameSizeField(header[..], old(header[..]));
        assert Image() == old(Image());
      }
    }

    /** The second half of WriteBytesCommon, when there is room. */
    method AppendPadded(data: seq<byte>)
      requires Valid() && capacity != READ_ONLY && writeOffset + Rounded(|data|) <= UINT32_MAX
      requires writeOffset + Rounded(|data|) <= capacity
      modifies `writeOffset, header
      ensures Valid() && AtEnd() && writeOffset == old(writeOffset) + Rounded(|data|)
      ensures Payload() == old(Payload()[..writeOffset]) + Padded(data)
      ensures Image()[4..headerSize] == old(Image()[4..headerSize])
    {
      hide SizeField, Rounded, Padded, ToBytes, LittleEndian;
      hide Stored, PayloadOf;
      ghost var before := header[..];
      var newSize := writeOffset + Rounded(|data|);
      Parts();
      StorePadded(headerSize + writeOffset, data);
      StoreSize(newSize);
      WriteEffect(before, headerSize, writeOffset, data);
      writeOffset := newSize;
      Parts();
    }

    /** The header's own part and the payload up to the write offset, in the block. */
    lemma Parts()
      requires Valid()
      ensures Image()[4..headerSize] == header[..][4..headerSize]
      ensures Payload()[..writeOffset] == header[..][headerSize..headerSize + writeOffset]
    {
      hide SizeField;
    }

    /** WriteBytesCommon. */
    method WriteBytesCommon(data: seq<byte>)
      requires Takes(Rounded(|data|))
      modifies this, header
      ensures Valid() && AtEnd() && (header == old(header) || fresh(header))
      ensures Held() == Appended(old(Held()), Padded(data))
      ensures capacity == Grown(old(capacity), writeOffset)
    {
      hide SizeField, Align, Grown, Rounded, Padded, Image, Payload;
      AlignFour(|data|);
      Grow(writeOffset + Align(|data|, 4));
      AppendPadded(data);
    }

    method WriteInt(i: int) returns (ok: bool)
      requires Takes(4) && Fits(i, M32)
      modifies this, header
      ensures ok && Valid() && AtEnd() && (header == old(header) || fresh(header))
      ensures Held() == Appended(old(Held()), Encode(Int(i)))
    {
      hide Held, Appended, Takes, Grown, ToBytes, Padded, AtEnd;
      var data := ToBytes(Unsigned(i, M32), 4);
      PaddedWhole(data);
      TakesSame(4);
      WriteBytesCommon(data);
      ok := true;
    }

    lemma TakesSame(n: nat)
      requires Takes(n) && n % 4 == 0
      ensures Takes(Rounded(n)) && Valid()
    {
    }

    method WriteBool(b: bool) returns (ok: bool)
      requires Takes(4)
      modifies this, header
      ensures ok && Valid() && AtEnd() && (header == old(header) || fresh(header))
      ensures Held() == Appended(old(Held()), Encode(Bool(b)))
    {
      hide Held, Appended, Takes, ToBytes, AtEnd;
      ok := WriteInt(if b then 1 else 0);
    }

    /** WriteUInt16, WriteUInt32, WriteInt64, WriteUInt64 and WriteSizeT: the bytes of a
        value in memory. */
    method WritePOD(data: seq<byte>) returns (ok: bool)
      requires Takes(Rounded(|data|)) && |data| in {2, 4, 8}
      modifies this, header
      ensures ok && Valid() && AtEnd() && (header == old(header) || fresh(header))
      ensures Held() == Appended(old(Held()), Padded(data))
    {
      hide Held, Appended, Takes, Padded, AtEnd;
      WriteBytesCommon(data);
      ok := true;
    }

    method WriteUInt16(n: nat) returns (ok: bool)
      requires Takes(4) && n < M16
      modifies this, header
      ensures ok && Valid() && AtEnd() && (header == old(header) || fresh(header))
      ensures Held() == Appended(old(Held()), Encode(UInt16(n)))
    {
      hide Held, Appended, Padded, AtEnd;
      ok := WritePOD(ToBytes(n, 2));
    }

    method WriteUInt32(n: nat) returns (ok: bool)
      requires Takes(4) && n < M32
      modifies this, header
      ensures ok && Valid() && AtEnd() && (header == old(header) || fresh(header))
      ensures Held() == Appended(old(Held()), Encode(UInt32(n)))
    {
      hide Held, Appended, Padded, AtEnd, ToBytes;
      PaddedWhole(ToBytes(n, 4));
      ok := WritePOD(ToBytes(n, 4));
    }

    method WriteInt64(i: int) returns (ok: bool)
      requires Takes(8) && Fits(i, M64)
      modifies this, header
      ensures ok && Valid() && AtEnd() && (header == old(header) || fresh(header))
      ensures Held() == Appended(old(Held()), Encode(Int64(i)))
    {
      hide Held, Appended, Padded, AtEnd, ToBytes;
      PaddedWhole(ToBytes(Unsigned(i, M64), 8));
      ok := WritePOD(ToBytes(Unsigned(i, M64), 8));
    }

    method WriteUInt64(n: nat) returns (ok: bool)
      requires Takes(8) && n < M64
      modifies this, header
      ensures ok && Valid() && AtEnd() && (header == old(header) || fresh(header))
      ensures Held() == Appended(old(Held()), Encode(UInt64(n)))
    {
      hide Held, Appended, Padded, AtEnd, ToBytes;
      PaddedWhole(ToBytes(n, 8));
      ok := WritePOD(ToBytes(n, 8));
    }

    /** size_t is always written with 64 bits. */
    method WriteSizeT(n: nat) returns (ok: bool)
      requires Takes(8) && n < M64
      modifies this, header
      ensures ok && Valid() && AtEnd() && (header == old(header) || fresh(header))
      ensures Held() == Appended(old(Held()), Encode(SizeT(n)))
    {
      hide Held, Appended, Padded, AtEnd, ToBytes;
      ok := WriteUInt64(n);
    }

    method WriteBytes(data: seq<byte>) returns (ok: bool)
      requires Takes(Rounded(|data|)) && |data| <= INT_MAX
      modifies this, header
      ensures ok && Valid() && AtEnd() && (header == old(header) || fresh(header))
      ensures Held() == Appended(old(Held()), Encode(Bytes(data)))
    {
      hide Held, Appended, Padded, AtEnd, Takes, ToBytes;
      WriteBytesCommon(data);
      ok := true;
    }

    /** A length and then that many bytes. */
    method WriteCounted(count: int, data: seq<byte>) returns (ok: bool)
      requires Takes(4 + Rounded(|data|)) && |data| <= INT_MAX && 0 <= count <= INT_MAX
      modifies this, header
      ensures ok && Valid() && AtEnd() && (header == old(header) || fresh(header))
      ensures Held() == Appended(old(Held()), ToBytes(count, 4) + Padded(data))
    {
      hide Padded, ToBytes, Payload, Image, SizeField, Appended;
      ghost var before := Held();
      ok := WriteInt(count);
      OffsetAfter(before, ToBytes(count, 4));
      ok := WriteBytes(data);
      AppendedTwice(before, ToBytes(count, 4), Padded(data));
    }

    method WriteString(value: seq<byte>) returns (ok: bool)
      requires Takes(4 + Rounded(|value|)) && |value| <= INT_MAX
      modifies this, header
      ensures ok && Valid() && AtEnd() && (header == old(header) || fresh(header))
      ensures Held() == Appended(old(Held()), Encode(String(value)))
    {
      hide Held, Appended, Padded, AtEnd, Takes, ToBytes;
      ok := WriteCounted(|value|, value);
    }

    method WriteString16(value: seq<nat>) returns (ok: bool)
      requires Takes(4 + Rounded(2 * |value|)) && Writable(String16(value))
      modifies this, header
      ensures ok && Valid() && AtEnd() && (header == old(header) || fresh(header))
      ensures Held() == Appended(old(Held()), Encode(String16(value)))
    {
      hide Held, Appended, Padded, AtEnd, Takes, ToBytes;
      ok := WriteCounted(|value|, UnitBytes(value));
    }

    /** WriteData refuses a negative length and then writes nothing. */
    method WriteData(data: seq<byte>, length: int) returns (ok: bool)
      requires length <= |data| && length <= INT_MAX
      requires Valid() && (length >= 0 ==> Takes(4 + Rounded(length)))
      modifies this, header
      ensures Valid() && ok == (length >= 0) && (header == old(header) || fresh(header))
      ensures ok ==> AtEnd()
      ensures Held() == if ok then Appended(old(Held()), Encode(Data(data[..length]))) else old(Held())
    {
      hide Held, Appended, Padded, AtEnd, Takes, ToBytes;
      if length < 0 {
        return false;
      }
      ok := WriteCounted(length, data[..length]);
    }

    /** The Write method of the field's type. */
    method WriteField(f: Field) returns (ok: bool)
      requires Writable(f) && Takes(|Encode(f)|)
      modifies this, header
      ensures ok && Valid() && AtEnd() && (header == old(header) || fresh(header))
      ensures Held() == Appended(old(Held()), Encode(f))
    {
      hide Held, Appended, Padded, AtEnd, ToBytes, UnitBytes;
      match f
      case Bool(b) => ok := WriteBool(b);
      case Int(i) => ok := WriteInt(i);
      case UInt16(n) => ok := WriteUInt16(n);
      case UInt32(n) => ok := WriteUInt32(n);
      case Int64(i) => ok := WriteInt64(i);
      case UInt64(n) => ok := WriteUInt64(n);
      case SizeT(n) => ok := WriteSizeT(n);
      case String(s) => ok := WriteString(s);
      case String16(units) => ok := WriteString16(units);
      case Data(s) =>
        assert s[..|s|] == s;
        ok := WriteData(s, |s|);
      case Bytes(s) => ok := WriteBytes(s);
    }

    lemma NothingBehind()
      requires Valid() && AtEnd()
      ensures Held().offset == |Held().payload|
    {
      hide SizeField;
    }

    /** Fields written one after the other append their encodings. */
    method WriteAll(fields: seq<Field>)
      requires (forall f :: f in fields ==> Writable(f)) && Takes(|EncodeAll(fields)|) && AtEnd()
      modifies this, header
      ensures Valid() && AtEnd() && (header == old(header) || fresh(header))
      ensures Held() == Appended(old(Held()), EncodeAll(fields))
      decreases |fields|
    {
      hide Appended, Encode, Writable, SizeField, Image, Payload;
      ghost var before := Held();
      if fields == [] {
        NothingBehind();
        AppendedNothing(before);
        return;
      }
      assert Takes(|Encode(fields[0])|);
      var ok := WriteField(fields[0]);
      OffsetAfter(before, Encode(fields[0]));
      WriteAll(fields[1..]);
      AppendedTwice(before, Encode(fields[0]), EncodeAll(fields[1..]));
    }

    /** The bytes of a pickle are one whole pickle to FindNext. */
    lemma ImageIsWhole()
      requires Valid()
      ensures Whole(headerSize, Image()) && FindNext(headerSize, Image(), |Image()| + 1) == Some(|Image()|)
    {
      hide SizeField;
      SameSizeField(Image(), header[..]);
      FindNextFindsWhole(headerSize, Image(), |Image()| + 1, |Image()|);
      assert Image()[..|Image()|] == Image();
    }

    /** memcpy and memset: the bytes and the padding behind them. */
    method StorePadded(at: nat, data: seq<byte>)
      requires header != null && at + Rounded(|data|) <= header.Length
      modifies header
      ensures header[..] == Stored(old(header[..]), at, Padded(data))
    {
      hide Rounded;
      forall k | 0 <= k < |data| {
        header[at + k] := data[k];
      }
      forall k | |data| <= k < Rounded(|data|) {
        header[at + k] := 0;
      }
    }
  }

  // ------------------------------------------------------------ the iterator

  /** Reads the payload in place; the pickle's memory stays as it is while it is used. */
  class PickleIterator {
    const memory: array?<byte>
    const start: nat          // payload_ points to memory[start]
    var readIndex: nat
    const endIndex: nat

    predicate Bounds()
    {
      if memory == null then endIndex == 0 else start + endIndex <= memory.Length
    }

    ghost predicate Valid()
      reads `readIndex
    {
      Bounds() && readIndex <= endIndex
    }

    ghost function Payload(): (p: seq<byte>)
      requires Bounds()
      reads memory
      ensures |p| == endIndex
    {
      if memory == null then [] else memory[start..start + endIndex]
    }

    constructor (pickle: Pickle)
      requires pickle.Refused() || pickle.Valid()
      ensures Valid() && readIndex == 0
      ensures if pickle.Refused() then Payload() == [] else memory == pickle.header && Payload() == pickle.Payload()
    {
      hide SizeField, LittleEndian;
      memory, start, readIndex := pickle.header, pickle.headerSize, 0;
      endIndex := if pickle.header == null then 0 else SizeField(pickle.header[..]);
    }

    method Advance(size: nat)
      requires Valid() && size <= INT_MAX
      modifies `readIndex
      ensures Valid() && readIndex == Advanced(old(readIndex), size, endIndex)
    {
      hide Align;
      AlignFour(size);
      var alignedSize := Align(size, 4);
      if endIndex - readIndex < alignedSize {
        readIndex := endIndex;
      } else {
        readIndex := readIndex + alignedSize;
      }
    }

    /** The bytes read, in place of a pointer to them; None in place of NULL. */
    method GetReadPointerAndAdvance(numBytes: int) returns (r: Option<seq<byte>>)
      requires Valid() && numBytes <= INT_MAX
      modifies `readIndex
      ensures Valid() && if memory == null then r == None && readIndex == 0 else Read(r, readIndex) == Take(Payload(), old(readIndex), numBytes)
    {
      hide Rounded;
      if numBytes < 0 || endIndex - readIndex < numBytes {
        readIndex := endIndex;
        return None;
      }
      r := None;
      if memory != null {
        r := Some(memory[start + readIndex..start + readIndex + numBytes]);
        assert r.value == Payload()[readIndex..readIndex + numBytes];
      }
      Advance(numBytes);
    }

    /** With a check that the byte count fits an int. */
    method GetElements(numElements: int, sizeElement: nat) returns (r: Option<seq<byte>>)
      requires Valid() && Fits(numElements, M32) && 0 < sizeElement <= 2
      modifies `readIndex
      ensures Valid()
      ensures !Fits(numElements * sizeElement, M32) ==> r == None && readIndex == old(readIndex)
      ensures memory == null ==> r == None && readIndex == 0
      ensures memory != null && Fits(numElements * sizeElement, M32) ==>
          Read(r, readIndex) == Take(Payload(), old(readIndex), numElements * sizeElement)
    {
      hide Take;
      var numBytes := numElements * sizeElement;
      if !Fits(numBytes, M32) {
        return None;
      }
      r := GetReadPointerAndAdvance(numBytes);
    }

    method ReadNumber(size: nat) returns (r: Option<nat>)
      requires Valid() && size in {1, 2, 4, 8}
      modifies `readIndex
      ensures Valid() && if memory == null then r == None && readIndex == 0 else Read(r, readIndex) == TakeNumber(Payload(), old(readIndex), size)
    {
      hide Take;
      var bytes := GetReadPointerAndAdvance(size);
      r := if bytes.None? then None else Some(LittleEndian(bytes.value));
    }

    method ReadInt() returns (r: Option<int>)
      requires Valid()
      modifies `readIndex
      ensures Valid() && if memory == null then r == None && readIndex == 0 else Read(r, readIndex) == TakeInt(Payload(), old(readIndex))
      ensures r.Some? ==> Fits(r.value, M32)
    {
      hide Take;
      ghost var index := readIndex;
      var bytes := GetReadPointerAndAdvance(4);
      r := if bytes.None? then None else Some(Signed(LittleEndian(bytes.value), M32));
      if r.Some? {
        LengthFits(Payload(), index);
      }
    }

    method ReadSized(element: nat) returns (r: Option<seq<byte>>)
      requires Valid() && 0 < element <= 2
      modifies `readIndex
      ensures Valid() && if memory == null then r == None && readIndex == 0 else Read(r, readIndex) == TakeSized(Payload(), old(readIndex), element)
    {
      hide Take, TakeInt;
      var len := ReadInt();
      if len.None? {
        return None;
      }
      r := GetElements(len.value, element);
    }

    /** Reads a field of the kind asked for: ReadBool, ReadInt, ReadUInt16, ReadUInt32,
        ReadInt64, ReadUInt64, ReadSizeT, ReadString, ReadString16, ReadData, ReadLength
        and ReadBytes, each by its own case. */
    method ReadField(kind: Kind) returns (r: Option<Field>)
      requires Valid() && (kind.KBytes? ==> kind.length <= INT_MAX)
      modifies `readIndex
      ensures Valid() && if memory == null then r == None && readIndex == 0 else Read(r, readIndex) == Decode(kind, Payload(), old(readIndex))
    {
      hide Take, TakeInt, TakeNumber, TakeSized, Payload;
      match kind
      case KBool => var n := ReadNumber(1); r := if n.None? then None else Some(Bool(n.value != 0));
      case KInt => var i := ReadInt(); r := if i.None? then None else Some(Int(i.value));
      case KUInt16 => var n := ReadNumber(2); r := if n.None? then None else Some(UInt16(n.value));
      case KUInt32 => var n := ReadNumber(4); r := if n.None? then None else Some(UInt32(n.value));
      case KInt64 => var n := ReadNumber(8); r := if n.None? then None else Some(Int64(Signed(n.value, M64)));
      case KUInt64 => var n := ReadNumber(8); r := if n.None? then None else Some(UInt64(n.value));
      case KSizeT => var n := ReadNumber(8); r := if n.None? then None else Some(SizeT(n.value));
      case KString => var s := ReadSized(1); r := if s.None? then None else Some(String(s.value));
      case KString16 =>
        var s := ReadSized(2);
        r := if s.None? then None else Some(String16(if |s.value| % 2 == 0 then Units(s.value) else []));
      case KData => var s := ReadSized(1); r := if s.None? then None else Some(Data(s.value));
      case KLength =>
        var i := ReadInt();
        r := if i.None? || i.value < 0 then None else Some(Int(i.value));
      case KBytes(length) => var s := GetReadPointerAndAdvance(length); r := if s.None? then None else Some(Bytes(s.value));
    }

    method SkipBytes(numBytes: int) returns (ok: bool)
      requires Valid() && numBytes <= INT_MAX
      modifies `readIndex
      ensures Valid() && ok == (memory != null && 0 <= numBytes <= endIndex - old(readIndex))
      ensures readIndex == if ok then Advanced(old(readIndex), numBytes, endIndex) else endIndex
    {
      var s := GetReadPointerAndAdvance(numBytes);
      ok := s.Some?;
    }

    /** Reads a list of fields, as the caller does who knows what was written. */
    method ReadAll(kinds: seq<Kind>) returns (r: Option<seq<Field>>)
      requires Valid() && memory != null && forall k :: k in kinds ==> k.KBytes? ==> k.length <= INT_MAX
      modifies `readIndex
      ensures Valid() && Read(r, readIndex) == DecodeAll(kinds, Payload(), old(readIndex))
      decreases |kinds|
    {
      hide Decode, Payload;
      if kinds == [] {
        return Some([]);
      }
      var first := ReadField(kinds[0]);
      if first.None? {
        return None;
      }
      var rest := ReadAll(kinds[1..]);
      r := if rest.None? then None else Some([first.value] + rest.value);
    }
  }

  /** What storing a field and the new size does to the block. */
  lemma WriteEffect(mem: seq<byte>, headerSize: nat, offset: nat, data: seq<byte>)
    requires 4 <= headerSize && headerSize + offset + Rounded(|data|) <= |mem| && offset + Rounded(|data|) <= UINT32_MAX
    ensures var m := Stored(Stored(mem, headerSize + offset, Padded(data)), 0, ToBytes(offset + Rounded(|data|), 4));
        SizeField(m) == offset + Rounded(|data|)
        && PayloadOf(m, headerSize) == mem[headerSize..headerSize + offset] + Padded(data)
        && m[4..headerSize] == mem[4..headerSize]
  {
    hide SizeField, ToBytes, Padded, Rounded, Stored, PayloadOf;
    var size, at := offset + Rounded(|data|), headerSize + offset;
    var first := Stored(mem, at, Padded(data));
    var m := Stored(first, 0, ToBytes(size, 4));
    StoredParts(mem, at, Padded(data));
    StoredParts(first, 0, ToBytes(size, 4));
    assert forall k :: 0 <= k < 4 ==> m[k] == m[0..0 + 4][k];
    SizeStored(m, size);
    AfterHeader(first, m, mem, headerSize, offset, data);
  }

  lemma StoredParts(mem: seq<byte>, at: nat, bytes: seq<byte>)
    requires at + |bytes| <= |mem|
    ensures var r := Stored(mem, at, bytes); r[..at] == mem[..at] && r[at..at + |bytes|] == bytes && r[at + |bytes|..] == mem[at + |bytes|..]
  {
  }

  lemma AfterHeader(first: seq<byte>, m: seq<byte>, mem: seq<byte>, headerSize: nat, offset: nat, data: seq<byte>)
    requires 4 <= headerSize && headerSize + offset + Rounded(|data|) <= |mem| == |first| == |m|
    requires SizeField(m) == offset + Rounded(|data|) && m[4..] == first[4..]
    requires first[..headerSize + offset] == mem[..headerSize + offset]
    requires first[headerSize + offset..headerSize + offset + Rounded(|data|)] == Padded(data)
    ensures PayloadOf(m, headerSize) == mem[headerSize..headerSize + offset] + Padded(data) && m[4..headerSize] == mem[4..headerSize]
  {
    hide SizeField, Padded, Rounded;
    var at, n := headerSize + offset, Rounded(|data|);
    DropSlice(m, 4, headerSize, at + n);
    DropSlice(first, 4, headerSize, at + n);
    assert m[headerSize..at + n] == first[headerSize..at + n];
    assert first[headerSize..at + n] == first[headerSize..at] + first[at..at + n];
    TakeSlice(first, at, headerSize, at);
    TakeSlice(mem, at, headerSize, at);
    DropSlice(m, 4, 4, headerSize);
    DropSlice(first, 4, 4, headerSize);
    TakeSlice(first, at, 4, headerSize);
    TakeSlice(mem, at, 4, headerSize);
  }

  lemma DropSlice(s: seq<byte>, a: nat, i: nat, j: nat)
    requires a <= i <= j <= |s|
    ensures s[i..j] == s[a..][i - a..j - a]
  {
  }

  lemma TakeSlice(s: seq<byte>, a: nat, i: nat, j: nat)
    requires i <= j <= a <= |s|
    ensures s[i..j] == s[..a][i..j]
  {
  }

  method DeduceHeaderSize(data: array<byte>) returns (size: nat)
    requires data.Length <= INT_MAX
    ensures size == DeducedHeaderSize(data[..])
  {
    hide Align, LittleEndian;
    size := 0;
    if data.Length >= 4 {
      size := (data.Length - SizeField(data[..])) % M32;
    }
    if size > data.Length {
      size := 0;
    }
    AlignFour(size);
    if size != Align(size, 4) {
      size := 0;
    }
  }

  lemma SameSizeField(a: seq<byte>, b: seq<byte>)
    requires |a| >= 4 && |b| >= 4 && forall k :: 0 <= k < 4 ==> a[k] == b[k]
    ensures SizeField(a) == SizeField(b)
  {
    assert a[..4] == b[..4];
  }

  lemma SizeStored(mem: seq<byte>, size: nat)
    requires |mem| >= 4 && size < M32
    requires forall k :: 0 <= k < 4 ==> mem[k] == ToBytes(size, 4)[k]
    ensures SizeField(mem) == size
  {
    hide Pow2, ToBytes;
    Powers();
    FromToBytes(size, 4);
    assert mem[..4] == ToBytes(size, 4);
  }

  lemma NoPayload(mem: seq<byte>, headerSize: nat)
    requires 4 <= headerSize <= |mem| && SizeField(mem) == 0
    ensures PayloadOf(mem, headerSize) == []
  {
  }

  // ------------------------------------------------------------ through a read-only pickle

  /** A pickle over another one's data() and size() holds the same payload. */
  lemma ReadOnlyPayload(mem: seq<byte>, headerSize: nat)
    requires 4 <= headerSize <= |mem| <= INT_MAX && headerSize % 4 == 0 && |mem| == headerSize + SizeField(mem)
    ensures DeducedHeaderSize(mem) == headerSize
  {
    hide SizeField;
    DeducedHeader(mem);
  }

  /** Fields written to a pickle, read through a pickle constructed from a copy of its
      data() and size(): the values come back and the reader stops at end_index_. */
  method RoundTripThroughData(pickle: Pickle, data: array<byte>, ghost fields: seq<Field>, kinds: seq<Kind>) returns (r: Option<seq<Field>>)
    requires pickle.Valid() && (forall f :: f in fields ==> Writable(f)) && kinds == KindsOf(fields)
    requires pickle.Payload() == EncodeAll(fields)
    requires data.Length <= INT_MAX && data[..] == pickle.Image()
    ensures r == Some(fields)
  {
    hide SizeField, Writable, Encode, Decode, DeducedHeaderSize;
    ghost var mem := pickle.Image();
    SameSizeField(mem, pickle.header[..]);
    ReadOnlyPayload(mem, pickle.headerSize);
    var copy := new Pickle.FromData(data);
    assert copy.Payload() == mem[copy.headerSize..];
    assert pickle.Payload() == mem[copy.headerSize..];
    var it := new PickleIterator(copy);
    RoundTrip(fields);
    KindsFit(fields);
    r := it.ReadAll(kinds);
    assert it.readIndex == it.endIndex;
  }

  lemma {:induction false} KindsFit(fields: seq<Field>)
    requires forall f :: f in fields ==> Writable(f)
    ensures forall k :: k in KindsOf(fields) ==> k.KBytes? ==> k.length <= INT_MAX
  {
    if fields != [] {
      assert Writable(fields[0]);
      KindsFit(fields[1..]);
    }
  }

  /** The whole way: fields written to a new pickle, its data() and size() given to another
      one, and the fields read from that in the same order. */
  method WriteThenRead(fields: seq<Field>) returns (r: Option<seq<Field>>)
    requires (forall f :: f in fields ==> Writable(f)) && |EncodeAll(fields)| + 4 <= INT_MAX
    ensures r == Some(fields)
  {
    hide SizeField, Writable, Encode, Decode, DeducedHeaderSize;
    var pickle := new Pickle();
    pickle.WriteAll(fields);
    assert pickle.Payload() == EncodeAll(fields);
    ghost var image := pickle.Image();
    SizeFieldBound(pickle.header[..]);
    var n := pickle.headerSize + SizeField(pickle.header[..]);
    var header: array<byte> := pickle.header;
    var data := new byte[n](i requires 0 <= i < header.Length reads header => header[i]);
    assert data[..] == image;
    r := RoundTripThroughData(pickle, data, fields, KindsOf(fields));
  }
}
