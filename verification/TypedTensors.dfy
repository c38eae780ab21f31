/** Typed tensors over byte buffers: ranges of elements become aligned ranges of bytes, and
    what is uploaded, copied and downloaded acts on a plain sequence of elements. */
module TypedTensors {
  import opened Layout
  import opened Blocks
  import opened Dtype
  import opened Rules

  // ----------------------------------------------------------------------------
  // Elements
  // ----------------------------------------------------------------------------

  /** Four bits, the low ones of a byte first: every kind's element is whole ones. */
  type Nibble = bv8

  function NibbleAt(s: Bytes, k: nat): Nibble
    requires k < 2 * |s|
  {
    if k % 2 == 0 then s[k / 2] & 0xF else s[k / 2] >> 4
  }

  function Nibbles(s: Bytes): (r: seq<Nibble>)
    ensures |r| == 2 * |s|
  {
    seq(2 * |s|, k requires 0 <= k < 2 * |s| => NibbleAt(s, k))
  }

  /** Nibbles per element. */
  function Units(kind: Kind): (u: nat)
    ensures u > 0 && Bits(kind) == 4 * u
  {
    Bits(kind) / 4
  }

  /** The first nibble of element `i`. */
  function First(kind: Kind, i: nat): nat {
    i * Units(kind)
  }

  lemma ElementFits(kind: Kind, i: nat, len: nat, bytes: nat)
    requires i < len && BytesFor(kind, len) <= bytes
    ensures First(kind, i) + Units(kind) <= First(kind, len) <= 2 * bytes
  {
    assert (i + 1) * Units(kind) <= len * Units(kind);
    assert len * Bits(kind) == 4 * (len * Units(kind));
  }

  /** The tensor as a sequence of `len` elements. */
  function Elements(kind: Kind, len: nat, buf: Bytes): (r: seq<seq<Nibble>>)
    requires BytesFor(kind, len) <= |buf|
    ensures |r| == len
  {
    seq(len, i requires 0 <= i < len =>
      ElementFits(kind, i, len, |buf|);
      Nibbles(buf)[First(kind, i)..First(kind, i) + Units(kind)])
  }

  /** An element of a kind of whole bytes is its bytes, their low halves first; */
  lemma ElementIsBytes(kind: Kind, len: nat, buf: Bytes, i: nat, size: nat)
    requires BytesFor(kind, len) <= |buf| && i < len && Bits(kind) == 8 * size
    ensures |Elements(kind, len, buf)[i]| == 2 * size && i * size + size <= |buf|
    ensures forall j | 0 <= j < size ::
              && Elements(kind, len, buf)[i][2 * j] == buf[i * size + j] & 0xF
              && Elements(kind, len, buf)[i][2 * j + 1] == buf[i * size + j] >> 4
  {
    ElementsNibbles(kind, len, buf, i);
    FirstByteOf(kind, i, size);
    var e := Elements(kind, len, buf)[i];
    var at := i * size;
    assert Units(kind) == 2 * size;
    hide *;
    forall j: nat | j < size
      ensures e[2 * j] == buf[at + j] & 0xF && e[2 * j + 1] == buf[at + j] >> 4
    {
      NibblesOfByte(buf, at + j);
    }
  }

  lemma FirstByteOf(kind: Kind, i: nat, size: nat)
    requires Bits(kind) == 8 * size
    ensures Units(kind) == 2 * size && First(kind, i) == 2 * (i * size)
  {
    assert Units(kind) == 2 * size;
  }

  /** one of `Int4` is half a byte. */
  lemma ElementIsHalf(len: nat, buf: Bytes, i: nat)
    requires BytesFor(Int4, len) <= |buf| && i < len
    ensures i / 2 < |buf| && Elements(Int4, len, buf)[i] == [if i % 2 == 0 then buf[i / 2] & 0xF else buf[i / 2] >> 4]
  {
    ElementsNibbles(Int4, len, buf, i);
    assert First(Int4, i) == i && Units(Int4) == 1;
    hide Elements;
  }

  lemma NibblesOfByte(buf: Bytes, k: nat)
    requires k < |buf|
    ensures NibbleAt(buf, 2 * k) == buf[k] & 0xF && NibbleAt(buf, 2 * k + 1) == buf[k] >> 4
  {
  }

  lemma ElementsNibbles(kind: Kind, len: nat, buf: Bytes, i: nat)
    requires BytesFor(kind, len) <= |buf| && i < len
    ensures |Elements(kind, len, buf)[i]| == Units(kind) && First(kind, i) + Units(kind) <= 2 * |buf|
    ensures forall j | 0 <= j < Units(kind) :: Elements(kind, len, buf)[i][j] == NibbleAt(buf, First(kind, i) + j)
  {
    hide NibbleAt, First;
    ElementFits(kind, i, len, |buf|);
    var at, u := First(kind, i), Units(kind);
    var e := Nibbles(buf)[at..at + u];
    assert Elements(kind, len, buf)[i] == e;
    forall j | 0 <= j < u ensures e[j] == NibbleAt(buf, at + j) {
    }
  }

  // ----------------------------------------------------------------------------
  // Host data
  // ----------------------------------------------------------------------------

  /** Bytes of one host word. */
  function WordBytes(kind: Kind): (n: nat)
    ensures n > 0 && 8 * n == ElemsPerHostWord(kind) * Bits(kind)
  {
    match kind case F32 => 4 case F16 => 2 case Bf16 => 2 case Int8 => 1 case Int4 => 4
  }

  /** Whole host words, as the bytes a buffer holds. */
  datatype HostData = HostData(kind: Kind, bytes: Bytes) {
    predicate Valid() {
      |bytes| % WordBytes(kind) == 0
    }

    function Len(): nat {
      |bytes| / WordBytes(kind) * ElemsPerHostWord(kind)
    }
  }

  lemma HostDataFills(d: HostData)
    requires d.Valid()
    ensures |d.bytes| == BytesFor(d.kind, d.Len()) && 2 * |d.bytes| == First(d.kind, d.Len())
  {
  }

  /** Values of `kind` from bytes: a started word is filled up with zeros. */
  function FromBytes(kind: Kind, bytes: Bytes): (d: HostData)
    ensures d.Valid() && d.kind == kind && bytes <= d.bytes && |d.bytes| < |bytes| + WordBytes(kind)
  {
    NextMultipleDivides(|bytes|, WordBytes(kind));
    HostData(kind, bytes + Zeros(NextMultiple(|bytes|, WordBytes(kind)) - |bytes|))
  }

  // ----------------------------------------------------------------------------
  // Ranges
  // ----------------------------------------------------------------------------

  /** What is moved, and how many of its bytes are the range's own. */
  datatype ByteRange = ByteRange(start: nat, bytes: nat, exact: nat)

  /** The bytes of elements `offset..offset + len` of a tensor of `tensorLen`. */
  function RangeOf(kind: Kind, tensorLen: nat, offset: nat, len: nat, write: bool): (r: Result<ByteRange>)
    ensures offset + len > tensorLen <==> r == Err(OutOfRange(offset, len, tensorLen))
    ensures r.Err? && offset + len <= tensorLen ==>
              exists e | e == offset || (e == offset + len && write) :: r.error == Misaligned(e) && e * Bits(kind) % 32 != 0
  {
    if offset + len > tensorLen then Err(OutOfRange(offset, len, tensorLen))
    else if offset * Bits(kind) % 32 != 0 then Err(Misaligned(offset))
    else if write && offset + len != tensorLen && (offset + len) * Bits(kind) % 32 != 0 then
      Err(Misaligned(offset + len))
    else Ok(ByteRange(offset * Bits(kind) / 8, NextMultiple(BytesFor(kind, len), 4), BytesFor(kind, len)))
  }

  lemma RoundingShifts(q: nat, x: nat)
    ensures NextMultiple(4 * q + x, 4) == 4 * q + NextMultiple(x, 4)
  {
    var k, r := x / 4, x % 4;
    assert 4 * q + x == 4 * (q + k) + r;
  }

  lemma RoundingGrows(x: nat, y: nat)
    requires x <= y
    ensures NextMultiple(x, 4) <= NextMultiple(y, 4)
  {
  }

  /** A range of bits that starts at a whole word. */
  lemma BitRange(from: nat, bits: nat, total: nat, start: nat, exact: nat)
    requires from % 32 == 0 && from + bits <= total && start == from / 8 && exact == (bits + 7) / 8
    ensures start % 4 == 0 && 8 * start == from && NextMultiple(exact, 4) % 4 == 0
    ensures start + NextMultiple(exact, 4) <= NextMultiple((total + 7) / 8, 4)
    ensures bits <= 8 * exact <= 8 * NextMultiple(exact, 4)
    ensures (from + bits) % 32 == 0 ==> 8 * NextMultiple(exact, 4) == bits
  {
    hide NextMultiple;
    BitStart(from, bits, total, start, exact);
    RoundingShifts(start / 4, exact);
    RoundingGrows(start + exact, (total + 7) / 8);
    RoundedBits(from, bits, exact);
    RoundedToFour(exact);
  }

  lemma BitStart(from: nat, bits: nat, total: nat, start: nat, exact: nat)
    requires from % 32 == 0 && from + bits <= total && start == from / 8 && exact == (bits + 7) / 8
    ensures start == 4 * (start / 4) && 8 * start == from && start + exact <= (total + 7) / 8
  {
    assert from == 32 * (from / 32);
  }

  lemma RoundedBits(from: nat, bits: nat, exact: nat)
    requires from % 32 == 0 && exact == (bits + 7) / 8
    ensures NextMultiple(exact, 4) % 4 == 0
    ensures (from + bits) % 32 == 0 ==> 8 * NextMultiple(exact, 4) == bits
  {
    RoundedToFour(exact);
    if (from + bits) % 32 == 0 {
      var words := (from + bits) / 32 - from / 32;
      assert bits == 32 * words && exact == 4 * words;
    }
  }

  lemma RoundedToFour(x: nat)
    ensures NextMultiple(x, 4) % 4 == 0
  {
  }

  /** An accepted range starts and ends 4-aligned inside the tensor's buffer; a written one
      goes past its last element only at the tensor's end, into the padding. */
  lemma RangeIsInside(kind: Kind, tensorLen: nat, offset: nat, len: nat, write: bool)
    requires RangeOf(kind, tensorLen, offset, len, write).Ok?
    ensures var r := RangeOf(kind, tensorLen, offset, len, write).value;
      && r.start % 4 == 0 && r.bytes % 4 == 0 && 2 * r.start == First(kind, offset)
      && r.start + r.bytes <= BufferBytes(kind, tensorLen)
      && First(kind, len) <= 2 * r.exact <= 2 * r.bytes
      && (write && offset + len != tensorLen ==> 2 * r.bytes == First(kind, len))
  {
    hide *;
    RangeIs(kind, tensorLen, offset, len, write);
    InBits(kind, tensorLen, offset, len);
    var r := RangeOf(kind, tensorLen, offset, len, write).value;
    BitRange(offset * Bits(kind), len * Bits(kind), tensorLen * Bits(kind), r.start, r.exact);
  }

  lemma InBits(kind: Kind, tensorLen: nat, offset: nat, len: nat)
    requires offset + len <= tensorLen
    ensures (offset + len) * Bits(kind) == offset * Bits(kind) + len * Bits(kind) <= tensorLen * Bits(kind)
    ensures offset * Bits(kind) == 4 * First(kind, offset) && len * Bits(kind) == 4 * First(kind, len)
  {
    TimesMonotone(offset + len, tensorLen, Bits(kind));
  }

  lemma RangeIs(kind: Kind, tensorLen: nat, offset: nat, len: nat, write: bool)
    requires RangeOf(kind, tensorLen, offset, len, write).Ok?
    ensures var (r, b) := (RangeOf(kind, tensorLen, offset, len, write).value, Bits(kind));
      && offset + len <= tensorLen && offset * b % 32 == 0
      && r.start == offset * b / 8 && r.exact == (len * b + 7) / 8 && r.bytes == NextMultiple(r.exact, 4)
      && (write && offset + len != tensorLen ==> (offset + len) * b % 32 == 0)
      && BufferBytes(kind, tensorLen) == NextMultiple((tensorLen * b + 7) / 8, 4)
  {
  }

  // ----------------------------------------------------------------------------
  // Upload, copy, zero, download
  // ----------------------------------------------------------------------------

  /** `data`, zero-padded to `bytes`. */
  function Padded(data: Bytes, bytes: nat): (r: Bytes)
    requires |data| <= bytes
    ensures |r| == bytes
  {
    data + Zeros(bytes - |data|)
  }

  /** `upload_at`: the buffer after it, or why it fails. */
  function UploadAt(kind: Kind, len: nat, buf: Bytes, offset: nat, data: HostData): (r: Result<Bytes>)
    requires |buf| == BufferBytes(kind, len) && data.Valid()
    ensures r.Ok? ==> |r.value| == |buf|
    ensures data.kind != kind <==> r == Err(KindMismatch(kind, data.kind))
  {
    if data.kind != kind then Err(KindMismatch(kind, data.kind))
    else
      var range := RangeOf(kind, len, offset, data.Len(), true);
      if range.Err? then Err(range.error)
      else
        RangeIsInside(kind, len, offset, data.Len(), true);
        HostDataFills(data);
        Ok(Splice(buf, range.value.start, Padded(data.bytes, range.value.bytes)))
  }

  /** `upload`: the whole tensor. */
  function Upload(kind: Kind, len: nat, buf: Bytes, data: HostData): (r: Result<Bytes>)
    requires |buf| == BufferBytes(kind, len) && data.Valid()
    ensures r.Ok? ==> |r.value| == |buf|
    ensures data.Len() != len <==> r == Err(LenMismatch(len, data.Len()))
  {
    if data.Len() != len then Err(LenMismatch(len, data.Len())) else UploadAt(kind, len, buf, 0, data)
  }

  function DownloadRange(kind: Kind, len: nat, buf: Bytes, offset: nat, n: nat): (r: Result<HostData>)
    requires |buf| == BufferBytes(kind, len)
    ensures r.Ok? ==> r.value.Valid() && r.value.kind == kind
  {
    var range := RangeOf(kind, len, offset, n, false);
    if range.Err? then Err(range.error)
    else
      RangeIsInside(kind, len, offset, n, false);
      Ok(FromBytes(kind, buf[range.value.start..range.value.start + range.value.bytes][..range.value.exact]))
  }

  /** `copy_ranges`, then the copy: the destination's buffer after it. */
  function CopyInto(
    kind: Kind, len: nat, buf: Bytes, offset: nat, dstKind: Kind, dstLen: nat, dst: Bytes, dstOffset: nat, n: nat)
    : (r: Result<Bytes>)
    requires |buf| == BufferBytes(kind, len) && |dst| == BufferBytes(dstKind, dstLen)
    ensures r.Ok? ==> |r.value| == |dst|
    ensures dstKind != kind <==> r == Err(KindMismatch(dstKind, kind))
  {
    if dstKind != kind then Err(KindMismatch(dstKind, kind))
    else
      var from := RangeOf(kind, len, offset, n, false);
      if from.Err? then Err(from.error)
      else
        var to := RangeOf(kind, dstLen, dstOffset, n, true);
        if to.Err? then Err(to.error)
        else
          RangeIsInside(kind, len, offset, n, false);
          RangeIsInside(kind, dstLen, dstOffset, n, true);
          Ok(Splice(dst, to.value.start, buf[from.value.start..from.value.start + to.value.bytes]))
  }

  // ----------------------------------------------------------------------------
  // What they do to the elements
  // ----------------------------------------------------------------------------

  lemma NibblesOfSplice(s: Bytes, at: nat, data: Bytes, k: nat)
    requires at + |data| <= |s| && k < 2 * |s|
    ensures NibbleAt(Splice(s, at, data), k)
         == if 2 * at <= k < 2 * (at + |data|) then NibbleAt(data, k - 2 * at) else NibbleAt(s, k)
  {
  }

  /** One nibble after a splice: `at` is where it is, `low..low + count` the nibbles written. */
  lemma SplicedNibble(buf: Bytes, start: nat, piece: Bytes, low: nat, count: nat, at: nat)
    requires start + |piece| <= |buf| && low == 2 * start && count <= 2 * |piece| && at < 2 * |buf|
    requires at >= low + count ==> count == 2 * |piece|
    ensures NibbleAt(Splice(buf, start, piece), at)
         == if low <= at < low + count then NibbleAt(piece, at - low) else NibbleAt(buf, at)
  {
    NibblesOfSplice(buf, start, piece, at);
  }

  /** `piece` may be spliced in as elements `offset..offset + n`. */
  ghost predicate Spliceable(kind: Kind, len: nat, buf: Bytes, start: nat, piece: Bytes, offset: nat, n: nat) {
    && BytesFor(kind, len) <= |buf| && start + |piece| <= |buf| && BytesFor(kind, n) <= |piece|
    && offset + n <= len && 2 * start == First(kind, offset) && First(kind, n) <= 2 * |piece|
    && (offset + n != len ==> 2 * |piece| == First(kind, n))
  }

  lemma NibbleOfElement(
    kind: Kind, len: nat, buf: Bytes, start: nat, piece: Bytes, offset: nat, n: nat, i: nat, j: nat)
    requires Spliceable(kind, len, buf, start, piece, offset, n) && i < len && j < Units(kind)
    ensures |Elements(kind, len, Splice(buf, start, piece))[i]| == |Elements(kind, len, buf)[i]| == Units(kind)
    ensures offset <= i < offset + n ==> |Elements(kind, n, piece)[i - offset]| == Units(kind)
    ensures Elements(kind, len, Splice(buf, start, piece))[i][j]
         == if offset <= i < offset + n then Elements(kind, n, piece)[i - offset][j] else Elements(kind, len, buf)[i][j]
  {
    hide First, Units, BytesFor, Elements, NibbleAt, Splice;
    WhereElementIs(kind, offset, n, i);
    ElementsNibbles(kind, len, buf, i);
    ElementsNibbles(kind, len, Splice(buf, start, piece), i);
    SplicedNibble(buf, start, piece, First(kind, offset), First(kind, n), First(kind, i) + j);
    if offset <= i < offset + n {
      ElementsNibbles(kind, n, piece, i - offset);
    }
  }

  lemma ElementOfSplice(kind: Kind, len: nat, buf: Bytes, start: nat, piece: Bytes, offset: nat, n: nat, i: nat)
    requires Spliceable(kind, len, buf, start, piece, offset, n) && i < len
    ensures offset + n <= len
    ensures Elements(kind, len, Splice(buf, start, piece))[i]
         == if offset <= i < offset + n then Elements(kind, n, piece)[i - offset] else Elements(kind, len, buf)[i]
  {
    var after, before := Elements(kind, len, Splice(buf, start, piece))[i], Elements(kind, len, buf)[i];
    assert offset + n <= len;
    var want := if offset <= i < offset + n then Elements(kind, n, piece)[i - offset] else before;
    hide *;
    NibbleOfElement(kind, len, buf, start, piece, offset, n, i, 0);
    forall j: nat | j < Units(kind) ensures after[j] == want[j] {
      NibbleOfElement(kind, len, buf, start, piece, offset, n, i, j);
    }
    assert |after| == |want| == Units(kind);
  }

  /** What a slice update is, item by item. */
  lemma SliceUpdate<T>(after: seq<T>, before: seq<T>, piece: seq<T>, offset: nat)
    requires |after| == |before| && offset + |piece| <= |before|
    requires forall i | 0 <= i < |after| ::
               after[i] == if offset <= i < offset + |piece| then piece[i - offset] else before[i]
    ensures after == before[..offset] + piece + before[offset + |piece|..]
  {
  }

  /** Splicing in a range of elements is a slice update of the element sequence. */
  lemma SpliceIsSliceUpdate(kind: Kind, len: nat, buf: Bytes, start: nat, piece: Bytes, offset: nat, n: nat)
    requires Spliceable(kind, len, buf, start, piece, offset, n)
    ensures Elements(kind, len, Splice(buf, start, piece))
         == Elements(kind, len, buf)[..offset] + Elements(kind, n, piece) + Elements(kind, len, buf)[offset + n..]
  {
    var after := Elements(kind, len, Splice(buf, start, piece));
    var before, new_ := Elements(kind, len, buf), Elements(kind, n, piece);
    assert offset + n <= len;
    hide *;
    forall i: nat | i < len
      ensures after[i] == if offset <= i < offset + n then new_[i - offset] else before[i]
    {
      ElementOfSplice(kind, len, buf, start, piece, offset, n, i);
    }
    SliceUpdate(after, before, new_, offset);
  }

  /** Where element `i`'s nibbles are, against those of elements `offset..offset + n`. */
  lemma WhereElementIs(kind: Kind, offset: nat, n: nat, i: nat)
    ensures i < offset ==> First(kind, i) + Units(kind) <= First(kind, offset)
    ensures offset <= i ==> First(kind, i) == First(kind, offset) + First(kind, i - offset)
    ensures offset <= i < offset + n ==> First(kind, i) + Units(kind) <= First(kind, offset) + First(kind, n)
    ensures i >= offset + n ==> First(kind, i) >= First(kind, offset) + First(kind, n)
  {
    var u := Units(kind);
    if i < offset {
      TimesMonotone(i + 1, offset, u);
    } else {
      assert (i - offset) * u == i * u - offset * u;
      if i < offset + n {
        TimesMonotone(i - offset + 1, n, u);
      } else {
        TimesMonotone(n, i - offset, u);
      }
    }
  }

  // ----------------------------------------------------------------------------
  // The results
  // ----------------------------------------------------------------------------

  /** Main result: an accepted upload acts on the elements as a slice update; only the
      padding may change beside them. It is refused exactly for another kind, a range
      that doesn't fit, or one that starts or ends inside a word that isn't its own. */
  lemma UploadIsSliceUpdate(kind: Kind, len: nat, buf: Bytes, offset: nat, data: HostData)
    requires |buf| == BufferBytes(kind, len) && data.Valid()
    ensures UploadAt(kind, len, buf, offset, data).Ok? <==>
      && data.kind == kind && offset + data.Len() <= len && offset * Bits(kind) % 32 == 0
      && (offset + data.Len() == len || (offset + data.Len()) * Bits(kind) % 32 == 0)
    ensures UploadAt(kind, len, buf, offset, data).Ok? ==>
      && BytesFor(kind, data.Len()) <= |data.bytes|
      && Elements(kind, len, UploadAt(kind, len, buf, offset, data).value)
         == Elements(kind, len, buf)[..offset] + Elements(kind, data.Len(), data.bytes)
            + Elements(kind, len, buf)[offset + data.Len()..]
  {
    var range := RangeOf(kind, len, offset, data.Len(), true);
    if data.kind == kind && range.Ok? {
      RangeIsInside(kind, len, offset, data.Len(), true);
      HostDataFills(data);
      var piece := Padded(data.bytes, range.value.bytes);
      hide Elements, Splice;
      SpliceIsSliceUpdate(kind, len, buf, range.value.start, piece, offset, data.Len());
      PaddedElements(kind, data.Len(), data.bytes, range.value.bytes);
    }
  }

  /** Padding past the elements isn't part of them. */
  lemma PaddedElements(kind: Kind, n: nat, data: Bytes, bytes: nat)
    requires BytesFor(kind, n) <= |data| <= bytes
    ensures Elements(kind, n, Padded(data, bytes)) == Elements(kind, n, data)
  {
    SamePrefix(kind, n, data, Padded(data, bytes));
  }

  /** Elements depend on their own bytes only. */
  lemma SamePrefix(kind: Kind, n: nat, s: Bytes, t: Bytes)
    requires BytesFor(kind, n) <= |s| <= |t| && s <= t
    ensures Elements(kind, n, t) == Elements(kind, n, s)
  {
    hide Elements, BytesFor, Units, First;
    forall i: nat | i < n ensures Elements(kind, n, t)[i] == Elements(kind, n, s)[i] {
      ElementsNibbles(kind, n, s, i);
      ElementsNibbles(kind, n, t, i);
      assert forall j | 0 <= j < Units(kind) :: Elements(kind, n, t)[i][j] == Elements(kind, n, s)[i][j];
    }
  }

  lemma ElementOfSlice(kind: Kind, len: nat, buf: Bytes, start: nat, bytes: nat, offset: nat, n: nat, i: nat)
    requires BytesFor(kind, len) <= |buf| && start + bytes <= |buf| && BytesFor(kind, n) <= bytes
    requires offset + n <= len && 2 * start == First(kind, offset) && i < n
    ensures Elements(kind, n, buf[start..start + bytes])[i] == Elements(kind, len, buf)[offset + i]
  {
    hide *;
    var piece := buf[start..start + bytes];
    assert |piece| == bytes;
    hide *;
    WhereElementIs(kind, offset, n, offset + i);
    ElementsNibbles(kind, n, piece, i);
    ElementsNibbles(kind, len, buf, offset + i);
    SameNibbles(buf, start, bytes, First(kind, i), Units(kind), Elements(kind, n, piece)[i], Elements(kind, len, buf)[offset + i]);
  }

  lemma SameNibbles(buf: Bytes, start: nat, bytes: nat, at: nat, u: nat, low: seq<Nibble>, high: seq<Nibble>)
    requires start + bytes <= |buf| && at + u <= 2 * bytes && |low| == |high| == u
    requires forall j | 0 <= j < u :: low[j] == NibbleAt(buf[start..start + bytes], at + j)
    requires forall j | 0 <= j < u :: high[j] == NibbleAt(buf, 2 * start + at + j)
    ensures low == high
  {
    forall j: nat | j < u ensures low[j] == high[j] {
      NibbleOfSlice(buf, start, bytes, at + j);
    }
  }

  /** The bytes of a range hold its elements. */
  lemma SliceOfElements(kind: Kind, len: nat, buf: Bytes, start: nat, bytes: nat, offset: nat, n: nat)
    requires BytesFor(kind, len) <= |buf| && start + bytes <= |buf| && BytesFor(kind, n) <= bytes
    requires offset + n <= len && 2 * start == First(kind, offset)
    ensures Elements(kind, n, buf[start..start + bytes]) == Elements(kind, len, buf)[offset..offset + n]
  {
    var inside, all := Elements(kind, n, buf[start..start + bytes]), Elements(kind, len, buf);
    hide *;
    forall i: nat | i < n ensures inside[i] == all[offset + i] {
      ElementOfSlice(kind, len, buf, start, bytes, offset, n, i);
    }
  }

  lemma NibbleOfSlice(buf: Bytes, start: nat, bytes: nat, k: nat)
    requires start + bytes <= |buf| && k < 2 * bytes
    ensures NibbleAt(buf[start..start + bytes], k) == NibbleAt(buf, 2 * start + k)
  {
  }

  /** Main result: a download holds the range's elements. It holds no more of them exactly
      when the range is whole host words: a started word of a packed kind is filled up. */
  lemma DownloadIsSlice(kind: Kind, len: nat, buf: Bytes, offset: nat, n: nat)
    requires |buf| == BufferBytes(kind, len)
    ensures DownloadRange(kind, len, buf, offset, n).Ok? <==> offset + n <= len && offset * Bits(kind) % 32 == 0
    ensures DownloadRange(kind, len, buf, offset, n).Ok? ==>
      var d := DownloadRange(kind, len, buf, offset, n).value;
      && d.Len() == WholeWords(kind, n) && n <= d.Len() && BytesFor(kind, n) <= |d.bytes|
      && Elements(kind, n, d.bytes) == Elements(kind, len, buf)[offset..offset + n]
      && (d.Len() == n <==> n % ElemsPerHostWord(kind) == 0)
  {
    DownloadChecks(kind, len, buf, offset, n);
    hide *;
    if DownloadRange(kind, len, buf, offset, n).Ok? {
      var start, bytes := DownloadKnown(kind, len, buf, offset, n);
      var exact := buf[start..start + bytes];
      assert |exact| == bytes;
      FilledLength(kind, n, exact);
      SliceOfElements(kind, len, buf, start, bytes, offset, n);
      SamePrefix(kind, n, exact, FromBytes(kind, exact).bytes);
    }
  }

  lemma DownloadChecks(kind: Kind, len: nat, buf: Bytes, offset: nat, n: nat)
    requires |buf| == BufferBytes(kind, len)
    ensures DownloadRange(kind, len, buf, offset, n).Ok? <==> offset + n <= len && offset * Bits(kind) % 32 == 0
  {
  }

  /** Where a download that is accepted reads. */
  lemma DownloadKnown(kind: Kind, len: nat, buf: Bytes, offset: nat, n: nat) returns (start: nat, bytes: nat)
    requires |buf| == BufferBytes(kind, len) && DownloadRange(kind, len, buf, offset, n).Ok?
    ensures start + bytes <= |buf| && offset + n <= len && 2 * start == First(kind, offset)
    ensures bytes == BytesFor(kind, n) && BytesFor(kind, len) <= |buf|
    ensures DownloadRange(kind, len, buf, offset, n).value == FromBytes(kind, buf[start..start + bytes])
  {
    var range := RangeOf(kind, len, offset, n, false).value;
    RangeIsInside(kind, len, offset, n, false);
    RangeIs(kind, len, offset, n, false);
    start, bytes := range.start, range.exact;
    assert buf[range.start..range.start + range.bytes][..range.exact] == buf[start..start + bytes];
    hide RangeOf;
  }

  /** Nibbles up to whole words of 8. */
  lemma FilledNibbles(n: nat, bytes: nat)
    requires bytes == (n + 1) / 2
    ensures NextMultiple(bytes, 4) / 4 * 8 == NextMultiple(n, 8)
  {
    var q, r := n / 8, n % 8;
    assert n == 8 * q + r && bytes == 4 * q + (r + 1) / 2;
    RoundingShifts(q, (r + 1) / 2);
    assert NextMultiple((r + 1) / 2, 4) == if r == 0 then 0 else 4;
  }

  lemma FilledLength(kind: Kind, n: nat, exact: Bytes)
    requires |exact| == BytesFor(kind, n)
    ensures FromBytes(kind, exact).Len() == WholeWords(kind, n)
    ensures WholeWords(kind, n) == n <==> n % ElemsPerHostWord(kind) == 0
  {
    if kind.Int4? {
      assert |exact| == (n + 1) / 2;
      FilledNibbles(n, |exact|);
      hide BytesFor;
      assert |FromBytes(kind, exact).bytes| == NextMultiple(|exact|, 4);
    }
  }

  /** Main result: downloading what was uploaded gives it back. */
  lemma RoundTrip(kind: Kind, len: nat, buf: Bytes, offset: nat, data: HostData)
    requires |buf| == BufferBytes(kind, len) && data.Valid() && UploadAt(kind, len, buf, offset, data).Ok?
    ensures DownloadRange(kind, len, UploadAt(kind, len, buf, offset, data).value, offset, data.Len()) == Ok(data)
  {
    var n := data.Len();
    var range := RangeOf(kind, len, offset, n, true).value;
    RangeIsInside(kind, len, offset, n, true);
    HostDataFills(data);
    RangeIs(kind, len, offset, n, true);
    var after := UploadAt(kind, len, buf, offset, data).value;
    var piece := Padded(data.bytes, range.bytes);
    assert RangeOf(kind, len, offset, n, false) == Ok(range);
    hide BytesFor, RangeOf, Elements;
    assert after[range.start..range.start + range.bytes] == piece;
    assert piece[..range.exact] == data.bytes;
    WholeBytes(kind, data.bytes);
  }

  lemma WholeBytes(kind: Kind, bytes: Bytes)
    requires |bytes| % WordBytes(kind) == 0
    ensures FromBytes(kind, bytes) == HostData(kind, bytes)
  {
    assert bytes + Zeros(0) == bytes;
  }

  /** Main result: a copy, between tensors or between slots of a scope, is a slice update of
      the destination's elements with a slice of the source's. */
  lemma CopyIsSliceUpdate(
    kind: Kind, len: nat, buf: Bytes, offset: nat, dstLen: nat, dst: Bytes, dstOffset: nat, n: nat)
    requires |buf| == BufferBytes(kind, len) && |dst| == BufferBytes(kind, dstLen)
    ensures CopyInto(kind, len, buf, offset, kind, dstLen, dst, dstOffset, n).Ok? <==>
      && offset + n <= len && offset * Bits(kind) % 32 == 0
      && dstOffset + n <= dstLen && dstOffset * Bits(kind) % 32 == 0
      && (dstOffset + n == dstLen || (dstOffset + n) * Bits(kind) % 32 == 0)
    ensures CopyInto(kind, len, buf, offset, kind, dstLen, dst, dstOffset, n).Ok? ==>
      Elements(kind, dstLen, CopyInto(kind, len, buf, offset, kind, dstLen, dst, dstOffset, n).value)
        == Elements(kind, dstLen, dst)[..dstOffset] + Elements(kind, len, buf)[offset..offset + n]
           + Elements(kind, dstLen, dst)[dstOffset + n..]
  {
    if CopyInto(kind, len, buf, offset, kind, dstLen, dst, dstOffset, n).Ok? {
      CopiedIsSliceUpdate(kind, len, buf, offset, dstLen, dst, dstOffset, n);
    }
    hide Elements, Splice, BytesFor, BufferBytes, NextMultiple;
  }

  lemma CopiedIsSliceUpdate(
    kind: Kind, len: nat, buf: Bytes, offset: nat, dstLen: nat, dst: Bytes, dstOffset: nat, n: nat)
    requires |buf| == BufferBytes(kind, len) && |dst| == BufferBytes(kind, dstLen)
    requires CopyInto(kind, len, buf, offset, kind, dstLen, dst, dstOffset, n).Ok?
    ensures offset + n <= len && dstOffset + n <= dstLen
    ensures Elements(kind, dstLen, CopyInto(kind, len, buf, offset, kind, dstLen, dst, dstOffset, n).value)
         == Elements(kind, dstLen, dst)[..dstOffset] + Elements(kind, len, buf)[offset..offset + n]
            + Elements(kind, dstLen, dst)[dstOffset + n..]
  {
    var from, bytes, start := CopyKnown(kind, len, buf, offset, dstLen, dst, dstOffset, n);
    hide *;
    var piece := buf[from..from + bytes];
    SpliceIsSliceUpdate(kind, dstLen, dst, start, piece, dstOffset, n);
    SliceOfElements(kind, len, buf, from, bytes, offset, n);
  }

  /** Where a copy that is accepted reads and writes. */
  lemma CopyKnown(kind: Kind, len: nat, buf: Bytes, offset: nat, dstLen: nat, dst: Bytes, dstOffset: nat, n: nat)
    returns (from: nat, bytes: nat, start: nat)
    requires |buf| == BufferBytes(kind, len) && |dst| == BufferBytes(kind, dstLen)
    requires CopyInto(kind, len, buf, offset, kind, dstLen, dst, dstOffset, n).Ok?
    ensures from + bytes <= |buf| && start + bytes <= |dst| && offset + n <= len && dstOffset + n <= dstLen
    ensures CopyInto(kind, len, buf, offset, kind, dstLen, dst, dstOffset, n).value
         == Splice(dst, start, buf[from..from + bytes])
    ensures Spliceable(kind, dstLen, dst, start, buf[from..from + bytes], dstOffset, n)
    ensures BytesFor(kind, len) <= |buf| && BytesFor(kind, n) <= bytes && 2 * from == First(kind, offset)
  {
    var r, w := RangeOf(kind, len, offset, n, false), RangeOf(kind, dstLen, dstOffset, n, true);
    RangeIsInside(kind, len, offset, n, false);
    RangeIsInside(kind, dstLen, dstOffset, n, true);
    RangeIs(kind, len, offset, n, false);
    RangeIs(kind, dstLen, dstOffset, n, true);
    from, bytes, start := r.value.start, w.value.bytes, w.value.start;
    hide Splice, RangeOf, BytesFor;
  }
}
