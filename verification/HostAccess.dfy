/** A tensor's own uploads, downloads, copies and clears, and what they keep of a run. */
module HostAccess {
  import opened Blocks
  import opened Dtype
  import opened Rules
  import opened Scopes
  import opened TypedTensors

  /** What a tensor holds, element by element. */
  ghost function Held(t: Tensor, mem: Memory): seq<seq<Nibble>>
    requires SoundIn(t, mem)
  {
    Elements(t.kind, t.len, mem[t.buf.address])
  }

  /** The elements at `offset` become the data's, and no other block changes; or nothing does. */
  method UploadInto(t: Tensor, offset: nat, data: HostData) returns (r: Check)
    requires t.dev.Valid() && Sound(t) && data.Valid()
    modifies t.dev`mem
    ensures t.dev.Valid() && Sound(t) && SameShape(old(t.dev.mem), t.dev.mem)
    ensures forall b | b in t.dev.mem && b != t.buf.address :: t.dev.mem[b] == old(t.dev.mem)[b]
    ensures r.Passed? <==>
      && data.kind == t.kind && offset + data.Len() <= t.len && offset * Bits(t.kind) % 32 == 0
      && (offset + data.Len() == t.len || (offset + data.Len()) * Bits(t.kind) % 32 == 0)
    ensures r.Failed? ==> t.dev.mem == old(t.dev.mem)
    ensures var u := UploadAt(t.kind, t.len, old(t.dev.mem)[t.buf.address], offset, data);
      r == (if u.Ok? then Passed else Failed(u.error)) && (u.Ok? ==> t.dev.mem == old(t.dev.mem)[t.buf.address := u.value])
    ensures r.Passed? ==>
      && BytesFor(data.kind, data.Len()) <= |data.bytes|
      && Held(t, t.dev.mem) == old(Held(t, t.dev.mem))[..offset] + Elements(data.kind, data.Len(), data.bytes)
                               + old(Held(t, t.dev.mem))[offset + data.Len()..]
  {
    var buf := t.dev.mem[t.buf.address];
    UploadIsSliceUpdate(t.kind, t.len, buf, offset, data);
    hide UploadAt, Elements, RangeOf;
    var after := UploadAt(t.kind, t.len, buf, offset, data);
    if after.Err? {
      return Failed(after.error);
    }
    t.dev.mem := t.dev.mem[t.buf.address := after.value];
    r := Passed;
  }

  /** The whole tensor. */
  method UploadAll(t: Tensor, data: HostData) returns (r: Check)
    requires t.dev.Valid() && Sound(t) && data.Valid()
    modifies t.dev`mem
    ensures t.dev.Valid() && Sound(t) && SameShape(old(t.dev.mem), t.dev.mem)
    ensures forall b | b in t.dev.mem && b != t.buf.address :: t.dev.mem[b] == old(t.dev.mem)[b]
    ensures r.Passed? <==> data.Len() == t.len && data.kind == t.kind
    ensures r.Failed? ==> t.dev.mem == old(t.dev.mem)
    ensures var u := Upload(t.kind, t.len, old(t.dev.mem)[t.buf.address], data);
      r == (if u.Ok? then Passed else Failed(u.error)) && (u.Ok? ==> t.dev.mem == old(t.dev.mem)[t.buf.address := u.value])
    ensures r.Passed? ==>
      BytesFor(data.kind, data.Len()) <= |data.bytes| && Held(t, t.dev.mem) == Elements(data.kind, data.Len(), data.bytes)
  {
    if data.Len() != t.len {
      return Failed(LenMismatch(t.len, data.Len()));
    }
    r := UploadInto(t, 0, data);
  }

  method Download(t: Tensor, offset: nat, n: nat) returns (r: Result<HostData>)
    requires t.dev.Valid() && Sound(t)
    ensures r == DownloadRange(t.kind, t.len, t.dev.mem[t.buf.address], offset, n)
    ensures r.Ok? <==> offset + n <= t.len && offset * Bits(t.kind) % 32 == 0
    ensures r.Ok? ==> BytesFor(t.kind, n) <= |r.value.bytes| && n <= r.value.Len()
                      && Elements(t.kind, n, r.value.bytes) == Held(t, t.dev.mem)[offset..offset + n]
  {
    r := DownloadRange(t.kind, t.len, t.dev.mem[t.buf.address], offset, n);
    DownloadIsSlice(t.kind, t.len, t.dev.mem[t.buf.address], offset, n);
  }

  /** `copy_into`. */
  method CopyBetween(t: Tensor, offset: nat, dst: Tensor, dstOffset: nat, n: nat) returns (r: Check)
    requires t.dev.Valid() && Sound(t) && dst.dev.Valid() && Sound(dst) && (t.dev == dst.dev ==> Apart(t, dst))
    modifies dst.dev`mem
    ensures dst.dev.Valid() && Sound(t) && Sound(dst) && SameShape(old(dst.dev.mem), dst.dev.mem)
    ensures forall b | b in dst.dev.mem && b != dst.buf.address :: dst.dev.mem[b] == old(dst.dev.mem)[b]
    ensures r.Failed? ==> dst.dev.mem == old(dst.dev.mem)
    ensures r.Failed? ==> r.error.OtherDevice? || r.error.KindMismatch? || r.error.OutOfRange? || r.error.Misaligned?
    ensures r.Passed? <==>
      && t.dev == dst.dev && t.kind == dst.kind && offset + n <= t.len && offset * Bits(t.kind) % 32 == 0
      && dstOffset + n <= dst.len && dstOffset * Bits(t.kind) % 32 == 0
      && (dstOffset + n == dst.len || (dstOffset + n) * Bits(t.kind) % 32 == 0)
    ensures r.Passed? ==>
      Held(dst, dst.dev.mem) == old(Held(dst, dst.dev.mem))[..dstOffset] + old(Held(t, t.dev.mem))[offset..offset + n]
                                + old(Held(dst, dst.dev.mem))[dstOffset + n..]
  {
    if t.dev != dst.dev {
      return Failed(OtherDevice(TheTensor));
    }
    var buf, old_ := t.dev.mem[t.buf.address], dst.dev.mem[dst.buf.address];
    if t.kind == dst.kind {
      CopyIsSliceUpdate(t.kind, t.len, buf, offset, dst.len, old_, dstOffset, n);
    }
    hide Elements, RangeOf;
    var after := CopyInto(t.kind, t.len, buf, offset, dst.kind, dst.len, old_, dstOffset, n);
    if after.Err? {
      return Failed(after.error);
    }
    hide CopyInto;
    dst.dev.mem := dst.dev.mem[dst.buf.address := after.value];
    r := Passed;
  }

  /** `Scope::copy`: the same between two slots, and refused for one slot twice. It happens at
      once, also while a capture records. */
  method CopySlots(scope: Scope, src: nat, srcOffset: nat, dst: nat, dstOffset: nat, n: nat) returns (r: Check)
    requires scope.Valid() && src < |scope.bufs| && dst < |scope.bufs|
    modifies scope.dev`mem
    ensures scope.Valid() && SameShape(old(scope.dev.mem), scope.dev.mem)
    ensures r == Failed(SameTensor) <==> src == dst
    ensures r.Failed? ==> scope.dev.mem == old(scope.dev.mem)
    ensures var (t, u) := (scope.bufs[src], scope.bufs[dst]);
      && (forall b | b in scope.dev.mem && b != u.buf.address :: scope.dev.mem[b] == old(scope.dev.mem)[b])
      && (r.Passed? <==>
            && src != dst && t.kind == u.kind && srcOffset + n <= t.len && srcOffset * Bits(t.kind) % 32 == 0
            && dstOffset + n <= u.len && dstOffset * Bits(t.kind) % 32 == 0
            && (dstOffset + n == u.len || (dstOffset + n) * Bits(t.kind) % 32 == 0))
      && SoundIn(t, old(scope.dev.mem)) && SoundIn(u, old(scope.dev.mem)) && SoundIn(u, scope.dev.mem)
      && (r.Passed? ==>
            Held(u, scope.dev.mem) == Held(u, old(scope.dev.mem))[..dstOffset]
                                      + Held(t, old(scope.dev.mem))[srcOffset..srcOffset + n]
                                      + Held(u, old(scope.dev.mem))[dstOffset + n..])
  {
    assert Sound(scope.bufs[src]) && Sound(scope.bufs[dst]);
    if src == dst {
      return Failed(SameTensor);
    }
    assert Apart(scope.bufs[src], scope.bufs[dst]);
    hide Held, Apart;
    r := CopyBetween(scope.bufs[src], srcOffset, scope.bufs[dst], dstOffset, n);
  }

  method Zero(t: Tensor)
    requires t.dev.Valid() && Sound(t)
    modifies t.dev`mem
    ensures t.dev.Valid() && Sound(t) && SameShape(old(t.dev.mem), t.dev.mem)
    ensures t.dev.mem == old(t.dev.mem)[t.buf.address := Zeros(t.buf.bytes)]
  {
    t.dev.mem := t.dev.mem[t.buf.address := Zeros(t.buf.bytes)];
  }
}
