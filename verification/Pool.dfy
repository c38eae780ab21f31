/** The pool of freed buffers behind `alloc` and a tensor's drop. */
module Pool {
  import opened Options
  import opened Sequences
  import opened Dtype

  /** What a kept buffer is kept for. */
  datatype Key = Key(kind: Kind, len: nat)

  datatype Buf = Buf(id: nat, size: nat)

  /** Owned by a tensor or by the code handling it, kept in the pool, or freed. */
  datatype Place = Owned | Kept | Freed

  /** One buffer the backend allocated, what for, and where it is now. */
  datatype Entry = Entry(key: Key, size: nat, place: Place)

  datatype Tensor = Tensor(kind: Kind, len: nat, raw: Buf)

  /** What the driver says to an allocation; it may give more than was asked. */
  datatype Answer = Granted(extra: nat) | Refused

  datatype Outcome = Allocated(tensor: Tensor) | UnsupportedKind | OutOfMemory

  /** The bytes of the kept ones among the first `n`. */
  ghost function KeptBytes(ledger: seq<Entry>, n: nat): nat
    requires n <= |ledger|
  {
    if n == 0 then 0
    else KeptBytes(ledger, n - 1) + if ledger[n - 1].place.Kept? then ledger[n - 1].size else 0
  }

  lemma {:induction false} KeptAfterMove(ledger: seq<Entry>, id: nat, place: Place, n: nat)
    requires id < |ledger| && n <= |ledger|
    ensures KeptBytes(ledger[id := ledger[id].(place := place)], n)
         == KeptBytes(ledger, n)
            + (if id < n && place.Kept? then ledger[id].size else 0)
            - (if id < n && ledger[id].place.Kept? then ledger[id].size else 0)
  {
    if n > 0 {
      KeptAfterMove(ledger, id, place, n - 1);
    }
  }

  lemma {:induction false} KeptBeforeNew(ledger: seq<Entry>, e: Entry, n: nat)
    requires n <= |ledger|
    ensures KeptBytes(ledger + [e], n) == KeptBytes(ledger, n)
  {
    if n > 0 {
      KeptBeforeNew(ledger, e, n - 1);
    }
  }

  /** Every kept buffer moved to `place`. */
  ghost function Emptied(ledger: seq<Entry>, place: Place): (r: seq<Entry>)
    ensures |r| == |ledger|
  {
    seq(|ledger|, i requires 0 <= i < |ledger| => if ledger[i].place.Kept? then ledger[i].(place := place) else ledger[i])
  }

  lemma {:induction false} NoneKept(ledger: seq<Entry>, n: nat)
    requires n <= |ledger| && forall i | 0 <= i < n :: !ledger[i].place.Kept?
    ensures KeptBytes(ledger, n) == 0
  {
    if n > 0 {
      NoneKept(ledger, n - 1);
    }
  }

  ghost predicate KeptFor(ledger: seq<Entry>, key: Key) {
    exists id | 0 <= id < |ledger| :: ledger[id].place.Kept? && ledger[id].key == key
  }

  /** The ledger's kept buffers are the pool's: each under its key, once. */
  ghost predicate Filed(blocks: map<Key, seq<Buf>>, ledger: seq<Entry>) {
    && (forall key, i | key in blocks && 0 <= i < |blocks[key]| ::
          blocks[key][i].id < |ledger| && ledger[blocks[key][i].id] == Entry(key, blocks[key][i].size, Kept))
    && (forall key, i, j | key in blocks && 0 <= i < j < |blocks[key]| :: blocks[key][i].id != blocks[key][j].id)
    && forall id | 0 <= id < |ledger| && ledger[id].place.Kept? ::
         ledger[id].key in blocks && Buf(id, ledger[id].size) in blocks[ledger[id].key]
  }

  /** Each of them listed once. */
  ghost predicate Lists(bufs: seq<Buf>, ledger: seq<Entry>, keys: set<Key>) {
    && (forall i | 0 <= i < |bufs| ::
          bufs[i].id < |ledger| && ledger[bufs[i].id].key in keys
          && ledger[bufs[i].id] == Entry(ledger[bufs[i].id].key, bufs[i].size, Kept))
    && (forall i, j | 0 <= i < j < |bufs| :: bufs[i].id != bufs[j].id)
    && forall id | 0 <= id < |ledger| && ledger[id].place.Kept? && ledger[id].key in keys ::
         Buf(id, ledger[id].size) in bufs
  }

  lemma ListMore(bufs: seq<Buf>, blocks: map<Key, seq<Buf>>, ledger: seq<Entry>, keys: set<Key>, key: Key)
    requires Filed(blocks, ledger) && Lists(bufs, ledger, keys) && key !in keys && key in blocks
    ensures Lists(bufs + blocks[key], ledger, keys + {key})
  {
    var more := bufs + blocks[key];
    forall id | 0 <= id < |ledger| && ledger[id].place.Kept? && ledger[id].key in keys + {key}
      ensures Buf(id, ledger[id].size) in more
    {
      if ledger[id].key == key {
        assert Buf(id, ledger[id].size) in blocks[key];
      }
    }
  }

  /** One is kept for a key exactly when the key's list has a last. */
  lemma KeptIsFiled(blocks: map<Key, seq<Buf>>, ledger: seq<Entry>, key: Key)
    requires Filed(blocks, ledger)
    ensures KeptFor(ledger, key) <==> key in blocks && blocks[key] != []
    ensures key in blocks && blocks[key] != [] ==>
      var last := blocks[key][|blocks[key]| - 1];
      last.id < |ledger| && ledger[last.id] == Entry(key, last.size, Kept)
  {
    if key in blocks && blocks[key] != [] {
      var last := blocks[key][|blocks[key]| - 1];
      assert ledger[last.id].key == key;
    }
  }

  /** Popping a key's last leaves the rest filed. */
  lemma TakenIsFiled(blocks: map<Key, seq<Buf>>, ledger: seq<Entry>, key: Key)
    requires Filed(blocks, ledger) && key in blocks && blocks[key] != []
    ensures
      var n := |blocks[key]| - 1;
      var last := blocks[key][n];
      && last.id < |ledger|
      && Filed(blocks[key := blocks[key][..n]], ledger[last.id := Entry(key, last.size, Owned)])
  {
    var kept := blocks[key];
    var n := |kept| - 1;
    var last := kept[n];
    var blocks': map<Key, seq<Buf>>, ledger': seq<Entry> := blocks[key := kept[..n]], ledger[last.id := Entry(key, last.size, Owned)];
    forall id | 0 <= id < |ledger'| && ledger'[id].place.Kept?
      ensures ledger'[id].key in blocks' && Buf(id, ledger'[id].size) in blocks'[ledger'[id].key]
    {
      if ledger[id].key == key {
        assert kept == kept[..n] + [last];
      }
    }
    forall other, i | other in blocks' && 0 <= i < |blocks'[other]|
      ensures
        && blocks'[other][i].id < |ledger'|
        && ledger'[blocks'[other][i].id] == Entry(other, blocks'[other][i].size, Kept)
    {
      assert blocks'[other][i] == blocks[other][i];
    }
  }

  /** A buffer outside the pool, pushed under the key it was made for. */
  lemma RecycledIsFiled(blocks: map<Key, seq<Buf>>, ledger: seq<Entry>, key: Key, buf: Buf)
    requires Filed(blocks, ledger)
    requires buf.id < |ledger| && ledger[buf.id] == Entry(key, buf.size, Owned)
    ensures Filed(blocks[key := (if key in blocks then blocks[key] else []) + [buf]],
                  ledger[buf.id := Entry(key, buf.size, Kept)])
  {
    var kept := if key in blocks then blocks[key] else [];
    var blocks': map<Key, seq<Buf>>, ledger': seq<Entry> := blocks[key := kept + [buf]], ledger[buf.id := Entry(key, buf.size, Kept)];
    forall id | 0 <= id < |ledger'| && ledger'[id].place.Kept?
      ensures ledger'[id].key in blocks' && Buf(id, ledger'[id].size) in blocks'[ledger'[id].key]
    {
      if id == buf.id {
        assert blocks'[key][|kept|] == buf;
      } else {
        assert Buf(id, ledger[id].size) in blocks[ledger[id].key];
      }
    }
  }

  /** The device's pool and allocator. */
  class Device {
    const maxFreeBytes: nat
    const supported: set<Kind>

    var blocks: map<Key, seq<Buf>>
    var bytes: nat

    /** Buffers allocated so far, and what became of each. */
    var made: nat
    ghost var ledger: seq<Entry>

    ghost predicate Valid()
      reads this
    {
      && made == |ledger|
      && bytes == KeptBytes(ledger, |ledger|) <= maxFreeBytes
      && Filed(blocks, ledger)
      && forall id | 0 <= id < |ledger| :: ledger[id].size >= BufferBytes(ledger[id].key.kind, ledger[id].key.len)
    }

    /** The buffer is outside the pool, and was made for `key`. */
    ghost predicate Outside(buf: Buf, key: Key)
      reads this
    {
      buf.id < |ledger| && ledger[buf.id] == Entry(key, buf.size, Owned)
    }

    ghost predicate Live(t: Tensor)
      reads this
    {
      Outside(t.raw, Key(t.kind, t.len))
    }

    constructor (maxFreeBytes: nat, supported: set<Kind>)
      ensures Valid() && ledger == []
      ensures this.maxFreeBytes == maxFreeBytes && this.supported == supported
    {
      this.maxFreeBytes, this.supported := maxFreeBytes, supported;
      blocks, bytes, made, ledger := map[], 0, 0, [];
    }

    /** A kept buffer of exactly this key, if there is one. */
    method Take(key: Key) returns (buf: Option<Buf>)
      requires Valid()
      modifies this
      ensures Valid() && made == old(made)
      ensures buf.Some? <==> KeptFor(old(ledger), key)
      ensures buf.None? ==> ledger == old(ledger)
      ensures buf.Some? ==>
        var id := buf.value.id;
        && id < |old(ledger)| && old(ledger)[id] == Entry(key, buf.value.size, Kept)
        && ledger == old(ledger)[id := Entry(key, buf.value.size, Owned)]
    {
      hide Filed, KeptFor, KeptBytes;
      KeptIsFiled(blocks, ledger, key);
      if key !in blocks || blocks[key] == [] {
        return None;
      }
      var kept := blocks[key];
      var last := kept[|kept| - 1];
      blocks := blocks[key := kept[..|kept| - 1]];
      KeptAfterMove(ledger, last.id, Owned, |ledger|);
      bytes := bytes - last.size;
      ledger := ledger[last.id := Entry(key, last.size, Owned)];
      TakenIsFiled(old(blocks), old(ledger), key);
      return Some(last);
    }

    /** Keeps the buffer, or hands it back when that would pass the limit. */
    method Recycle(key: Key, buf: Buf) returns (back: Option<Buf>)
      requires Valid() && Outside(buf, key)
      modifies this
      ensures Valid() && made == old(made)
      ensures back == if old(bytes) + buf.size > maxFreeBytes then Some(buf) else None
      ensures ledger == if back.Some? then old(ledger) else old(ledger)[buf.id := Entry(key, buf.size, Kept)]
    {
      if bytes + buf.size > maxFreeBytes {
        return Some(buf);
      }
      bytes := bytes + buf.size;
      blocks := blocks[key := (if key in blocks then blocks[key] else []) + [buf]];
      KeptAfterMove(ledger, buf.id, Kept, |ledger|);
      ledger := ledger[buf.id := Entry(key, buf.size, Kept)];
      RecycledIsFiled(old(blocks), old(ledger), key, buf);
      return None;
    }

    /** Empties the pool; the caller frees what it kept. */
    method Drain() returns (bufs: seq<Buf>)
      requires Valid()
      modifies this
      ensures Valid() && made == old(made) && bytes == 0
      ensures ledger == Emptied(old(ledger), Owned)
      ensures Lists(bufs, old(ledger), set e | e in old(ledger) :: e.key)
    {
      bytes := 0;
      bufs := [];
      var rest := blocks.Keys;
      while rest != {}
        invariant rest <= blocks.Keys && blocks == old(blocks) && ledger == old(ledger) && bytes == 0
        invariant made == old(made)
        invariant Lists(bufs, ledger, blocks.Keys - rest)
      {
        var key :| key in rest;
        ListMore(bufs, blocks, ledger, blocks.Keys - rest, key);
        rest := rest - {key};
        bufs := bufs + blocks[key];
        assert blocks.Keys - rest == blocks.Keys - (rest + {key}) + {key};
      }
      assert Lists(bufs, ledger, set e | e in ledger :: e.key) by {
        forall id | 0 <= id < |ledger| && ledger[id].place.Kept?
          ensures Buf(id, ledger[id].size) in bufs
        {
          assert ledger[id].key in blocks.Keys - rest;
        }
      }
      blocks := map[];
      ledger := Emptied(ledger, Owned);
      NoneKept(ledger, |ledger|);
    }

    /** The backend's own allocation, told the driver's answer. */
    method AllocRaw(key: Key, answer: Answer) returns (buf: Option<Buf>)
      requires Valid()
      modifies this
      ensures Valid() && bytes == old(bytes) && blocks == old(blocks)
      ensures buf.None? <==> answer.Refused?
      ensures buf.None? ==> ledger == old(ledger)
      ensures buf.Some? ==>
        && buf.value == Buf(|old(ledger)|, BufferBytes(key.kind, key.len) + answer.extra)
        && ledger == old(ledger) + [Entry(key, buf.value.size, Owned)]
    {
      if answer.Refused? {
        return None;
      }
      var new_ := Buf(made, BufferBytes(key.kind, key.len) + answer.extra);
      made := made + 1;
      KeptBeforeNew(ledger, Entry(key, new_.size, Owned), |ledger|);
      ledger := ledger + [Entry(key, new_.size, Owned)];
      return Some(new_);
    }

    /** Frees a buffer nobody keeps. */
    ghost method Free(buf: Buf)
      requires Valid() && buf.id < |ledger| && ledger[buf.id].place.Owned?
      modifies this`ledger
      ensures Valid() && ledger == old(ledger)[buf.id := old(ledger)[buf.id].(place := Freed)]
    {
      KeptAfterMove(ledger, buf.id, Freed, |ledger|);
      ledger := ledger[buf.id := ledger[buf.id].(place := Freed)];
    }

    /** Frees what a drain handed out. */
    ghost method FreeAll(bufs: seq<Buf>, before: seq<Entry>)
      requires Valid() && ledger == Emptied(before, Owned)
      requires Lists(bufs, before, set e | e in before :: e.key)
      modifies this`ledger
      ensures Valid() && ledger == Emptied(before, Freed)
    {
      for k := 0 to |bufs|
        invariant Valid() && FreedSoFar(bufs[..k], before)
      {
        FreeOne(bufs, before, k);
      }
      assert bufs[..|bufs|] == bufs;
      forall id | 0 <= id < |ledger|
        ensures ledger[id] == Emptied(before, Freed)[id]
      {
        assert before[id] in before;
      }
    }

    ghost predicate FreedSoFar(freed: seq<Buf>, before: seq<Entry>)
      reads this
    {
      && |ledger| == |before|
      && forall id | 0 <= id < |ledger| ::
           ledger[id] == if !before[id].place.Kept? then before[id]
                         else before[id].(place := if Buf(id, before[id].size) in freed then Freed else Owned)
    }

    ghost method FreeOne(bufs: seq<Buf>, before: seq<Entry>, k: nat)
      requires Valid() && k < |bufs| && FreedSoFar(bufs[..k], before)
      requires Lists(bufs, before, set e | e in before :: e.key)
      modifies this`ledger
      ensures Valid() && FreedSoFar(bufs[..k + 1], before)
    {
      assert bufs[..k + 1] == bufs[..k] + [bufs[k]];
      assert bufs[k] !in bufs[..k];
      Free(bufs[k]);
    }

    /** Main result for a call: a kept buffer of exactly this kind and rounded length, or else
        a new one, at the second try after emptying the pool; it fails only when that is
        refused too, and the pool is then empty. */
    method Alloc(kind: Kind, len: nat, first: Answer, second: Answer) returns (r: Outcome)
      requires Valid()
      modifies this
      ensures Valid()
      ensures r.UnsupportedKind? <==> kind !in supported
      ensures r.UnsupportedKind? ==> ledger == old(ledger)
      ensures r.OutOfMemory? <==>
        kind in supported && !KeptFor(old(ledger), Key(kind, WholeWords(kind, len))) && first.Refused? && second.Refused?
      ensures r.OutOfMemory? ==> ledger == Emptied(old(ledger), Freed)
      ensures r.Allocated? ==>
        var t := r.tensor;
        var owned := Entry(Key(kind, WholeWords(kind, len)), t.raw.size, Owned);
        && t.kind == kind && t.len == WholeWords(kind, len) && t.raw.size >= BufferBytes(kind, t.len)
        && if KeptFor(old(ledger), owned.key) then
             && t.raw.id < |old(ledger)| && old(ledger)[t.raw.id] == owned.(place := Kept)
             && ledger == old(ledger)[t.raw.id := owned]
           else
             && t.raw.id == |old(ledger)|
             && ledger == (if first.Granted? then old(ledger) else Emptied(old(ledger), Freed)) + [owned]
    {
      if kind !in supported {
        return UnsupportedKind;
      }
      var key := Key(kind, WholeWords(kind, len));
      var buf := Take(key);
      if buf.None? {
        buf := AllocRaw(key, first);
        if buf.None? {
          var bufs := Drain();
          FreeAll(bufs, old(ledger));
          buf := AllocRaw(key, second);
          if buf.None? {
            return OutOfMemory;
          }
        }
      }
      return Allocated(Tensor(kind, key.len, buf.value));
    }

    /** A tensor's drop: its buffer is kept for its kind and length, or freed. */
    method Drop(t: Tensor)
      requires Valid() && Live(t)
      modifies this
      ensures Valid()
      ensures
        var place := if old(bytes) + t.raw.size > maxFreeBytes then Freed else Kept;
        ledger == old(ledger)[t.raw.id := Entry(Key(t.kind, t.len), t.raw.size, place)]
    {
      var back := Recycle(Key(t.kind, t.len), t.raw);
      if back.Some? {
        Free(back.value);
      }
    }
  }

  // ----------------------------------------------------------------------------
  // Whole runs
  // ----------------------------------------------------------------------------

  datatype Op = AllocOne(kind: Kind, len: nat, first: Answer, second: Answer) | DropOne(at: nat)

  /** The tensors are live, no two have one buffer, and no other buffer is owned. */
  ghost predicate HeldBy(held: seq<Tensor>, ledger: seq<Entry>) {
    && (forall i | 0 <= i < |held| ::
          && held[i].raw.id < |ledger|
          && ledger[held[i].raw.id] == Entry(Key(held[i].kind, held[i].len), held[i].raw.size, Owned))
    && (forall i, j | 0 <= i < j < |held| :: held[i].raw.id != held[j].raw.id)
    && forall id | 0 <= id < |ledger| && ledger[id].place.Owned? :: exists i | 0 <= i < |held| :: held[i].raw.id == id
  }

  lemma HeldAfterAlloc(held: seq<Tensor>, ledger: seq<Entry>, t: Tensor, ledger': seq<Entry>)
    requires HeldBy(held, ledger)
    requires t.raw.id < |ledger'| && |ledger| <= |ledger'|
    requires ledger'[t.raw.id] == Entry(Key(t.kind, t.len), t.raw.size, Owned)
    requires t.raw.id < |ledger| ==> !ledger[t.raw.id].place.Owned?
    requires forall id | 0 <= id < |ledger'| && id != t.raw.id ::
               id < |ledger| && (ledger'[id] == ledger[id] || (ledger[id].place.Kept? && ledger'[id].place.Freed?))
    ensures HeldBy(held + [t], ledger')
  {
    var held' := held + [t];
    forall id | 0 <= id < |ledger'| && ledger'[id].place.Owned?
      ensures exists i | 0 <= i < |held'| :: held'[i].raw.id == id
    {
      if id == t.raw.id {
        assert held'[|held|].raw.id == id;
      } else {
        var i :| 0 <= i < |held| && held[i].raw.id == id;
        assert held'[i].raw.id == id;
      }
    }
  }

  /** Emptying the pool takes nothing from a tensor. */
  lemma HeldAfterFailure(held: seq<Tensor>, ledger: seq<Entry>)
    requires HeldBy(held, ledger)
    ensures HeldBy(held, Emptied(ledger, Freed))
  {
  }

  lemma HeldAfterDrop(held: seq<Tensor>, ledger: seq<Entry>, at: nat, ledger': seq<Entry>)
    requires HeldBy(held, ledger) && at < |held| && |ledger'| == |ledger|
    requires !ledger'[held[at].raw.id].place.Owned?
    requires forall id | 0 <= id < |ledger| && id != held[at].raw.id :: ledger'[id] == ledger[id]
    ensures HeldBy(Without(held, at), ledger')
  {
    var held' := Without(held, at);
    hide Without;
    forall i, j | 0 <= i < j < |held'|
      ensures held'[i].raw.id != held'[j].raw.id
    {
      assert held'[i] == held[Skip(at, i)] && held'[j] == held[Skip(at, j)] && Skip(at, i) < Skip(at, j);
    }
    forall i | 0 <= i < |held'|
      ensures held'[i].raw.id != held[at].raw.id
    {
      assert Skip(at, i) < |held| && Skip(at, i) != at && held'[i] == held[Skip(at, i)];
    }
    forall id | 0 <= id < |ledger'| && ledger'[id].place.Owned?
      ensures exists i | 0 <= i < |held'| :: held'[i].raw.id == id
    {
      var i :| 0 <= i < |held| && held[i].raw.id == id;
      assert held[i] in held';
    }
  }

  method ServeAlloc(device: Device, held: seq<Tensor>, kind: Kind, len: nat, first: Answer, second: Answer)
    returns (now: seq<Tensor>)
    requires device.Valid() && HeldBy(held, device.ledger)
    modifies device
    ensures device.Valid() && HeldBy(now, device.ledger)
  {
    hide HeldBy, KeptBytes, KeptFor, Filed, BufferBytes, Device.Valid;
    ghost var before := device.ledger;
    var r := device.Alloc(kind, len, first, second);
    match r {
      case Allocated(t) =>
        HeldAfterAlloc(held, before, t, device.ledger);
        now := held + [t];
      case OutOfMemory =>
        HeldAfterFailure(held, before);
        now := held;
      case UnsupportedKind =>
        now := held;
    }
  }

  method ServeDrop(device: Device, held: seq<Tensor>, at: nat) returns (now: seq<Tensor>)
    requires device.Valid() && HeldBy(held, device.ledger) && at < |held|
    modifies device
    ensures device.Valid() && HeldBy(now, device.ledger)
  {
    hide KeptBytes, Filed, Without, Device.Valid;
    ghost var before := device.ledger;
    device.Drop(held[at]);
    HeldAfterDrop(held, before, at, device.ledger);
    now := Without(held, at);
  }

  /** Main result: after any allocations and drops, whatever the driver answered, the pool's
      byte count is the sum of what it keeps and within its limit, and every buffer ever
      allocated is owned by exactly one live tensor, or kept once, or freed. */
  method Serve(device: Device, ops: seq<Op>) returns (held: seq<Tensor>)
    requires device.Valid() && HeldBy([], device.ledger)
    modifies device
    ensures device.bytes == KeptBytes(device.ledger, |device.ledger|) <= device.maxFreeBytes
    ensures Filed(device.blocks, device.ledger) && HeldBy(held, device.ledger)
    ensures forall t | t in held :: t.raw.size >= BufferBytes(t.kind, t.len)
  {
    held := [];
    for k := 0 to |ops|
      invariant device.Valid() && HeldBy(held, device.ledger)
    {
      match ops[k]
      case AllocOne(kind, len, first, second) => held := ServeAlloc(device, held, kind, len, first, second);
      case DropOne(at) =>
        if at < |held| {
          held := ServeDrop(device, held, at);
        }
    }
  }
}
