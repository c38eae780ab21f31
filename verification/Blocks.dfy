/** Memory blocks, and a kernel's effect on the ones it is bound to. Every backend's store
    is built on these. */
module Blocks {

  type Bytes = seq<bv8>

  type Memory = map<nat, Bytes>

  /** A block bound to a slot: for reading only, or for writing too. */
  datatype SlotRef = SlotRef(block: nat, write: bool)

  function Zeros(n: nat): (z: Bytes)
    ensures |z| == n && forall k | 0 <= k < n :: z[k] == 0
  {
    seq(n, _ => 0)
  }

  function Splice(s: Bytes, at: nat, data: Bytes): (r: Bytes)
    requires at + |data| <= |s|
    ensures |r| == |s|
  {
    s[..at] + data + s[at + |data|..]
  }

  predicate InRange(mem: Memory, block: nat, offset: nat, bytes: nat) {
    block in mem && offset + bytes <= |mem[block]|
  }

  predicate Has(mem: Memory, slots: seq<SlotRef>) {
    forall k | 0 <= k < |slots| :: slots[k].block in mem
  }

  function Contents(slots: seq<SlotRef>, mem: Memory): (r: seq<Bytes>)
    requires Has(mem, slots)
    ensures |r| == |slots|
  {
    seq(|slots|, k requires 0 <= k < |slots| => mem[slots[k].block])
  }

  /** Written slots take what the kernel left; a kernel can't resize a block. */
  function WriteBack(slots: seq<SlotRef>, out: seq<Bytes>, mem: Memory): Memory {
    if slots == [] then mem
    else
      var n := |slots| - 1;
      var rest := WriteBack(slots[..n], out, mem);
      var b := slots[n].block;
      if slots[n].write && n < |out| && b in mem && |out[n]| == |mem[b]| then rest[b := out[n]] else rest
  }

  /** The same blocks, of the same lengths. */
  predicate SameShape(mem: Memory, mem': Memory) {
    mem'.Keys == mem.Keys && forall b | b in mem :: |mem'[b]| == |mem[b]|
  }

  lemma {:induction false} WriteBackKeepsShape(slots: seq<SlotRef>, out: seq<Bytes>, mem: Memory)
    ensures SameShape(mem, WriteBack(slots, out, mem))
  {
    if slots != [] {
      WriteBackKeepsShape(slots[..|slots| - 1], out, mem);
    }
  }

  /** A block no written slot holds stays as it was. */
  lemma {:induction false} WriteBackFrame(slots: seq<SlotRef>, out: seq<Bytes>, mem: Memory, b: nat)
    requires b in mem && forall k | 0 <= k < |slots| && slots[k].write :: slots[k].block != b
    ensures b in WriteBack(slots, out, mem) && WriteBack(slots, out, mem)[b] == mem[b]
  {
    if slots != [] {
      WriteBackFrame(slots[..|slots| - 1], out, mem, b);
    }
  }

  /** A written slot's block, in no other written slot, takes what the kernel left of its size. */
  lemma {:induction false} WriteBackAt(slots: seq<SlotRef>, out: seq<Bytes>, mem: Memory, k: nat)
    requires k < |slots| && k < |out| && slots[k].write && slots[k].block in mem
    requires |out[k]| == |mem[slots[k].block]|
    requires forall j | 0 <= j < |slots| && j != k && slots[j].write :: slots[j].block != slots[k].block
    ensures slots[k].block in WriteBack(slots, out, mem) && WriteBack(slots, out, mem)[slots[k].block] == out[k]
  {
    var n := |slots| - 1;
    if k < n {
      WriteBackAt(slots[..n], out, mem, k);
    }
    WriteBackKeepsShape(slots[..n], out, mem);
  }

  lemma {:induction false} WriteBackBesideNew(slots: seq<SlotRef>, out: seq<Bytes>, mem: Memory, b: nat, v: Bytes)
    requires b !in mem && Has(mem, slots)
    ensures WriteBack(slots, out, mem[b := v]) == WriteBack(slots, out, mem)[b := v]
  {
    if slots != [] {
      WriteBackBesideNew(slots[..|slots| - 1], out, mem, b, v);
    }
  }

  // ----------------------------------------------------------------------------
  // The same blocks under other names
  // ----------------------------------------------------------------------------

  /** Named places, each with its block. */
  type Places = map<nat, nat>

  ghost predicate InMemory(places: Places, mem: Memory) {
    forall id | id in places :: places[id] in mem
  }

  /** Two names of one block can only name an empty one. */
  ghost predicate Separate(places: Places, mem: Memory)
    requires InMemory(places, mem)
  {
    forall a, b | a in places && b in places && a != b && places[a] == places[b] :: mem[places[a]] == []
  }

  /** What each name's block holds. */
  ghost function Named(places: Places, mem: Memory): (store: Memory)
    requires InMemory(places, mem)
  {
    map id | id in places :: mem[places[id]]
  }

  function AtPlaces(slots: seq<SlotRef>, places: Places): (r: seq<SlotRef>)
    requires forall k | 0 <= k < |slots| :: slots[k].block in places
    ensures |r| == |slots|
  {
    seq(|slots|, k requires 0 <= k < |slots| => slots[k].(block := places[slots[k].block]))
  }

  ghost predicate AllNamed(places: Places, slots: seq<SlotRef>) {
    forall k | 0 <= k < |slots| :: slots[k].block in places
  }

  /** Writing back to the blocks and to the names is the same. */
  lemma {:induction false} WriteBackByName(slots: seq<SlotRef>, out: seq<Bytes>, mem: Memory, places: Places)
    requires InMemory(places, mem) && Separate(places, mem) && AllNamed(places, slots)
    ensures SameShape(mem, WriteBack(AtPlaces(slots, places), out, mem))
    ensures Named(places, WriteBack(AtPlaces(slots, places), out, mem)) == WriteBack(slots, out, Named(places, mem))
  {
    WriteBackKeepsShape(AtPlaces(slots, places), out, mem);
    if slots != [] {
      var n := |slots| - 1;
      WriteBackByName(slots[..n], out, mem, places);
      assert AtPlaces(slots, places)[..n] == AtPlaces(slots[..n], places);
      var rest := WriteBack(AtPlaces(slots[..n], places), out, mem);
      WriteBackKeepsShape(AtPlaces(slots[..n], places), out, mem);
      if slots[n].write && n < |out| && |out[n]| == |mem[places[slots[n].block]]| {
        NameOne(places, mem, rest, slots[n].block, out[n]);
      }
    }
  }

  lemma NameOne(places: Places, mem: Memory, rest: Memory, id: nat, v: Bytes)
    requires InMemory(places, mem) && Separate(places, mem) && SameShape(mem, rest)
    requires id in places && |v| == |mem[places[id]]|
    ensures Named(places, rest[places[id] := v]) == Named(places, rest)[id := v]
  {
    forall other | other in places && other != id && places[other] == places[id]
      ensures rest[places[other]] == v
    {
      assert mem[places[other]] == [];
    }
  }
}
