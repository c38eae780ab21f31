/** The element kinds: how many bits an element takes, and how many share a host word. */
module Dtype {

  datatype Kind = F32 | F16 | Bf16 | Int8 | Int4

  function Bits(kind: Kind): (b: nat)
    ensures b in {4, 8, 16, 32}
  {
    match kind
    case F32 => 32
    case F16 => 16
    case Bf16 => 16
    case Int8 => 8
    case Int4 => 4
  }

  function ElemsPerHostWord(kind: Kind): (n: nat)
    ensures n > 0
  {
    if kind.Int4? then 8 else 1
  }

  function NextMultiple(n: nat, of: nat): (m: nat)
    requires of > 0
    ensures n <= m < n + of
  {
    if n % of == 0 then n else n + (of - n % of)
  }

  lemma NextMultipleDivides(n: nat, of: nat)
    requires of in {1, 2, 4}
    ensures NextMultiple(n, of) % of == 0
  {
    if of == 1 {
      assert NextMultiple(n, 1) % 1 == 0;
    } else if of == 2 {
      assert NextMultiple(n, 2) % 2 == 0;
    } else {
      assert NextMultiple(n, 4) % 4 == 0;
    }
  }

  /** The least whole bytes that have room for `len` elements. */
  function BytesFor(kind: Kind, len: nat): (b: nat)
    ensures len * Bits(kind) <= 8 * b < len * Bits(kind) + 8
  {
    (len * Bits(kind) + 7) / 8
  }

  /** The length a live tensor gets: `Int4`'s fills its last host word. */
  function WholeWords(kind: Kind, len: nat): (n: nat)
    ensures len <= n < len + ElemsPerHostWord(kind)
    ensures !kind.Int4? ==> n == len
    ensures kind.Int4? ==> n % 8 == 0
  {
    if kind.Int4? then NextMultiple(len, 8) else len
  }

  /** What is allocated for a tensor: room for its elements, in multiples of `COPY_ALIGN`. */
  function BufferBytes(kind: Kind, len: nat): (b: nat)
    ensures b % 4 == 0 && BytesFor(kind, len) <= b < BytesFor(kind, len) + 4
  {
    NextMultiple(BytesFor(kind, len), 4)
  }
}
