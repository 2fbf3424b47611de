// What the other modules share: options, machine integers and sequence slices.

module Optional {
  datatype Option<T> = None | Some(value: T)
}

/** Go's uint and int on a 64-bit platform, with wrap-around written out. */
module Machine {
  const TWO_63: int := 0x8000_0000_0000_0000
  const TWO_64: int := 0x1_0000_0000_0000_0000

  type uint64 = n: int | 0 <= n < TWO_64
  type int64 = n: int | -TWO_63 <= n < TWO_63

  /** The conversion int(u): the same 64 bits read as two's complement. */
  function AsInt(u: uint64): int64 {
    if u < TWO_63 then u else u - TWO_64
  }

  /** The conversion uint(i). */
  function AsUint(i: int64): uint64 {
    i % TWO_64
  }

  /** The conversions are inverse to each other, and int(u) has 64 bits: this determines both. */
  lemma ConversionsInvert(u: uint64, i: int64)
    ensures -0x8000_0000_0000_0000 <= AsInt(u) < 0x8000_0000_0000_0000 && AsUint(AsInt(u)) == u < 0x1_0000_0000_0000_0000
    ensures AsInt(AsUint(i)) == i
    ensures (AsInt(u) - u) % 0x1_0000_0000_0000_0000 == 0
  {
    if i < 0 {
      assert AsUint(i) == i + TWO_64;
    }
  }

  /** a - b on uint, modulo two to the 64th. */
  function SubWrap(a: uint64, b: uint64): uint64 {
    (a - b) % TWO_64
  }

  /** Subtracting at most what is there does not wrap; subtracting more lands near the top. */
  lemma SubWrapCases(a: uint64, b: uint64)
    ensures SubWrap(a, b) == if b <= a then a - b else a - b + TWO_64
  {
    if b <= a {
      assert (a - b) % TWO_64 == a - b;
    } else {
      assert (a - b) % TWO_64 == a - b + TWO_64;
    }
  }

  /** intmath.Min */
  function Min(a: int, b: int): int {
    if a < b then a else b
  }

  function Max(a: int, b: int): int {
    if a < b then b else a
  }
}

/** The first or last few elements of a sequence. */
module Slices {
  function First<T>(s: seq<T>, k: nat): seq<T> {
    if k < |s| then s[..k] else s
  }

  function Last<T>(s: seq<T>, k: nat): seq<T> {
    if k < |s| then s[|s| - k..] else s
  }
}
