/** `stableHash32` of src/data/normalizePoints.js: 32-bit FNV-1a over the UTF-16 code units of a
    string, wrapping at 32 bits (`Math.imul`, then `>>> 0` for the unsigned result). */
module StableHash {
  import opened JsRuntime

  const FNV_OFFSET_BASIS: bv32 := 0x811c9dc5
  const FNV_PRIME: bv32 := 0x01000193

  /** One round of the loop body: XOR the code unit into `h`, then `Math.imul(h, FNV_PRIME)`,
      which keeps the low 32 bits of the product. */
  function FnvStep(h: bv32, unit: bv32): bv32 {
    (h ^ unit) * FNV_PRIME
  }

  /** The accumulator after the loop has folded in every code unit, last one outermost. */
  function FoldUnits(units: seq<bv16>): bv32 {
    if units == [] then FNV_OFFSET_BASIS
    else FnvStep(FoldUnits(units[..|units| - 1]), units[|units| - 1] as bv32)
  }

  /** The value `stableHash32(s)` returns. */
  function Hash(s: string): bv32 {
    FoldUnits(CodeUnits(s))
  }

  /** The source's loop: XOR each code unit into `h`, then multiply by the prime modulo 2^32. */
  method StableHash32(s: string) returns (h: bv32)
    ensures h == Hash(s)
  {
    var units := CodeUnits(s);
    h := FNV_OFFSET_BASIS;
    var i := 0;
    while i < |units|
      invariant 0 <= i <= |units|
      invariant h == FoldUnits(units[..i])
    {
      assert units[..i + 1][..i] == units[..i];
      h := FnvStep(h, units[i] as bv32);
      i := i + 1;
    }
    assert units[..i] == units;
  }

  // ---------------------------------------------------------------------------------------------
  // FNV-1a as section 2 of draft-eastlake-fnv states it: start from the offset basis and, for
  // each octet in turn, XOR it into the low bits of the hash and multiply by the FNV prime.

  function Fnv1aFrom(hash: bv32, octets: seq<bv8>): bv32
    decreases |octets|
  {
    if octets == [] then hash else Fnv1aFrom(FnvStep(hash, octets[0] as bv32), octets[1..])
  }

  function Fnv1a32(octets: seq<bv8>): bv32 {
    Fnv1aFrom(FNV_OFFSET_BASIS, octets)
  }

  /** The octets of an all-ASCII string. */
  function AsciiOctets(s: string): (octets: seq<bv8>)
    requires IsAscii(s)
    ensures |octets| == |s|
  {
    seq(|s|, k requires 0 <= k < |s| => (s[k] as int) as bv8)
  }

  /** Appending one octet to the message is one more XOR-and-multiply step. */
  lemma {:induction false} Fnv1aFromSnoc(hash: bv32, octets: seq<bv8>, last: bv8)
    ensures Fnv1aFrom(hash, octets + [last]) == FnvStep(Fnv1aFrom(hash, octets), last as bv32)
    decreases |octets|
  {
    if octets != [] {
      assert (octets + [last])[1..] == octets[1..] + [last];
      Fnv1aFromSnoc(FnvStep(hash, octets[0] as bv32), octets[1..], last);
    }
  }

  /** Folding code units that carry the same values as a sequence of octets is FNV-1a of the octets. */
  lemma {:induction false} FoldUnitsIsFnv1a(units: seq<bv16>, octets: seq<bv8>)
    requires |units| == |octets|
    requires forall k :: 0 <= k < |units| ==> units[k] as bv32 == octets[k] as bv32
    ensures FoldUnits(units) == Fnv1a32(octets)
    decreases |units|
  {
    if units != [] {
      var n := |units| - 1;
      FoldUnitsIsFnv1a(units[..n], octets[..n]);
      assert octets == octets[..n] + [octets[n]];
      Fnv1aFromSnoc(FNV_OFFSET_BASIS, octets[..n], octets[n]);
    }
  }

  lemma AsciiUnitMatchesOctet(v: int)
    requires 0 <= v < 128
    ensures (v as bv16) as bv32 == (v as bv8) as bv32
  {
  }

  /** On an all-ASCII string, as every seed key is (Normalize.SeedKeyAscii), `stableHash32` is
      32-bit FNV-1a of its octets. */
  lemma HashIsFnv1aOnAscii(s: string)
    requires IsAscii(s)
    ensures Hash(s) == Fnv1a32(AsciiOctets(s))
  {
    AsciiCodeUnits(s);
    var units, octets := CodeUnits(s), AsciiOctets(s);
    forall k | 0 <= k < |units| ensures units[k] as bv32 == octets[k] as bv32 {
      AsciiUnitMatchesOctet(s[k] as int);
    }
    FoldUnitsIsFnv1a(units, octets);
  }

  /** The empty string hashes to the offset basis, and "a" to 0xe40c292c, 32-bit FNV-1a's published
      value for it. */
  lemma HashTestVectors()
    ensures Hash("") == FNV_OFFSET_BASIS
    ensures Hash("a") == 0xe40c292c
  {
    assert CodeUnits("a") == [0x61];
    assert [0x61 as bv16][..0] == [];
  }
}
