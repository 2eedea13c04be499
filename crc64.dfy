/**
 * The OpenSolaris CRC-64 (ECMA-182 polynomial, reflected form) and the
 * pseudo random number generator built on it: a 256-entry lookup table
 * filled once, a byte-at-a-time checksum starting from all ones with no
 * final inversion, and a generator whose next seed is the checksum of the
 * previous seed's own eight bytes.
 */
module Crc64 {

  const Poly: bv64 := 0xC96C5795D7870F42
  const AllOnes: bv64 := 0xFFFF_FFFF_FFFF_FFFF

  /** One shift of the table construction: `(x >> 1) ^ (-(x & 1) & POLY)` in unsigned 64-bit arithmetic. */
  function BitStep(x: bv64): (r: bv64)
  {
    (x >> 1) ^ ((0 - (x & 1)) & Poly)
  }

  /** The negated low bit selects the polynomial: the step XORs it in exactly when the low bit is set. */
  lemma BitStepSelects(x: bv64)
    ensures x & 1 == 0 ==> BitStep(x) == x >> 1
    ensures x & 1 == 1 ==> BitStep(x) == (x >> 1) ^ Poly
  {
  }

  /** `n` successive shifts. */
  function BitSteps(x: bv64, n: nat): bv64
    decreases n
  {
    if n == 0 then x else BitSteps(BitStep(x), n - 1)
  }

  /** Entry `i` of `crc64_table`: eight shifts of `i`. */
  function TableEntry(i: nat): bv64
    requires i < 256
  {
    BitSteps(i as bv64, 8)
  }

  /** The self-check `crc64` asserts, and the trivial entry. */
  lemma TableKnownEntries()
    ensures TableEntry(0) == 0
    ensures TableEntry(128) == Poly
  {
    var x: bv64 := 128;
    BitStepSelects(x);
    BitStepSelects(x >> 1);
    BitStepSelects(x >> 2);
    BitStepSelects(x >> 3);
    BitStepSelects(x >> 4);
    BitStepSelects(x >> 5);
    BitStepSelects(x >> 6);
    BitStepSelects(x >> 7);
    assert BitSteps(x, 8) == BitSteps(1, 1);
    var z: bv64 := 0;
    BitStepSelects(z);
    assert BitSteps(z, 8) == 0;
  }

  /** `crc64_table` as `crc64_init` leaves it. */
  ghost predicate IsTable(t: seq<bv64>)
  {
    |t| == 256 && forall i :: 0 <= i < 256 ==> t[i] == TableEntry(i)
  }

  /** The table slot one input byte selects: the low byte of the running value XOR the input. */
  function Index(crc: bv64, b: bv8): (k: nat)
    ensures k < 256
  {
    ((crc ^ (b as bv64)) & 0xFF) as nat
  }

  /** One byte of `crc64`: shift the running value right by eight and fold in the entry the byte selects. */
  function ByteStep(t: seq<bv64>, crc: bv64, b: bv8): bv64
    requires |t| == 256
  {
    (crc >> 8) ^ t[Index(crc, b)]
  }

  /**
   * The checksum of `bytes` through table `t`, from the running value
   * `crc`: each byte shifts the value right by eight and folds in the
   * entry it selects, first byte first.
   */
  function CrcFrom(t: seq<bv64>, crc: bv64, bytes: seq<bv8>): bv64
    requires |t| == 256
  {
    if |bytes| == 0 then crc
    else ByteStep(t, CrcFrom(t, crc, bytes[..|bytes| - 1]), bytes[|bytes| - 1])
  }

  /** `crc64`: start from all ones, no final inversion. */
  function Crc(t: seq<bv64>, bytes: seq<bv8>): (r: bv64)
    requires |t| == 256
    ensures |bytes| == 0 ==> r == AllOnes
  {
    CrcFrom(t, AllOnes, bytes)
  }

  /** The checksum can be computed piecewise: the value after `a` is the start value for `b`. */
  lemma {:induction false} CrcFromConcat(t: seq<bv64>, crc: bv64, a: seq<bv8>, b: seq<bv8>)
    requires |t| == 256
    ensures CrcFrom(t, crc, a + b) == CrcFrom(t, CrcFrom(t, crc, a), b)
  {
    if |b| == 0 {
      assert a + b == a;
    } else {
      var b' := b[..|b| - 1];
      assert (a + b)[..|a + b| - 1] == a + b';
      assert (a + b)[|a + b| - 1] == b[|b| - 1];
      CrcFromConcat(t, crc, a, b');
    }
  }

  /** `crc64` works front to back: the first byte is folded in first, then the rest from there. */
  lemma CrcFromCons(t: seq<bv64>, crc: bv64, b: bv8, rest: seq<bv8>)
    requires |t| == 256
    ensures CrcFrom(t, crc, [b] + rest) == CrcFrom(t, ByteStep(t, crc, b), rest)
  {
    CrcFromConcat(t, crc, [b], rest);
    assert [b][..0] == [];
  }

  /** The eight bytes of a `uint64_t` as they lie in memory, least significant first. */
  function LeBytes(x: bv64): (r: seq<bv8>)
    ensures |r| == 8
  {
    [(x & 0xFF) as bv8, ((x >> 8) & 0xFF) as bv8, ((x >> 16) & 0xFF) as bv8,
     ((x >> 24) & 0xFF) as bv8, ((x >> 32) & 0xFF) as bv8, ((x >> 40) & 0xFF) as bv8,
     ((x >> 48) & 0xFF) as bv8, ((x >> 56) & 0xFF) as bv8]
  }

  /** The seed `crc64_rand` moves to: the checksum of the current seed's bytes. */
  function NextSeed(t: seq<bv64>, seed: bv64): bv64
    requires |t| == 256
  {
    Crc(t, LeBytes(seed))
  }

  /** `crc64_init`: fills a 256-entry table. */
  method BuildTable() returns (t: array<bv64>)
    ensures IsTable(t[..])
  {
    t := new bv64[256];
    var i := 0;
    while i < 256
      invariant 0 <= i <= 256
      invariant forall k :: 0 <= k < i ==> t[k] == TableEntry(k)
    {
      var ct: bv64 := i as bv64;
      var j := 8;
      while j > 0
        invariant 0 <= j <= 8
        invariant BitSteps(ct, j) == TableEntry(i)
      {
        ct := BitStep(ct);
        j := j - 1;
      }
      assert ct == TableEntry(i);
      t[i] := ct;
      i := i + 1;
    }
  }

  /**
   * The file-level state of the generator: the table `crc64_init` fills
   * and the seed `crc64_srand` sets and `crc64_rand` advances.
   */
  class CrcGen {
    const table: array<bv64>
    var seed: bv64

    ghost predicate Valid()
      reads this, table
    {
      IsTable(table[..])
    }

    /** `crc64_init` followed by `crc64_srand(seed0)`. */
    constructor (seed0: bv64)
      ensures Valid() && seed == seed0
    {
      var t := BuildTable();
      table := t;
      seed := seed0;
    }

    /** `crc64`, computed through the table. */
    method Checksum(bytes: seq<bv8>) returns (r: bv64)
      requires Valid()
      ensures r == Crc(table[..], bytes)
    {
      var crc := AllOnes;
      var i := 0;
      while i < |bytes|
        invariant 0 <= i <= |bytes|
        invariant crc == CrcFrom(table[..], AllOnes, bytes[..i])
      {
        assert bytes[..i + 1][..i] == bytes[..i];
        crc := ByteStep(table[..], crc, bytes[i]);
        i := i + 1;
      }
      assert bytes[..i] == bytes;
      r := crc;
    }

    /** `crc64_srand`. */
    method Srand(s: bv64)
      requires Valid()
      modifies this
      ensures Valid() && seed == s
    {
      seed := s;
    }

    /** `crc64_rand`: replaces the seed by the checksum of its own bytes and returns it. */
    method Rand() returns (r: bv64)
      requires Valid()
      modifies this
      ensures Valid()
      ensures seed == NextSeed(table[..], old(seed)) && r == seed
    {
      r := Checksum(LeBytes(seed));
      seed := r;
    }
  }
}
