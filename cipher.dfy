/**
 * The chained XOR stream cipher of index.js. A pass (`espreadValue`) seeds a
 * pseudo-random generator and XORs the low byte of successive outputs into a
 * buffer, from the last byte down to the first; `cipher` chains one pass per
 * password byte after a first pass seeded by the two lengths.
 *
 * The generator is a parameter: `gen(seed, k)` is the k-th output (counting
 * from 0) of the generator seeded with `seed`. Nothing is assumed about it, so
 * every fact below holds for any generator.
 */
module StreamCipher {
  newtype int32 = x: int | -0x8000_0000 <= x < 0x8000_0000

  type Byte = bv8

  /** `gen(seed, k)`: the k-th `int32()` of a generator seeded with `seed`. */
  type Generator = (int, nat) -> int32

  /** `v & 255` on a 32-bit integer in two's complement: its residue modulo 256. */
  function LowByte(v: int32): Byte {
    ((v as int) % 256) as Byte
  }

  /** `v & 255` keeps the last eight bits of the two's complement of `v`: values
      256 apart have the same low byte, a value in 0..255 is its own low byte,
      and `-1 & 255` is 255. */
  lemma {:induction false} LowByteResidue(v: int32, w: int32)
    requires w as int == v as int + 256
    ensures LowByte(w) == LowByte(v)
    ensures 0 <= v < 256 ==> LowByte(v) == v as int as Byte
    ensures v == -1 ==> LowByte(v) == 0xFF
  {
    assert (w as int) % 256 == (v as int) % 256;
  }

  // ---------------------------------------------------------------------------
  // Byte strings

  /** Bytewise exclusive or of two buffers of one length. */
  function Xor(a: seq<Byte>, b: seq<Byte>): (c: seq<Byte>)
    requires |a| == |b|
    ensures |c| == |a|
  {
    seq(|a|, i requires 0 <= i < |a| => a[i] ^ b[i])
  }

  lemma {:induction false} XorAt(a: seq<Byte>, b: seq<Byte>, i: nat)
    requires |a| == |b| && i < |a|
    ensures Xor(a, b)[i] == a[i] ^ b[i]
  {
  }

  function Zeros(n: nat): (z: seq<Byte>)
    ensures |z| == n && forall i :: 0 <= i < n ==> z[i] == 0
  {
    seq(n, _ => 0)
  }

  lemma {:induction false} XorZeros(a: seq<Byte>)
    ensures Xor(Zeros(|a|), a) == a
  {
    var z := Xor(Zeros(|a|), a);
    forall i | 0 <= i < |a| ensures z[i] == a[i] {
      assert z[i] == 0 ^ a[i];
    }
  }

  lemma {:induction false} XorAssoc(a: seq<Byte>, b: seq<Byte>, c: seq<Byte>)
    requires |a| == |b| == |c|
    ensures Xor(Xor(a, b), c) == Xor(a, Xor(b, c))
  {
    var l, r := Xor(Xor(a, b), c), Xor(a, Xor(b, c));
    forall i | 0 <= i < |a| ensures l[i] == r[i] {
      assert l[i] == (a[i] ^ b[i]) ^ c[i];
      assert r[i] == a[i] ^ (b[i] ^ c[i]);
    }
  }

  /** XOR with the same mask twice is the identity. */
  lemma {:induction false} XorTwice(a: seq<Byte>, mask: seq<Byte>)
    requires |a| == |mask|
    ensures Xor(Xor(a, mask), mask) == a
  {
    var r := Xor(Xor(a, mask), mask);
    forall i | 0 <= i < |a| ensures r[i] == a[i] {
      assert r[i] == (a[i] ^ mask[i]) ^ mask[i];
    }
  }

  /** What the output of an XOR with `mask` says about the mask. */
  lemma {:induction false} XorRecoversMask(a: seq<Byte>, mask: seq<Byte>)
    requires |a| == |mask|
    ensures Xor(a, Xor(a, mask)) == mask
  {
    var r := Xor(a, Xor(a, mask));
    forall i | 0 <= i < |a| ensures r[i] == mask[i] {
      assert r[i] == a[i] ^ (a[i] ^ mask[i]);
    }
  }

  // ---------------------------------------------------------------------------
  // The generator as the source uses it: an object whose `int32()` advances it

  class Prng {
    const gen: Generator
    const seed: int
    /** How many outputs have been drawn so far. */
    var drawn: nat

    /** `seedrandom(seed)`. */
    constructor(gen: Generator, seed: int)
      ensures this.gen == gen && this.seed == seed && drawn == 0
    {
      this.gen := gen;
      this.seed := seed;
      drawn := 0;
    }

    /** `rng.int32()`: the next output. */
    method Int32() returns (r: int32)
      modifies this
      ensures r == gen(seed, old(drawn)) && drawn == old(drawn) + 1
    {
      r := gen(seed, drawn);
      drawn := drawn + 1;
    }
  }

  // ---------------------------------------------------------------------------
  // One pass: `espreadValue`

  /** The bytes one pass XORs into a buffer of length `n`: the loop visits index
      n-1 first, so index k receives the low byte of output number n-1-k. */
  function PassMask(gen: Generator, seed: int, n: nat): (mask: seq<Byte>)
    ensures |mask| == n
  {
    seq(n, k requires 0 <= k < n => LowByte(gen(seed, n - 1 - k)))
  }

  /** Byte k of a pass is changed by the low byte of output n-1-k and by nothing
      else: each index is visited once, the last index first. */
  lemma {:induction false} PassChangesEachByteOnce(gen: Generator, seed: int, before: seq<Byte>, k: nat)
    requires k < |before|
    ensures Xor(before, PassMask(gen, seed, |before|))[k] == before[k] ^ LowByte(gen(seed, |before| - 1 - k))
  {
    XorAt(before, PassMask(gen, seed, |before|), k);
  }

  /** Conversely, a buffer changed at every index k by the low byte of output
      n-1-k, and only by it, is the result of the pass. */
  lemma {:induction false} PassOfBytes(gen: Generator, seed: int, before: seq<Byte>, after: seq<Byte>)
    requires |after| == |before|
    requires forall k :: 0 <= k < |before| ==> after[k] == before[k] ^ LowByte(gen(seed, |before| - 1 - k))
    ensures after == Xor(before, PassMask(gen, seed, |before|))
  {
    forall k | 0 <= k < |before| ensures after[k] == Xor(before, PassMask(gen, seed, |before|))[k] {
      PassChangesEachByteOnce(gen, seed, before, k);
    }
  }

  /** `espreadValue(lastValue, value, key)`: one pass over `key` in place, from the
      last index down to 0, returning the output drawn after the last byte. */
  method SpreadValue(gen: Generator, lastValue: int, value: int, key: array<Byte>) returns (next: int32)
    modifies key
    ensures key[..] == Xor(old(key[..]), PassMask(gen, lastValue + value, key.Length))
    ensures next == gen(lastValue + value, key.Length)
  {
    var rng := new Prng(gen, lastValue + value);
    var i := key.Length;
    while i >= 1
      invariant 0 <= i <= key.Length
      invariant rng.drawn == key.Length - i
      invariant forall k :: 0 <= k < i ==> key[k] == old(key[k])
      invariant forall k :: i <= k < key.Length ==>
        key[k] == old(key[k]) ^ LowByte(gen(lastValue + value, key.Length - 1 - k))
    {
      i := i - 1;
      var r := rng.Int32();
      key[i] := key[i] ^ LowByte(r);
    }
    PassOfBytes(gen, lastValue + value, old(key[..]), key[..]);
    next := rng.Int32();
  }

  // ---------------------------------------------------------------------------
  // The chain of passes: `cipher`

  /** The seeds of the first j+1 passes over a message of length n: the first is
      the sum of the two lengths, each later one the previous pass's return value
      plus the next password byte, taken from the last byte to the first. */
  function Seeds(gen: Generator, password: seq<Byte>, n: nat, j: nat): (s: seq<int>)
    requires j <= |password|
    ensures |s| == j + 1 && s[0] == |password| + n
  {
    if j == 0 then [|password| + n]
    else
      var p := Seeds(gen, password, n, j - 1);
      p + [gen(p[j - 1], n) as int + password[|password| - j] as int]
  }

  /** Pass t+1 is seeded by the return value of pass t plus password byte
      |password|-1-t, for every pass of the chain. */
  lemma {:induction false} SeedsChain(gen: Generator, password: seq<Byte>, n: nat, j: nat, t: nat)
    requires t < j <= |password|
    ensures Seeds(gen, password, n, j)[t + 1] ==
      gen(Seeds(gen, password, n, j)[t], n) as int + password[|password| - 1 - t] as int
    decreases j
  {
    var p := Seeds(gen, password, n, j - 1);
    assert Seeds(gen, password, n, j) == p + [gen(p[j - 1], n) as int + password[|password| - j] as int];
    if t < j - 1 {
      SeedsChain(gen, password, n, j - 1, t);
    }
  }

  /** The seeds of all |password| + 1 passes. */
  function CipherSeeds(gen: Generator, password: seq<Byte>, n: nat): (s: seq<int>)
    ensures |s| == |password| + 1
  {
    Seeds(gen, password, n, |password|)
  }

  /** The combined mask of the passes seeded by `seeds`, in order. */
  function MaskOf(gen: Generator, seeds: seq<int>, n: nat): (mask: seq<Byte>)
    ensures |mask| == n
  {
    if seeds == [] then Zeros(n)
    else Xor(MaskOf(gen, seeds[..|seeds| - 1], n), PassMask(gen, seeds[|seeds| - 1], n))
  }

  /** The mask `cipher` XORs into a message of length n: a function of the
      password and the length alone. */
  function CipherMask(gen: Generator, password: seq<Byte>, n: nat): (mask: seq<Byte>)
    ensures |mask| == n
  {
    MaskOf(gen, CipherSeeds(gen, password, n), n)
  }

  /** What `cipher(password, message)` leaves in `message`. */
  function CipherBytes(gen: Generator, password: seq<Byte>, message: seq<Byte>): (c: seq<Byte>)
    ensures |c| == |message|
  {
    Xor(message, CipherMask(gen, password, |message|))
  }

  lemma {:induction false} MaskOfSnoc(gen: Generator, seeds: seq<int>, s: int, n: nat)
    ensures MaskOf(gen, seeds + [s], n) == Xor(MaskOf(gen, seeds, n), PassMask(gen, s, n))
  {
    assert (seeds + [s])[..|seeds|] == seeds;
  }

  /** After the first pass, the message holds the mask of the first seed. */
  lemma {:induction false} FirstPass(gen: Generator, seeds: seq<int>, n: nat, original: seq<Byte>)
    requires |seeds| > 0 && |original| == n
    ensures Xor(original, PassMask(gen, seeds[0], n)) == Xor(original, MaskOf(gen, seeds[..1], n))
  {
    assert seeds[..1] == [] + [seeds[0]];
    MaskOfSnoc(gen, [], seeds[0], n);
    XorZeros(PassMask(gen, seeds[0], n));
  }

  /** A further pass extends the mask by the next seed's pass. */
  lemma {:induction false} NextPass(gen: Generator, seeds: seq<int>, j: nat, n: nat, original: seq<Byte>, before: seq<Byte>)
    requires j < |seeds| && |original| == n
    requires before == Xor(original, MaskOf(gen, seeds[..j], n))
    ensures Xor(before, PassMask(gen, seeds[j], n)) == Xor(original, MaskOf(gen, seeds[..j + 1], n))
  {
    assert seeds[..j + 1] == seeds[..j] + [seeds[j]];
    MaskOfSnoc(gen, seeds[..j], seeds[j], n);
    XorAssoc(original, MaskOf(gen, seeds[..j], n), PassMask(gen, seeds[j], n));
  }

  /** The seed of pass j is the return value of pass j-1 plus the password byte
      the loop reaches at that point. */
  lemma {:induction false} NextSeed(gen: Generator, password: seq<Byte>, n: nat, j: nat)
    requires 1 <= j <= |password|
    ensures CipherSeeds(gen, password, n)[j] ==
      gen(CipherSeeds(gen, password, n)[j - 1], n) as int + password[|password| - j] as int
  {
    SeedsChain(gen, password, n, |password|, j - 1);
  }

  /** One turn of the loop of `cipher`: the pass seeded by the previous return
      value plus password byte i extends the mask by the next seed of the chain. */
  lemma {:induction false} PassStep(gen: Generator, password: seq<Byte>, seeds: seq<int>, original: seq<Byte>, i: nat,
                                    lastValue: int32, before: seq<Byte>, after: seq<Byte>, next: int32)
    requires seeds == CipherSeeds(gen, password, |original|) && i < |password|
    requires lastValue == gen(seeds[|password| - i - 1], |original|)
    requires before == Xor(original, MaskOf(gen, seeds[..|password| - i], |original|))
    requires after == Xor(before, PassMask(gen, lastValue as int + password[i] as int, |original|))
    requires next == gen(lastValue as int + password[i] as int, |original|)
    ensures next == gen(seeds[|password| - i], |original|)
    ensures after == Xor(original, MaskOf(gen, seeds[..|password| - i + 1], |original|))
  {
    var j := |password| - i;
    NextSeed(gen, password, |original|, j);
    assert lastValue as int + password[i] as int == seeds[j];
    NextPass(gen, seeds, j, |original|, original, before);
  }

  /** After the last pass the message holds the whole mask of the chain. */
  lemma {:induction false} AllPasses(gen: Generator, password: seq<Byte>, seeds: seq<int>, original: seq<Byte>, m: seq<Byte>)
    requires seeds == CipherSeeds(gen, password, |original|)
    requires m == Xor(original, MaskOf(gen, seeds[..|password| + 1], |original|))
    ensures m == CipherBytes(gen, password, original)
  {
    assert seeds[..|password| + 1] == seeds;
  }

  /** `cipher`: |password| + 1 passes over `message` in place. */
  method Cipher(gen: Generator, password: seq<Byte>, message: array<Byte>)
    modifies message
    ensures message[..] == CipherBytes(gen, password, old(message[..]))
  {
    ghost var original := message[..];
    ghost var n := message.Length;
    ghost var seeds := CipherSeeds(gen, password, n);
    var lastValue := SpreadValue(gen, |password|, message.Length, message);
    FirstPass(gen, seeds, n, original);
    var i := |password|;
    while i >= 1
      invariant 0 <= i <= |password|
      invariant lastValue == gen(seeds[|password| - i], n)
      invariant message[..] == Xor(original, MaskOf(gen, seeds[..|password| - i + 1], n))
    {
      i := i - 1;
      ghost var before := message[..];
      var next := SpreadValue(gen, lastValue as int, password[i] as int, message);
      PassStep(gen, password, seeds, original, i, lastValue, before, message[..], next);
      lastValue := next;
    }
    AllPasses(gen, password, seeds, original, message[..]);
  }

  // ---------------------------------------------------------------------------
  // Properties of `cipher`

  /** The cipher is an involution: a second application with the same password
      restores the message. */
  lemma {:induction false} CipherInvolution(gen: Generator, password: seq<Byte>, message: seq<Byte>)
    ensures CipherBytes(gen, password, CipherBytes(gen, password, message)) == message
  {
    XorTwice(message, CipherMask(gen, password, |message|));
  }

  /** What the cipher XORs in does not depend on the message's contents: two
      messages of one length are changed by the same bytes. */
  lemma {:induction false} MaskIndependent(gen: Generator, password: seq<Byte>, m1: seq<Byte>, m2: seq<Byte>)
    requires |m1| == |m2|
    ensures Xor(m1, CipherBytes(gen, password, m1)) == Xor(m2, CipherBytes(gen, password, m2))
  {
    XorRecoversMask(m1, CipherMask(gen, password, |m1|));
    XorRecoversMask(m2, CipherMask(gen, password, |m2|));
  }

  // ---------------------------------------------------------------------------
  // `appendBuffer`

  /** A fresh buffer holding `key` followed by `payload`. */
  method AppendBuffer(key: array<Byte>, payload: array<Byte>) returns (tmp: array<Byte>)
    ensures fresh(tmp)
    ensures tmp[..] == key[..] + payload[..]
  {
    tmp := new Byte[key.Length + payload.Length];
    for i := 0 to key.Length
      invariant forall k :: 0 <= k < i ==> tmp[k] == key[k]
    {
      tmp[i] := key[i];
    }
    for i := 0 to payload.Length
      invariant forall k :: 0 <= k < key.Length ==> tmp[k] == key[k]
      invariant forall k :: 0 <= k < i ==> tmp[key.Length + k] == payload[k]
    {
      tmp[key.Length + i] := payload[i];
    }
    assert tmp[..] == key[..] + payload[..] by {
      forall k | 0 <= k < tmp.Length ensures tmp[k] == (key[..] + payload[..])[k] {
        if k >= key.Length {
          assert tmp[key.Length + (k - key.Length)] == payload[k - key.Length];
        }
      }
    }
  }
}
