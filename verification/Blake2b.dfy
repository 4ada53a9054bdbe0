/**
 BLAKE2b with a 32-byte digest and no key, for messages that fit one block, as
 sections 2.1, 2.6, 2.7, 3.1, 3.2 and 3.3 of RFC 7693 define it. Words are
 numbers below 2^64 and addition is reduced modulo 2^64.
 */
module Blake2b {
  import opened Bits

  const MODULUS: nat := 0x1_0000_0000_0000_0000
  const ALL_ONES: nat := 0xffff_ffff_ffff_ffff

  function Iv(i: nat): nat {
    match i
    case 0 => 0x6a09_e667_f3bc_c908
    case 1 => 0xbb67_ae85_84ca_a73b
    case 2 => 0x3c6e_f372_fe94_f82b
    case 3 => 0xa54f_f53a_5f1d_36f1
    case 4 => 0x510e_527f_ade6_82d1
    case 5 => 0x9b05_688c_2b3e_6c1f
    case 6 => 0x1f83_d9ab_fb41_bd6b
    case _ => 0x5be0_cd19_137e_2179
  }

  const PRIMES: seq<nat> := [2, 3, 5, 7, 11, 13, 17, 19]

  /** Section 2.6: word i is the first 64 bits of the fractional part of the square root of prime i. */
  lemma IvIsSquareRoot(i: nat, root: nat)
    requires i < 8 && root * root <= PRIMES[i] < (root + 1) * (root + 1)
    ensures Iv(i) < MODULUS
    ensures var scaled := root * MODULUS + Iv(i);
            scaled * scaled <= PRIMES[i] * MODULUS * MODULUS < (scaled + 1) * (scaled + 1)
  {
    assert root == if i < 2 then 1 else if i < 4 then 2 else if i < 6 then 3 else 4;
  }

  type WordIndex = k: nat | k < 16

  /** Section 2.7: the ten message word permutations. */
  function Sigma(row: nat): (r: seq<WordIndex>)
    ensures |r| == 16
  {
    match row
    case 0 => [0, 1, 2, 3, 4, 5, 6, 7, 8, 9, 10, 11, 12, 13, 14, 15]
    case 1 => [14, 10, 4, 8, 9, 15, 13, 6, 1, 12, 0, 2, 11, 7, 5, 3]
    case 2 => [11, 8, 12, 0, 5, 2, 15, 13, 10, 14, 3, 6, 7, 1, 9, 4]
    case 3 => [7, 9, 3, 1, 13, 12, 11, 14, 2, 6, 5, 10, 4, 0, 15, 8]
    case 4 => [9, 0, 5, 7, 2, 4, 10, 15, 14, 1, 11, 12, 6, 8, 3, 13]
    case 5 => [2, 12, 6, 10, 0, 11, 8, 3, 4, 13, 7, 5, 15, 14, 1, 9]
    case 6 => [12, 5, 1, 15, 14, 13, 4, 10, 0, 7, 6, 3, 9, 2, 8, 11]
    case 7 => [13, 11, 7, 14, 12, 1, 3, 9, 5, 0, 15, 4, 8, 6, 2, 10]
    case 8 => [6, 15, 14, 9, 11, 3, 0, 8, 12, 2, 13, 7, 1, 4, 10, 5]
    case _ => [10, 2, 8, 4, 7, 6, 1, 5, 15, 11, 9, 14, 3, 12, 13, 0]
  }

  function Xor64(a: nat, b: nat): nat { Xor(a, b, 64) }

  /** The quotient and remainder of x by p change places, the remainder scaled by q. */
  function SwapParts(x: nat, p: nat, q: nat): nat
    requires p > 0
  {
    x / p + (x % p) * q
  }

  /** Section 2.3: rotation of a 64-bit word to the right by n bits. */
  function RotateRight64(x: nat, n: nat): nat
    requires n <= 64
  {
    SwapParts(x, Pow2(n), Pow2(64 - n))
  }

  function AddInto(v: seq<nat>, a: nat, x: nat): (w: seq<nat>)
    requires |v| == 16 && a < 16
    ensures |w| == 16
  {
    v[a := (v[a] + x) % MODULUS]
  }

  function XorInto(v: seq<nat>, d: nat, a: nat, r: nat): (w: seq<nat>)
    requires |v| == 16 && a < 16 && d < 16 && r <= 64
    ensures |w| == 16
  {
    v[d := RotateRight64(Xor64(v[d], v[a]), r)]
  }

  /** Two consecutive lines of G: v[a] += v[b] + x, then v[d] = (v[d] ^ v[a]) >>> r. */
  function MixPair(v: seq<nat>, a: nat, b: nat, x: nat, d: nat, r: nat): (w: seq<nat>)
    requires |v| == 16 && a < 16 && b < 16 && d < 16 && r <= 64
    ensures |w| == 16
  {
    XorInto(AddInto(v, a, v[b] + x), d, a, r)
  }

  /** Half of G: the pair of lines for a and d, then the pair for c and b. */
  function MixHalf(v: seq<nat>, a: nat, b: nat, c: nat, d: nat, x: nat, r1: nat, r2: nat): (w: seq<nat>)
    requires |v| == 16 && a < 16 && b < 16 && c < 16 && d < 16 && r1 <= 64 && r2 <= 64
    ensures |w| == 16
  {
    MixPair(MixPair(v, a, b, x, d, r1), c, d, 0, b, r2)
  }

  /** The mixing function G of section 3.1. */
  function G(v: seq<nat>, a: nat, b: nat, c: nat, d: nat, x: nat, y: nat): (r: seq<nat>)
    requires |v| == 16 && a < 16 && b < 16 && c < 16 && d < 16
    ensures |r| == 16
  {
    MixHalf(MixHalf(v, a, b, c, d, x, 32, 24), a, b, c, d, y, 16, 63)
  }

  /** The eight G calls of one round: four columns of the 4 by 4 state, then its four diagonals. */
  function MixIndexes(k: nat): (r: (nat, nat, nat, nat))
    requires k < 8
    ensures r.0 < 16 && r.1 < 16 && r.2 < 16 && r.3 < 16
  {
    if k < 4 then (k, 4 + k, 8 + k, 12 + k)
    else (k - 4, 4 + (k - 3) % 4, 8 + (k - 2) % 4, 12 + (k - 1) % 4)
  }

  /** G call k of a round using permutation s. */
  function RoundStep(v: seq<nat>, m: seq<nat>, s: seq<nat>, k: nat): (r: seq<nat>)
    requires |v| == 16 && |m| == 16 && k < 8
    requires |s| == 16 && forall i :: 0 <= i < 16 ==> s[i] < 16
    ensures |r| == 16
  {
    var (a, b, c, d) := MixIndexes(k);
    G(v, a, b, c, d, m[s[2 * k]], m[s[2 * k + 1]])
  }

  /** The first k of the eight G calls of a round using permutation s. */
  function RoundSteps(v: seq<nat>, m: seq<nat>, s: seq<nat>, k: nat): (r: seq<nat>)
    requires |v| == 16 && |m| == 16 && k <= 8
    requires |s| == 16 && forall i :: 0 <= i < 16 ==> s[i] < 16
    ensures |r| == 16
  {
    if k == 0 then v else RoundStep(RoundSteps(v, m, s, k - 1), m, s, k - 1)
  }

  /** The first n rounds of the compression function F of section 3.2. */
  function Rounds(v: seq<nat>, m: seq<nat>, n: nat): (r: seq<nat>)
    requires |v| == 16 && |m| == 16
    ensures |r| == 16
  {
    if n == 0 then v else RoundSteps(Rounds(v, m, n - 1), m, Sigma((n - 1) % 10), 8)
  }

  /** Parameter block word 0 for a 32-byte digest and no key, and the IV elsewhere. */
  function InitialHash(i: nat): nat {
    if i == 0 then Xor64(Iv(0), 0x0101_0020) else Iv(i)
  }

  function InitialWord(i: nat): nat {
    if i < 8 then InitialHash(i) else Iv(i - 8)
  }

  function InitialWords(): (v: seq<nat>)
    ensures |v| == 16
  {
    seq(16, i requires 0 <= i < 16 => InitialWord(i))
  }

  /** F's working vector for a final block after t < 2^64 bytes in total. */
  function WorkingVector(t: nat): (v: seq<nat>)
    ensures |v| == 16
  {
    var v := InitialWords();
    v[12 := Xor64(v[12], t)][14 := Xor64(v[14], ALL_ONES)]
  }

  function InitialHashes(): (h: seq<nat>)
    ensures |h| == 8
  {
    seq(8, i requires 0 <= i < 8 => InitialHash(i))
  }

  /** Word i of the chaining value: h[i] ^ v[i] ^ v[i + 8]. */
  function FoldWord(h: seq<nat>, v: seq<nat>, i: nat): nat
    requires |h| == 8 && |v| == 16 && i < 8
  {
    Xor64(Xor64(h[i], v[i]), v[i + 8])
  }

  /** The first n words of the chaining value. */
  function FoldWords(h: seq<nat>, v: seq<nat>, n: nat): (r: seq<nat>)
    requires |h| == 8 && |v| == 16 && n <= 8
    ensures |r| == n
  {
    seq(n, i requires 0 <= i < n => FoldWord(h, v, i))
  }

  /** The chaining value, first n words, of a single final block after t bytes. */
  function HashWords(m: seq<nat>, t: nat, n: nat): (r: seq<nat>)
    requires |m| == 16 && n <= 8
    ensures |r| == n
  {
    FoldWords(InitialHashes(), Rounds(WorkingVector(t), m, 12), n)
  }

  /** A number from little-endian octets. */
  function FromOctets(octets: seq<nat>): nat {
    if octets == [] then 0 else octets[0] + 256 * FromOctets(octets[1..])
  }

  /** Octet k of a word in little-endian order. */
  function Octet(word: nat, k: nat): nat { word / Pow2(8 * k) % 256 }

  /** The sixteen message words of one zero-padded block. */
  function BlockWords(message: seq<nat>): (m: seq<nat>)
    requires |message| <= 128
    ensures |m| == 16
  {
    var block := message + seq(128 - |message|, _ => 0);
    seq(16, i requires 0 <= i < 16 => FromOctets(block[8 * i..8 * i + 8]))
  }

  /** The 32 octets of four words. */
  function DigestOctets(words: seq<nat>): (digest: seq<nat>)
    requires |words| == 4
    ensures |digest| == 32
  {
    seq(32, k requires 0 <= k < 32 => Octet(words[k / 8], k % 8))
  }

  /** BLAKE2b-256 of a message of 1 to 128 octets. */
  function Hash(message: seq<nat>): (digest: seq<nat>)
    requires 0 < |message| <= 128
    ensures |digest| == 32
  {
    DigestOctets(HashWords(BlockWords(message), |message|, 4))
  }

  lemma HashOfWords(message: seq<nat>, m: seq<nat>, t: nat, words: seq<nat>)
    requires 0 < t == |message| <= 128 && m == BlockWords(message) && words == HashWords(m, t, 4)
    ensures DigestOctets(words) == Hash(message)
  {
  }
}
