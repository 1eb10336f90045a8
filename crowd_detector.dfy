/**
 * The deterministic part of the placeholder crowd detector: `simpleImageHash`,
 * a 32-bit string hash, and the base count derived from it. The detector hashes
 * the URI of the resized copy that the image manipulator writes, not the URI it
 * was given.
 *
 * JavaScript numbers are modelled as unbounded integers with the wrap-around of
 * the bitwise operators written out: `<<` and `&` convert their operands and
 * their result to signed 32-bit integers (ToInt32), while `-` and `+` are exact
 * here because every intermediate value stays far below 2^53.
 */
module CrowdDetector {

  const TwoTo31: int := 0x8000_0000
  const TwoTo32: int := 0x1_0000_0000

  /** A UTF-16 code unit, what `charCodeAt` returns. */
  newtype CodeUnit = x: int | 0 <= x < 0x1_0000

  predicate IsInt32(x: int) {
    -TwoTo31 <= x < TwoTo31
  }

  /** ECMAScript's ToInt32: the signed 32-bit integer congruent to `x` modulo 2^32. */
  function ToInt32(x: int): (r: int)
    ensures IsInt32(r)
    ensures (r - x) % TwoTo32 == 0
  {
    (x + TwoTo31) % TwoTo32 - TwoTo31
  }

  /** ToInt32 depends only on the residue modulo 2^32. */
  lemma ToInt32Congruent(x: int, y: int)
    requires (x - y) % TwoTo32 == 0
    ensures ToInt32(x) == ToInt32(y)
  {
    var a, b := ToInt32(x), ToInt32(y);
    assert (a - b) % TwoTo32 == 0;
    assert -TwoTo32 < a - b < TwoTo32;
  }

  /** A multiple of 2^32 leaves no remainder. */
  lemma MultipleOfTwoTo32(k: int)
    ensures (k * TwoTo32) % TwoTo32 == 0
  {
  }

  /** `x << 5`: shift the 32-bit value of `x` left by five bits, keeping 32 bits. */
  function ShiftLeft5(x: int): (r: int)
    ensures IsInt32(r)
    ensures (r - 32 * x) % TwoTo32 == 0
  {
    ToInt32(ToInt32(x) * 32)
  }

  /** The sum of two multiples of 2^32 is one. */
  lemma SumOfMultiples(a: int, b: int)
    requires a % TwoTo32 == 0 && b % TwoTo32 == 0
    ensures (a + b) % TwoTo32 == 0
  {
    var qa, qb := a / TwoTo32, b / TwoTo32;
    assert a + b == (qa + qb) * TwoTo32;
    MultipleOfTwoTo32(qa + qb);
  }

  /**
   * One iteration of the loop, as written: `hash = ((hash << 5) - hash) + c;
   * hash = hash & hash`. The result is a signed 32-bit integer congruent to
   * `31 * hash + c` modulo 2^32.
   */
  function HashStep(hash: int, c: CodeUnit): (r: int)
    ensures IsInt32(r)
    ensures (r - (31 * hash + c as int)) % TwoTo32 == 0
  {
    var next := ShiftLeft5(hash) - hash + c as int;
    var r := ToInt32(next);   // `next & next` is ToInt32(next)
    SumOfMultiples(r - next, ShiftLeft5(hash) - 32 * hash);
    r
  }

  /** The step is the familiar multiply-by-31 hash step, wrapped to 32 bits. */
  lemma HashStepMultipliesBy31(hash: int, c: CodeUnit)
    ensures HashStep(hash, c) == ToInt32(31 * hash + c as int)
  {
    ToInt32Congruent(ShiftLeft5(hash) - hash + c as int, 31 * hash + c as int);
  }

  /** The value of `hash` after the loop has consumed all of `s`, before `Math.abs`. */
  function HashOf(s: seq<CodeUnit>): (h: int)
    ensures IsInt32(h)
  {
    if s == [] then 0 else HashStep(HashOf(s[..|s| - 1]), s[|s| - 1])
  }

  /** The polynomial the hash approximates: the sum of `s[i] * 31^(|s|-1-i)`, unbounded. */
  function Polynomial(s: seq<CodeUnit>): int {
    if s == [] then 0 else 31 * Polynomial(s[..|s| - 1]) + s[|s| - 1] as int
  }

  /** The wrapped loop computes the polynomial hash modulo 2^32, as a signed 32-bit value. */
  lemma {:induction false} HashOfIsPolynomial(s: seq<CodeUnit>)
    ensures HashOf(s) == ToInt32(Polynomial(s))
  {
    if s != [] {
      var p, c := s[..|s| - 1], s[|s| - 1];
      HashOfIsPolynomial(p);
      HashStepMultipliesBy31(HashOf(p), c);
      var q := (HashOf(p) - Polynomial(p)) / TwoTo32;
      assert HashOf(p) - Polynomial(p) == q * TwoTo32;
      assert (31 * HashOf(p) + c as int) - (31 * Polynomial(p) + c as int) == (31 * q) * TwoTo32;
      MultipleOfTwoTo32(31 * q);
      ToInt32Congruent(31 * HashOf(p) + c as int, 31 * Polynomial(p) + c as int);
    }
  }

  /** `Math.abs` on an integer. */
  function Abs(x: int): (r: nat)
    ensures r == x || r == -x
  {
    if x < 0 then -x else x
  }

  /**
   * `simpleImageHash(str)`: the loop over the code units of `str`, then
   * `Math.abs`. The result depends on `str` alone, lies in [0, 2^31], and is 0
   * for the empty string.
   */
  method SimpleImageHash(str: seq<CodeUnit>) returns (h: int)
    ensures h == Abs(ToInt32(Polynomial(str)))
    ensures 0 <= h <= TwoTo31
    ensures str == [] ==> h == 0
  {
    var hash := 0;
    for i := 0 to |str|
      invariant IsInt32(hash)
      invariant hash == HashOf(str[..i])
    {
      var c := str[i];
      assert str[..i + 1][..i] == str[..i];
      hash := ShiftLeft5(hash) - hash + c as int;
      hash := ToInt32(hash);   // `hash & hash`
    }
    assert str[..|str|] == str;
    HashOfIsPolynomial(str);
    h := Abs(hash);
  }

  /** `(hash % 100) + 10`: the base count the detector starts from. */
  function BaseCount(hash: nat): (r: int)
    ensures 10 <= r <= 109
    ensures (r - 10 - hash) % 100 == 0
  {
    hash % 100 + 10
  }
}
