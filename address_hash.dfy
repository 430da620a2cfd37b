/** The address hash (content.js, `generateAddressHash`): the three fields
    lower-cased, trimmed and joined by "_", a 32-bit signed rolling hash
    over the UTF-16 code units of that string, and the absolute value of
    the hash written in base 36. */
module Hashing {
  import opened JsText
  import opened Extraction

  const TwoTo31: int := 0x8000_0000
  const TwoTo32: int := 0x1_0000_0000

  predicate IsInt32(x: int) {
    -TwoTo31 <= x < TwoTo31
  }

  /** ECMAScript's ToInt32: `x` modulo 2^32, read as a signed 32-bit
      integer. */
  function ToInt32(x: int): (r: int)
    ensures IsInt32(r)
    ensures (x - r) % TwoTo32 == 0
    ensures IsInt32(x) ==> r == x
  {
    (x + TwoTo31) % TwoTo32 - TwoTo31
  }

  /** `h << 5` on a number: both the operand and the result wrap to 32 bits. */
  function ShiftLeft5(h: int): int {
    ToInt32(ToInt32(h) * 32)
  }

  /** One round of the loop: `hash = ((hash << 5) - hash) + char` computed
      on exact numbers (they stay far below 2^53), then `hash & hash`,
      which is ToInt32 of that value. */
  function HashStep(h: int, c: int): int {
    ToInt32(ShiftLeft5(h) - h + c)
  }

  /** The hash after the loop has consumed `units`. */
  function HashOfUnits(units: seq<int>): int {
    if units == [] then 0
    else HashStep(HashOfUnits(units[..|units| - 1]), units[|units| - 1])
  }

  /** `s.toLowerCase().trim()`. */
  function Normalize(field: string): string {
    Trim(Lower(field))
  }

  /** `${street}_${houseNum}_${city}` over the normalised fields. */
  function AddressString(a: Address): string {
    Normalize(a.street) + "_" + Normalize(a.houseNum) + "_" + Normalize(a.city)
  }

  /** `Math.abs`; on -2^31 it gives 2^31, which no int32 holds. */
  function Abs(h: int): nat {
    if h < 0 then -h else h
  }

  predicate IsBase36Digit(c: char) {
    '0' <= c <= '9' || 'a' <= c <= 'z'
  }

  predicate AllBase36(s: string) {
    forall i :: 0 <= i < |s| ==> IsBase36Digit(s[i])
  }

  function DigitChar(d: nat): (c: char)
    requires d < 36
  {
    if d < 10 then ('0' as int + d) as char else ('a' as int + d - 10) as char
  }

  function DigitValue(c: char): nat
    requires IsBase36Digit(c)
  {
    if c <= '9' then c as int - '0' as int else c as int - 'a' as int + 10
  }

  /** `n.toString(36)` for a non-negative integer. */
  function ToBase36(n: nat): string
    decreases n
  {
    if n < 36 then [DigitChar(n)] else ToBase36(n / 36) + [DigitChar(n % 36)]
  }

  /** The value of a string of base-36 digits. */
  function FromBase36(s: string): nat
    requires AllBase36(s)
  {
    if s == [] then 0 else FromBase36(s[..|s| - 1]) * 36 + DigitValue(s[|s| - 1])
  }

  /** The hash string the content script uses for an address. */
  function AddressHash(a: Address): string {
    ToBase36(Abs(HashOfUnits(CodeUnits(AddressString(a)))))
  }

  /** The loop of `generateAddressHash` over a string's code units. */
  method RollingHash(units: seq<int>) returns (hash: int)
    ensures hash == HashOfUnits(units)
    ensures IsInt32(hash)
  {
    hash := 0;
    var i := 0;
    while i < |units|
      invariant 0 <= i <= |units|
      invariant IsInt32(hash)
      invariant hash == HashOfUnits(units[..i])
    {
      var c := units[i];
      HashOfPrefix(units, i);
      hash := ShiftLeft5(hash) - hash + c;
      hash := ToInt32(hash);
      i := i + 1;
    }
    assert units[..|units|] == units;
  }

  /** `generateAddressHash`: the rolling hash of the joined, normalised
      fields, written in base 36. The result is a non-empty string of
      digits 0-9 and a-z, with no sign, whose base-36 value is at most
      2^31. */
  method GenerateAddressHash(a: Address) returns (r: string)
    ensures r == AddressHash(a)
    ensures r != [] && AllBase36(r)
    ensures FromBase36(r) == Abs(HashOfUnits(CodeUnits(AddressString(a)))) <= TwoTo31
  {
    var addressString := AddressString(a);
    var hash := RollingHash(CodeUnits(addressString));
    r := ToBase36(Abs(hash));
    AddressHashSpec(a);
  }

  // ---------------------------------------------------------------- lemmas

  /** The hash string is digits only, reads back as the absolute value of
      the hash, and that value is at most 2^31. */
  lemma AddressHashSpec(a: Address)
    ensures var h := HashOfUnits(CodeUnits(AddressString(a)));
      && AddressHash(a) != [] && AllBase36(AddressHash(a))
      && FromBase36(AddressHash(a)) == Abs(h) <= TwoTo31
  {
    var h := HashOfUnits(CodeUnits(AddressString(a)));
    assert IsInt32(h);
    Base36RoundTrip(Abs(h));
  }

  /** One more code unit is one more step. */
  lemma HashOfPrefix(units: seq<int>, i: nat)
    requires i < |units|
    ensures HashOfUnits(units[..i + 1]) == HashStep(HashOfUnits(units[..i]), units[i])
  {
    assert units[..i + 1][..i] == units[..i];
  }

  /** Numbers equal modulo 2^32 have the same ToInt32. */
  lemma ToInt32Congruent(x: int, y: int)
    requires (x - y) % TwoTo32 == 0
    ensures ToInt32(x) == ToInt32(y)
  {
    var k := (x - y) / TwoTo32;
    assert x + TwoTo31 == (y + TwoTo31) + k * TwoTo32;
  }

  /** Each step computes the signed 32-bit wrap of 31·h + c. */
  lemma HashStepWraps31(h: int, c: int)
    requires IsInt32(h)
    ensures HashStep(h, c) == ToInt32(31 * h + c)
  {
    var s := ShiftLeft5(h);
    assert (32 * h - s) % TwoTo32 == 0;
    assert (s - h + c) - (31 * h + c) == s - 32 * h;
    ToInt32Congruent(s - h + c, 31 * h + c);
  }

  /** Σ c_i · 31^(n-1-i): the hash without the wrap-around. */
  function Polynomial(units: seq<int>): int {
    if units == [] then 0 else 31 * Polynomial(units[..|units| - 1]) + units[|units| - 1]
  }

  /** Adding a multiple of 2^32 does not change ToInt32. */
  lemma ToInt32Shift(y: int, m: int)
    ensures ToInt32(y + m * TwoTo32) == ToInt32(y)
  {
    ToInt32Congruent(y + m * TwoTo32, y);
  }

  /** A step from a hash congruent to `p` gives the wrap of `31·p + c`. */
  lemma StepFromCongruent(h: int, p: int, c: int)
    requires IsInt32(h) && (p - h) % TwoTo32 == 0
    ensures HashStep(h, c) == ToInt32(31 * p + c)
  {
    HashStepWraps31(h, c);
    var k := (p - h) / TwoTo32;
    assert p == h + k * TwoTo32;
    var m := 31 * k;
    assert 31 * p + c == (31 * h + c) + m * TwoTo32;
    ToInt32Shift(31 * h + c, m);
  }

  /** The rolling hash is the polynomial hash reduced to a signed 32-bit
      integer: the wrap-around at each step loses nothing but the
      multiples of 2^32. */
  lemma {:induction false} HashIsWrappedPolynomial(units: seq<int>)
    ensures HashOfUnits(units) == ToInt32(Polynomial(units))
  {
    if units != [] {
      var front := units[..|units| - 1];
      var c := units[|units| - 1];
      HashIsWrappedPolynomial(front);
      StepFromCongruent(HashOfUnits(front), Polynomial(front), c);
    }
  }

  /** Base 36 round trip: the rendering is digits only and reads back as
      the number. */
  lemma {:induction false} Base36RoundTrip(n: nat)
    ensures ToBase36(n) != [] && AllBase36(ToBase36(n))
    ensures FromBase36(ToBase36(n)) == n
    decreases n
  {
    if n >= 36 {
      Base36RoundTrip(n / 36);
      var s := ToBase36(n);
      assert s[..|s| - 1] == ToBase36(n / 36);
    }
  }

  /** The rendering has no leading zero, except for 0 itself. */
  lemma {:induction false} Base36NoLeadingZero(n: nat)
    ensures ToBase36(n)[0] == '0' <==> n == 0
    decreases n
  {
    if n >= 36 {
      Base36NoLeadingZero(n / 36);
    }
  }

  /** Two strings that differ only in the case of ASCII letters. */
  predicate CaseVariant(s: string, t: string) {
    |s| == |t| && forall i :: 0 <= i < |s| ==> LowerChar(s[i]) == LowerChar(t[i])
  }

  /** A field typed in another case and padded with white space
      normalises to the same text. */
  lemma NormalizeIgnoresCaseAndPadding(field: string, w1: string, variant: string, w2: string)
    requires AllSpace(w1) && AllSpace(w2) && CaseVariant(field, variant)
    ensures Normalize(w1 + variant + w2) == Normalize(field)
  {
    LowerConcat(w1 + variant, w2);
    LowerConcat(w1, variant);
    LowerSpace(w1);
    LowerSpace(w2);
    assert Lower(variant) == Lower(field);
    assert AllSpace(Lower(w1)) && AllSpace(Lower(w2));
    TrimIgnoresPadding(w1, Lower(field), w2);
  }

  /** The hash reads only the normalised street, house number and city:
      not the anchor, not case, not surrounding white space. */
  lemma HashDependsOnNormalizedFields(a: Address, b: Address)
    requires Normalize(a.street) == Normalize(b.street)
    requires Normalize(a.houseNum) == Normalize(b.houseNum)
    requires Normalize(a.city) == Normalize(b.city)
    ensures AddressHash(a) == AddressHash(b)
  {
  }

  /** How a field was typed: white space, a case variant of the field,
      white space. */
  datatype Typing = Typing(before: string, variant: string, after: string)

  predicate TypedAs(field: string, typed: string, t: Typing) {
    typed == t.before + t.variant + t.after
    && AllSpace(t.before) && AllSpace(t.after) && CaseVariant(field, t.variant)
  }

  /** An address whose street, house number and city are typed in another
      case and padded with white space gets the same hash, and so the same
      cache key and node id, wherever it appears on the page. */
  lemma VariantsShareHash(a: Address, b: Address, street: Typing, houseNum: Typing, city: Typing)
    requires TypedAs(a.street, b.street, street)
    requires TypedAs(a.houseNum, b.houseNum, houseNum)
    requires TypedAs(a.city, b.city, city)
    ensures AddressHash(a) == AddressHash(b)
  {
    NormalizeIgnoresCaseAndPadding(a.street, street.before, street.variant, street.after);
    NormalizeIgnoresCaseAndPadding(a.houseNum, houseNum.before, houseNum.variant, houseNum.after);
    NormalizeIgnoresCaseAndPadding(a.city, city.before, city.variant, city.after);
    HashDependsOnNormalizedFields(a, b);
  }
}
