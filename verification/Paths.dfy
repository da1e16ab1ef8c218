/** The rolling hash and the directory-to-key sanitizer. */
module Paths {
  import opened ParentGraph  // Reverse

  const MAX_SANITIZED_LENGTH: nat := 200

  const TWO_31: int := 0x8000_0000
  const TWO_32: int := 0x1_0000_0000

  // ---------------------------------------------------------------------
  // Reference definitions.
  // ---------------------------------------------------------------------

  /** The characters as the coefficients of a polynomial in 31. */
  function Polynomial(s: string): int {
    if s == "" then 0 else 31 * Polynomial(s[..|s| - 1]) + s[|s| - 1] as int
  }

  /** The representative of `n` modulo 2^32 in the signed 32-bit range. */
  function Signed32(n: int): (r: int)
    ensures -TWO_31 <= r < TWO_31
    ensures (n - r) % TWO_32 == 0
  {
    var r := n % TWO_32;
    if r >= TWO_31 then r - TWO_32 else r
  }

  function Abs(n: int): nat { if n < 0 then -n else n }

  /** The digits 0 to 9, then a to z. */
  function Base36Char(d: nat): char
    requires d < 36
  {
    if d < 10 then '0' + d as char else 'a' + (d - 10) as char
  }

  /** Base-36 numeral of `n`, most significant digit first. */
  function Base36(n: nat): (s: string)
    ensures s != ""
  {
    if n < 36 then [Base36Char(n)] else Base36(n / 36) + [Base36Char(n % 36)]
  }

  function HashText(s: string): string {
    Base36(Abs(Signed32(Polynomial(s))))
  }

  // ---------------------------------------------------------------------
  // Base-36 numerals.
  // ---------------------------------------------------------------------

  predicate IsBase36Digit(c: char) { '0' <= c <= '9' || 'a' <= c <= 'z' }

  function Base36Digit(c: char): nat
    requires IsBase36Digit(c)
  {
    if c <= '9' then (c - '0') as nat else 10 + (c - 'a') as nat
  }

  function Base36Value(s: string): nat
    requires forall k :: 0 <= k < |s| ==> IsBase36Digit(s[k])
  {
    if s == "" then 0 else 36 * Base36Value(s[..|s| - 1]) + Base36Digit(s[|s| - 1])
  }

  /** The numeral reads back as the number, and has no leading zero. */
  lemma {:induction false} Base36Numeral(n: nat)
    ensures forall k :: 0 <= k < |Base36(n)| ==> IsBase36Digit(Base36(n)[k])
    ensures Base36Value(Base36(n)) == n
    ensures n > 0 ==> Base36(n)[0] != '0'
  {
    if n < 36 {
      assert Base36(n)[..0] == "";
    } else {
      Base36Numeral(n / 36);
      assert Base36(n)[..|Base36(n)| - 1] == Base36(n / 36);
    }
  }

  ghost function Pow36(k: nat): nat { if k == 0 then 1 else 36 * Pow36(k - 1) }

  lemma {:induction false} Base36Width(n: nat, k: nat)
    requires n < Pow36(k + 1)
    ensures |Base36(n)| <= k + 1
  {
    if k > 0 && n >= 36 {
      Base36Width(n / 36, k - 1);
    }
  }

  lemma HashWidth(s: string)
    ensures |HashText(s)| <= 6
  {
    assert Pow36(2) == 36 * Pow36(1) && Pow36(1) == 36 * Pow36(0);
    assert Pow36(4) == 36 * Pow36(3) && Pow36(3) == 36 * Pow36(2);
    assert Pow36(6) == 36 * Pow36(5) && Pow36(5) == 36 * Pow36(4);
    Base36Width(Abs(Signed32(Polynomial(s))), 5);
  }

  /** The hash text is the base-36 form, without leading zero and in at most
      six digits, of the absolute value of the polynomial's signed residue. */
  lemma HashMeaning(s: string) returns (residue: int)
    ensures -TWO_31 <= residue < TWO_31 && (Polynomial(s) - residue) % TWO_32 == 0
    ensures forall k :: 0 <= k < |HashText(s)| ==> IsBase36Digit(HashText(s)[k])
    ensures Base36Value(HashText(s)) == Abs(residue)
    ensures residue != 0 ==> HashText(s)[0] != '0'
    ensures 1 <= |HashText(s)| <= 6
  {
    residue := Signed32(Polynomial(s));
    Base36Numeral(Abs(residue));
    HashWidth(s);
  }

  // ---------------------------------------------------------------------
  // The hash.
  // ---------------------------------------------------------------------

  /** One step of the rolling hash wraps exactly like the polynomial. */
  lemma RollingStep(p: int, c: int)
    ensures Signed32(32 * Signed32(p) - Signed32(p) + c) == Signed32(31 * p + c)
  {
    var h := Signed32(p);
    var k := (p - h) / TWO_32;
    assert p == h + k * TWO_32;
    assert 31 * p + c == 31 * h + c + 31 * k * TWO_32;
    assert (31 * h + c + 31 * k * TWO_32) % TWO_32 == (31 * h + c) % TWO_32;
  }

  method SimpleHash(s: string) returns (text: string)
    ensures text == HashText(s)
  {
    var hash: int := 0;
    for i := 0 to |s|
      invariant hash == Signed32(Polynomial(s[..i]))
    {
      assert s[..i + 1][..i] == s[..i];
      RollingStep(Polynomial(s[..i]), s[i] as int);
      hash := hash * 32 - hash + s[i] as int;
      hash := hash % TWO_32;
      if hash >= TWO_31 {
        hash := hash - TWO_32;
      }
    }
    assert s[..|s|] == s;
    text := ToBase36(Abs(hash));
  }

  method ToBase36(value: nat) returns (text: string)
    ensures text == Base36(value)
  {
    var n: nat := value;
    if n == 0 {
      return "0";
    }
    var digits := "";
    while n > 0
      invariant Base36(value) == if n == 0 then Reverse(digits) else Base36(n) + Reverse(digits)
    {
      ReverseSnoc(digits, Base36Char(n % 36));
      digits := digits + [Base36Char(n % 36)];
      n := n / 36;
    }
    text := Reverse(digits);
  }

  lemma ReverseSnoc<T>(s: seq<T>, x: T)
    ensures Reverse(s + [x]) == [x] + Reverse(s)
  {
  }

  // ---------------------------------------------------------------------
  // The sanitizer.
  // ---------------------------------------------------------------------

  predicate IsAlphanumeric(c: char) {
    '0' <= c <= '9' || 'a' <= c <= 'z' || 'A' <= c <= 'Z'
  }

  function SanitizePath(name: string): string {
    var sanitized := seq(|name|, k requires 0 <= k < |name| => if IsAlphanumeric(name[k]) then name[k] else '-');
    if |sanitized| <= MAX_SANITIZED_LENGTH then sanitized
    else sanitized[..MAX_SANITIZED_LENGTH] + "-" + HashText(name)
  }

  /** Letters and digits stay themselves and everything else becomes a dash. */
  ghost predicate Becomes(c: char, d: char) {
    d == if '0' <= c <= '9' || 'A' <= c <= 'Z' || 'a' <= c <= 'z' then c else '-'
  }

  /** A key is the name with dashes for all but its letters and digits; a name
      of more than 200 characters is cut there, and its hash follows after one
      more dash. So keys are made of letters, digits and dashes, are at most 207
      characters long, and are longer than 200 exactly when the name is. */
  lemma SanitizedKey(name: string)
    ensures var key := SanitizePath(name);
            && (forall k :: 0 <= k < |name| && k < 200 ==> k < |key| && Becomes(name[k], key[k]))
            && (if |name| <= 200 then |key| == |name| else |key| > 201 && key[200..] == "-" + HashText(name))
            && (forall k :: 0 <= k < |key| ==> Becomes(key[k], key[k]))
            && '/' !in key
            && |key| <= 207
  {
    var key := SanitizePath(name);
    HashWidth(name);
    Base36Numeral(Abs(Signed32(Polynomial(name))));
    if |name| > 200 {
      assert key[200..] == "-" + HashText(name);
      forall k | 0 <= k < |key| ensures Becomes(key[k], key[k]) {
        if k >= 200 { assert key[k] == key[200..][k - 200]; }
      }
    }
  }

  /** A truncated key carries the hash of the whole name: keys of names with
      different hashes differ, whatever their first 200 characters. */
  lemma TruncatedKeysKeepTheHash(a: string, b: string)
    requires |a| > MAX_SANITIZED_LENGTH && |b| > MAX_SANITIZED_LENGTH
    requires SanitizePath(a) == SanitizePath(b)
    ensures Abs(Signed32(Polynomial(a))) == Abs(Signed32(Polynomial(b)))
  {
    var key := SanitizePath(a);
    assert key[MAX_SANITIZED_LENGTH + 1..] == HashText(a);
    assert SanitizePath(b)[MAX_SANITIZED_LENGTH + 1..] == HashText(b);
    Base36Numeral(Abs(Signed32(Polynomial(a))));
    Base36Numeral(Abs(Signed32(Polynomial(b))));
  }
}
