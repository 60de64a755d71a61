/** User-code generation. A generator is a function of a random draw that the
    caller supplies (the source draws it from a random source); the default
    generator renders the draw as eight upper-case base-36 digits. */
module UserCode {

  /** A user-code generator: maps a random draw to a user code. */
  type Generator = nat -> string

  /** Length of a default user code. */
  const CodeLength: nat := 8

  /** Number of symbols a default user code draws from: A-Z and 0-9. */
  const Radix: nat := 36

  /** A character of the default alphabet, `[A-Z\d]`. */
  predicate IsCodeChar(c: char) {
    ('A' <= c <= 'Z') || ('0' <= c <= '9')
  }

  /** The format the default generator promises: the whole string is eight
      characters of `[A-Z\d]`, that is `\A[A-Z\d]{8}\z`. Any such string also
      matches `^[A-Z\d]{8}$`, whose anchors in Ruby match at line boundaries. */
  predicate IsDefaultFormat(s: string) {
    |s| == CodeLength && forall i :: 0 <= i < |s| ==> IsCodeChar(s[i])
  }

  function Pow(b: nat, e: nat): (r: nat)
    ensures b > 0 ==> r > 0
  {
    if e == 0 then 1 else b * Pow(b, e - 1)
  }

  /** Digit `v` in base 36: 0-9 then A-Z. */
  function Digit(v: nat): (c: char)
    requires v < Radix
    ensures IsCodeChar(c)
  {
    if v < 10 then ('0' as int + v) as char else ('A' as int + (v - 10)) as char
  }

  /** The value of a base-36 digit. */
  function DigitValue(c: char): (v: nat)
    requires IsCodeChar(c)
    ensures v < Radix && Digit(v) == c
  {
    if '0' <= c <= '9' then c as int - '0' as int else c as int - 'A' as int + 10
  }

  /** The last `width` base-36 digits of `n`, most significant first,
      padded with '0' on the left. */
  function ToBase36(n: nat, width: nat): (r: string)
    ensures |r| == width
    ensures forall i :: 0 <= i < |r| ==> IsCodeChar(r[i])
    decreases width
  {
    if width == 0 then "" else ToBase36(n / Radix, width - 1) + [Digit(n % Radix)]
  }

  /** The number a string of base-36 digits denotes. */
  function FromBase36(s: string): (n: nat)
    requires forall i :: 0 <= i < |s| ==> IsCodeChar(s[i])
    ensures n < Pow(Radix, |s|)
    decreases |s|
  {
    if |s| == 0 then 0
    else
      var hi := FromBase36(s[..|s| - 1]);
      var lo := DigitValue(s[|s| - 1]);
      assert hi * Radix + lo < Pow(Radix, |s|) by {
        assert hi + 1 <= Pow(Radix, |s| - 1);
        assert (hi + 1) * Radix <= Pow(Radix, |s| - 1) * Radix;
      }
      hi * Radix + lo
  }

  /** The default generator: eight base-36 digits of the draw. */
  function DefaultGenerator(draw: nat): (code: string)
    ensures IsDefaultFormat(code)
  {
    ToBase36(draw, CodeLength)
  }

  /** A generator that always answers the same code. */
  function FixedGenerator(code: string): (g: Generator)
    ensures forall draw :: g(draw) == code
  {
    _ => code
  }

  /** Rendering the value of a digit string at its own width gives the
      string back. */
  lemma {:induction false} ToBase36OfFromBase36(s: string)
    requires forall i :: 0 <= i < |s| ==> IsCodeChar(s[i])
    ensures ToBase36(FromBase36(s), |s|) == s
    decreases |s|
  {
    if |s| > 0 {
      var init := s[..|s| - 1];
      var hi := FromBase36(init);
      var lo := DigitValue(s[|s| - 1]);
      var n := hi * Radix + lo;
      assert n / Radix == hi && n % Radix == lo;
      ToBase36OfFromBase36(init);
      assert s == init + [s[|s| - 1]];
    }
  }

  /** The codes the default generator can produce are exactly the strings of
      the whole-string format `\A[A-Z\d]{8}\z`, each one reached by a draw
      below 36^8. */
  lemma DefaultGeneratorRange(s: string)
    ensures IsDefaultFormat(s) <==>
            exists draw: nat :: draw < Pow(Radix, CodeLength) && DefaultGenerator(draw) == s
  {
    if IsDefaultFormat(s) {
      ToBase36OfFromBase36(s);
      var draw := FromBase36(s);
      assert draw < Pow(Radix, CodeLength) && DefaultGenerator(draw) == s;
    }
  }
}
