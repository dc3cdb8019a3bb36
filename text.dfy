/**
  Decimal rendering of natural numbers, as Rust's `{}` formatting of an
  unsigned integer writes it, with the parser that inverts it.
 */
module Text {

  predicate IsDigit(c: char) { '0' <= c <= '9' }

  predicate AllDigits(s: string) { forall i :: 0 <= i < |s| ==> IsDigit(s[i]) }

  function DigitChar(d: nat): (c: char)
    requires d < 10
    ensures IsDigit(c) && (c as int) - ('0' as int) == d
  {
    ('0' as int + d) as char
  }

  /** The decimal digits of `n`, most significant first, without leading
      zeros. */
  function NatToString(n: nat): (s: string)
    ensures 0 < |s| && AllDigits(s)
    ensures |s| > 1 ==> s[0] != '0'
    decreases n
  {
    if n < 10 then [DigitChar(n)] else NatToString(n / 10) + [DigitChar(n % 10)]
  }

  /** The value of a string of decimal digits. */
  function ParseNat(s: string): nat
    requires AllDigits(s)
    decreases |s|
  {
    if s == [] then 0 else ParseNat(s[..|s| - 1]) * 10 + ((s[|s| - 1] as int) - ('0' as int))
  }

  /** Rendering then parsing gives the number back, so distinct numbers
      render to distinct strings. */
  lemma {:induction false} ParseNatToString(n: nat)
    ensures ParseNat(NatToString(n)) == n
    decreases n
  {
    if n >= 10 {
      ParseNatToString(n / 10);
      var s := NatToString(n);
      assert s[..|s| - 1] == NatToString(n / 10);
    }
  }

  /** The background image of level `n` (`get_background_path` of the game
      and of the editor): `assets/background<n>.png`. */
  function BackgroundPath(n: nat): (p: string)
    ensures |p| > 21 && p[..17] == "assets/background" && p[|p| - 4..] == ".png"
    ensures AllDigits(p[17..|p| - 4]) && ParseNat(p[17..|p| - 4]) == n
  {
    ParseNatToString(n);
    var digits := NatToString(n);
    var p := "assets/background" + digits + ".png";
    assert p[17..|p| - 4] == digits;
    p
  }
}
