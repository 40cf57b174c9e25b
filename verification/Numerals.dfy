/** Numbers as text. */
module Numerals {
  import opened Collections

  function Digit(c: char): Option<nat> {
    if '0' <= c <= '9' then Some((c - '0') as nat) else None
  }

  /** `int(text)` for a text of digits */
  function NatOf(s: string): Option<nat> {
    if s == [] then None
    else if |s| == 1 then Digit(s[0])
    else match (NatOf(s[..|s| - 1]), Digit(s[|s| - 1]))
      case (Some(n), Some(d)) => Some(10 * n + d)
      case _ => None
  }

  /** `str(n)` */
  function TextOf(n: nat): string {
    if n < 10 then ['0' + n as char] else TextOf(n / 10) + ['0' + (n % 10) as char]
  }

  lemma {:induction false} NumberRoundTrip(n: nat)
    ensures NatOf(TextOf(n)) == Some(n)
  {
    if n >= 10 {
      NumberRoundTrip(n / 10);
      var s := TextOf(n);
      assert s[..|s| - 1] == TextOf(n / 10);
    }
  }
}
