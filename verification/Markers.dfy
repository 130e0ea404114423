/** Numbers in decimal, and the markers that say how long a text was. */
module Markers {
  import opened Prelude

  function Decimal(n: nat): (s: string)
    ensures |s| >= 1
  {
    var digit := ['0' + (n % 10) as char];
    if n < 10 then digit else Decimal(n / 10) + digit
  }

  lemma {:induction false} DecimalLength(n: nat, k: nat)
    requires k >= 1
    ensures |Decimal(n)| <= k <==> n < Pow10(k)
  {
    if k == 1 {
      assert Pow10(1) == 10;
    } else if n >= 10 {
      DecimalLength(n / 10, k - 1);
    } else {
      Pow10Grows(k);
    }
  }

  lemma {:induction false} Pow10Grows(k: nat)
    requires k >= 1
    ensures Pow10(k) >= 10
  {
    if k == 1 { assert Pow10(0) == 1; } else { Pow10Grows(k - 1); }
  }

  predicate AllDigits(s: string) {
    forall i :: 0 <= i < |s| ==> '0' <= s[i] <= '9'
  }

  /** The number that the digits spell. */
  function Value(s: string): nat
    requires AllDigits(s)
  {
    if s == "" then 0
    else 10 * Value(s[..|s| - 1]) + (s[|s| - 1] as int - '0' as int)
  }

  /** The digits of `n`, without leading zeros. */
  predicate Spells(s: string, n: nat) {
    s != "" && AllDigits(s) && (|s| > 1 ==> s[0] != '0') && Value(s) == n
  }

  /** A number reads back as itself. */
  lemma {:induction false} DecimalReads(n: nat)
    ensures Spells(Decimal(n), n)
  {
    var s := Decimal(n);
    var digit := ['0' + (n % 10) as char];
    if n < 10 {
      assert s == digit && s[..0] == "";
    } else {
      DecimalReads(n / 10);
      var front := Decimal(n / 10);
      assert s == front + digit && s[..|s| - 1] == front;
      if |front| == 1 {
        assert front[..0] == "" && Value(front) == front[0] as int - '0' as int;
      }
    }
  }

  function OmittedMarker(n: nat): (s: string)
    ensures |s| == 25 + |Decimal(n)|
  {
    "[omitted message, " + Decimal(n) + " chars]"
  }

  function CutMarker(n: nat): (s: string)
    ensures |s| == 24 + |Decimal(n)|
  {
    "\n[... truncated, " + Decimal(n) + " chars]"
  }

  /** A marker that says `n` between these words. */
  ghost predicate Marks(marker: string, before: string, n: nat, after: string) {
    exists digits :: Spells(digits, n) && marker == before + digits + after
  }

  lemma MarkersSayLength(n: nat)
    ensures Marks(OmittedMarker(n), "[omitted message, ", n, " chars]")
    ensures Marks(CutMarker(n), "\n[... truncated, ", n, " chars]")
  {
    DecimalReads(n);
  }
}
