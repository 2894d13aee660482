/** Callback ids are minted as `new Date().getTime().toString()`: the wall-clock
    time in milliseconds, written in decimal. Two listeners added in the same
    millisecond get the same id. */
module CallbackIds {
  import opened Definitions

  function Digit(d: nat): (c: char)
    requires d < 10
    ensures '0' <= c <= '9'
  {
    (('0' as int) + d) as char
  }

  function DigitValue(c: char): (d: nat)
    requires '0' <= c <= '9'
    ensures d < 10 && Digit(d) == c
  {
    (c as int) - ('0' as int)
  }

  predicate IsDigits(s: string)
  {
    forall i :: 0 <= i < |s| ==> '0' <= s[i] <= '9'
  }

  /** `n.toString()` for a non-negative integer below 10^21, where JavaScript
      writes plain decimal digits with no leading zero. */
  function DecimalString(n: nat): (s: string)
    ensures |s| >= 1 && IsDigits(s)
    ensures (s[0] == '0') <==> n == 0
    ensures n < 10 <==> |s| == 1
    decreases n
  {
    if n < 10 then [Digit(n)] else DecimalString(n / 10) + [Digit(n % 10)]
  }

  /** Reads a string of decimal digits back as a number. */
  function DecimalValue(s: string): nat
    requires IsDigits(s)
  {
    if s == [] then 0 else 10 * DecimalValue(s[..|s| - 1]) + DigitValue(s[|s| - 1])
  }

  /** Reading back the decimal form of `n` gives `n`. */
  lemma {:induction false} DecimalRoundTrip(n: nat)
    ensures DecimalValue(DecimalString(n)) == n
    decreases n
  {
    var s := DecimalString(n);
    if n < 10 {
      assert s[..0] == [];
    } else {
      DecimalRoundTrip(n / 10);
      assert s[..|s| - 1] == DecimalString(n / 10);
      assert DigitValue(s[|s| - 1]) == n % 10;
    }
  }

  /** The id minted at time `now` (milliseconds since the epoch). */
  function TimeToId(now: nat): (id: CallbackId)
    ensures |id| >= 1 && IsDigits(id)
  {
    DecimalString(now)
  }

  /** Two ids coincide exactly when they were minted in the same millisecond. */
  lemma IdsCollideIffSameTime(a: nat, b: nat)
    ensures TimeToId(a) == TimeToId(b) <==> a == b
  {
    if TimeToId(a) == TimeToId(b) {
      DecimalRoundTrip(a);
      DecimalRoundTrip(b);
    }
  }
}
