/**
 * One-time passcodes: the six-digit decimal code that the handlers store and
 * mail, the two lifetimes, and the acceptance rule shared by the two
 * consuming handlers.
 */
module Otp {
  /** Lifetime of an account-verification code: 24 hours, in milliseconds. */
  const VerifyOtpLifetime: int := 24 * 60 * 60 * 1000
  /** Lifetime of a password-reset code: 15 minutes, in milliseconds. */
  const ResetOtpLifetime: int := 15 * 60 * 1000

  /** The range `Math.floor(100000 + Math.random() * 900000)` draws from. */
  predicate ValidCode(code: nat) {
    100000 <= code <= 999999
  }

  predicate IsDigit(c: char) {
    '0' <= c <= '9'
  }

  predicate AllDigits(s: string) {
    forall i :: 0 <= i < |s| ==> IsDigit(s[i])
  }

  /** What a stored OTP field may hold: nothing outstanding, or a six-digit code. */
  predicate WellFormedOtp(s: string) {
    s == "" || (|s| == 6 && AllDigits(s))
  }

  function DigitChar(d: nat): (c: char)
    requires d < 10
    ensures IsDigit(c) && c as int - '0' as int == d
  {
    "0123456789"[d]
  }

  /** The decimal rendering of `n`, as JavaScript's `toString` produces it. */
  function Decimal(n: nat): (s: string)
    ensures |s| >= 1 && AllDigits(s)
  {
    if n < 10 then [DigitChar(n)] else Decimal(n / 10) + [DigitChar(n % 10)]
  }

  /** The number a string of decimal digits denotes. */
  function ParseDecimal(s: string): nat
    requires AllDigits(s)
  {
    if s == [] then 0 else 10 * ParseDecimal(s[..|s| - 1]) + (s[|s| - 1] as int - '0' as int)
  }

  lemma {:induction false} ParseDecimalOfDecimal(n: nat)
    ensures ParseDecimal(Decimal(n)) == n
  {
    if n >= 10 {
      var s := Decimal(n);
      assert s[..|s| - 1] == Decimal(n / 10);
      ParseDecimalOfDecimal(n / 10);
    }
  }

  /** Two different codes never render to the same string. */
  lemma DecimalInjective(m: nat, n: nat)
    ensures Decimal(m) == Decimal(n) ==> m == n
  {
    ParseDecimalOfDecimal(m);
    ParseDecimalOfDecimal(n);
  }

  function Pow10(k: nat): (p: nat)
    ensures p >= 1
  {
    if k == 0 then 1 else 10 * Pow10(k - 1)
  }

  /** A number with k + 1 decimal digits renders to k + 1 characters. */
  lemma {:induction false} DecimalLength(n: nat, k: nat)
    requires Pow10(k) <= n < 10 * Pow10(k)
    ensures |Decimal(n)| == k + 1
  {
    if k == 0 {
    } else {
      assert Pow10(k) == 10 * Pow10(k - 1);
      assert Pow10(k - 1) <= n / 10 < 10 * Pow10(k - 1);
      DecimalLength(n / 10, k - 1);
    }
  }

  /** The string a handler stores for a drawn code. */
  function CodeString(code: nat): (s: string)
    requires ValidCode(code)
    ensures s != "" && WellFormedOtp(s)
    ensures ParseDecimal(s) == code
  {
    assert Pow10(5) == 100000;
    DecimalLength(code, 5);
    ParseDecimalOfDecimal(code);
    Decimal(code)
  }

  /**
   * Acceptance rule of `verifyAccount` and `resetPassword`: a code is
   * outstanding, it equals the one supplied, and its expiry is not strictly
   * before the current time.
   */
  predicate Accepts(stored: string, expiry: int, supplied: string, now: int) {
    stored != "" && stored == supplied && !(expiry < now)
  }

  /**
   * An outstanding code is still accepted at its expiry instant and no code
   * is accepted one millisecond after it.
   */
  lemma AcceptsUntilExpiry(stored: string, expiry: int, supplied: string, now: int)
    ensures Accepts(stored, expiry, supplied, now) ==> Accepts(stored, expiry, supplied, expiry)
    ensures !Accepts(stored, expiry, supplied, expiry + 1)
  {
  }
}
