/** One-time codes of an authenticator: Verify in pkg/platform/authcrypto/crypto.go:73-105.
    How a secret is decoded and the HMAC of a key and a step are parameters. */
module Totp {
  import opened Common

  const STEP_SECONDS := 30

  predicate WellFormed(code: string) {
    |code| == 6 && forall i :: 0 <= i < 6 ==> '0' <= code[i] <= '9'
  }

  /** The steps tried at `now`, in Unix seconds, in the order they are tried. */
  function Candidates(now: int): seq<int> {
    var current := TruncDiv(now, STEP_SECONDS);
    [current, current - 1, current + 1]
  }

  /** An HMAC-SHA-1: twenty bytes. */
  type Digest = d: seq<nat> | |d| == 20 && forall i :: 0 <= i < 20 ==> d[i] < 256 witness seq(20, _ => 0)

  /** The dynamic truncation of section 5.3 of RFC 4226: four bytes at the offset that the
      last four bits give, without the top bit. */
  function Truncated(d: Digest): nat {
    var o := d[19] % 16;
    (d[o] * 0x100_0000 + d[o + 1] * 0x1_0000 + d[o + 2] * 0x100 + d[o + 3]) % 0x8000_0000
  }

  function Digit(n: nat): char {
    '0' + (n % 10) as char
  }

  /** The last n decimal digits of a number, zero-padded. */
  function Decimal(value: nat, n: nat): string {
    if n == 0 then "" else Decimal(value / 10, n - 1) + [Digit(value)]
  }

  predicate Digits(s: string) {
    forall i :: 0 <= i < |s| ==> '0' <= s[i] <= '9'
  }

  function Number(s: string): nat
    requires Digits(s)
  {
    if s == "" then 0 else 10 * Number(s[..|s| - 1]) + (s[|s| - 1] - '0') as int
  }

  function Code(d: Digest): string {
    Decimal(Truncated(d), 6)
  }

  /** Decimal digits and numbers determine each other. */
  lemma {:induction false} DecimalRoundTrip(value: nat, n: nat)
    ensures |Decimal(value, n)| == n && Digits(Decimal(value, n))
    ensures Number(Decimal(value, n)) == value % Pow10(n)
  {
    if n > 0 {
      DecimalRoundTrip(value / 10, n - 1);
      var s := Decimal(value, n);
      assert s[..|s| - 1] == Decimal(value / 10, n - 1);
      LastDigit(value, Pow10(n - 1));
    }
  }

  function Pow10(n: nat): (r: nat)
    ensures r > 0
  {
    if n == 0 then 1 else 10 * Pow10(n - 1)
  }

  lemma LastDigit(value: nat, m: nat)
    requires m > 0
    ensures 10 * (value / 10 % m) + value % 10 == value % (10 * m)
  {
    var q, r := value / 10 / m, value / 10 % m;
    assert value / 10 == q * m + r;
    assert value == q * (10 * m) + (10 * r + value % 10);
    assert 10 * r + value % 10 < 10 * m;
    Remainder(value, q, 10 * r + value % 10, 10 * m);
  }

  lemma Remainder(value: nat, q: nat, r: nat, m: nat)
    requires r < m && value == q * m + r
    ensures value % m == r
  {
    var d := value / m - q;
    assert d * m == r - value % m by {
      Distributes(value / m, q, m);
    }
    if d >= 1 {
      AtLeastOnce(d, m);
    } else if d <= -1 {
      AtLeastOnce(-d, m);
      Distributes(0, d, m);
    }
  }

  lemma Distributes(a: int, b: int, m: int)
    ensures (a - b) * m == a * m - b * m
  {
  }

  lemma AtLeastOnce(d: nat, m: nat)
    requires d >= 1
    ensures d * m >= m
  {
  }

  lemma {:induction false} NumberIsInjective(s: string, t: string)
    requires Digits(s) && Digits(t) && |s| == |t| && Number(s) == Number(t)
    ensures s == t
  {
    if s != "" {
      var n := |s| - 1;
      NumberIsInjective(s[..n], t[..n]);
      assert s == s[..n] + [s[n]] && t == t[..n] + [t[n]];
    }
  }

  /** A code is always six digits, and a well-formed code is that of a digest exactly when
      it spells the truncated value modulo a million. */
  lemma CodeSpellsTruncatedValue(d: Digest, code: string)
    requires WellFormed(code)
    ensures WellFormed(Code(d)) && (code == Code(d) <==> Number(code) == Truncated(d) % 1_000_000)
  {
    DecimalRoundTrip(Truncated(d), 6);
    assert Pow10(6) == 1_000_000;
    if Number(code) == Number(Code(d)) {
      NumberIsInjective(code, Code(d));
    }
  }

  /** The worked example of section 5.4 of RFC 4226. */
  lemma ExampleOfTheStandard(d: Digest)
    requires d == [0x1f, 0x86, 0x98, 0x69, 0x0e, 0x02, 0xca, 0x16, 0x61, 0x85,
                   0x50, 0xef, 0x7f, 0x19, 0xda, 0x8e, 0x94, 0x5b, 0x55, 0x5a]
    ensures Truncated(d) == 0x50ef7f19
  {
    assert d[10] == 0x50 && d[11] == 0xef && d[12] == 0x7f && d[13] == 0x19 && d[19] % 16 == 10;
  }

  predicate Matches<K(!new)>(hmac: (K, nat) -> Digest, key: K, code: string, last: int, step: int) {
    step > last && step >= 0 && Code(hmac(key, step)) == code
  }

  /** The accepted step is the first of the candidates that is later than the last one
      accepted and has this code; without such a candidate the code is refused. */
  method Verify<K(!new)>(decode: string -> Option<K>, hmac: (K, nat) -> Digest,
                         secret: string, code: string, now: int, last: int)
    returns (accepted: Option<int>)
    ensures accepted.Some? ==>
              && WellFormed(code) && decode(secret).Some?
              && exists i :: 0 <= i < 3 && Candidates(now)[i] == accepted.value
                   && Matches(hmac, decode(secret).value, code, last, accepted.value)
                   && forall j :: 0 <= j < i ==> !Matches(hmac, decode(secret).value, code, last, Candidates(now)[j])
    ensures accepted.None? ==>
              || !WellFormed(code) || decode(secret).None?
              || forall i :: 0 <= i < 3 ==> !Matches(hmac, decode(secret).value, code, last, Candidates(now)[i])
  {
    if |code| != 6 {
      return None;
    }
    for i := 0 to |code|
      invariant forall j :: 0 <= j < i ==> '0' <= code[j] <= '9'
    {
      if code[i] < '0' || code[i] > '9' {
        return None;
      }
    }
    var decoded := decode(secret);
    if decoded.None? {
      return None;
    }
    var current := TruncDiv(now, STEP_SECONDS);
    var offsets := [0, -1, 1];
    for i := 0 to 3
      invariant forall j :: 0 <= j < i ==> !Matches(hmac, decoded.value, code, last, Candidates(now)[j])
    {
      var step := current + offsets[i];
      assert step == Candidates(now)[i];
      if step <= last || step < 0 {
        continue;
      }
      var expected := Decimal(Truncated(hmac(decoded.value, step)), 6);
      if expected == code {
        return Some(step);
      }
    }
    return None;
  }

  /** A step is a candidate from the beginning of the step before it to the end of the
      step after it. Around the epoch, where division truncates toward zero, the first two
      steps are candidates earlier than that. */
  lemma CandidateWindow(now: int, step: nat)
    ensures step in Candidates(now) <==>
              && (if step >= 2 then STEP_SECONDS * (step - 1) <= now else STEP_SECONDS * (step - 2) < now)
              && now < STEP_SECONDS * (step + 2)
  {
  }
}
