/** `interpret_human_timedelta`: a number of seconds from strings such as "5d",
    "1h", "15m" or "90". The pattern `(\d+)([dhms])?` is matched at the start of the
    string only, so anything after the match is ignored. */
module HumanTimedelta {
  import opened Wrappers

  predicate IsDigit(c: char) {
    '0' <= c <= '9'
  }

  /** Length of the longest run of digits at the start of `s` (the greedy `\d+`). */
  function DigitRun(s: string): (n: nat)
    ensures n <= |s|
    ensures forall i :: 0 <= i < n ==> IsDigit(s[i])
    ensures n < |s| ==> !IsDigit(s[n])
  {
    if s == [] || !IsDigit(s[0]) then 0 else 1 + DigitRun(s[1..])
  }

  /** `int(ds)` for a string of decimal digits. */
  function DecimalValue(ds: string): nat
    requires forall i :: 0 <= i < |ds| ==> IsDigit(ds[i])
  {
    if ds == [] then 0
    else
      assert IsDigit(ds[|ds| - 1]);
      DecimalValue(ds[..|ds| - 1]) * 10 + (ds[|ds| - 1] as int - '0' as int)
  }

  /** Seconds per unit of the optional suffix; none or `s` means seconds. */
  function Multiplier(suffix: Option<char>): nat {
    match suffix
    case Some('d') => 24 * 60 * 60
    case Some('h') => 60 * 60
    case Some('m') => 60
    case _ => 1
  }

  /** Python's `timedelta` holds at most 999999999 days. */
  const MaxTimedeltaDays := 999999999

  /** CPython's default limit on the digits `int()` converts from a string; leading
      zeros count. */
  const MaxIntDigits := 4300

  const TooManyDigits := ValueError("Exceeds the limit (4300 digits) for integer string conversion")

  function ParseDuration(s: string): (r: Result<int>)
    ensures r == Err(ValueError("Invalid timedelta")) <==> s == [] || !IsDigit(s[0])
    ensures r == Err(TooManyDigits) <==> DigitRun(s) > MaxIntDigits
    ensures r.Ok? ==> 0 <= r.value && r.value / 86400 <= MaxTimedeltaDays
  {
    var n := DigitRun(s);
    if n == 0 then Err(ValueError("Invalid timedelta"))
    else if n > MaxIntDigits then Err(TooManyDigits)
    else
      var suffix := if n < |s| && s[n] in "dhms" then Some(s[n]) else None;
      Timedelta(DecimalValue(s[..n]) * Multiplier(suffix))
  }

  /** `timedelta(seconds=...)`, as a number of seconds: OverflowError beyond its
      range of days. */
  function Timedelta(seconds: int): (r: Result<int>)
    ensures r.Ok? <==> seconds / 86400 <= MaxTimedeltaDays
    ensures r.Ok? ==> r.value == seconds
    ensures r.Err? ==> r.error == OverflowError
  {
    if seconds / 86400 > MaxTimedeltaDays then Err(OverflowError) else Ok(seconds)
  }

  /** The decimal spelling of a natural number, the inverse of `DecimalValue`. */
  function Show(n: nat): (ds: string)
    ensures |ds| >= 1
    ensures forall i :: 0 <= i < |ds| ==> IsDigit(ds[i])
  {
    var d := ['0' + (n % 10) as char];
    if n < 10 then d else Show(n / 10) + d
  }

  lemma {:induction false} DecimalValueShow(n: nat)
    ensures DecimalValue(Show(n)) == n
  {
    var ds := Show(n);
    if n >= 10 {
      DecimalValueShow(n / 10);
      assert ds[..|ds| - 1] == Show(n / 10);
    }
  }

  lemma {:induction false} DigitRunAppend(ds: string, rest: string)
    requires forall i :: 0 <= i < |ds| ==> IsDigit(ds[i])
    requires rest == [] || !IsDigit(rest[0])
    ensures DigitRun(ds + rest) == |ds|
  {
    if ds != [] {
      assert (ds + rest)[1..] == ds[1..] + rest;
      DigitRunAppend(ds[1..], rest);
    } else {
      assert ds + rest == rest;
    }
  }

  /** A leading zero does not change the value: `int("007") == 7`. */
  lemma {:induction false} DecimalValueLeadingZero(ds: string)
    requires forall i :: 0 <= i < |ds| ==> IsDigit(ds[i])
    ensures DecimalValue(['0'] + ds) == DecimalValue(ds)
  {
    if ds != [] {
      var zs := ['0'] + ds;
      assert zs[..|zs| - 1] == ['0'] + ds[..|ds| - 1];
      assert zs[|zs| - 1] == ds[|ds| - 1];
      DecimalValueLeadingZero(ds[..|ds| - 1]);
    } else {
      assert (['0'] + ds)[..0] == [];
    }
  }

  /** Any run of digits followed by a unit suffix is that many units, whatever
      follows the suffix, unless it is too long for `int()` or too large for
      `timedelta`. */
  lemma ParseWithSuffix(ds: string, unit: char, rest: string)
    requires |ds| >= 1 && forall i :: 0 <= i < |ds| ==> IsDigit(ds[i])
    requires unit in "dhms"
    ensures |ds| > MaxIntDigits ==> ParseDuration(ds + [unit] + rest) == Err(TooManyDigits)
    ensures |ds| <= MaxIntDigits &&
            DecimalValue(ds) * Multiplier(Some(unit)) / 86400 > MaxTimedeltaDays ==>
              ParseDuration(ds + [unit] + rest) == Err(OverflowError)
    ensures |ds| <= MaxIntDigits &&
            DecimalValue(ds) * Multiplier(Some(unit)) / 86400 <= MaxTimedeltaDays ==>
              ParseDuration(ds + [unit] + rest) == Ok(DecimalValue(ds) * Multiplier(Some(unit)))
  {
    UnitAfter(ds, unit, rest);
    ParseRun(ds + [unit] + rest, ds, Some(unit));
  }

  lemma UnitAfter(ds: string, unit: char, rest: string)
    requires forall i :: 0 <= i < |ds| ==> IsDigit(ds[i])
    requires !IsDigit(unit)
    ensures DigitRun(ds + [unit] + rest) == |ds|
    ensures (ds + [unit] + rest)[..|ds|] == ds && (ds + [unit] + rest)[|ds|] == unit
  {
    var s := ds + [unit] + rest;
    assert s == ds + ([unit] + rest);
    DigitRunAppend(ds, [unit] + rest);
  }

  /** `ParseDuration` once the run of digits and the suffix are known. */
  lemma ParseRun(s: string, ds: string, suffix: Option<char>)
    requires 1 <= |ds| == DigitRun(s) && s[..|ds|] == ds
    requires suffix == if |ds| < |s| && s[|ds|] in "dhms" then Some(s[|ds|]) else None
    ensures ParseDuration(s) ==
      if |ds| > MaxIntDigits then Err(TooManyDigits) else Timedelta(DecimalValue(ds) * Multiplier(suffix))
  {
  }

  /** Any run of digits without a unit suffix is that many seconds, whatever follows
      it, unless it is too long for `int()` or too large for `timedelta`. */
  lemma ParseWithoutSuffix(ds: string, rest: string)
    requires |ds| >= 1 && forall i :: 0 <= i < |ds| ==> IsDigit(ds[i])
    requires rest == [] || (!IsDigit(rest[0]) && rest[0] !in "dhms")
    ensures |ds| > MaxIntDigits ==> ParseDuration(ds + rest) == Err(TooManyDigits)
    ensures |ds| <= MaxIntDigits && DecimalValue(ds) / 86400 > MaxTimedeltaDays ==>
              ParseDuration(ds + rest) == Err(OverflowError)
    ensures |ds| <= MaxIntDigits && DecimalValue(ds) / 86400 <= MaxTimedeltaDays ==>
              ParseDuration(ds + rest) == Ok(DecimalValue(ds))
  {
    var s := ds + rest;
    DigitRunAppend(ds, rest);
    NoUnitAfter(ds, rest);
    var n := DigitRun(s);
    assert n == |ds|;
    assert s[..n] == ds;
    assert !(n < |s| && s[n] in "dhms");
    MulOne(DecimalValue(s[..n]));
  }

  lemma MulOne(v: int)
    ensures v * Multiplier(None) == v
  {
  }

  lemma NoUnitAfter(ds: string, rest: string)
    requires rest == [] || rest[0] !in "dhms"
    ensures !(|ds| < |ds + rest| && (ds + rest)[|ds|] in "dhms")
  {
    if rest != [] {
      assert (ds + rest)[|ds|] == rest[0];
    }
  }

  /** Every number with every unit suffix parses back, whatever follows it. */
  lemma ParseShowWithSuffix(n: nat, unit: char, rest: string)
    requires unit in "dhms"
    requires n * Multiplier(Some(unit)) / 86400 <= MaxTimedeltaDays
    ensures ParseDuration(Show(n) + [unit] + rest) == Ok(n * Multiplier(Some(unit)))
  {
    DecimalValueShow(n);
    ShowFits(n, Multiplier(Some(unit)));
    ParseWithSuffix(Show(n), unit, rest);
  }

  /** Without a unit suffix the number is taken as seconds, whatever follows it. */
  lemma ParseShowWithoutSuffix(n: nat, rest: string)
    requires rest == [] || (!IsDigit(rest[0]) && rest[0] !in "dhms")
    requires n / 86400 <= MaxTimedeltaDays
    ensures ParseDuration(Show(n) + rest) == Ok(n)
  {
    DecimalValueShow(n);
    ShowFits(n, 1);
    ParseWithoutSuffix(Show(n), rest);
  }

  function Pow10(k: nat): nat {
    if k == 0 then 1 else 10 * Pow10(k - 1)
  }

  /** A number below 10^k is spelt with at most k digits. */
  lemma {:induction false} ShowLength(n: nat, k: nat)
    requires k >= 1 && n < Pow10(k)
    ensures |Show(n)| <= k
  {
    if n >= 10 {
      assert k >= 2;
      assert n / 10 < Pow10(k - 1);
      ShowLength(n / 10, k - 1);
    }
  }

  /** A number of units within timedelta's range is spelt within `int()`'s limit. */
  lemma ShowFits(n: nat, m: nat)
    requires m >= 1 && n * m / 86400 <= MaxTimedeltaDays
    ensures |Show(n)| <= MaxIntDigits
  {
    assert n <= n * m;
    assert Pow10(14) == 100000000000000;
    ShowLength(n, 14);
  }

  /** The three values the function's documentation gives. */
  lemma DocumentedValues()
    ensures ParseDuration("5d") == Ok(432000)
    ensures ParseDuration("1h") == Ok(3600)
    ensures ParseDuration("15m") == Ok(900)
  {
    assert DigitRun("5d") == 1 by { assert "5d"[1..] == "d"; }
    assert "5d"[..1] == "5";
    assert DigitRun("1h") == 1 by { assert "1h"[1..] == "h"; }
    assert "1h"[..1] == "1";
    assert DigitRun("15m") == 2 by { assert "15m"[1..] == "5m"; assert "5m"[1..] == "m"; }
    assert "15m"[..2] == "15" && "15"[..1] == "1";
  }

  /** Leading zeros are allowed and do not change the number. */
  lemma LeadingZeros()
    ensures ParseDuration("007d") == Ok(7 * 86400)
  {
    DecimalValueLeadingZero("07");
    DecimalValueLeadingZero("7");
    assert "0" + "07" == "007" && "0" + "7" == "07";
    assert "7"[..0] == "";
    ParseWithSuffix("007", 'd', "");
    assert "007" + ['d'] + "" == "007d";
  }

  /** No suffix means seconds; a second unit after the first is ignored. */
  lemma EdgeCases()
    ensures ParseDuration("90") == Ok(90)
    ensures ParseDuration("1d2h") == Ok(86400)
    ensures ParseDuration("d5") == Err(ValueError("Invalid timedelta"))
  {
    assert DigitRun("90") == 2 by { assert "90"[1..] == "0"; assert "0"[1..] == ""; }
    assert "90"[..2] == "90" && "90"[..1] == "9" && "9"[..0] == "";
    assert DecimalValue("90") == 90;
    assert DigitRun("1d2h") == 1 by { assert "1d2h"[1..] == "d2h"; }
    assert "1d2h"[..1] == "1";
  }
}
