/** Comparing resource versions: decimal strings parsed as 64-bit integers. */
module ResourceVersion {
  import opened Sequences

  const TWO_TO_THE_63: int := 0x8000_0000_0000_0000

  predicate IsDigit(c: char) { '0' <= c <= '9' }

  predicate AllDigits(s: string) { forall i :: 0 <= i < |s| ==> IsDigit(s[i]) }

  function Digit(c: char): nat {
    if IsDigit(c) then (c - '0') as int else 0
  }

  function Value(s: string): nat {
    if s == "" then 0 else 10 * Value(s[..|s| - 1]) + Digit(s[|s| - 1])
  }

  /** `strconv.ParseInt(s, 10, 64)`; None stands for a syntax or range error. */
  function ParseInt(s: string): (r: Option<int>)
  {
    if s == "" then None
    else
      var negative := s[0] == '-';
      var digits := if negative || s[0] == '+' then s[1..] else s;
      if digits == "" || !AllDigits(digits) then None
      else if negative then (if Value(digits) > TWO_TO_THE_63 then None else Some(0 - Value(digits)))
      else if Value(digits) >= TWO_TO_THE_63 then None
      else Some(Value(digits))
  }

  function IsHigher(version: string, current: string): bool {
    if current == "" then true
    else
      match ParseInt(version)
      case None => false
      case Some(v) =>
        match ParseInt(current)
        case None => false
        case Some(c) => v > c
  }

  /** A version as the API server prints it: digits without a leading zero, within int64. */
  predicate Canonical(s: string) {
    s != "" && AllDigits(s) && (|s| > 1 ==> s[0] != '0') && Value(s) < TWO_TO_THE_63
  }

  /** At the first difference `a` has the larger digit. */
  ghost predicate LexGreater(a: string, b: string)
    requires |a| == |b|
  {
    exists i :: 0 <= i < |a| && a[..i] == b[..i] && a[i] > b[i]
  }

  function Pow10(n: nat): (p: nat)
    ensures p >= 1
  {
    if n == 0 then 1 else 10 * Pow10(n - 1)
  }

  lemma {:induction false} Pow10Grows(m: nat, n: nat)
    requires m <= n
    ensures Pow10(m) <= Pow10(n)
  {
    if m < n {
      Pow10Grows(m, n - 1);
    }
  }

  lemma {:induction false} ValueBounds(s: string)
    requires AllDigits(s) && s != ""
    ensures Value(s) < Pow10(|s|)
    ensures s[0] != '0' ==> Value(s) >= Pow10(|s| - 1)
  {
    if |s| > 1 {
      ValueBounds(s[..|s| - 1]);
    }
  }

  lemma LexSnoc(a: string, b: string, c: char, d: char)
    requires |a| == |b|
    ensures LexGreater(a + [c], b + [d]) <==> LexGreater(a, b) || (a == b && c > d)
  {
    var a', b' := a + [c], b + [d];
    if i :| 0 <= i < |a| && a[..i] == b[..i] && a[i] > b[i] {
      assert a'[..i] == b'[..i] && a'[i] > b'[i];
    }
    if a == b && c > d {
      assert a'[..|a|] == b'[..|a|] && a'[|a|] > b'[|a|];
    }
    if i :| 0 <= i < |a'| && a'[..i] == b'[..i] && a'[i] > b'[i] {
      if i < |a| {
        assert a[..i] == a'[..i] && b[..i] == b'[..i] && a[i] > b[i];
      } else {
        assert a == a'[..i] && b == b'[..i];
      }
    }
  }

  lemma {:induction false} SameLengthOrder(a: string, b: string)
    requires AllDigits(a) && AllDigits(b) && |a| == |b|
    ensures Value(a) > Value(b) <==> LexGreater(a, b)
    ensures Value(a) == Value(b) <==> a == b
  {
    if a != "" {
      var n := |a| - 1;
      var a', b' := a[..n], b[..n];
      SameLengthOrder(a', b');
      LexSnoc(a', b', a[n], b[n]);
      assert a == a' + [a[n]] && b == b' + [b[n]];
    }
  }

  /** A canonical version parses to its value. */
  lemma CanonicalParses(s: string)
    requires Canonical(s)
    ensures ParseInt(s) == Some(Value(s))
  {
    hide Value;
    assert IsDigit(s[0]);
  }

  /** On canonical versions the comparison is by length, then lexicographic. */
  lemma IsHigherIsShortlex(a: string, b: string)
    requires Canonical(a) && Canonical(b)
    ensures IsHigher(a, b) <==> Value(a) > Value(b)
    ensures IsHigher(a, b) <==> |a| > |b| || (|a| == |b| && LexGreater(a, b))
  {
    hide Value, ParseInt, LexGreater, IsDigit, Pow10;
    CanonicalParses(a);
    CanonicalParses(b);
    if |a| == |b| {
      SameLengthOrder(a, b);
    } else if |a| > |b| {
      LongerIsLarger(a, b);
    } else {
      LongerIsLarger(b, a);
    }
  }

  /** Signs are read, numbers of 64 bits and more are not, and neither is anything that is not a number. */
  lemma ParsedNumbers(digits: string, other: string)
    requires digits != "" && AllDigits(digits)
    requires other == "" || !IsDigit(other[|other| - 1])
    ensures Value(digits) < TWO_TO_THE_63 ==>
              && ParseInt(digits) == ParseInt("+" + digits) == Some(Value(digits))
              && ParseInt("-" + digits) == Some(0 - Value(digits))
    ensures Value(digits) >= 0x8000_0000_0000_0000 ==> ParseInt(digits) == ParseInt("+" + digits) == None
    ensures ParseInt(other) == None
  {
    hide Value;
    assert IsDigit(digits[0]);
    assert ("+" + digits)[1..] == digits && ("-" + digits)[1..] == digits;
    if other != "" {
      var rest := if other[0] == '-' || other[0] == '+' then other[1..] else other;
      assert rest != "" ==> rest[|rest| - 1] == other[|other| - 1];
    }
  }

  /** Without a current version every version is higher; otherwise only a larger number is. */
  lemma IsHigherMeaning(version: string, current: string)
    ensures IsHigher(version, "")
    ensures current != "" ==>
              (IsHigher(version, current)
               <==> && ParseInt(version).Some? && ParseInt(current).Some?
                    && ParseInt(version).value > ParseInt(current).value)
  {
  }

  lemma ValueIsDecimal()
    ensures Value("120") == 120 && Value("9") == 9
  {
    assert "120"[..2] == "12" && "12"[..1] == "1" && "1"[..0] == "" && "9"[..0] == "";
    assert Value("1") == 1 && Value("12") == 12;
  }

  lemma LongerIsLarger(a: string, b: string)
    requires Canonical(a) && Canonical(b) && |a| > |b|
    ensures Value(a) > Value(b)
  {
    hide Value, Pow10;
    ValueBounds(a);
    ValueBounds(b);
    Pow10Grows(|b|, |a| - 1);
  }
}
