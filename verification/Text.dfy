/** Strings: white space, trimming, and decimal rendering. */
module Text {

  /** The characters Rust's `str::trim` takes off (the White_Space property). */
  predicate RustSpace(c: char) {
    var n := c as int;
    || 0x09 <= n <= 0x0D || n in {0x20, 0x85, 0xA0, 0x1680, 0x2028, 0x2029, 0x202F, 0x205F, 0x3000}
    || 0x2000 <= n <= 0x200A
  }

  /** The characters JavaScript's `trim` and `\s` take for white space. */
  predicate JsSpace(c: char) {
    (RustSpace(c) && c as int != 0x85) || c as int == 0xFEFF
  }

  function TrimStart(s: string, space: char -> bool): string {
    if s != "" && space(s[0]) then TrimStart(s[1..], space) else s
  }

  function TrimEnd(s: string, space: char -> bool): string {
    if s != "" && space(s[|s| - 1]) then TrimEnd(s[..|s| - 1], space) else s
  }

  function Trim(s: string, space: char -> bool): string {
    TrimEnd(TrimStart(s, space), space)
  }

  // ---- decimal numbers ----

  function Digit(d: nat): char
    requires d < 10
  {
    '0' + d as char
  }

  function Digits(n: nat): (r: string)
    ensures r != "" && forall c | c in r :: '0' <= c <= '9'
    ensures |r| == 1 <==> n < 10
  {
    if n < 10 then [Digit(n)] else Digits(n / 10) + [Digit(n % 10)]
  }

  function Decimal(n: int): string {
    if n < 0 then "-" + Digits(-n) else Digits(n)
  }

  lemma {:induction false} DigitsInjective(m: nat, n: nat)
    requires Digits(m) == Digits(n)
    ensures m == n
  {
    var a, b := Digits(m), Digits(n);
    assert a[|a| - 1] == b[|b| - 1];
    if m >= 10 && n >= 10 {
      assert a[..|a| - 1] == Digits(m / 10) && b[..|b| - 1] == Digits(n / 10);
      DigitsInjective(m / 10, n / 10);
    }
  }

  lemma DecimalInjective(m: int, n: int)
    requires Decimal(m) == Decimal(n)
    ensures m == n
  {
    var a, b := Decimal(m), Decimal(n);
    assert a[0] == b[0];
    assert m >= 0 ==> a[0] in Digits(m);
    assert n >= 0 ==> b[0] in Digits(n);
    if m >= 0 {
      DigitsInjective(m, n);
    } else {
      assert a[1..] == Digits(-m) && b[1..] == Digits(-n);
      DigitsInjective(-m, -n);
    }
  }

  lemma DecimalHasNo(n: int, c: char)
    requires c != '-' && !('0' <= c <= '9')
    ensures c !in Decimal(n)
  {
  }

  /** A separator that the tails do not hold splits a string in one way. */
  lemma LastSeparator(a: string, b: string, x: string, y: string, sep: char)
    requires a + [sep] + x == b + [sep] + y
    requires sep !in x && sep !in y
    ensures a == b && x == y
  {
    var s, t := a + [sep] + x, b + [sep] + y;
    assert s[|a|] == sep && t[|b|] == sep;
    assert forall k | |a| < k < |s| :: s[k] == x[k - |a| - 1];
    assert forall k | |b| < k < |t| :: t[k] == y[k - |b| - 1];
    assert a == s[..|a|] && b == t[..|b|];
    assert x == s[|a| + 1..] && y == t[|b| + 1..];
  }

  lemma {:induction false} TrimStartTakes(lead: string, s: string, space: char -> bool)
    requires (forall c | c in lead :: space(c)) && (s != "" ==> !space(s[0]))
    ensures TrimStart(lead + s, space) == s
  {
    if lead == "" {
      assert lead + s == s;
    } else {
      assert (lead + s)[0] == lead[0] && (lead + s)[1..] == lead[1..] + s;
      TrimStartTakes(lead[1..], s, space);
    }
  }

  lemma {:induction false} TrimEndTakes(s: string, tail: string, space: char -> bool)
    requires (forall c | c in tail :: space(c)) && (s != "" ==> !space(s[|s| - 1]))
    ensures TrimEnd(s + tail, space) == s
  {
    if tail == "" {
      assert s + tail == s;
    } else {
      var n := |tail| - 1;
      assert (s + tail)[|s| + n] == tail[n] && (s + tail)[..|s| + n] == s + tail[..n];
      TrimEndTakes(s, tail[..n], space);
    }
  }

  /** Trimming takes off the white space at both ends and nothing else. */
  lemma TrimTakesBothEnds(lead: string, s: string, tail: string, space: char -> bool)
    requires (forall c | c in lead :: space(c)) && (forall c | c in tail :: space(c))
    requires s != "" ==> !space(s[0]) && !space(s[|s| - 1])
    ensures Trim(lead + s + tail, space) == s
  {
    if s == "" {
      assert lead + s + tail == (lead + tail) + "";
      TrimStartTakes(lead + tail, "", space);
    } else {
      assert lead + s + tail == lead + (s + tail) && (s + tail)[0] == s[0];
      TrimStartTakes(lead, s + tail, space);
      TrimEndTakes(s, tail, space);
    }
  }
}
