/**
  Decimal text: Python's `int(text)` restricted to an optional sign and ASCII
  digits, `str(n)`, `str.strip()`, and the comma-grouped counts the site
  prints ("10,532") together with the conversion
  `int(text.replace(",", ""))` that reads them back.
*/
module Numbers {
  import opened Wrappers

  predicate IsDigit(c: char) { '0' <= c <= '9' }

  predicate AllDigits(s: string) { forall i | 0 <= i < |s| :: IsDigit(s[i]) }

  function DigitChar(d: nat): char
    requires d < 10
  {
    ['0', '1', '2', '3', '4', '5', '6', '7', '8', '9'][d]
  }

  /** The number a string of decimal digits denotes (0 for the empty string). */
  function DigitsValue(s: string): nat
    requires AllDigits(s)
  {
    if |s| == 0 then 0
    else DigitsValue(s[..|s| - 1]) * 10 + (s[|s| - 1] as int - '0' as int)
  }

  /** `str(n)` for a non-negative `n`. */
  function FormatNat(n: nat): (s: string)
    ensures |s| > 0 && AllDigits(s)
  {
    if n < 10 then [DigitChar(n)] else FormatNat(n / 10) + [DigitChar(n % 10)]
  }

  lemma {:induction false} FormatNatRoundTrip(n: nat)
    ensures DigitsValue(FormatNat(n)) == n
  {
    if n >= 10 {
      var s := FormatNat(n);
      FormatNatRoundTrip(n / 10);
      assert s[..|s| - 1] == FormatNat(n / 10);
    }
  }

  /** `str(n)`. */
  function FormatInt(n: int): (s: string)
    ensures |s| > 0
  {
    if n < 0 then "-" + FormatNat(-n) else FormatNat(n)
  }

  /**
    `int(t)` on already stripped text: an optional `+` or `-` followed by at
    least one decimal digit; anything else is a `ValueError`, here `None`.
  */
  function ParseInt(t: string): Option<int>
  {
    if |t| > 0 && (t[0] == '-' || t[0] == '+') then
      var ds := t[1..];
      if |ds| > 0 && AllDigits(ds) then
        var v: int := DigitsValue(ds);
        Some(if t[0] == '-' then -v else v)
      else None
    else if |t| > 0 && AllDigits(t) then Some(DigitsValue(t))
    else None
  }

  /** Reading back the text `str(n)` gives `n`, for every integer. */
  lemma ParseFormatRoundTrip(n: int)
    ensures ParseInt(FormatInt(n)) == Some(n)
  {
    var t := FormatInt(n);
    if n < 0 {
      assert t[1..] == FormatNat(-n);
      FormatNatRoundTrip(-n);
    } else {
      FormatNatRoundTrip(n);
    }
  }

  /** Text without a decimal digit never parses. */
  lemma ParseIntNeedsDigit(t: string)
    requires forall i | 0 <= i < |t| :: !IsDigit(t[i])
    ensures ParseInt(t) == None
  {
    if |t| > 1 && (t[0] == '-' || t[0] == '+') {
      assert !IsDigit(t[1..][0]);
    }
  }

  /** The ASCII characters `str.isspace()` accepts, which `str.strip()` removes:
      tab to carriage return, the four separators U+001C to U+001F, and space. */
  predicate IsSpace(c: char)
  {
    9 <= c as int <= 13 || 28 <= c as int <= 32
  }

  predicate AllSpace(s: string) { forall i | 0 <= i < |s| :: IsSpace(s[i]) }

  function TrimStart(s: string): (r: string)
    ensures |r| <= |s| && r == s[|s| - |r|..]
  {
    if |s| > 0 && IsSpace(s[0]) then TrimStart(s[1..]) else s
  }

  function TrimEnd(s: string): (r: string)
    ensures |r| <= |s| && r == s[..|r|]
  {
    if |s| > 0 && IsSpace(s[|s| - 1]) then TrimEnd(s[..|s| - 1]) else s
  }

  /** `s.strip()`. */
  function Strip(s: string): string
  {
    TrimEnd(TrimStart(s))
  }

  lemma {:induction false} TrimStartSkipsSpace(pre: string, s: string)
    requires AllSpace(pre) && |s| > 0 && !IsSpace(s[0])
    ensures TrimStart(pre + s) == s
  {
    if |pre| > 0 {
      assert (pre + s)[1..] == pre[1..] + s;
      TrimStartSkipsSpace(pre[1..], s);
    }
  }

  lemma {:induction false} TrimEndSkipsSpace(s: string, post: string)
    requires AllSpace(post) && |s| > 0 && !IsSpace(s[|s| - 1])
    ensures TrimEnd(s + post) == s
  {
    if |post| > 0 {
      assert (s + post)[..|s + post| - 1] == s + post[..|post| - 1];
      TrimEndSkipsSpace(s, post[..|post| - 1]);
    }
  }

  /** `strip()` removes surrounding whitespace and nothing else. */
  lemma StripSurrounding(pre: string, s: string, post: string)
    requires AllSpace(pre) && AllSpace(post)
    requires |s| > 0 && !IsSpace(s[0]) && !IsSpace(s[|s| - 1])
    ensures Strip(pre + s + post) == s
  {
    assert pre + s + post == pre + (s + post);
    TrimStartSkipsSpace(pre, s + post);
    TrimEndSkipsSpace(s, post);
  }

  /** Stripping keeps a contiguous piece of the text. */
  lemma StripIsSlice(s: string)
    ensures exists i, j :: 0 <= i <= j <= |s| && Strip(s) == s[i..j]
  {
    var a := TrimStart(s);
    var b := TrimEnd(a);
    var i := |s| - |a|;
    assert a == s[i..];
    assert b == s[i..i + |b|];
  }

  predicate IsCountText(s: string)
  {
    forall i | 0 <= i < |s| :: IsDigit(s[i]) || s[i] == ','
  }

  function RemoveCommas(s: string): (r: string)
    requires IsCountText(s)
    ensures AllDigits(r)
  {
    if |s| == 0 then []
    else if s[0] == ',' then RemoveCommas(s[1..])
    else [s[0]] + RemoveCommas(s[1..])
  }

  /**
    `int(text.replace(",", ""))` on the text a `[\d,]+` match captured. A match
    made of commas only leaves the empty string, which `int` rejects: `None`.
  */
  function ParseCount(s: string): (r: Option<nat>)
    requires |s| > 0 && IsCountText(s)
  {
    var ds := RemoveCommas(s);
    if |ds| == 0 then None else Some(DigitsValue(ds))
  }

  /** Three digits with leading zeros, one thousands group. */
  function Group(m: nat): (s: string)
    requires m < 1000
    ensures |s| == 3 && AllDigits(s)
  {
    [DigitChar(m / 10 / 10), DigitChar(m / 10 % 10), DigitChar(m % 10)]
  }

  /** `f"{n:,}"`: decimal digits with a comma between thousands groups. */
  function FormatGrouped(n: nat): (s: string)
    ensures |s| > 0 && IsCountText(s)
  {
    if n < 1000 then FormatNat(n) else FormatGrouped(n / 1000) + [','] + Group(n % 1000)
  }

  lemma {:induction false} RemoveCommasAppend(a: string, b: string)
    requires IsCountText(a) && IsCountText(b)
    ensures IsCountText(a + b) && RemoveCommas(a + b) == RemoveCommas(a) + RemoveCommas(b)
  {
    if |a| > 0 {
      assert (a + b)[0] == a[0];
      assert (a + b)[1..] == a[1..] + b;
      RemoveCommasAppend(a[1..], b);
      if a[0] != ',' {
        assert RemoveCommas(a + b) == [a[0]] + (RemoveCommas(a[1..]) + RemoveCommas(b));
      }
    } else {
      assert a + b == b;
    }
  }

  lemma {:induction false} RemoveCommasOfDigits(s: string)
    requires AllDigits(s)
    ensures IsCountText(s) && RemoveCommas(s) == s
  {
    if |s| > 0 {
      RemoveCommasOfDigits(s[1..]);
      assert s == [s[0]] + s[1..];
    }
  }

  function Pow10(k: nat): (p: nat)
    ensures p > 0
  {
    if k == 0 then 1 else 10 * Pow10(k - 1)
  }

  lemma {:induction false} DigitsValueAppend(a: string, b: string)
    requires AllDigits(a) && AllDigits(b)
    ensures AllDigits(a + b) && DigitsValue(a + b) == DigitsValue(a) * Pow10(|b|) + DigitsValue(b)
  {
    if |b| == 0 {
      assert a + b == a;
    } else {
      var b' := b[..|b| - 1];
      assert (a + b)[..|a + b| - 1] == a + b';
      DigitsValueAppend(a, b');
      var d := b[|b| - 1] as int - '0' as int;
      var x, p, y := DigitsValue(a), Pow10(|b'|), DigitsValue(b');
      assert Pow10(|b|) == 10 * p;
      Regroup(x, p, y);
      assert DigitsValue(a + b) == (x * p + y) * 10 + d;
      assert DigitsValue(b) == y * 10 + d;
    }
  }

  lemma Regroup(x: int, p: int, y: int)
    ensures (x * p + y) * 10 == x * (10 * p) + y * 10
  {
  }

  lemma DigitCharValue(d: nat)
    requires d < 10
    ensures DigitChar(d) as int - '0' as int == d
  {
  }

  lemma GroupValue(m: nat)
    requires m < 1000
    ensures DigitsValue(Group(m)) == m
  {
    var g := Group(m);
    var q := m / 10;
    DigitCharValue(q / 10);
    DigitCharValue(q % 10);
    DigitCharValue(m % 10);
    assert g[..2] == [g[0], g[1]] && g[..2][..1] == [g[0]] && [g[0]][..0] == [];
    assert DigitsValue([g[0]]) == q / 10;
    assert DigitsValue(g[..2]) == q / 10 * 10 + q % 10 == q;
    assert DigitsValue(g) == q * 10 + m % 10 == m;
  }

  lemma {:induction false} GroupedDigits(n: nat)
    ensures var ds := RemoveCommas(FormatGrouped(n)); |ds| > 0 && DigitsValue(ds) == n
  {
    if n < 1000 {
      RemoveCommasOfDigits(FormatNat(n));
      FormatNatRoundTrip(n);
    } else {
      var hi := FormatGrouped(n / 1000);
      var g := Group(n % 1000);
      GroupedDigits(n / 1000);
      RemoveCommasAppend(hi, [',']);
      RemoveCommasAppend(hi + [','], g);
      RemoveCommasOfDigits(g);
      var a := RemoveCommas(hi);
      assert RemoveCommas(FormatGrouped(n)) == a + g;
      DigitsValueAppend(a, g);
      GroupValue(n % 1000);
      assert Pow10(3) == 1000;
      assert DigitsValue(a) == n / 1000;
      assert DigitsValue(a + g) == n / 1000 * 1000 + n % 1000;
    }
  }

  /** Reading back a comma-grouped count gives the number printed. */
  lemma ParseCountRoundTrip(n: nat)
    ensures ParseCount(FormatGrouped(n)) == Some(n)
  {
    GroupedDigits(n);
  }

  /** A count text converts exactly when it holds a digit, and never to a
      negative number. */
  lemma ParseCountDefined(s: string)
    requires |s| > 0 && IsCountText(s)
    ensures ParseCount(s).Some? <==> exists i :: 0 <= i < |s| && IsDigit(s[i])
  {
    RemoveCommasKeepsDigits(s);
  }

  lemma {:induction false} RemoveCommasKeepsDigits(s: string)
    requires IsCountText(s)
    ensures |RemoveCommas(s)| > 0 <==> exists i :: 0 <= i < |s| && IsDigit(s[i])
  {
    if |s| > 0 {
      RemoveCommasKeepsDigits(s[1..]);
      if exists i :: 0 <= i < |s| && IsDigit(s[i]) {
        var i :| 0 <= i < |s| && IsDigit(s[i]);
        if i > 0 { assert IsDigit(s[1..][i - 1]); }
      }
      if exists i :: 0 <= i < |s| - 1 && IsDigit(s[1..][i]) {
        var i :| 0 <= i < |s| - 1 && IsDigit(s[1..][i]);
        assert IsDigit(s[i + 1]);
      }
    }
  }
}
