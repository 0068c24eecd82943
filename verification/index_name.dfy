/** Partition (index) names.  Before every indexing call the exporter turns its
    configured index-name template into a concrete name by substituting the
    current date: `%y` becomes the four-digit year, `%m` the two-digit month,
    `%d` the two-digit day (model/alertmanager2es.go, buildIndexName).

    The source does this with three successive `strings.Replace` passes.  The
    module defines those passes (`ReplaceAll`, `BuildIndexName`), an
    independent single-pass reading of the template (`Expand`), and proves the
    two agree; the remaining properties are stated about the single pass. */
module IndexName {

  /** A calendar date as the clock reports it. */
  datatype Date = Date(year: nat, month: nat, day: nat)

  predicate IsLeapYear(year: nat) {
    (year % 4 == 0 && year % 100 != 0) || year % 400 == 0
  }

  function DaysInMonth(year: nat, month: nat): nat
    requires 1 <= month <= 12
  {
    if month == 2 then (if IsLeapYear(year) then 29 else 28)
    else if month == 4 || month == 6 || month == 9 || month == 11 then 30
    else 31
  }

  /** The dates the model is stated for: four-digit years, real calendar days. */
  predicate ValidDate(t: Date) {
    && 1000 <= t.year <= 9999
    && 1 <= t.month <= 12
    && 1 <= t.day <= DaysInMonth(t.year, t.month)
  }

  // ---------------------------------------------------------------------------
  // Decimal digits

  predicate IsDigit(c: char) {
    '0' <= c <= '9'
  }

  predicate AllDigits(s: string) {
    forall i :: 0 <= i < |s| ==> IsDigit(s[i])
  }

  function Pow10(k: nat): (p: nat)
    ensures p >= 1
  {
    if k == 0 then 1 else 10 * Pow10(k - 1)
  }

  function Digit(d: nat): (c: char)
    requires d < 10
    ensures IsDigit(c) && c as int - '0' as int == d
  {
    ('0' as int + d) as char
  }

  /** The number a string of decimal digits denotes, most significant first. */
  function Value(s: string): nat
    requires AllDigits(s)
    decreases |s|
  {
    if |s| == 0 then 0
    else 10 * Value(s[..|s| - 1]) + (s[|s| - 1] as int - '0' as int)
  }

  /** The shortest decimal notation of `n`. */
  function Decimal(n: nat): (s: string)
    ensures 1 <= |s| && AllDigits(s)
    ensures Value(s) == n
    decreases n
  {
    if n < 10 then [Digit(n)]
    else
      var prefix := Decimal(n / 10);
      var s := prefix + [Digit(n % 10)];
      assert s[..|s| - 1] == prefix;
      s
  }

  /** Numbers below 10^k need at most k digits. */
  lemma {:induction false} DecimalLength(n: nat, k: nat)
    requires 1 <= k && n < Pow10(k)
    ensures |Decimal(n)| <= k
    decreases k
  {
    if n >= 10 {
      DecimalLength(n / 10, k - 1);
    }
  }

  function Zeros(k: nat): (s: string)
    ensures |s| == k && AllDigits(s)
    ensures forall i :: 0 <= i < k ==> s[i] == '0'
  {
    if k == 0 then [] else Zeros(k - 1) + ['0']
  }

  /** Appending digits on the right shifts the left part by a power of ten. */
  lemma {:induction false} ValueAppend(a: string, b: string)
    requires AllDigits(a) && AllDigits(b)
    ensures AllDigits(a + b)
    ensures Value(a + b) == Value(a) * Pow10(|b|) + Value(b)
    decreases |b|
  {
    if |b| > 0 {
      var b' := b[..|b| - 1];
      var last := b[|b| - 1] as int - '0' as int;
      assert (a + b)[..|a + b| - 1] == a + b';
      ValueAppend(a, b');
      calc {
        Value(a + b);
        10 * Value(a + b') + last;
        10 * (Value(a) * Pow10(|b'|) + Value(b')) + last;
        { assert 10 * (Value(a) * Pow10(|b'|)) == Value(a) * (10 * Pow10(|b'|)); }
        Value(a) * Pow10(|b|) + (10 * Value(b') + last);
        Value(a) * Pow10(|b|) + Value(b);
      }
    } else {
      assert a + b == a;
    }
  }

  lemma {:induction false} ZerosValue(k: nat)
    ensures Value(Zeros(k)) == 0
  {
    if k > 0 {
      var z := Zeros(k);
      assert z[..|z| - 1] == Zeros(k - 1);
      ZerosValue(k - 1);
    }
  }

  /** `n` in decimal, left-padded with '0' to at least `width` characters: the
      "2006", "01" and "02" elements of Go's time layout. */
  function Pad(n: nat, width: nat): (s: string)
    ensures AllDigits(s) && 1 <= |s| && width <= |s|
    ensures Value(s) == n
    ensures 1 <= width && n < Pow10(width) ==> |s| == width
    ensures width <= |Decimal(n)| ==> s == Decimal(n)
  {
    var digits := Decimal(n);
    assert 1 <= width && n < Pow10(width) ==> |digits| <= width by {
      if 1 <= width && n < Pow10(width) {
        DecimalLength(n, width);
      }
    }
    if |digits| < width then
      ValueAppend(Zeros(width - |digits|), digits);
      ZerosValue(width - |digits|);
      Zeros(width - |digits|) + digits
    else
      digits
  }

  function FormatYear(t: Date): string { Pad(t.year, 4) }
  function FormatMonth(t: Date): string { Pad(t.month, 2) }
  function FormatDay(t: Date): string { Pad(t.day, 2) }

  /** For a valid date the three fields have exactly the widths the layout
      promises, and each reads back as the field it came from. */
  lemma FormattedDateWidths(t: Date)
    requires ValidDate(t)
    ensures |FormatYear(t)| == 4 && Value(FormatYear(t)) == t.year
    ensures |FormatMonth(t)| == 2 && Value(FormatMonth(t)) == t.month
    ensures |FormatDay(t)| == 2 && Value(FormatDay(t)) == t.day
  {
    assert Pow10(4) == 10000 && Pow10(2) == 100;
  }

  // ---------------------------------------------------------------------------
  // Substitution

  /** `pat` occurs somewhere in `s`. */
  predicate Contains(s: string, pat: string)
    decreases |s|
  {
    pat <= s || (|s| > 0 && Contains(s[1..], pat))
  }

  /** Go's strings.Replace(s, pat, rep, -1) for a non-empty `pat`: scanning left
      to right, every non-overlapping occurrence of `pat` is replaced. */
  function ReplaceAll(s: string, pat: string, rep: string): string
    requires |pat| > 0
    decreases |s|
  {
    if |s| == 0 then []
    else if pat <= s then rep + ReplaceAll(s[|pat|..], pat, rep)
    else [s[0]] + ReplaceAll(s[1..], pat, rep)
  }

  /** Replacing a pattern that does not occur changes nothing. */
  lemma {:induction false} ReplaceAllAbsent(s: string, pat: string, rep: string)
    requires |pat| > 0 && !Contains(s, pat)
    ensures ReplaceAll(s, pat, rep) == s
    decreases |s|
  {
    if |s| > 0 {
      ReplaceAllAbsent(s[1..], pat, rep);
    }
  }

  /** buildIndexName: the template with every `%y` replaced by the year, then
      every `%m` by the month, then every `%d` by the day. */
  function BuildIndexName(template: string, t: Date): string
  {
    var withYear := ReplaceAll(template, "%y", FormatYear(t));
    var withMonth := ReplaceAll(withYear, "%m", FormatMonth(t));
    ReplaceAll(withMonth, "%d", FormatDay(t))
  }

  /** Reference reading of a template in one left-to-right pass: each token
      `%y`, `%m`, `%d` becomes its replacement, every other character is kept. */
  function Expand(s: string, y: string, m: string, d: string): string
    decreases |s|
  {
    if |s| == 0 then []
    else if "%y" <= s then y + Expand(s[2..], y, m, d)
    else if "%m" <= s then m + Expand(s[2..], y, m, d)
    else if "%d" <= s then d + Expand(s[2..], y, m, d)
    else [s[0]] + Expand(s[1..], y, m, d)
  }

  predicate HasToken(s: string) {
    Contains(s, "%y") || Contains(s, "%m") || Contains(s, "%d")
  }

  /** The first character of an expansion: the replacement's when the text
      opens with a token, the text's own otherwise. */
  lemma ExpandFirst(s: string, y: string, m: string, d: string)
    requires |s| > 0 && |y| > 0 && |m| > 0 && |d| > 0
    ensures |Expand(s, y, m, d)| > 0
    ensures Expand(s, y, m, d)[0] ==
      if "%y" <= s then y[0]
      else if "%m" <= s then m[0]
      else if "%d" <= s then d[0]
      else s[0]
  {
  }

  /** A run of digits in front passes through a replacement of a `%` token. */
  lemma {:induction false} ReplaceAllDigitsPrefix(a: string, b: string, pat: string, rep: string)
    requires AllDigits(a) && |pat| > 0 && pat[0] == '%'
    ensures ReplaceAll(a + b, pat, rep) == a + ReplaceAll(b, pat, rep)
    decreases |a|
  {
    if |a| > 0 {
      assert !(pat <= a + b);
      assert (a + b)[1..] == a[1..] + b;
      ReplaceAllDigitsPrefix(a[1..], b, pat, rep);
    } else {
      assert a + b == b;
    }
  }

  /** The `%y` pass is the single pass with `%m` and `%d` left as they are. */
  lemma {:induction false} YearPass(s: string, y: string)
    ensures ReplaceAll(s, "%y", y) == Expand(s, y, "%m", "%d")
    decreases |s|
  {
    if |s| == 0 {
    } else if "%y" <= s {
      YearPass(s[2..], y);
    } else if "%m" <= s || "%d" <= s {
      YearPass(s[2..], y);
      assert !("%y" <= s[1..]);
      assert s[1..][1..] == s[2..];
      assert s[..2] + s[2..] == s;
    } else {
      YearPass(s[1..], y);
    }
  }

  /** The `%m` pass over a text whose years are already digits. */
  lemma {:induction false} MonthPass(s: string, y: string, m: string)
    requires AllDigits(y) && |y| > 0
    ensures ReplaceAll(Expand(s, y, "%m", "%d"), "%m", m) == Expand(s, y, m, "%d")
    decreases |s|
  {
    var e := Expand(s, y, "%m", "%d");
    if |s| == 0 {
    } else if "%y" <= s {
      MonthPass(s[2..], y, m);
      ReplaceAllDigitsPrefix(y, Expand(s[2..], y, "%m", "%d"), "%m", m);
    } else if "%m" <= s {
      MonthPass(s[2..], y, m);
      assert e[2..] == Expand(s[2..], y, "%m", "%d");
    } else if "%d" <= s {
      MonthPass(s[2..], y, m);
      var rest := Expand(s[2..], y, "%m", "%d");
      assert e == "%d" + rest;
      assert !("%m" <= e) && e[1..] == "d" + rest;
      assert !("%m" <= e[1..]) && e[1..][1..] == rest;
    } else {
      MonthPass(s[1..], y, m);
      var rest := Expand(s[1..], y, "%m", "%d");
      assert e == [s[0]] + rest && e[1..] == rest;
      if |s| > 1 {
        ExpandFirst(s[1..], y, "%m", "%d");
      }
      assert !("%m" <= e);
    }
  }

  /** The `%d` pass over a text whose years and months are already digits. */
  lemma {:induction false} DayPass(s: string, y: string, m: string, d: string)
    requires AllDigits(y) && |y| > 0 && AllDigits(m) && |m| > 0
    ensures ReplaceAll(Expand(s, y, m, "%d"), "%d", d) == Expand(s, y, m, d)
    decreases |s|
  {
    var e := Expand(s, y, m, "%d");
    if |s| == 0 {
    } else if "%y" <= s {
      DayPass(s[2..], y, m, d);
      ReplaceAllDigitsPrefix(y, Expand(s[2..], y, m, "%d"), "%d", d);
    } else if "%m" <= s {
      DayPass(s[2..], y, m, d);
      ReplaceAllDigitsPrefix(m, Expand(s[2..], y, m, "%d"), "%d", d);
    } else if "%d" <= s {
      DayPass(s[2..], y, m, d);
      assert e[2..] == Expand(s[2..], y, m, "%d");
    } else {
      DayPass(s[1..], y, m, d);
      var rest := Expand(s[1..], y, m, "%d");
      assert e == [s[0]] + rest && e[1..] == rest;
      if |s| > 1 {
        ExpandFirst(s[1..], y, m, "%d");
      }
      assert !("%d" <= e);
    }
  }

  /** The three successive replacements of the source compute exactly the
      single-pass expansion of the template. */
  lemma BuildIndexNameExpands(template: string, t: Date)
    ensures BuildIndexName(template, t)
         == Expand(template, FormatYear(t), FormatMonth(t), FormatDay(t))
  {
    YearPass(template, FormatYear(t));
    MonthPass(template, FormatYear(t), FormatMonth(t));
    DayPass(template, FormatYear(t), FormatMonth(t), FormatDay(t));
  }

  /** Digits in front cannot start a `%` token. */
  lemma {:induction false} ContainsDigitsPrefix(a: string, b: string, pat: string)
    requires AllDigits(a) && |pat| > 0 && pat[0] == '%'
    ensures Contains(a + b, pat) ==> Contains(b, pat)
    decreases |a|
  {
    if |a| > 0 {
      assert !(pat <= a + b);
      assert (a + b)[1..] == a[1..] + b;
      ContainsDigitsPrefix(a[1..], b, pat);
    } else {
      assert a + b == b;
    }
  }

  /** Expanding with digit replacements leaves no token behind. */
  lemma {:induction false} ExpandLeavesNoToken(s: string, y: string, m: string, d: string, tok: string)
    requires AllDigits(y) && AllDigits(m) && AllDigits(d)
    requires |y| > 0 && |m| > 0 && |d| > 0
    requires tok == "%y" || tok == "%m" || tok == "%d"
    ensures !Contains(Expand(s, y, m, d), tok)
    decreases |s|
  {
    if |s| == 0 {
    } else if "%y" <= s || "%m" <= s || "%d" <= s {
      ExpandLeavesNoToken(s[2..], y, m, d, tok);
      var r := if "%y" <= s then y else if "%m" <= s then m else d;
      ContainsDigitsPrefix(r, Expand(s[2..], y, m, d), tok);
    } else {
      ExpandLeavesNoToken(s[1..], y, m, d, tok);
      var e := Expand(s, y, m, d);
      var rest := Expand(s[1..], y, m, d);
      assert e == [s[0]] + rest && e[1..] == rest;
      if |s| > 1 {
        ExpandFirst(s[1..], y, m, d);
      }
      assert !(tok <= e);
    }
  }

  /** No `%y`, `%m` or `%d` survives in a built index name. */
  lemma BuildIndexNameHasNoToken(template: string, t: Date)
    ensures !HasToken(BuildIndexName(template, t))
  {
    BuildIndexNameExpands(template, t);
    var y, m, d := FormatYear(t), FormatMonth(t), FormatDay(t);
    ExpandLeavesNoToken(template, y, m, d, "%y");
    ExpandLeavesNoToken(template, y, m, d, "%m");
    ExpandLeavesNoToken(template, y, m, d, "%d");
  }

  /** A token-free text is its own expansion. */
  lemma {:induction false} ExpandTokenFree(s: string, y: string, m: string, d: string)
    requires !HasToken(s)
    ensures Expand(s, y, m, d) == s
    decreases |s|
  {
    if |s| > 0 {
      ExpandTokenFree(s[1..], y, m, d);
      assert s == [s[0]] + s[1..];
    }
  }

  /** A template without any of the three tokens is used as the name verbatim. */
  lemma BuildIndexNameTokenFree(template: string, t: Date)
    requires !HasToken(template)
    ensures BuildIndexName(template, t) == template
  {
    BuildIndexNameExpands(template, t);
    ExpandTokenFree(template, FormatYear(t), FormatMonth(t), FormatDay(t));
  }

  /** Without a `%d` token the day replacement is never used. */
  lemma {:induction false} ExpandIgnoresDay(s: string, y: string, m: string, d: string, d': string)
    requires !Contains(s, "%d")
    ensures Expand(s, y, m, d) == Expand(s, y, m, d')
    decreases |s|
  {
    if |s| >= 2 && ("%y" <= s || "%m" <= s) {
      assert s[1..][1..] == s[2..];
      ExpandIgnoresDay(s[2..], y, m, d, d');
    } else if |s| > 0 {
      ExpandIgnoresDay(s[1..], y, m, d, d');
    }
  }

  /** The day of the date matters only where the template says `%d`. */
  lemma BuildIndexNameIgnoresDay(template: string, t: Date, day: nat)
    requires !Contains(template, "%d")
    ensures BuildIndexName(template, t) == BuildIndexName(template, t.(day := day))
  {
    BuildIndexNameExpands(template, t);
    BuildIndexNameExpands(template, t.(day := day));
    ExpandIgnoresDay(template, FormatYear(t), FormatMonth(t), FormatDay(t), FormatDay(t.(day := day)));
  }

  /** The name is the template with each token widened to its digits: a year
      token grows by two characters, month and day tokens keep their width. */
  lemma {:induction false} ExpandLength(s: string, y: string, m: string, d: string)
    requires |y| == 4 && |m| == 2 && |d| == 2
    ensures |Expand(s, y, m, d)| == |s| + 2 * YearTokens(s)
    decreases |s|
  {
    if |s| >= 2 && ("%y" <= s || "%m" <= s || "%d" <= s) {
      ExpandLength(s[2..], y, m, d);
    } else if |s| > 0 {
      ExpandLength(s[1..], y, m, d);
    }
  }

  /** How many `%y` tokens the single pass meets. */
  function YearTokens(s: string): nat
    decreases |s|
  {
    if |s| == 0 then 0
    else if "%y" <= s then 1 + YearTokens(s[2..])
    else if "%m" <= s || "%d" <= s then YearTokens(s[2..])
    else YearTokens(s[1..])
  }

  lemma BuildIndexNameLength(template: string, t: Date)
    requires ValidDate(t)
    ensures |BuildIndexName(template, t)| == |template| + 2 * YearTokens(template)
  {
    FormattedDateWidths(t);
    BuildIndexNameExpands(template, t);
    ExpandLength(template, FormatYear(t), FormatMonth(t), FormatDay(t));
  }

  /** Characters other than `%` are copied through the single pass. */
  lemma {:induction false} ExpandPlainPrefix(p: string, s: string, y: string, m: string, d: string)
    requires forall i :: 0 <= i < |p| ==> p[i] != '%'
    ensures Expand(p + s, y, m, d) == p + Expand(s, y, m, d)
    decreases |p|
  {
    if |p| > 0 {
      assert (p + s)[0] == p[0] && (p + s)[1..] == p[1..] + s;
      ExpandPlainPrefix(p[1..], s, y, m, d);
      assert p + Expand(s, y, m, d) == [p[0]] + (p[1..] + Expand(s, y, m, d));
    } else {
      assert p + s == s;
    }
  }

  lemma ExampleFields()
    ensures FormatYear(Date(2024, 3, 7)) == "2024"
    ensures FormatMonth(Date(2024, 3, 7)) == "03"
    ensures FormatDay(Date(2024, 3, 7)) == "07"
  {
    assert Decimal(20) == "20";
    assert Decimal(202) == "202";
    assert Decimal(2024) == "2024";
    assert Zeros(1) == "0";
  }

  lemma ExampleTail()
    ensures Expand("%y.%m.%d", "2024", "03", "07") == "2024.03.07"
  {
    var y, m, d := "2024", "03", "07";
    assert Expand("%d", y, m, d) == "07" by {
      assert "%d"[1] != 'y' && "%d"[1] != 'm';
      assert "%d"[2..] == [] && Expand([], y, m, d) == [];
    }
    assert Expand(".%d", y, m, d) == ".07" by {
      assert ".%d"[1..] == "%d";
    }
    assert Expand("%m.%d", y, m, d) == "03.07" by {
      assert "%m.%d"[2..] == ".%d";
    }
    assert Expand(".%m.%d", y, m, d) == ".03.07" by {
      assert ".%m.%d"[1..] == "%m.%d";
    }
    assert "%y.%m.%d"[2..] == ".%m.%d";
  }

  /** A daily index name as configured in practice: any `%`-free prefix
      followed by `%y.%m.%d`. */
  lemma DailyIndexExample(prefix: string)
    requires forall i :: 0 <= i < |prefix| ==> prefix[i] != '%'
    ensures BuildIndexName(prefix + "%y.%m.%d", Date(2024, 3, 7)) == prefix + "2024.03.07"
  {
    ExampleFields();
    ExampleTail();
    ExpandPlainPrefix(prefix, "%y.%m.%d", "2024", "03", "07");
    BuildIndexNameExpands(prefix + "%y.%m.%d", Date(2024, 3, 7));
  }
}
