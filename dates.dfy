/**
 The travel date of a query: how the plugin chooses a `datetime.strptime`
 format for the date token, which tokens that format accepts, and the
 `YYYY-MM-DD` text that `datetime.strftime(.., "%Y-%m-%d")` writes back.

 The accepted language is the subset stated in the README: a 4-digit year
 and a 1-2 digit month and day around the separator, exactly 8 digits
 without one, and a real calendar date (leap years included).
 */
module Dates {
  import opened Text

  datatype Date = Date(year: nat, month: nat, day: nat)

  /** The three formats the parser can pick for the date token. */
  datatype Format = Dashed | Slashed | Compact

  predicate IsLeap(y: nat) {
    y % 4 == 0 && (y % 100 != 0 || y % 400 == 0)
  }

  function DaysInMonth(y: nat, m: nat): nat
    requires 1 <= m <= 12
  {
    if m == 2 then (if IsLeap(y) then 29 else 28)
    else if m == 4 || m == 6 || m == 9 || m == 11 then 30
    else 31
  }

  /** A date `datetime` can hold whose year has four digits. */
  predicate IsValid(d: Date) {
    1 <= d.year <= 9999 && 1 <= d.month <= 12 && 1 <= d.day <= DaysInMonth(d.year, d.month)
  }

  /** `%Y-%m-%d` if the token has a `-`, else `%Y/%m/%d` if it has a `/`, else `%Y%m%d`. */
  function FormatFor(s: string): (r: Format)
    ensures r == Dashed <==> '-' in s
    ensures r == Slashed <==> '-' !in s && '/' in s
  {
    if '-' in s then Dashed
    else if '/' in s then Slashed
    else Compact
  }

  /** The pieces of `s` between occurrences of `sep`. */
  function SplitOn(s: string, sep: char): (r: seq<string>)
    ensures |r| >= 1
    ensures forall k :: 0 <= k < |r| ==> sep !in r[k]
    decreases |s|
  {
    if sep !in s then [s]
    else
      var i := FirstIndex(s, sep);
      assert forall j :: 0 <= j < i ==> s[..i][j] == s[j];
      [s[..i]] + SplitOn(s[i + 1..], sep)
  }

  /** The date named by year, month and day digit fields of the accepted widths. */
  function DateOf(ys: string, ms: string, ds: string): Option<Date> {
    if |ys| == 4 && IsDigits(ys) && 1 <= |ms| <= 2 && IsDigits(ms) && 1 <= |ds| <= 2 && IsDigits(ds) then
      var d := Date(DigitsValue(ys), DigitsValue(ms), DigitsValue(ds));
      if IsValid(d) then Some(d) else None
    else None
  }

  /** `datetime.strptime(s, fmt)`: `None` stands for the `ValueError`. */
  function StrpTime(s: string, fmt: Format): (r: Option<Date>)
    ensures r.Some? ==> IsValid(r.value)
    ensures r.Some? && fmt == Compact ==> |s| == 8
  {
    match fmt
    case Dashed =>
      var p := SplitOn(s, '-');
      if |p| == 3 then DateOf(p[0], p[1], p[2]) else None
    case Slashed =>
      var p := SplitOn(s, '/');
      if |p| == 3 then DateOf(p[0], p[1], p[2]) else None
    case Compact =>
      if |s| == 8 then DateOf(s[..4], s[4..6], s[6..]) else None
  }

  /** The date token parsed with the format chosen for it. */
  function ParseDate(s: string): (r: Option<Date>)
    ensures r.Some? ==> IsValid(r.value)
  {
    StrpTime(s, FormatFor(s))
  }

  function Pad2(n: nat): (s: string)
    requires n < 100
    ensures |s| == 2 && IsDigits(s)
  {
    [DigitChar(n / 10), DigitChar(n % 10)]
  }

  function Pad4(n: nat): (s: string)
    requires n < 10000
    ensures |s| == 4 && IsDigits(s)
  {
    [DigitChar(n / 1000), DigitChar(n / 100 % 10), DigitChar(n / 10 % 10), DigitChar(n % 10)]
  }

  /** `strftime(d, "%Y-%m-%d")`: zero-padded year, month and day. */
  function FormatDate(d: Date): (s: string)
    requires IsValid(d)
    ensures |s| == 10 && s[4] == '-' && s[7] == '-'
    ensures IsDigits(s[..4]) && IsDigits(s[5..7]) && IsDigits(s[8..])
  {
    var s := Pad4(d.year) + "-" + Pad2(d.month) + "-" + Pad2(d.day);
    assert s[..4] == Pad4(d.year) && s[5..7] == Pad2(d.month) && s[8..] == Pad2(d.day);
    s
  }

  /** A month or day written without a leading zero, as in `2016-7-4`. */
  function Unpadded(n: nat): (s: string)
    requires 1 <= n < 100
    ensures 1 <= |s| <= 2 && IsDigits(s)
  {
    if n < 10 then [DigitChar(n)] else Pad2(n)
  }

  lemma Pad2Value(n: nat)
    requires n < 100
    ensures DigitsValue(Pad2(n)) == n
  {
    var s := Pad2(n);
    assert s[..1][..0] == [];
    assert DigitsValue(s[..1]) == n / 10;
  }

  lemma Pad4Value(n: nat)
    requires n < 10000
    ensures DigitsValue(Pad4(n)) == n
  {
    var s := Pad4(n);
    var h, t := n / 100, n / 10;
    assert n / 1000 == h / 10 && h == t / 10;
    assert s[..1][..0] == [] && s[..1][0] == s[0];
    assert s[..2][..1] == s[..1] && s[..2][1] == s[1];
    assert s[..3][..2] == s[..2] && s[..3][2] == s[2];
    assert DigitsValue(s[..1]) == h / 10;
    assert DigitsValue(s[..2]) == (h / 10) * 10 + h % 10 == h;
    assert DigitsValue(s[..3]) == (t / 10) * 10 + t % 10 == t;
    assert DigitsValue(s) == t * 10 + n % 10;
  }

  lemma UnpaddedValue(n: nat)
    requires 1 <= n < 100
    ensures DigitsValue(Unpadded(n)) == n
  {
    if n < 10 {
      assert Unpadded(n)[..0] == [];
    } else {
      Pad2Value(n);
    }
  }

  /** A two-digit field is the zero-padded form of its own value. */
  lemma Pad2OfValue(s: string)
    requires |s| == 2 && IsDigits(s)
    ensures DigitsValue(s) < 100 && Pad2(DigitsValue(s)) == s
  {
    assert s[..1][..0] == [] && s[..1][0] == s[0];
    assert DigitsValue(s[..1]) == DigitValue(s[0]);
    assert DigitsValue(s) == DigitValue(s[0]) * 10 + DigitValue(s[1]);
  }

  lemma FourDigits(a: nat, b: nat, c: nat, e: nat)
    requires a < 10 && b < 10 && c < 10 && e < 10
    ensures var v := ((a * 10 + b) * 10 + c) * 10 + e;
      v < 10000 && v / 1000 == a && v / 100 % 10 == b && v / 10 % 10 == c && v % 10 == e
  {
  }

  /** A four-digit field is the zero-padded form of its own value. */
  lemma Pad4OfValue(s: string)
    requires |s| == 4 && IsDigits(s)
    ensures DigitsValue(s) < 10000 && Pad4(DigitsValue(s)) == s
  {
    assert s[..1][..0] == [] && s[..1][0] == s[0];
    assert s[..2][..1] == s[..1] && s[..2][1] == s[1];
    assert s[..3][..2] == s[..2] && s[..3][2] == s[2];
    assert s[..3] == s[..|s| - 1];
    var a, b, c, e := DigitValue(s[0]), DigitValue(s[1]), DigitValue(s[2]), DigitValue(s[3]);
    assert DigitsValue(s[..1]) == a;
    assert DigitsValue(s[..2]) == a * 10 + b;
    assert DigitsValue(s[..3]) == (a * 10 + b) * 10 + c;
    assert DigitsValue(s) == ((a * 10 + b) * 10 + c) * 10 + e;
    FourDigits(a, b, c, e);
  }

  lemma DigitsHaveNoSeparator(s: string)
    requires IsDigits(s)
    ensures '-' !in s && '/' !in s
  {
    assert forall i :: 0 <= i < |s| ==> s[i] != '-' && s[i] != '/';
  }

  lemma SplitOnCons(a: string, t: string, sep: char)
    requires sep !in a
    ensures SplitOn(a + [sep] + t, sep) == [a] + SplitOn(t, sep)
  {
    var s := a + [sep] + t;
    assert s[|a|] == sep;
    assert forall j :: 0 <= j < |a| ==> s[j] == a[j];
    var i := FirstIndex(s, sep);
    assert i == |a|;
    assert s[..i] == a && s[i + 1..] == t;
  }

  lemma SplitOnThree(a: string, b: string, c: string, sep: char)
    requires sep !in a && sep !in b && sep !in c
    ensures SplitOn(a + [sep] + b + [sep] + c, sep) == [a, b, c]
  {
    assert a + [sep] + b + [sep] + c == a + [sep] + (b + [sep] + c);
    SplitOnCons(a, b + [sep] + c, sep);
    SplitOnCons(b, c, sep);
  }

  /**
   Digit fields of the accepted widths written around `-` or `/` parse to the
   date they name when it is a real calendar date, and are refused otherwise.
   */
  lemma {:induction false} SeparatedParse(ys: string, ms: string, ds: string, sep: char)
    requires sep == '-' || sep == '/'
    requires |ys| == 4 && IsDigits(ys) && 1 <= |ms| <= 2 && IsDigits(ms) && 1 <= |ds| <= 2 && IsDigits(ds)
    ensures ParseDate(ys + [sep] + ms + [sep] + ds) == DateOf(ys, ms, ds)
  {
    var s := ys + [sep] + ms + [sep] + ds;
    DigitsHaveNoSeparator(ys);
    DigitsHaveNoSeparator(ms);
    DigitsHaveNoSeparator(ds);
    SplitOnThree(ys, ms, ds, sep);
    assert s[|ys|] == sep;
    if sep == '/' {
      forall i | 0 <= i < |s| ensures s[i] != '-' {
        if i < |ys| {
          assert s[i] == ys[i];
        } else if i < |ys| + 1 + |ms| && i != |ys| {
          assert s[i] == ms[i - |ys| - 1];
        } else if i > |ys| + 1 + |ms| {
          assert s[i] == ds[i - |ys| - |ms| - 2];
        }
      }
      assert FormatFor(s) == Slashed;
    } else {
      assert FormatFor(s) == Dashed;
    }
  }

  /** A year, month and day written around `-` or `/` parse to that date, padded or not. */
  lemma SeparatedForm(ys: string, ms: string, ds: string, sep: char)
    requires sep == '-' || sep == '/'
    requires |ys| == 4 && IsDigits(ys) && 1 <= |ms| <= 2 && IsDigits(ms) && 1 <= |ds| <= 2 && IsDigits(ds)
    requires IsValid(Date(DigitsValue(ys), DigitsValue(ms), DigitsValue(ds)))
    ensures ParseDate(ys + [sep] + ms + [sep] + ds) == Some(Date(DigitsValue(ys), DigitsValue(ms), DigitsValue(ds)))
  {
    SeparatedParse(ys, ms, ds, sep);
  }

  /** Well-formed fields around `-` or `/` that name no calendar date (`2015-2-29`, `2016/13/01`) are refused. */
  lemma SeparatedRefused(ys: string, ms: string, ds: string, sep: char)
    requires sep == '-' || sep == '/'
    requires |ys| == 4 && IsDigits(ys) && 1 <= |ms| <= 2 && IsDigits(ms) && 1 <= |ds| <= 2 && IsDigits(ds)
    requires !IsValid(Date(DigitsValue(ys), DigitsValue(ms), DigitsValue(ds)))
    ensures ParseDate(ys + [sep] + ms + [sep] + ds) == None
  {
    SeparatedParse(ys, ms, ds, sep);
  }

  /** Eight digits parse to the date of their 4-2-2 split when it is a calendar date, and are refused otherwise. */
  lemma {:induction false} CompactParse(ys: string, ms: string, ds: string)
    requires |ys| == 4 && IsDigits(ys) && |ms| == 2 && IsDigits(ms) && |ds| == 2 && IsDigits(ds)
    ensures ParseDate(ys + ms + ds) == DateOf(ys, ms, ds)
  {
    var s := ys + ms + ds;
    assert IsDigits(s) by {
      forall i | 0 <= i < |s| ensures IsDigit(s[i]) {
        if i < 4 { assert s[i] == ys[i]; }
        else if i < 6 { assert s[i] == ms[i - 4]; }
        else { assert s[i] == ds[i - 6]; }
      }
    }
    DigitsHaveNoSeparator(s);
    assert s[..4] == ys && s[4..6] == ms && s[6..] == ds;
  }

  /** Eight digits parse to the date of their 4-2-2 split. */
  lemma CompactForm(ys: string, ms: string, ds: string)
    requires |ys| == 4 && IsDigits(ys) && |ms| == 2 && IsDigits(ms) && |ds| == 2 && IsDigits(ds)
    requires IsValid(Date(DigitsValue(ys), DigitsValue(ms), DigitsValue(ds)))
    ensures ParseDate(ys + ms + ds) == Some(Date(DigitsValue(ys), DigitsValue(ms), DigitsValue(ds)))
  {
    CompactParse(ys, ms, ds);
  }

  /** Eight digits whose 4-2-2 split names no calendar date (`20150229`, `20161301`) are refused. */
  lemma CompactRefused(ys: string, ms: string, ds: string)
    requires |ys| == 4 && IsDigits(ys) && |ms| == 2 && IsDigits(ms) && |ds| == 2 && IsDigits(ds)
    requires !IsValid(Date(DigitsValue(ys), DigitsValue(ms), DigitsValue(ds)))
    ensures ParseDate(ys + ms + ds) == None
  {
    CompactParse(ys, ms, ds);
  }

  /** Joining the pieces of `s` around `sep` with `sep` gives `s` back. */
  lemma {:induction false} SplitOnJoin(s: string, sep: char)
    ensures Join(SplitOn(s, sep), [sep]) == s
    decreases |s|
  {
    if sep in s {
      var i := FirstIndex(s, sep);
      var rest := SplitOn(s[i + 1..], sep);
      SplitOnJoin(s[i + 1..], sep);
      assert SplitOn(s, sep) == [s[..i]] + rest;
      assert ([s[..i]] + rest)[1..] == rest;
      assert s == s[..i] + [sep] + s[i + 1..];
    }
  }

  /**
   An accepted token with a separator is three digit fields of the accepted
   widths around it, and its date is the one those fields name.
   */
  lemma SeparatedFields(s: string, sep: char)
    requires (FormatFor(s) == Dashed && sep == '-') || (FormatFor(s) == Slashed && sep == '/')
    requires ParseDate(s).Some?
    ensures var p := SplitOn(s, sep);
      |p| == 3 && s == p[0] + [sep] + p[1] + [sep] + p[2]
      && |p[0]| == 4 && IsDigits(p[0]) && 1 <= |p[1]| <= 2 && IsDigits(p[1]) && 1 <= |p[2]| <= 2 && IsDigits(p[2])
      && ParseDate(s).value == Date(DigitsValue(p[0]), DigitsValue(p[1]), DigitsValue(p[2]))
  {
    var p := SplitOn(s, sep);
    if sep == '-' {
      assert ParseDate(s) == StrpTime(s, Dashed);
    } else {
      assert ParseDate(s) == StrpTime(s, Slashed);
    }
    assert |p| == 3 && ParseDate(s) == DateOf(p[0], p[1], p[2]);
    SplitOnJoin(s, sep);
    JoinThree(p, [sep]);
  }

  lemma JoinThree(p: seq<string>, sep: string)
    requires |p| == 3
    ensures Join(p, sep) == p[0] + sep + p[1] + sep + p[2]
  {
    assert p[1..][0] == p[1] && p[1..][1..] == [p[2]];
    assert Join(p[1..], sep) == p[1] + sep + p[2];
  }

  /** An accepted token without a separator is eight digits, and its date is that of their 4-2-2 split. */
  lemma CompactFields(s: string)
    requires FormatFor(s) == Compact && ParseDate(s).Some?
    ensures |s| == 8 && IsDigits(s) && '-' !in s && '/' !in s
    ensures ParseDate(s).value == Date(DigitsValue(s[..4]), DigitsValue(s[4..6]), DigitsValue(s[6..]))
  {
    assert |s| == 8 && ParseDate(s) == DateOf(s[..4], s[4..6], s[6..]);
    forall i | 0 <= i < |s| ensures IsDigit(s[i]) {
      if i < 4 { assert s[i] == s[..4][i]; }
      else if i < 6 { assert s[i] == s[4..6][i - 4]; }
      else { assert s[i] == s[6..][i - 6]; }
    }
  }

  /** Normalising loses nothing: the written-back text parses to the same date. */
  lemma {:induction false} FormatRoundTrip(d: Date)
    requires IsValid(d)
    ensures ParseDate(FormatDate(d)) == Some(d)
  {
    Pad4Value(d.year);
    Pad2Value(d.month);
    Pad2Value(d.day);
    SeparatedForm(Pad4(d.year), Pad2(d.month), Pad2(d.day), '-');
    assert FormatDate(d) == Pad4(d.year) + ['-'] + Pad2(d.month) + ['-'] + Pad2(d.day);
  }

  /** Every way of writing a valid date that the parser accepts denotes that date. */
  lemma {:induction false} AllFormsAgree(d: Date)
    requires IsValid(d)
    ensures ParseDate(Pad4(d.year) + "-" + Unpadded(d.month) + "-" + Unpadded(d.day)) == Some(d)
    ensures ParseDate(Pad4(d.year) + "/" + Pad2(d.month) + "/" + Pad2(d.day)) == Some(d)
    ensures ParseDate(Pad4(d.year) + "/" + Unpadded(d.month) + "/" + Unpadded(d.day)) == Some(d)
    ensures ParseDate(Pad4(d.year) + Pad2(d.month) + Pad2(d.day)) == Some(d)
    ensures ParseDate(FormatDate(d)) == Some(d)
  {
    Pad4Value(d.year);
    Pad2Value(d.month);
    Pad2Value(d.day);
    UnpaddedValue(d.month);
    UnpaddedValue(d.day);
    SeparatedForm(Pad4(d.year), Unpadded(d.month), Unpadded(d.day), '-');
    SeparatedForm(Pad4(d.year), Pad2(d.month), Pad2(d.day), '/');
    SeparatedForm(Pad4(d.year), Unpadded(d.month), Unpadded(d.day), '/');
    CompactForm(Pad4(d.year), Pad2(d.month), Pad2(d.day));
    FormatRoundTrip(d);
  }

  /** An accepted 8-digit token is normalised by putting dashes after the year and the month. */
  lemma {:induction false} CompactNormalisation(s: string)
    requires FormatFor(s) == Compact && ParseDate(s).Some?
    ensures |s| == 8 && FormatDate(ParseDate(s).value) == s[..4] + "-" + s[4..6] + "-" + s[6..]
  {
    Pad4OfValue(s[..4]);
    Pad2OfValue(s[4..6]);
    Pad2OfValue(s[6..]);
  }

  /** An accepted token already in `YYYY-MM-DD` form is left as it is. */
  lemma {:induction false} NormalFormIsFixed(s: string)
    requires |s| == 10 && s[4] == '-' && s[7] == '-'
    requires IsDigits(s[..4]) && IsDigits(s[5..7]) && IsDigits(s[8..])
    requires ParseDate(s).Some?
    ensures FormatDate(ParseDate(s).value) == s
  {
    var ys, ms, ds := s[..4], s[5..7], s[8..];
    assert s == ys + ['-'] + ms + ['-'] + ds;
    DigitsHaveNoSeparator(ys);
    DigitsHaveNoSeparator(ms);
    DigitsHaveNoSeparator(ds);
    SplitOnThree(ys, ms, ds, '-');
    assert FormatFor(s) == Dashed;
    Pad4OfValue(ys);
    Pad2OfValue(ms);
    Pad2OfValue(ds);
  }

  /** `2016-7-4`, `2016/07/04` and `20160704` all denote 4 July 2016. */
  lemma ExampleDashed()
    ensures ParseDate("2016-7-4") == Some(Date(2016, 7, 4))
  {
    var ys, ms, ds := Pad4(2016), Unpadded(7), Unpadded(4);
    assert ys == "2016" && ms == "7" && ds == "4";
    assert ys + ['-'] + ms + ['-'] + ds == "2016-7-4";
    Pad4Value(2016);
    UnpaddedValue(7);
    UnpaddedValue(4);
    SeparatedForm(ys, ms, ds, '-');
  }

  lemma ExampleSlashed()
    ensures ParseDate("2016/07/04") == Some(Date(2016, 7, 4))
  {
    var ys, ms, ds := Pad4(2016), Pad2(7), Pad2(4);
    assert ys == "2016" && ms == "07" && ds == "04";
    assert ys + ['/'] + ms + ['/'] + ds == "2016/07/04";
    Pad4Value(2016);
    Pad2Value(7);
    Pad2Value(4);
    SeparatedForm(ys, ms, ds, '/');
  }

  lemma ExampleCompact()
    ensures ParseDate("20160704") == Some(Date(2016, 7, 4))
  {
    var ys, ms, ds := Pad4(2016), Pad2(7), Pad2(4);
    assert ys == "2016" && ms == "07" && ds == "04";
    assert ys + ms + ds == "20160704";
    Pad4Value(2016);
    Pad2Value(7);
    Pad2Value(4);
    CompactForm(ys, ms, ds);
  }

  /** The normalised text of 4 July 2016. */
  lemma ExampleNormalised()
    ensures FormatDate(Date(2016, 7, 4)) == "2016-07-04"
  {
  }

  /** 29 February is accepted in a leap year ... */
  lemma ExampleLeapDay()
    ensures ParseDate("20160229") == Some(Date(2016, 2, 29))
  {
    var ys, ms, ds := Pad4(2016), Pad2(2), Pad2(29);
    assert ys == "2016" && ms == "02" && ds == "29";
    assert ys + ms + ds == "20160229";
    Pad4Value(2016);
    Pad2Value(2);
    Pad2Value(29);
    CompactForm(ys, ms, ds);
  }

  /** ... and refused in any other year. */
  lemma ExampleNoLeapDay()
    ensures ParseDate("20150229") == None
  {
    var ys, ms, ds := Pad4(2015), Pad2(2), Pad2(29);
    assert ys == "2015" && ms == "02" && ds == "29";
    assert ys + ms + ds == "20150229";
    Pad4Value(2015);
    Pad2Value(2);
    Pad2Value(29);
    assert !IsLeap(2015) && DaysInMonth(2015, 2) == 28;
    CompactRefused(ys, ms, ds);
  }
}
