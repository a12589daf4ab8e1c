/** The weather-icon image name on the current-conditions card: the icon
    number, zero-padded to two digits when below 10, followed by "-s.png". */
module WeatherIcon {
  import opened Wrappers
  import opened Cities

  const UrlPrefix: string := "https://developer.accuweather.com/sites/default/files/"
  const Suffix: string := "-s.png"

  predicate IsDigit(ch: char) {
    '0' <= ch <= '9'
  }

  predicate IsDigits(s: string) {
    forall i :: 0 <= i < |s| ==> IsDigit(s[i])
  }

  function DigitChar(d: nat): (ch: char)
    requires d < 10
    ensures IsDigit(ch) && (ch as int) - ('0' as int) == d
  {
    ('0' as int + d) as char
  }

  /** The number a string of decimal digits denotes, leading zeros allowed. */
  function DecimalValue(s: string): nat
    requires IsDigits(s)
  {
    if |s| == 0 then 0
    else DecimalValue(s[..|s| - 1]) * 10 + ((s[|s| - 1] as int) - ('0' as int))
  }

  /** `String(n)` for a non-negative integer: its shortest decimal spelling. */
  function NatToString(n: nat): (s: string)
    ensures |s| >= 1 && IsDigits(s)
    ensures DecimalValue(s) == n
    ensures s[0] == '0' <==> n == 0
    ensures |s| == 1 <==> n < 10
  {
    if n < 10 then [DigitChar(n)]
    else
      var s := NatToString(n / 10) + [DigitChar(n % 10)];
      assert s[..|s| - 1] == NatToString(n / 10);
      s
  }

  /** `String(i)` for an integer: a minus sign before the spelling of a negative number. */
  function IntToString(i: int): (s: string)
    ensures i >= 0 ==> s == NatToString(i) && IsDigits(s) && DecimalValue(s) == i
    ensures i < 0 ==> s == "-" + NatToString(-i) && IsDigits(s[1..]) && DecimalValue(s[1..]) == -i
  {
    if i < 0 then "-" + NatToString(-i) else NatToString(i)
  }

  /** The file name for `currentWeather?.WeatherIcon`. A missing icon is not
      below 10 (the comparison with `undefined` is false) and renders as "undefined". */
  function IconFileName(icon: Option<int>): (f: string)
    ensures |f| > |Suffix| && f[|f| - |Suffix|..] == Suffix
    ensures icon.Some? && icon.value < 10 ==> f[0] == '0'
    ensures icon.Some? && icon.value >= 10 ==> f[0] != '0'
  {
    match icon
    case None => "undefined" + Suffix
    case Some(n) => (if n < 10 then "0" else "") + IntToString(n) + Suffix
  }

  /** The full image address for the card's current weather. */
  function IconUrl(cw: Option<CurrentWeather>): (u: string)
    ensures |u| > |UrlPrefix| && u[..|UrlPrefix|] == UrlPrefix
    ensures cw.None? || cw.value.weatherIcon.None? ==> u == UrlPrefix + "undefined-s.png"
    ensures cw.Some? && cw.value.weatherIcon.Some? && cw.value.weatherIcon.value >= 0 ==>
      ParseIconFileName(u[|UrlPrefix|..]) == Some(cw.value.weatherIcon.value)
  {
    var icon := match cw case None => None case Some(w) => w.weatherIcon;
    var u := UrlPrefix + IconFileName(icon);
    assert u[|UrlPrefix|..] == IconFileName(icon);
    if icon.Some? && icon.value >= 0 then
      IconFileNameRoundTrip(icon.value);
      u
    else u
  }

  /** Reads an icon number back from a file name: a non-empty run of digits
      followed by the suffix; None for anything else. */
  function ParseIconFileName(f: string): (r: Option<nat>)
    ensures r.Some? ==> |f| > |Suffix| && f[|f| - |Suffix|..] == Suffix
  {
    if |f| <= |Suffix| || f[|f| - |Suffix|..] != Suffix then None
    else
      var stem := f[..|f| - |Suffix|];
      if IsDigits(stem) then Some(DecimalValue(stem)) else None
  }

  /** A leading zero does not change the value of a digit string. */
  lemma {:induction false} LeadingZero(s: string)
    requires IsDigits(s)
    ensures IsDigits("0" + s) && DecimalValue("0" + s) == DecimalValue(s)
  {
    var z := "0" + s;
    assert IsDigits(z) by {
      forall i | 0 <= i < |z| ensures IsDigit(z[i]) {
        if i > 0 { assert z[i] == s[i - 1]; }
      }
    }
    if |s| > 0 {
      var p := s[..|s| - 1];
      assert z[..|z| - 1] == "0" + p;
      LeadingZero(p);
    }
  }

  /** For every non-negative icon number the stem of the file name is at least
      two digits and reads back as that number. */
  lemma IconFileNameRoundTrip(n: nat)
    ensures var f := IconFileName(Some(n));
      |f| >= |Suffix| + 2 && ParseIconFileName(f) == Some(n)
    ensures n < 10 ==> |IconFileName(Some(n))| == |Suffix| + 2
  {
    var f := IconFileName(Some(n));
    var stem := (if n < 10 then "0" else "") + NatToString(n);
    assert f == stem + Suffix;
    assert f[..|f| - |Suffix|] == stem;
    assert f[|f| - |Suffix|..] == Suffix;
    if n < 10 {
      LeadingZero(NatToString(n));
    } else {
      assert stem == NatToString(n);
    }
  }

  /** The two cases the card shows: 7 is padded, 12 is not. */
  lemma IconFileNameExamples()
    ensures IconFileName(Some(7)) == "07-s.png"
    ensures IconFileName(Some(12)) == "12-s.png"
    ensures IconFileName(None) == "undefined-s.png"
  {
  }
}
