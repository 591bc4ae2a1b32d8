/** The formatting helpers of the inspector: the colour tier of a percentage,
    byte counts shown in MB or GB with two decimals, and a minute count
    shown as "Hh Mm". All four are pure and total on the inputs modelled. */
module Utils {

  datatype Option<T> = None | Some(value: T)

  /** The colour percentColor picks, abstracted to its tier. */
  datatype Tier = Red | Yellow | Green

  /** The order Red < Yellow < Green. */
  function Rank(t: Tier): nat
  {
    match t
    case Red => 0
    case Yellow => 1
    case Green => 2
  }

  /** percentColor: green from 80 up, yellow from 40 up, red below. */
  function PercentColor(p: real): (t: Tier)
    ensures t == Green <==> p >= 80.0
    ensures t == Yellow <==> 40.0 <= p < 80.0
    ensures t == Red <==> p < 40.0
  {
    if p >= 80.0 then Green else if p >= 40.0 then Yellow else Red
  }

  /** A larger percentage never gets a lower tier. */
  lemma PercentColorMonotone(p: real, q: real)
    requires p <= q
    ensures Rank(PercentColor(p)) <= Rank(PercentColor(q))
  {
  }

  // ---------------------------------------------------------------------
  // Decimal numerals

  predicate IsDigit(c: char)
  {
    '0' <= c <= '9'
  }

  predicate AllDigits(s: string)
  {
    forall i :: 0 <= i < |s| ==> IsDigit(s[i])
  }

  /** A numeral as JavaScript prints a non-negative integer: digits, and no
      leading zero unless the numeral is "0" itself. */
  predicate Canonical(s: string)
  {
    |s| >= 1 && AllDigits(s) && (|s| == 1 || s[0] != '0')
  }

  function DigitChar(d: nat): (c: char)
    requires d < 10
    ensures IsDigit(c) && c as int - '0' as int == d
  {
    ('0' as int + d) as char
  }

  /** The decimal numeral of n, as JavaScript prints a non-negative integer. */
  function NatToString(n: nat): (s: string)
    ensures Canonical(s)
    ensures |s| == 1 <==> n < 10
    decreases n
  {
    if n < 10 then [DigitChar(n)] else NatToString(n / 10) + [DigitChar(n % 10)]
  }

  /** The value a string of digits denotes. */
  function DigitsValue(s: string): nat
    requires AllDigits(s)
    decreases |s|
  {
    if s == [] then 0 else DigitsValue(s[..|s| - 1]) * 10 + (s[|s| - 1] as int - '0' as int)
  }

  /** Reading a printed numeral back gives the number printed. */
  lemma {:induction false} NatToStringRoundTrip(n: nat)
    ensures DigitsValue(NatToString(n)) == n
  {
    if n >= 10 {
      var s := NatToString(n);
      assert s[..|s| - 1] == NatToString(n / 10);
      NatToStringRoundTrip(n / 10);
    }
  }

  /** The printed numeral is the only canonical numeral of its value. */
  lemma {:induction false} CanonicalIsNatToString(s: string)
    requires Canonical(s)
    decreases |s|
    ensures s == NatToString(DigitsValue(s))
  {
    var v := DigitsValue(s);
    if |s| == 1 {
      assert s[..0] == [] && DigitsValue(s[..0]) == 0;
      assert v == DigitsValue(s[..0]) * 10 + (s[0] as int - '0' as int);
    } else {
      var p := s[..|s| - 1];
      var d := s[|s| - 1] as int - '0' as int;
      assert p[0] == s[0];
      assert Canonical(p);
      CanonicalIsNatToString(p);
      assert DigitsValue(p) >= 1 by {
        if |p| == 1 {
          assert p[..0] == [];
        }
      }
      assert v == DigitsValue(p) * 10 + d && 0 <= d < 10;
      assert v / 10 == DigitsValue(p) && v % 10 == d;
      assert s == p + [s[|s| - 1]];
    }
  }

  /** The decimal numeral of an integer, with a leading minus when negative. */
  function IntToString(i: int): string
  {
    if i < 0 then "-" + NatToString(-i) else NatToString(i)
  }

  // ---------------------------------------------------------------------
  // toMB and toGB

  const MiB: nat := 1048576     // 1024 * 1024
  const GiB: nat := 1073741824  // 1024 * 1024 * 1024

  /** A numeral with exactly two digits after the decimal point and a whole
      part printed without leading zeros. */
  predicate IsFixedTwo(s: string)
  {
    |s| >= 4 && Canonical(s[..|s| - 3]) && s[|s| - 3] == '.' && AllDigits(s[|s| - 2..])
  }

  /** The value of such a numeral, in hundredths. */
  function FixedTwoValue(s: string): nat
    requires IsFixedTwo(s)
  {
    DigitsValue(s[..|s| - 3]) * 100 + DigitsValue(s[|s| - 2..])
  }

  /** Two digits read back as the number they spell. */
  lemma TwoDigitsValue(tens: nat, ones: nat)
    requires tens < 10 && ones < 10
    ensures AllDigits([DigitChar(tens), DigitChar(ones)])
    ensures DigitsValue([DigitChar(tens), DigitChar(ones)]) == tens * 10 + ones
  {
    var ds := [DigitChar(tens), DigitChar(ones)];
    assert ds[..1] == [ds[0]] && [ds[0]][..0] == [];
    assert DigitsValue(ds[..1]) == tens;
    assert DigitsValue(ds) == DigitsValue(ds[..1]) * 10 + ones;
  }

  /** What toFixed(2) prints for the value n / 100 (n >= 0). */
  function FixedTwo(n: nat): (s: string)
    ensures IsFixedTwo(s) && FixedTwoValue(s) == n
  {
    var whole := NatToString(n / 100);
    var hundredths := n % 100;
    var cents := [DigitChar(hundredths / 10), DigitChar(hundredths % 10)];
    var s := whole + "." + cents;
    assert s[..|s| - 3] == whole;
    assert s[|s| - 2..] == cents;
    TwoDigitsValue(hundredths / 10, hundredths % 10);
    NatToStringRoundTrip(n / 100);
    s
  }

  /** Two digits are the digits of the number they spell. */
  lemma TwoDigitsAre(ds: string)
    requires |ds| == 2 && AllDigits(ds)
    ensures var v := DigitsValue(ds);
      v < 100 && ds == [DigitChar(v / 10), DigitChar(v % 10)]
  {
    var t, o := ds[0] as int - '0' as int, ds[1] as int - '0' as int;
    assert ds[..1] == [ds[0]] && [ds[0]][..0] == [];
    assert DigitsValue(ds[..1]) == t;
    assert DigitsValue(ds) == DigitsValue(ds[..1]) * 10 + o;
    assert (t * 10 + o) / 10 == t && (t * 10 + o) % 10 == o;
  }

  /** FixedTwo(n) is the only two-decimal numeral of value n: the text is
      determined by the value. */
  lemma FixedTwoUnique(s: string, n: nat)
    requires IsFixedTwo(s) && FixedTwoValue(s) == n
    ensures s == FixedTwo(n)
  {
    var whole, cents := s[..|s| - 3], s[|s| - 2..];
    CanonicalIsNatToString(whole);
    TwoDigitsAre(cents);
    var w, c := DigitsValue(whole), DigitsValue(cents);
    assert n == w * 100 + c && c < 100;
    assert n / 100 == w && n % 100 == c;
    assert s == whole + "." + cents;
  }

  /** How far n / 100 lies from bytes / unit, scaled by 100 * unit. */
  function Gap(n: int, bytes: nat, unit: nat): nat
  {
    if n * unit >= 100 * bytes then n * unit - 100 * bytes else 100 * bytes - n * unit
  }

  /** n / 100 is the value Number.prototype.toFixed(2) picks for bytes / unit
      (section 21.1.3.3 of ECMA-262): the nearest hundredth, the larger one on a tie. */
  ghost predicate NearestHundredths(n: int, bytes: nat, unit: nat)
  {
    forall m: int :: Gap(n, bytes, unit) <= Gap(m, bytes, unit) &&
      (Gap(m, bytes, unit) == Gap(n, bytes, unit) ==> m <= n)
  }

  lemma MulMonotone(a: int, b: int, c: nat)
    requires a <= b
    ensures a * c <= b * c
  {
    assert b * c - a * c == (b - a) * c;
  }

  /** A larger candidate lies at least as far away, and strictly farther
      unless it ties from above. */
  lemma AboveIsNoNearer(bytes: nat, unit: nat, n: int, m: int)
    requires unit > 0 && unit % 2 == 0
    requires n * unit <= 100 * bytes + unit / 2 < n * unit + unit
    requires m > n
    ensures Gap(n, bytes, unit) < Gap(m, bytes, unit)
  {
    MulMonotone(n + 1, m, unit);
    assert (n + 1) * unit == n * unit + unit;
  }

  /** A smaller candidate lies at least as far away. */
  lemma BelowIsNoNearer(bytes: nat, unit: nat, n: int, m: int)
    requires unit > 0 && unit % 2 == 0
    requires n * unit <= 100 * bytes + unit / 2 < n * unit + unit
    requires m < n
    ensures Gap(n, bytes, unit) <= Gap(m, bytes, unit)
  {
    MulMonotone(m, n - 1, unit);
    assert (n - 1) * unit == n * unit - unit;
  }

  lemma HalfUpIsNearest(bytes: nat, unit: nat, n: int)
    requires unit > 0 && unit % 2 == 0
    requires n * unit <= 100 * bytes + unit / 2 < n * unit + unit
    ensures NearestHundredths(n, bytes, unit)
  {
    forall m: int
      ensures Gap(n, bytes, unit) <= Gap(m, bytes, unit) &&
        (Gap(m, bytes, unit) == Gap(n, bytes, unit) ==> m <= n)
    {
      if m > n {
        AboveIsNoNearer(bytes, unit, n, m);
      } else if m < n {
        BelowIsNoNearer(bytes, unit, n, m);
      }
    }
  }

  /** bytes / unit rounded to hundredths, half up, computed exactly. */
  function RoundHundredths(bytes: nat, unit: nat): (n: nat)
    requires unit > 0 && unit % 2 == 0
    ensures NearestHundredths(n, bytes, unit)
  {
    var n := (100 * bytes + unit / 2) / unit;
    HalfUpIsNearest(bytes, unit, n);
    n
  }

  /** toMB: bytes / 1024 / 1024 with two decimals, then " MB". */
  function ToMB(bytes: nat): (r: string)
    ensures |r| >= 7 && r[|r| - 3..] == " MB"
    ensures IsFixedTwo(r[..|r| - 3])
  {
    var s := FixedTwo(RoundHundredths(bytes, MiB));
    assert (s + " MB")[..|s|] == s;
    s + " MB"
  }

  /** The number toMB prints is bytes / MiB rounded as toFixed(2) rounds. */
  lemma ToMBRounding(bytes: nat)
    ensures var r := ToMB(bytes); NearestHundredths(FixedTwoValue(r[..|r| - 3]), bytes, MiB)
  {
    var s := FixedTwo(RoundHundredths(bytes, MiB));
    assert ToMB(bytes)[..|s|] == s;
  }

  /** toGB: bytes / 1024 / 1024 / 1024 with two decimals, then " GB". */
  function ToGB(bytes: nat): (r: string)
    ensures |r| >= 7 && r[|r| - 3..] == " GB"
    ensures IsFixedTwo(r[..|r| - 3])
  {
    var s := FixedTwo(RoundHundredths(bytes, GiB));
    assert (s + " GB")[..|s|] == s;
    s + " GB"
  }

  /** The number toGB prints is bytes / GiB rounded as toFixed(2) rounds. */
  lemma ToGBRounding(bytes: nat)
    ensures var r := ToGB(bytes); NearestHundredths(FixedTwoValue(r[..|r| - 3]), bytes, GiB)
  {
    var s := FixedTwo(RoundHundredths(bytes, GiB));
    assert ToGB(bytes)[..|s|] == s;
  }

  /** Only one hundredth is nearest: the rounding rule fixes the printed value. */
  lemma NearestIsUnique(n: int, k: int, bytes: nat, unit: nat)
    requires NearestHundredths(n, bytes, unit) && NearestHundredths(k, bytes, unit)
    ensures n == k
  {
    assert Gap(n, bytes, unit) <= Gap(k, bytes, unit);
    assert Gap(k, bytes, unit) <= Gap(n, bytes, unit);
  }

  /** toMB's text is the only two-decimal numeral rounded as toFixed(2)
      rounds, followed by " MB". */
  lemma ToMBDetermined(bytes: nat, s: string)
    requires IsFixedTwo(s) && NearestHundredths(FixedTwoValue(s), bytes, MiB)
    ensures ToMB(bytes) == s + " MB"
  {
    var n := RoundHundredths(bytes, MiB);
    NearestIsUnique(FixedTwoValue(s), n, bytes, MiB);
    FixedTwoUnique(s, n);
  }

  /** toGB's text is the only two-decimal numeral rounded as toFixed(2)
      rounds, followed by " GB". */
  lemma ToGBDetermined(bytes: nat, s: string)
    requires IsFixedTwo(s) && NearestHundredths(FixedTwoValue(s), bytes, GiB)
    ensures ToGB(bytes) == s + " GB"
  {
    var n := RoundHundredths(bytes, GiB);
    NearestIsUnique(FixedTwoValue(s), n, bytes, GiB);
    FixedTwoUnique(s, n);
  }

  lemma OneMebibyte()
    ensures ToMB(1048576) == "1.00 MB"
  {
    assert RoundHundredths(1048576, MiB) == 100;
    assert NatToString(1) == "1";
  }

  lemma OneGibibyte()
    ensures ToGB(1073741824) == "1.00 GB"
  {
    assert RoundHundredths(1073741824, GiB) == 100;
    assert NatToString(1) == "1";
  }

  // ---------------------------------------------------------------------
  // minutesToTime

  /** The placeholder minutesToTime returns: the UTF-8 bytes of an em dash
      read as Windows-1252, exactly as they stand in the helper. */
  const MinutesPlaceholder: string := "\U{00E2}\U{20AC}\U{201D}"

  /** minutesToTime: the placeholder for null, zero (falsy) and negative
      counts; otherwise whole hours and the remaining minutes. */
  function MinutesToTime(min: Option<int>): (r: string)
    ensures r == MinutesPlaceholder <==> min == None || min.value <= 0
  {
    if min.None? || min.value == 0 || min.value < 0 then MinutesPlaceholder
    else NatToString(min.value / 60) + "h " + NatToString(min.value % 60) + "m"
  }

  /** The first position of c in s, or |s| when there is none. */
  function FirstIndex(s: string, c: char): (i: nat)
    ensures i <= |s|
    ensures i < |s| ==> s[i] == c
    ensures forall j :: 0 <= j < i ==> s[j] != c
  {
    if s == [] || s[0] == c then 0 else 1 + FirstIndex(s[1..], c)
  }

  /** Reads "{h}h {m}m", both numerals printed as JavaScript prints them and
      m below 60, back as a minute count. */
  function ParseDuration(s: string): Option<nat>
  {
    var i := FirstIndex(s, 'h');
    if 0 < i && i + 3 < |s| && s[i + 1] == ' ' && s[|s| - 1] == 'm' &&
       Canonical(s[..i]) && Canonical(s[i + 2..|s| - 1]) &&
       DigitsValue(s[i + 2..|s| - 1]) < 60
    then Some(DigitsValue(s[..i]) * 60 + DigitsValue(s[i + 2..|s| - 1]))
    else None
  }

  /** A positive minute count is printed as hours and minutes below 60 that
      add back up to it. */
  lemma MinutesToTimeRoundTrip(min: int)
    requires min > 0
    ensures ParseDuration(MinutesToTime(Some(min))) == Some(min)
  {
    var hs, ms := NatToString(min / 60), NatToString(min % 60);
    var s := hs + "h " + ms + "m";
    assert MinutesToTime(Some(min)) == s;
    assert s[|hs|] == 'h';
    assert forall j :: 0 <= j < |hs| ==> s[j] == hs[j];
    assert FirstIndex(s, 'h') == |hs|;
    assert s[..|hs|] == hs;
    assert s[|hs| + 2..|s| - 1] == ms;
    NatToStringRoundTrip(min / 60);
    NatToStringRoundTrip(min % 60);
  }

  /** Conversely, the only text read back as a positive count is the text
      minutesToTime prints for it. */
  lemma ParseDurationOnlyPrinted(s: string, min: nat)
    requires ParseDuration(s) == Some(min) && min > 0
    ensures s == MinutesToTime(Some(min))
  {
    var i := FirstIndex(s, 'h');
    var hs, ms := s[..i], s[i + 2..|s| - 1];
    CanonicalIsNatToString(hs);
    CanonicalIsNatToString(ms);
    var h, m := DigitsValue(hs), DigitsValue(ms);
    assert min == h * 60 + m && m < 60;
    assert min / 60 == h && min % 60 == m;
    assert s == hs + "h " + ms + "m";
  }

  lemma TwoHoursFiveMinutes()
    ensures MinutesToTime(Some(125)) == "2h 5m"
  {
    assert NatToString(2) == "2";
    assert NatToString(5) == "5";
  }
}
