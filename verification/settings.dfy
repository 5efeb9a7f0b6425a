/** Brightness arithmetic and the saved settings (`native/src/dashboard/settings.rs`). */
module Settings {
  import opened Wrappers
  import opened Arithmetic
  import opened CatalogReader
  import opened CatalogSyntax
  import opened CatalogRoundTrip

  datatype SettingError = OutOfRange | NoNewline | NotCanonical

  // ---- Brightness ----

  predicate BrightnessValid(percent: nat) {
    10 <= percent <= 100 && percent % 10 == 0
  }

  function Clamp(n: nat, low: nat, high: nat): nat
    requires low <= high
  {
    if n < low then low else if n > high then high else n
  }

  /** The backlight value for a percentage, rounded to the nearest. */
  function RawValue(percent: nat, max: nat): nat {
    if max == 0 then 0 else Clamp((Times(percent, max) + 50) / 100, 1, max)
  }

  /** The percentage a backlight value is shown as: rounded to the nearest percent, then to the nearest ten. */
  function ObservedPercent(cur: nat, max: nat): Result<nat, SettingError> {
    if max == 0 || cur > max then Err(OutOfRange)
    else Ok(Clamp((Quot(cur * 100 + max / 2, max) + 5) / 10 * 10, 10, 100))
  }

  predicate RoundTrips(percent: nat, max: nat) {
    ObservedPercent(RawValue(percent, max), max) == Ok(percent)
  }

  lemma TimesMore(a: nat, b: nat, c: nat)
    ensures Times(a + b, c) == Times(a, c) + Times(b, c)
  {
  }

  lemma RawIsNear(percent: nat, max: nat)
    requires BrightnessValid(percent) && max >= 10
    ensures var r := RawValue(percent, max);
      1 <= r <= max && Times(percent, max) < 100 * r + 50 && 100 * r <= Times(percent, max) + 50
  {
    TimesMonotone(10, percent, max);
    TimesMonotone(percent, 100, max);
    assert Times(10, max) >= 100 && Times(100, max) == 100 * max;
    hide Times;
  }

  /** A fine enough backlight shows every percentage that was set. */
  lemma FineBacklightRoundTrips(percent: nat, max: nat)
    requires BrightnessValid(percent) && max >= 12
    ensures RoundTrips(percent, max)
  {
    RawIsNear(percent, max);
    var r := RawValue(percent, max);
    NearIsShown(percent, max, r);
    hide RawValue, Quot;
  }

  lemma NearIsShown(percent: nat, max: nat, r: nat)
    requires BrightnessValid(percent) && max >= 12 && r <= max
    requires Times(percent, max) < 100 * r + 50 && 100 * r <= Times(percent, max) + 50
    ensures ObservedPercent(r, max) == Ok(percent)
  {
    var n := r * 100 + max / 2;
    TimesMore(percent - 5, 5, max);
    TimesMore(percent, 5, max);
    assert Times(5, max) == 5 * max;
    hide Times, Quot;
    Between(n, max, percent - 5, percent + 5);
    TensRound(percent, Quot(n, max));
  }

  lemma TensRound(percent: nat, o: nat)
    requires BrightnessValid(percent) && percent - 5 <= o < percent + 5
    ensures (o + 5) / 10 * 10 == percent
  {
  }

  lemma Between(n: nat, d: nat, low: nat, high: nat)
    requires d > 0 && Times(low, d) <= n < Times(high, d)
    ensures low <= Quot(n, d) < high
  {
    hide Times, Quot;
    QuotBound(n, d, high);
    QuotRange(n, d);
    if Quot(n, d) < low {
      TimesNext(Quot(n, d), d);
      TimesMonotone(Quot(n, d) + 1, low, d);
    }
  }

  /** With ten steps every percentage has its own. */
  lemma TenStepsRoundTrip(percent: nat)
    requires BrightnessValid(percent)
    ensures RoundTrips(percent, 10)
  {
    var tens := percent / 10;
    assert Times(percent, 10) == 10 * percent && RawValue(percent, 10) == tens;
    assert tens * 100 + 5 == Times(percent, 10) + 5;
    QuotOf(percent, 5, 10);
  }

  /** The first percentage a coarse backlight shows as another one. */
  function Misread(max: nat): nat {
    if max == 9 || max == 11 then 50 else if max == 3 || max == 7 || max == 8 then 20 else 10
  }

  lemma VeryCoarseMisreads(max: nat)
    requires max < 4
    ensures !RoundTrips(Misread(max), max)
  {
  }

  lemma RatherCoarseMisreads(max: nat)
    requires 4 <= max < 8
    ensures !RoundTrips(Misread(max), max)
  {
  }

  lemma BarelyCoarseMisreads(max: nat)
    requires max == 8 || max == 9 || max == 11
    ensures !RoundTrips(Misread(max), max)
  {
  }

  lemma CoarseBacklightMisreads(max: nat)
    requires max < 12 && max != 10
    ensures BrightnessValid(Misread(max)) && !RoundTrips(Misread(max), max)
  {
    hide RoundTrips;
    if max < 4 {
      VeryCoarseMisreads(max);
    } else if max < 8 {
      RatherCoarseMisreads(max);
    } else {
      BarelyCoarseMisreads(max);
    }
  }

  /** All ten percentages survive on a backlight exactly when it has ten steps, or at least twelve. */
  lemma BrightnessRoundTripsExactly(max: nat)
    ensures (forall percent :: BrightnessValid(percent) ==> RoundTrips(percent, max)) <==> max == 10 || max >= 12
  {
    hide RoundTrips, BrightnessValid;
    if max >= 12 {
      forall percent | BrightnessValid(percent)
        ensures RoundTrips(percent, max)
      {
        FineBacklightRoundTrips(percent, max);
      }
    } else if max == 10 {
      forall percent | BrightnessValid(percent)
        ensures RoundTrips(percent, max)
      {
        TenStepsRoundTrip(percent);
      }
    } else {
      CoarseBacklightMisreads(max);
    }
  }

  // ---- Saved volume ----

  function VolumeText(volume: nat): Result<string, SettingError> {
    if volume <= 100 then Ok(Digits(volume) + "\n") else Err(OutOfRange)
  }

  predicate AllDigits(s: string) {
    forall i :: 0 <= i < |s| ==> Digit(s[i])
  }

  function ParseVolume(s: string): Result<nat, SettingError> {
    if s == "" || s[|s| - 1] != '\n' then Err(NoNewline)
    else
      var d := s[..|s| - 1];
      if d == "" || (|d| > 1 && d[0] == '0') || !AllDigits(d) then Err(NotCanonical)
      else if Value(d) <= 100 then Ok(Value(d)) else Err(OutOfRange)
  }

  function DigitOf(c: char): nat
    requires Digit(c)
  {
    c as int - '0' as int
  }

  lemma DigitIsPrinted(c: char)
    requires Digit(c)
    ensures DigitOf(c) < 10 && Digits(DigitOf(c)) == [c] && DigitChar(DigitOf(c)) == c
  {
  }

  lemma PrintsOneMore(n: nat, digit: nat)
    requires n >= 1 && digit < 10
    ensures Digits(n * 10 + digit) == Digits(n) + [DigitChar(digit)]
  {
    assert (n * 10 + digit) / 10 == n && (n * 10 + digit) % 10 == digit;
  }

  lemma LastStands(d: string)
    requires d != ""
    ensures d == d[..|d| - 1] + [d[|d| - 1]]
  {
  }

  lemma ValueOfOne(c: char)
    requires Digit(c)
    ensures Value([c]) == DigitOf(c)
  {
    assert [c][..0] == "";
  }

  lemma ValueOfMore(d: string)
    requires |d| >= 2 && AllDigits(d)
    ensures Digit(d[|d| - 1]) && AllDigits(d[..|d| - 1])
    ensures Value(d) == Value(d[..|d| - 1]) * 10 + DigitOf(d[|d| - 1])
  {
    assert Digit(d[|d| - 1]);
  }

  /** A number without needless zeros is the one its digits are printed from. */
  lemma {:induction false} CanonicalDigits(d: string)
    requires d != "" && AllDigits(d) && (|d| > 1 ==> d[0] != '0')
    ensures Digits(Value(d)) == d && (d[0] != '0' ==> Value(d) >= 1)
  {
    assert Digit(d[0]);
    if |d| == 1 {
      assert d == [d[0]];
      ValueOfOne(d[0]);
      DigitIsPrinted(d[0]);
      hide Digits, Value, DigitChar;
    } else {
      ValueOfMore(d);
      var front, last := d[..|d| - 1], d[|d| - 1];
      CanonicalDigits(front);
      DigitIsPrinted(last);
      PrintsOneMore(Value(front), DigitOf(last));
      hide Digits, Value, DigitChar, DigitOf, AllDigits;
      LastStands(d);
    }
  }

  lemma {:induction false} PrintedIsCanonical(n: nat)
    ensures |Digits(n)| > 1 ==> Digits(n)[0] != '0'
    ensures n > 0 ==> Digits(n)[0] != '0'
  {
    if n >= 10 {
      PrintedIsCanonical(n / 10);
      DigitsRead(n / 10);
      assert Digits(n)[0] == Digits(n / 10)[0];
    }
  }

  /** The saved volume and its reader undo each other: a text is accepted exactly when it is what would be written. */
  lemma VolumeRoundTrip(s: string, volume: nat)
    ensures ParseVolume(s) == Ok(volume) <==> VolumeText(volume) == Ok(s)
  {
    if VolumeText(volume) == Ok(s) {
      DigitsRead(volume);
      PrintedIsCanonical(volume);
      assert s[..|s| - 1] == Digits(volume);
    }
    if ParseVolume(s) == Ok(volume) {
      CanonicalDigits(s[..|s| - 1]);
      assert s == s[..|s| - 1] + "\n";
    }
  }

  function BrightnessText(percent: nat): Result<string, SettingError> {
    if BrightnessValid(percent) then Ok(Digits(percent) + "\n") else Err(OutOfRange)
  }

  function ParseBrightness(s: string): Result<nat, SettingError> {
    match ParseVolume(s)
    case Err(e) => Err(e)
    case Ok(percent) => if BrightnessValid(percent) then Ok(percent) else Err(OutOfRange)
  }

  lemma BrightnessTextRoundTrip(s: string, percent: nat)
    ensures ParseBrightness(s) == Ok(percent) <==> BrightnessText(percent) == Ok(s)
  {
    VolumeRoundTrip(s, percent);
    hide ParseVolume, Digits;
  }
}
