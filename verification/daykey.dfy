/** The calendar-day key every handler builds from a `Date`:
    `${getFullYear()}-${String(getMonth() + 1).padStart(2, '0')}-${String(getDate()).padStart(2, '0')}`.
    The year is written without padding, month and day always with two digits. */
module DayKeys {
  import opened Wrappers
  import opened Text

  /** A local calendar date with a 1-based month, as a `Date` reports it. */
  datatype CivilDate = CivilDate(year: int, month: int, day: int) {
    predicate Valid() {
      1 <= month <= 12 && 1 <= day <= 31
    }
  }

  function DayKey(d: CivilDate): string
    requires d.Valid()
  {
    IntToString(d.year) + "-" + Pad2(d.month) + "-" + Pad2(d.day)
  }

  /** Reads an optionally signed decimal integer. */
  function ParseInt(s: string): Option<int> {
    if |s| > 1 && s[0] == '-' && IsDigits(s[1..]) then Some(0 - DigitsValue(s[1..]) as int)
    else if |s| > 0 && IsDigits(s) then Some(DigitsValue(s))
    else None
  }

  /** Reads a day key back: the last six characters are `-MM-DD`, the rest is the year. */
  function ParseDayKey(k: string): Option<CivilDate> {
    if |k| < 7 || k[|k| - 6] != '-' || k[|k| - 3] != '-' then None
    else
      var mm := k[|k| - 5..|k| - 3];
      var dd := k[|k| - 2..];
      if !IsDigits(mm) || !IsDigits(dd) then None
      else match ParseInt(k[..|k| - 6])
        case None => None
        case Some(y) => Some(CivilDate(y, DigitsValue(mm), DigitsValue(dd)))
  }

  lemma ParseIntOfIntToString(n: int)
    ensures ParseInt(IntToString(n)) == Some(n)
  {
    var s := IntToString(n);
    if n < 0 {
      assert s[1..] == NatToString(-n);
      DigitsValueOfNatToString(-n);
    } else {
      DigitsValueOfNatToString(n);
    }
  }

  /** Reading a key back gives the date it was built from. */
  lemma ParseDayKeyOfDayKey(d: CivilDate)
    requires d.Valid()
    ensures ParseDayKey(DayKey(d)) == Some(d)
  {
    var y := IntToString(d.year);
    var k := DayKey(d);
    assert |k| == |y| + 6;
    assert k[..|k| - 6] == y;
    assert k[|k| - 5..|k| - 3] == Pad2(d.month);
    assert k[|k| - 2..] == Pad2(d.day);
    Pad2Value(d.month);
    Pad2Value(d.day);
    ParseIntOfIntToString(d.year);
  }

  /** Distinct dates give distinct keys, so comparing keys compares dates. */
  lemma DayKeyInjective(a: CivilDate, b: CivilDate)
    requires a.Valid() && b.Valid()
    ensures DayKey(a) == DayKey(b) <==> a == b
  {
    if DayKey(a) == DayKey(b) {
      ParseDayKeyOfDayKey(a);
      ParseDayKeyOfDayKey(b);
    }
  }
}
