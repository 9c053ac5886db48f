/**
 * The calendar year of an instant, as polars' `dt.year()` reads it from a UTC `Datetime`
 * column: days since the epoch (rounded down), then the proleptic Gregorian year of that day.
 */
module Calendar {
  import opened Records

  const MicrosPerDay: int := 86_400_000_000

  /** 2026-01-01T00:00:00Z and 2027-01-01T00:00:00Z. */
  const Start2026: Timestamp := 1_767_225_600_000_000
  const Start2027: Timestamp := 1_798_761_600_000_000

  /**
   * The Gregorian year of the day `days` after 1970-01-01, by the era decomposition:
   * the day is shifted to a calendar starting on 0000-03-01 and split into 400-year eras
   * (division rounds down, so a day before that start falls in a negative era).
   */
  function CivilYear(days: int): int {
    var z := days + 719_468;
    YearInEra(z / 146_097, z % 146_097)
  }

  /** The year of day `doe` of era `era`: the year of era and the month are computed with
      March as the first month, and January and February belong to the next year. */
  function YearInEra(era: int, doe: int): int {
    var yoe := (doe - doe / 1460 + doe / 36_524 - doe / 146_096) / 365;
    var doy := doe - (365 * yoe + yoe / 4 - yoe / 100);
    var mp := (5 * doy + 2) / 153;
    var month := if mp < 10 then mp + 3 else mp - 9;
    yoe + era * 400 + (if month <= 2 then 1 else 0)
  }

  /** The UTC year of an instant. Division rounds down, so an instant before the epoch falls
      on the day that contains it. */
  function YearOf(t: Timestamp): int {
    CivilYear(t / MicrosPerDay)
  }

  lemma DaysOf2026(t: Timestamp)
    requires Start2026 <= t < Start2027
    ensures 20_454 <= t / MicrosPerDay < 20_819
  {
  }

  /** January and February 2026: the second part of the shifted year 2025. */
  lemma CivilYearJanFeb2026(days: int)
    requires 20_454 <= days < 20_513
    ensures CivilYear(days) == 2026
  {
    var z := days + 719_468;
    assert z / 146_097 == 5;
    var doe := z % 146_097;
    assert doe == z - 730_485;
    assert doe / 1460 == 6 && doe / 36_524 == 0 && doe / 146_096 == 0;
    var yoe := (doe - 6) / 365;
    assert yoe == 25;
    var doy := doe - (365 * 25 + 25 / 4 - 25 / 100);
    assert 306 <= doy < 365;
    var mp := (5 * doy + 2) / 153;
    assert mp == 10 || mp == 11;
  }

  /** March to December 2026: the first part of the shifted year 2026. */
  lemma CivilYearMarDec2026(days: int)
    requires 20_513 <= days < 20_819
    ensures CivilYear(days) == 2026
  {
    var z := days + 719_468;
    assert z / 146_097 == 5;
    var doe := z % 146_097;
    assert doe == z - 730_485;
    assert doe / 1460 == 6 && doe / 36_524 == 0 && doe / 146_096 == 0;
    var yoe := (doe - 6) / 365;
    assert yoe == 26;
    var doy := doe - (365 * 26 + 26 / 4 - 26 / 100);
    assert 0 <= doy < 306;
    var mp := (5 * doy + 2) / 153;
    assert 0 <= mp < 10;
  }

  /** Every instant of 2026 (UTC) lies in the year 2026. */
  lemma YearOf2026(t: Timestamp)
    requires Start2026 <= t < Start2027
    ensures YearOf(t) == 2026
  {
    DaysOf2026(t);
    var days := t / MicrosPerDay;
    if days < 20_513 {
      CivilYearJanFeb2026(days);
    } else {
      CivilYearMarDec2026(days);
    }
  }

  /** 2025-12-31, the day before the window. */
  lemma CivilYearLastDay2025()
    ensures CivilYear(20_453) == 2025
  {
    var doe := 739_921 % 146_097;
    assert 739_921 / 146_097 == 5 && doe == 9436;
    var yoe := (doe - doe / 1460 + doe / 36_524 - doe / 146_096) / 365;
    assert yoe == 25;
    assert (5 * (doe - (365 * yoe + yoe / 4 - yoe / 100)) + 2) / 153 == 9;
  }

  /** 2027-01-01, the day after the window. */
  lemma CivilYearFirstDay2027()
    ensures CivilYear(20_819) == 2027
  {
    var doe := 740_287 % 146_097;
    assert 740_287 / 146_097 == 5 && doe == 9802;
    var yoe := (doe - doe / 1460 + doe / 36_524 - doe / 146_096) / 365;
    assert yoe == 26;
    assert (5 * (doe - (365 * yoe + yoe / 4 - yoe / 100)) + 2) / 153 == 10;
  }

  /** Every day of an era before the sixth falls before 2002. */
  lemma YearInEarlierEra(era: int, doe: int)
    requires era <= 4 && 0 <= doe < 146_097
    ensures YearInEra(era, doe) < 2026
  {
    var n := doe - doe / 1460 + doe / 36_524 - doe / 146_096;
    assert n <= doe + 4;
    assert n / 365 <= 400;
  }

  /** Every day of an era after the sixth falls in 2400 or later. */
  lemma YearInLaterEra(era: int, doe: int)
    requires era >= 6 && 0 <= doe < 146_097
    ensures YearInEra(era, doe) > 2026
  {
    var n := doe - doe / 1460 + doe / 36_524 - doe / 146_096;
    assert doe / 146_096 <= 1 && (doe / 146_096 == 1 ==> doe / 1460 == 100 && doe / 36_524 == 4);
    assert n >= 0;
  }

  /** In the era of 2000 to 2399, a day before 2026-01-01 falls in 2025 or earlier. */
  lemma YearBeforeWindow(doe: int)
    requires 0 <= doe < 9437
    ensures YearInEra(5, doe) <= 2025
  {
    var q := doe / 1460;
    assert doe / 36_524 == 0 && doe / 146_096 == 0 && q <= 6;
    var yoe := (doe - q) / 365;
    assert yoe <= 25;
    if yoe == 25 {
      var doy := doe - (365 * 25 + 25 / 4 - 25 / 100);
      assert doy <= 305;
      assert (5 * doy + 2) / 153 <= 9;
    }
  }

  /** In the era of 2000 to 2399, a day after 2026-12-31 falls in 2027 or later. */
  lemma YearAfterWindow(doe: int)
    requires 9802 <= doe < 146_097
    ensures YearInEra(5, doe) >= 2027
  {
    var n := doe - doe / 1460 + doe / 36_524 - doe / 146_096;
    if doe >= 36_524 {
      assert doe / 1460 <= 101 && doe / 146_096 <= 1;
      assert n >= 36_524 - 101 - 1;
      assert n / 365 >= 100;
    } else {
      var q := doe / 1460;
      assert doe / 36_524 == 0 && doe / 146_096 == 0 && 6 <= q <= 25;
      assert n == doe - q;
      assert n >= 9796;
      var yoe := n / 365;
      assert yoe >= 26;
      if yoe == 26 {
        assert doe <= 9860;
        var doy := doe - (365 * 26 + 26 / 4 - 26 / 100);
        assert 306 <= doy <= 364;
        var mp := (5 * doy + 2) / 153;
        assert 10 <= mp <= 11;
      }
    }
  }

  /** No day outside 2026 has the year 2026. */
  lemma CivilYearOutside2026(days: int)
    requires days < 20_454 || days >= 20_819
    ensures CivilYear(days) != 2026
  {
    var z := days + 719_468;
    var era := z / 146_097;
    var doe := z % 146_097;
    assert z == 146_097 * era + doe;
    if era <= 4 {
      YearInEarlierEra(era, doe);
    } else if era >= 6 {
      YearInLaterEra(era, doe);
    } else if days < 20_454 {
      YearBeforeWindow(doe);
    } else {
      YearAfterWindow(doe);
    }
  }

  /** An instant has the UTC year 2026 exactly when it lies in [2026-01-01, 2027-01-01). */
  lemma YearOfIs2026(t: Timestamp)
    ensures YearOf(t) == 2026 <==> Start2026 <= t < Start2027
  {
    if Start2026 <= t < Start2027 {
      YearOf2026(t);
    } else {
      assert t / MicrosPerDay < 20_454 || t / MicrosPerDay >= 20_819;
      CivilYearOutside2026(t / MicrosPerDay);
    }
  }

  /** The instants just outside the window belong to the neighbouring years. */
  lemma YearOfBoundaries()
    ensures YearOf(Start2026 - 1) == 2025
    ensures YearOf(Start2027) == 2027
  {
    assert (Start2026 - 1) / MicrosPerDay == 20_453;
    assert Start2027 / MicrosPerDay == 20_819;
    CivilYearLastDay2025();
    CivilYearFirstDay2027();
  }
}
