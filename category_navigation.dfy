/**
 * The day selector of the category panel: a current day that the back,
 * today and next buttons move, and the `YYYY-MM-DD` keys of the
 * single-day range requested for it.
 *
 * Days are numbered (one number per calendar day); which civil date a
 * number denotes is supplied by the caller as `calendar`.
 */
module CategoryNavigation {
  import opened DateText

  /** The `startDate` and `endDate` of a category-usage request. */
  datatype RangeRequest = RangeRequest(startDate: string, endDate: string)

  /** `padStart(2, "0")`: left-pad with zeros to two characters; longer
      strings are left alone. */
  function PadStart2(s: string): (padded: string)
    ensures |padded| == if |s| < 2 then 2 else |s|
    ensures padded[|padded| - |s|..] == s
    ensures forall i :: 0 <= i < |padded| - |s| ==> padded[i] == '0'
  {
    if |s| >= 2 then s else seq(2 - |s|, _ => '0') + s
  }

  /** Padding only affects one-digit numbers, and the padded text still
      reads back as the number. */
  lemma PaddedDecimal(n: nat)
    ensures PadStart2(DecimalString(n)) == if n < 10 then "0" + DecimalString(n) else DecimalString(n)
    ensures AllDigits(PadStart2(DecimalString(n)))
    ensures ParseDecimal(PadStart2(DecimalString(n))) == n
  {
    var s := DecimalString(n);
    if n < 10 {
      assert PadStart2(s) == "0" + s;
      ParseLeadingZero(s);
    }
  }

  /** formatDateForCategory: year, zero-padded 1-based month and
      zero-padded day, separated by `-`. */
  function FormatDateForCategory(d: CivilDate): string {
    DecimalString(d.year) + "-" + PadStart2(DecimalString(d.month0 + 1)) + "-" + PadStart2(DecimalString(d.day))
  }

  /** The month and day fields of a valid date: two digits that read back
      as the number. */
  lemma TwoDigitField(n: nat)
    requires 1 <= n <= 31
    ensures |PadStart2(DecimalString(n))| == 2
    ensures AllDigits(PadStart2(DecimalString(n)))
    ensures ParseDecimal(PadStart2(DecimalString(n))) == n
  {
    PaddedDecimal(n);
    if n >= 10 {
      DecimalLengthTwo(n);
    }
  }

  lemma JoinedFields(y: string, m: string, dd: string)
    requires |y| == 4 && |m| == 2 && |dd| == 2
    ensures var key := y + "-" + m + "-" + dd;
      |key| == 10 && key[4] == '-' && key[7] == '-' && key[..4] == y && key[5..7] == m && key[8..] == dd
  {
  }

  /** For a four-digit year the key is ten characters, dashes at 4 and 7,
      and its three fields read back as year, month and day. */
  lemma FormatDateForCategoryShape(d: CivilDate)
    requires ValidDate(d) && 1000 <= d.year <= 9999
    ensures var key := FormatDateForCategory(d);
      && |key| == 10 && key[4] == '-' && key[7] == '-'
      && AllDigits(key[..4]) && AllDigits(key[5..7]) && AllDigits(key[8..])
      && ParseDecimal(key[..4]) == d.year
      && ParseDecimal(key[5..7]) == d.month0 + 1
      && ParseDecimal(key[8..]) == d.day
  {
    DecimalLengthFour(d.year);
    TwoDigitField(d.month0 + 1);
    TwoDigitField(d.day);
    JoinedFields(DecimalString(d.year), PadStart2(DecimalString(d.month0 + 1)), PadStart2(DecimalString(d.day)));
  }

  lemma SplitThreeFields(x1: string, y1: string, z1: string, x2: string, y2: string, z2: string, sep: char)
    requires sep !in x1 && sep !in y1 && sep !in x2 && sep !in y2
    requires x1 + [sep] + y1 + [sep] + z1 == x2 + [sep] + y2 + [sep] + z2
    ensures x1 == x2 && y1 == y2 && z1 == z2
  {
    assert x1 + [sep] + y1 + [sep] + z1 == x1 + [sep] + (y1 + [sep] + z1);
    assert x2 + [sep] + y2 + [sep] + z2 == x2 + [sep] + (y2 + [sep] + z2);
    SplitAtSeparator(x1, y1 + [sep] + z1, x2, y2 + [sep] + z2, sep);
    SplitAtSeparator(y1, z1, y2, z2, sep);
  }

  lemma PaddedFieldInjective(m: nat, n: nat)
    ensures AllDigits(PadStart2(DecimalString(m)))
    ensures PadStart2(DecimalString(m)) == PadStart2(DecimalString(n)) ==> m == n
  {
    PaddedDecimal(m);
    PaddedDecimal(n);
  }

  lemma KeyFields(d: CivilDate)
    ensures FormatDateForCategory(d) ==
      DecimalString(d.year) + ['-'] + PadStart2(DecimalString(d.month0 + 1)) + ['-'] + PadStart2(DecimalString(d.day))
    ensures '-' !in DecimalString(d.year) && '-' !in PadStart2(DecimalString(d.month0 + 1))
  {
    PaddedFieldInjective(d.month0 + 1, d.month0 + 1);
    DigitsHaveNoSeparator(DecimalString(d.year), '-');
    DigitsHaveNoSeparator(PadStart2(DecimalString(d.month0 + 1)), '-');
  }

  /** Distinct days get distinct keys. */
  lemma FormatDateForCategoryInjective(a: CivilDate, b: CivilDate)
    ensures FormatDateForCategory(a) == FormatDateForCategory(b) ==> a == b
  {
    if FormatDateForCategory(a) == FormatDateForCategory(b) {
      KeyFields(a);
      KeyFields(b);
      SplitThreeFields(
        DecimalString(a.year), PadStart2(DecimalString(a.month0 + 1)), PadStart2(DecimalString(a.day)),
        DecimalString(b.year), PadStart2(DecimalString(b.month0 + 1)), PadStart2(DecimalString(b.day)), '-');
      PaddedFieldInjective(a.month0 + 1, b.month0 + 1);
      PaddedFieldInjective(a.day, b.day);
      DecimalStringInjective(a.year, b.year);
    }
  }

  /** The request for one day: the same key as start and end. */
  function DayRequest(d: CivilDate): (request: RangeRequest)
    ensures request.startDate == request.endDate
  {
    RangeRequest(FormatDateForCategory(d), FormatDateForCategory(d))
  }

  /** The module-level `currentDateForCategories`, as a day number. */
  class CategoryDateNavigator {
    var current: int

    constructor (today: int)
      ensures current == today
    {
      current := today;
    }

    /** The back button: one day earlier, then request that day. */
    method Back(calendar: int -> CivilDate) returns (request: RangeRequest)
      modifies this
      ensures current == old(current) - 1
      ensures request == DayRequest(calendar(current))
      ensures request.startDate == request.endDate
    {
      current := current - 1;
      request := DayRequest(calendar(current));
    }

    /** The today button: back to the present day, then request it. */
    method Today(today: int, calendar: int -> CivilDate) returns (request: RangeRequest)
      modifies this
      ensures current == today
      ensures request == DayRequest(calendar(today))
      ensures request.startDate == request.endDate
    {
      current := today;
      request := DayRequest(calendar(current));
    }

    /** The next button: one day later, then request that day. */
    method Next(calendar: int -> CivilDate) returns (request: RangeRequest)
      modifies this
      ensures current == old(current) + 1
      ensures request == DayRequest(calendar(current))
      ensures request.startDate == request.endDate
    {
      current := current + 1;
      request := DayRequest(calendar(current));
    }
  }

  /** Loading the script: the current day is today, and today's single-day
      range is requested at once. */
  method Initialize(today: int, calendar: int -> CivilDate)
    returns (navigator: CategoryDateNavigator, request: RangeRequest)
    ensures fresh(navigator) && navigator.current == today
    ensures request == DayRequest(calendar(today))
  {
    navigator := new CategoryDateNavigator(today);
    request := DayRequest(calendar(today));
  }

  /** Back followed by next returns to the same day and asks for it again. */
  method BackThenNext(navigator: CategoryDateNavigator, calendar: int -> CivilDate)
    returns (request: RangeRequest)
    modifies navigator
    ensures navigator.current == old(navigator.current)
    ensures request == DayRequest(calendar(old(navigator.current)))
  {
    var _ := navigator.Back(calendar);
    request := navigator.Next(calendar);
  }
}
