/**
  The date helpers: the generated reference number `COR-<year>-<4 digits>`, whether a due
  instant is past, and the whole-day distance to a due date. The clock and `Math.random`
  are parameters: `year` is the current year, `draw` the random integer in [0, 10000), `now`
  the current instant in milliseconds.
*/
module DateUtils {
  import opened Wrappers
  import opened Js

  /** The random part: `draw` left-padded with '0' to four characters. */
  function Suffix(draw: nat): (r: string)
    requires draw < 10000
    ensures |r| == 4 && AllDigits(r)
    ensures DigitsValue(r) == draw
  {
    var digits := NatToString(draw);
    NatToStringLength(draw, 4);
    NatToStringRoundTrip(draw);
    LeadingZerosValue(4 - |digits|, digits);
    PadStart(digits, 4, '0')
  }

  /** `generateReferenceNumber()` */
  function ReferenceNumber(year: int, draw: nat): (r: string)
    requires draw < 10000
    ensures |r| == |IntToString(year)| + 9 && r[..4] == "COR-" && r[|r| - 5] == '-'
    ensures AllDigits(r[|r| - 4..]) && DigitsValue(r[|r| - 4..]) == draw
  {
    "COR-" + IntToString(year) + "-" + Suffix(draw)
  }

  /** Splits a reference number back into its year and its random draw. */
  function ParseReferenceNumber(s: string): (r: Option<(int, nat)>)
    ensures r.Some? ==> r.value.1 < 10000
  {
    if |s| < 10 || s[..4] != "COR-" || s[|s| - 5] != '-' || !AllDigits(s[|s| - 4..]) then None
    else
      var suffix := s[|s| - 4..];
      SuffixValueBound(suffix);
      match SignedDigits(s[4..|s| - 5])
      case Some(year) => Some((year, DigitsValue(suffix)))
      case None => None
  }

  lemma SuffixValueBound(suffix: string)
    requires |suffix| == 4 && AllDigits(suffix)
    ensures DigitsValue(suffix) < 10000
  {
    DigitsValueBound(suffix);
    assert Pow10(4) == 10000;
  }

  /** Decoding a generated reference number gives back the year and the draw. */
  lemma ReferenceNumberRoundTrip(year: int, draw: nat)
    requires draw < 10000
    ensures ParseReferenceNumber(ReferenceNumber(year, draw)) == Some((year, draw))
  {
    var y := IntToString(year);
    SignedDigitsIntToString(year);
    ParseShape(y, year, Suffix(draw));
  }

  /** The decoder splits `COR-<y>-<suffix>` at its fixed positions. */
  lemma ParseShape(y: string, year: int, suffix: string)
    requires SignedDigits(y) == Some(year)
    requires |suffix| == 4 && AllDigits(suffix)
    ensures ParseReferenceNumber("COR-" + y + "-" + suffix) == Some((year, DigitsValue(suffix)))
  {
    var s := "COR-" + y + "-" + suffix;
    assert s[..4] == "COR-" && s[|s| - 5] == '-' && s[|s| - 4..] == suffix && s[4..|s| - 5] == y;
  }

  /** Distinct (year, draw) pairs give distinct reference numbers. */
  lemma ReferenceNumberInjective(y1: int, d1: nat, y2: int, d2: nat)
    requires d1 < 10000 && d2 < 10000
    requires ReferenceNumber(y1, d1) == ReferenceNumber(y2, d2)
    ensures y1 == y2 && d1 == d2
  {
    ReferenceNumberRoundTrip(y1, d1);
    ReferenceNumberRoundTrip(y2, d2);
  }

  /** A four-digit year gives a 13-character reference number. */
  lemma ReferenceNumberLength(year: int, draw: nat)
    requires 1000 <= year <= 9999 && draw < 10000
    ensures |ReferenceNumber(year, draw)| == 13
  {
    NatToStringLength(year, 4);
    NatToStringLengthAtLeast(year, 3);
  }

  /** `isOverdue(dueDate)`: the due instant lies strictly before the current instant. */
  predicate IsOverdue(dueDate: int, now: int)
    ensures IsOverdue(dueDate, now) ==> DaysUntilDue(dueDate, now) <= 0
    ensures !IsOverdue(dueDate, now) ==> DaysUntilDue(dueDate, now) >= 0
  {
    dueDate < now
  }

  const MsPerDay: int := 24 * 60 * 60 * 1000

  /** `getDaysUntilDue(dueDate)`: the number of whole days from `now` to `dueDate`,
      rounded toward zero, with every day 24 hours long. */
  function DaysUntilDue(dueDate: int, now: int): (days: int)
    ensures dueDate >= now ==> days * MsPerDay <= dueDate - now < (days + 1) * MsPerDay
    ensures dueDate < now ==> (days - 1) * MsPerDay < dueDate - now <= days * MsPerDay
  {
    var diff := dueDate - now;
    if diff >= 0 then diff / MsPerDay else -((-diff) / MsPerDay)
  }

  /** A negative day count means the item is past due, but an item due earlier today is
      past due with a day count of zero. */
  lemma DaysUntilDueAndIsOverdue(dueDate: int, now: int)
    ensures DaysUntilDue(dueDate, now) < 0 ==> IsOverdue(dueDate, now)
    ensures DaysUntilDue(dueDate, now) > 0 ==> !IsOverdue(dueDate, now)
    ensures IsOverdue(now - 1, now) && DaysUntilDue(now - 1, now) == 0
  {
  }

  /** A later due date never has fewer days left. */
  lemma DaysUntilDueMonotonic(d1: int, d2: int, now: int)
    requires d1 <= d2
    ensures DaysUntilDue(d1, now) <= DaysUntilDue(d2, now)
  {
  }
}
