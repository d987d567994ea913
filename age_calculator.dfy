/** `calculateAge` (components/add-pet-form.tsx): the age label stored on a new record,
    from its "DD/MM/YYYY" birth date and today's date, which is a parameter here. */
module AgeCalculator {
  import opened Wrappers
  import opened Text

  /** A calendar date, month 1-12. */
  datatype Date = Date(year: int, month: int, day: int)

  predicate IsLeapYear(y: int) {
    (y % 4 == 0 && y % 100 != 0) || y % 400 == 0
  }

  function DaysInMonth(y: int, m: int): int
    requires 1 <= m <= 12
  {
    if m == 2 then (if IsLeapYear(y) then 29 else 28)
    else if m == 4 || m == 6 || m == 9 || m == 11 then 30
    else 31
  }

  /** A real day of the (proleptic Gregorian) calendar, so `new Date` does not roll it over. */
  predicate ValidDate(d: Date) {
    1 <= d.month <= 12 && 1 <= d.day <= DaysInMonth(d.year, d.month)
  }

  /** `new Date(year, ...)` reads a year from 0 to 99 as 1900 to 1999. */
  function FullYear(y: int): int {
    if 0 <= y <= 99 then 1900 + y else y
  }

  /** What the three `parseInt` calls make of the birth-date string. */
  datatype BirthDateParse =
    | WrongShape           // `split("/")` did not give three parts
    | NotNumeric           // some part has no leading integer: `parseInt` gave NaN
    | Parsed(birth: Date)

  function ParseBirthDate(s: string): (r: BirthDateParse)
    ensures r.WrongShape? <==> CountChar(s, '/') != 2
  {
    var parts := Split(s, '/');
    if |parts| != 3 then WrongShape
    else
      var day := ParseLeadingInt(parts[0]);
      var month := ParseLeadingInt(parts[1]);
      var year := ParseLeadingInt(parts[2]);
      if day.None? || month.None? || year.None? then NotNumeric
      else Parsed(Date(FullYear(year.value), month.value, day.value))
  }

  /** What the model asks of a birth date: once its parts are numbers, they name a real day
      (the source would let `new Date` roll an impossible one over). */
  predicate AgeDefined(s: string) {
    ParseBirthDate(s).Parsed? ==> ValidDate(ParseBirthDate(s).birth)
  }

  /** `age` after the decrement: the year difference, one less when this year's birthday
      is still to come. */
  function CompletedYears(birth: Date, now: Date): int {
    var age := now.year - birth.year;
    var monthDiff := now.month - birth.month;
    if monthDiff < 0 || (monthDiff == 0 && now.day < birth.day) then age - 1 else age
  }

  /** `months`: the month difference, ignoring the day of the month. */
  function ElapsedMonths(birth: Date, now: Date): int {
    (now.year - birth.year) * 12 + now.month - birth.month
  }

  function YearsLabel(n: int): string {
    if n == 1 then "1 ano" else (if n >= 0 then NatToString(n) else "-" + NatToString(-n)) + " anos"
  }

  function MonthsLabel(months: int): string {
    if months <= 1 then "1 mes" else NatToString(months) + " meses"
  }

  /** `calculateAge(birthDateStr)` evaluated on the day `now`. */
  function CalculateAge(birthDateStr: string, now: Date): string
    requires AgeDefined(birthDateStr)
  {
    match ParseBirthDate(birthDateStr)
    case WrongShape => "0 anos"
    case NotNumeric => "NaN anos"
    case Parsed(birth) => AgeOf(birth, now)
  }

  /** The "DD/MM/AAAA" text the birth-date input asks for: day, month and year, each typed
      with `zd`, `zm` and `zy` leading zeros ("05/06/2015" has one zero before the day and
      the month, none before the year). */
  function DateText(zd: nat, d: nat, zm: nat, m: nat, zy: nat, y: nat): string {
    PaddedNat(zd, d) + "/" + PaddedNat(zm, m) + "/" + PaddedNat(zy, y)
  }

  /** The three typed numbers are the three parts `split("/")` gives. */
  lemma SplitDateText(zd: nat, d: nat, zm: nat, m: nat, zy: nat, y: nat)
    ensures Split(DateText(zd, d, zm, m, zy, y), '/') == [PaddedNat(zd, d), PaddedNat(zm, m), PaddedNat(zy, y)]
  {
    var a, b, c := PaddedNat(zd, d), PaddedNat(zm, m), PaddedNat(zy, y);
    PaddedHasNoSlash(zd, d);
    PaddedHasNoSlash(zm, m);
    PaddedHasNoSlash(zy, y);
    var bc := b + "/" + c;
    assert DateText(zd, d, zm, m, zy, y) == a + ['/'] + bc;
    assert bc == b + ['/'] + c;
    SplitHead(a, bc, '/');
    SplitHead(b, c, '/');
    SplitNone(c, '/');
  }

  /** Three numbers joined by '/' parse to that day, month and year, whatever zeros lead
      them, a year from 0 to 99 being read as 1900 to 1999. */
  lemma ParseDateText(zd: nat, d: nat, zm: nat, m: nat, zy: nat, y: nat)
    ensures ParseBirthDate(DateText(zd, d, zm, m, zy, y)) == Parsed(Date(FullYear(y), m, d))
  {
    SplitDateText(zd, d, zm, m, zy, y);
    ParsePaddedNat(zd, d);
    ParsePaddedNat(zm, m);
    ParsePaddedNat(zy, y);
  }

  /** When the three numbers name a real day, `calculateAge` gives the label of that
      date. */
  lemma DateTextAge(zd: nat, d: nat, zm: nat, m: nat, zy: nat, y: nat, now: Date)
    requires ValidDate(Date(FullYear(y), m, d))
    ensures AgeDefined(DateText(zd, d, zm, m, zy, y))
    ensures CalculateAge(DateText(zd, d, zm, m, zy, y), now) == AgeOf(Date(FullYear(y), m, d), now)
  {
    ParseDateText(zd, d, zm, m, zy, y);
  }

  /** A date typed as the "DD/MM/AAAA" placeholder asks: "15/06/2015" is the 15th of June 2015. */
  lemma PaddedExampleParses(s: string)
    requires s == "15/06/2015"
    ensures ParseBirthDate(s) == Parsed(Date(2015, 6, 15))
  {
    FifteenText();
    SixText();
    YearText();
    assert DateText(0, 15, 1, 6, 0, 2015) == s;
    ParseDateText(0, 15, 1, 6, 0, 2015);
  }

  lemma FifteenText()
    ensures PaddedNat(0, 15) == "15"
  {
    assert NatToString(15) == NatToString(1) + [DigitChar(5)];
  }

  lemma SixText()
    ensures PaddedNat(1, 6) == "06"
  {
    assert Repeat('0', 1) == "0";
  }

  lemma YearText()
    ensures PaddedNat(0, 2015) == "2015"
  {
    assert NatToString(20) == NatToString(2) + [DigitChar(0)];
    assert NatToString(201) == NatToString(20) + [DigitChar(1)];
    assert NatToString(2015) == NatToString(201) + [DigitChar(5)];
  }

  /** A part with no digit after its blanks and sign: `parseInt` gives `NaN` for it. */
  predicate NoLeadingNumber(t: string) {
    var u := Unsigned(t);
    u == [] || !IsDigit(u[0])
  }

  lemma NoLeadingNumberIsNaN(t: string)
    ensures ParseLeadingInt(t).None? <==> NoLeadingNumber(t)
  {
  }

  /** With three parts, the birth date is `NotNumeric` exactly when one of the three
      `parseInt` calls gives `NaN`. */
  lemma NotNumericOfThree(s: string)
    requires |Split(s, '/')| == 3
    ensures ParseBirthDate(s).NotNumeric? <==>
            ParseLeadingInt(Split(s, '/')[0]).None? || ParseLeadingInt(Split(s, '/')[1]).None? ||
            ParseLeadingInt(Split(s, '/')[2]).None?
  {
  }

  /** The birth date is `NotNumeric` exactly when it has three parts and one of them has no
      leading number. */
  lemma NotNumericParts(s: string)
    ensures ParseBirthDate(s).NotNumeric? <==>
            CountChar(s, '/') == 2 && exists i :: 0 <= i < 3 && NoLeadingNumber(Split(s, '/')[i])
  {
    var parts := Split(s, '/');
    if |parts| == 3 {
      NotNumericOfThree(s);
      NoLeadingNumberIsNaN(parts[0]);
      NoLeadingNumberIsNaN(parts[1]);
      NoLeadingNumberIsNaN(parts[2]);
      assert (exists i :: 0 <= i < 3 && NoLeadingNumber(parts[i])) <==>
             NoLeadingNumber(parts[0]) || NoLeadingNumber(parts[1]) || NoLeadingNumber(parts[2]) by {
        if exists i :: 0 <= i < 3 && NoLeadingNumber(parts[i]) {
          var i :| 0 <= i < 3 && NoLeadingNumber(parts[i]);
          assert i == 0 || i == 1 || i == 2;
        }
      }
    } else {
      assert ParseBirthDate(s).WrongShape?;
    }
  }

  /** A birth date of three parts, one of them without a leading number, gives the label
      "NaN anos": `new Date` of a `NaN` is an invalid date, whose year is `NaN`. */
  lemma NotNumericAge(s: string, now: Date)
    requires CountChar(s, '/') == 2 && exists i :: 0 <= i < 3 && NoLeadingNumber(Split(s, '/')[i])
    ensures AgeDefined(s) && CalculateAge(s, now) == "NaN anos"
  {
    NotNumericParts(s);
  }

  /** The label for a birth date that parsed. */
  function AgeOf(birth: Date, now: Date): string {
    var age := CompletedYears(birth, now);
    if age < 1 then MonthsLabel(ElapsedMonths(birth, now)) else YearsLabel(age)
  }

  // ---------------------------------------------------------------- reference reading

  /** `a` comes strictly before `b` in the calendar (compared as year, month, day). */
  predicate Before(a: Date, b: Date) {
    a.year < b.year || (a.year == b.year && (a.month < b.month || (a.month == b.month && a.day < b.day)))
  }

  /** The `k`-th birthday of someone born on `birth` has come by `now`. */
  predicate AnniversaryReached(birth: Date, k: int, now: Date) {
    !Before(now, Date(birth.year + k, birth.month, birth.day))
  }

  /** The decrement rule computes the number of completed years: the `n` whose `n`-th
      birthday has come and whose `n+1`-th has not. */
  lemma CompletedYearsIsAnniversaryCount(birth: Date, now: Date, n: int)
    ensures CompletedYears(birth, now) == n <==>
            AnniversaryReached(birth, n, now) && !AnniversaryReached(birth, n + 1, now)
  {
  }

  /** A birth date that does not split into three parts gives exactly "0 anos". */
  lemma WrongShapeAge(s: string, now: Date)
    requires |Split(s, '/')| != 3
    ensures CalculateAge(s, now) == "0 anos"
  {
  }

  /** From the first birthday on, the label counts completed years: "1 ano", then
      "N anos". */
  lemma YearsAge(birth: Date, now: Date, n: int)
    requires n >= 1
    requires AnniversaryReached(birth, n, now) && !AnniversaryReached(birth, n + 1, now)
    ensures AgeOf(birth, now) == if n == 1 then "1 ano" else NatToString(n) + " anos"
  {
    CompletedYearsIsAnniversaryCount(birth, now, n);
  }

  /** Before the first birthday the label counts calendar months: "1 mes" for one month
      or fewer (zero, and a birth date in the future, included), "N meses" otherwise. */
  lemma MonthsAge(birth: Date, now: Date)
    requires !AnniversaryReached(birth, 1, now)
    ensures var m := (now.year * 12 + now.month) - (birth.year * 12 + birth.month);
            AgeOf(birth, now) == if m <= 1 then "1 mes" else NatToString(m) + " meses"
  {
    CompletedYearsIsAnniversaryCount(birth, now, CompletedYears(birth, now));
  }

  /** A birth date later than today reads as "1 mes". */
  lemma FutureBirthAge(birth: Date, now: Date)
    requires ValidDate(birth) && ValidDate(now)
    requires Before(now, birth)
    ensures AgeOf(birth, now) == "1 mes"
  {
  }

  /** Before the first birthday the month count never exceeds 12; it reaches 12 (a label
      of "12 meses") exactly when today is in the birth month one year on, before the
      birth day. */
  lemma MonthsBound(birth: Date, now: Date)
    requires ValidDate(birth) && ValidDate(now)
    requires CompletedYears(birth, now) < 1
    ensures ElapsedMonths(birth, now) <= 12
    ensures ElapsedMonths(birth, now) == 12 <==>
            now.year == birth.year + 1 && now.month == birth.month && now.day < birth.day
  {
  }

  /** The number at the front of a label for a parsed birth date, as `parseInt` reads it
      back: the completed years, or the months (at least 1) before the first birthday. */
  lemma AgeOfNumber(birth: Date, now: Date)
    ensures var y := CompletedYears(birth, now);
            var m := ElapsedMonths(birth, now);
            ParseInt(AgeOf(birth, now)) == Some(if y >= 1 then y else if m <= 1 then 1 else m)
  {
    var y := CompletedYears(birth, now);
    var m := ElapsedMonths(birth, now);
    if y == 1 {
      ParseIntOneDigit("1 ano");
    } else if y > 1 {
      ParseIntRendered(y, " anos");
    } else if m <= 1 {
      ParseIntOneDigit("1 mes");
    } else {
      ParseIntRendered(m, " meses");
    }
  }

  /** The fallback labels read back as 0 ("0 anos") and as NaN ("NaN anos"). */
  lemma FallbackNumbers()
    ensures ParseInt("0 anos") == Some(0)
    ensures ParseInt("NaN anos") == None
  {
    ParseIntOneDigit("0 anos");
    ParseIntNoDigit("NaN anos");
  }
}
