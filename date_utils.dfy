/** The fallback date parser (src/utils/dateUtils.ts). The engine's own
    `new Date(text)` parser is an oracle handed in as `native` (the day it
    names, when it accepts the text) and the clock as `today`; both are day
    numbers of the `Calendar` module. */
module DateUtils {
  import opened Types
  import opened Text
  import opened Calendar

  // ---------------------------------------------------------------------
  // `dateStr.split(/[- ]/)`
  // ---------------------------------------------------------------------

  predicate IsSeparator(c: char)
  {
    c == '-' || c == ' '
  }

  predicate NoSeparator(s: string)
  {
    forall i :: 0 <= i < |s| ==> !IsSeparator(s[i])
  }

  /** The pieces between separators, empty pieces included; the empty
      string splits into one empty piece. */
  function Split(s: string): (parts: seq<string>)
    ensures |parts| >= 1
  {
    if s == [] then [""]
    else
      var rest := Split(s[1..]);
      if IsSeparator(s[0]) then [""] + rest
      else [[s[0]] + rest[0]] + rest[1..]
  }

  /** The separators of `s`, in order. */
  function Separators(s: string): (r: string)
    ensures |r| <= |s|
  {
    if s == [] then []
    else if IsSeparator(s[0]) then [s[0]] + Separators(s[1..])
    else Separators(s[1..])
  }

  /** The pieces put back together with the given separators between them. */
  function Join(parts: seq<string>, seps: string): string
    requires |parts| == |seps| + 1
  {
    if seps == [] then parts[0]
    else parts[0] + [seps[0]] + Join(parts[1..], seps[1..])
  }

  /** There is one piece more than there are separators, and no piece
      holds a separator. */
  lemma {:induction false} SplitShape(s: string)
    ensures |Split(s)| == |Separators(s)| + 1
    ensures forall i :: 0 <= i < |Split(s)| ==> NoSeparator(Split(s)[i])
  {
    if s != [] {
      SplitShape(s[1..]);
      var rest := Split(s[1..]);
      if !IsSeparator(s[0]) {
        assert NoSeparator(rest[0]);
        assert NoSeparator([s[0]] + rest[0]);
        assert Split(s) == [[s[0]] + rest[0]] + rest[1..];
        forall i | 1 <= i < |Split(s)| ensures NoSeparator(Split(s)[i]) {
          assert Split(s)[i] == rest[i];
        }
      }
    }
  }

  /** Joining the pieces with the separators that were cut out gives back
      the original string. */
  lemma {:induction false} SplitJoin(s: string)
    ensures |Split(s)| == |Separators(s)| + 1
    ensures Join(Split(s), Separators(s)) == s
  {
    SplitShape(s);
    if s != [] {
      SplitJoin(s[1..]);
      var rest, seps := Split(s[1..]), Separators(s[1..]);
      if IsSeparator(s[0]) {
        assert Split(s)[1..] == rest;
      } else {
        JoinFirst(s[0], rest, seps);
      }
    }
  }

  /** A string without separators is a single piece. */
  lemma {:induction false} SplitNoSeparator(a: string)
    requires NoSeparator(a)
    ensures Split(a) == [a]
  {
    if a != [] {
      SplitNoSeparator(a[1..]);
      assert [a[0]] + a[1..] == a;
    }
  }

  /** The piece before the first separator comes first, then the pieces of
      what follows it. */
  lemma {:induction false} SplitAtSeparator(a: string, c: char, b: string)
    requires NoSeparator(a) && IsSeparator(c)
    ensures Split(a + [c] + b) == [a] + Split(b)
  {
    if a == [] {
      assert (a + [c] + b)[1..] == b;
    } else {
      assert (a + [c] + b)[1..] == a[1..] + [c] + b;
      SplitAtSeparator(a[1..], c, b);
      assert [a[0]] + a[1..] == a;
    }
  }

  /** Three separator-free fields joined by two separators split back
      into those fields. */
  lemma SplitThree(a: string, c1: char, b: string, c2: char, d: string)
    requires NoSeparator(a) && NoSeparator(b) && NoSeparator(d)
    requires IsSeparator(c1) && IsSeparator(c2)
    ensures Split(a + [c1] + b + [c2] + d) == [a, b, d]
  {
    assert a + [c1] + b + [c2] + d == a + [c1] + (b + [c2] + d);
    SplitAtSeparator(a, c1, b + [c2] + d);
    SplitAtSeparator(b, c2, d);
    SplitNoSeparator(d);
  }

  lemma JoinFirst(c: char, parts: seq<string>, seps: string)
    requires |parts| == |seps| + 1
    ensures Join([[c] + parts[0]] + parts[1..], seps) == [c] + Join(parts, seps)
  {
    var ps := [[c] + parts[0]] + parts[1..];
    assert ps[0] == [c] + parts[0];
    if seps != [] {
      assert ps[1..] == parts[1..];
      var tail := Join(parts[1..], seps[1..]);
      assert Join(ps, seps) == ([c] + parts[0]) + [seps[0]] + tail;
      assert Join(parts, seps) == parts[0] + [seps[0]] + tail;
    }
  }

  // ---------------------------------------------------------------------
  // `parseInt(text, 10)`
  // ---------------------------------------------------------------------

  /** The white space and line terminators `parseInt` skips. */
  predicate IsJsSpace(c: char)
  {
    var n := c as int;
    n == 0x09 || n == 0x0A || n == 0x0B || n == 0x0C || n == 0x0D || n == 0x20
    || n == 0xA0 || n == 0x1680 || 0x2000 <= n <= 0x200A || n == 0x2028 || n == 0x2029
    || n == 0x202F || n == 0x205F || n == 0x3000 || n == 0xFEFF
  }

  predicate IsDigit(c: char)
  {
    '0' <= c <= '9'
  }

  predicate AllDigits(s: string)
  {
    forall i :: 0 <= i < |s| ==> IsDigit(s[i])
  }

  /** `s` without its leading white space. */
  function TrimStart(s: string): (r: string)
    ensures |r| <= |s| && r == s[|s| - |r|..]
    ensures r == [] || !IsJsSpace(r[0])
    ensures forall i :: 0 <= i < |s| - |r| ==> IsJsSpace(s[i])
  {
    if s != [] && IsJsSpace(s[0]) then TrimStart(s[1..]) else s
  }

  /** The longest run of digits that opens `s`. */
  function DigitPrefix(s: string): (r: string)
    ensures |r| <= |s| && r == s[..|r|] && AllDigits(r)
    ensures |r| == |s| || !IsDigit(s[|r|])
  {
    if s != [] && IsDigit(s[0]) then [s[0]] + DigitPrefix(s[1..]) else []
  }

  /** The value of a string of decimal digits. */
  function DigitsValue(d: string): nat
    requires AllDigits(d)
  {
    if d == [] then 0 else DigitsValue(d[..|d| - 1]) * 10 + (d[|d| - 1] - '0') as int
  }

  /** What remains after the white space and an optional sign. */
  function Unsigned(s: string): string
  {
    var t := TrimStart(s);
    if t != [] && (t[0] == '-' || t[0] == '+') then t[1..] else t
  }

  predicate IsNegative(s: string)
  {
    var t := TrimStart(s);
    t != [] && t[0] == '-'
  }

  /** `parseInt(s, 10)`: `None` where it gives NaN. */
  function ParseInt(s: string): (r: Option<int>)
    ensures r.None? <==> Unsigned(s) == [] || !IsDigit(Unsigned(s)[0])
  {
    var digits := DigitPrefix(Unsigned(s));
    if digits == [] then None
    else Some(if IsNegative(s) then 0 - DigitsValue(digits) else DigitsValue(digits))
  }

  function DigitChar(n: nat): char
    requires n < 10
  {
    ('0' as int + n) as char
  }

  /** The decimal digits of `n`, without leading zeros. */
  function ShowNat(n: nat): (r: string)
    ensures |r| >= 1 && AllDigits(r)
  {
    if n < 10 then [DigitChar(n)] else ShowNat(n / 10) + [DigitChar(n % 10)]
  }

  /** `String(n)` for an integer `n`. */
  function ShowInt(n: int): string
  {
    if n < 0 then "-" + ShowNat(-n) else ShowNat(n)
  }

  lemma {:induction false} ShowNatValue(n: nat)
    ensures DigitsValue(ShowNat(n)) == n
  {
    if n >= 10 {
      ShowNatValue(n / 10);
      var r := ShowNat(n);
      assert r[..|r| - 1] == ShowNat(n / 10);
    }
  }

  lemma {:induction false} DigitPrefixOfDigits(d: string, rest: string)
    requires AllDigits(d)
    requires rest == [] || !IsDigit(rest[0])
    ensures DigitPrefix(d + rest) == d
  {
    if d != [] {
      assert (d + rest)[1..] == d[1..] + rest;
      DigitPrefixOfDigits(d[1..], rest);
    }
  }

  lemma NoLeadingSpace(s: string)
    requires s != [] && (s[0] == '-' || IsDigit(s[0]))
    ensures TrimStart(s) == s
  {
    assert !IsJsSpace(s[0]) by {
      assert s[0] as int == 0x2D || 0x30 <= s[0] as int <= 0x39;
    }
  }

  /** Digits followed by a non-digit parse to the digits' value. */
  lemma ParseIntDigitsThen(d: string, rest: string)
    requires d != [] && AllDigits(d)
    requires rest == [] || !IsDigit(rest[0])
    ensures ParseInt(d + rest) == Some(DigitsValue(d))
  {
    var s := d + rest;
    assert s[0] == d[0];
    NoLeadingSpace(s);
    DigitPrefixOfDigits(d, rest);
  }

  /** A minus sign, digits and then a non-digit parse to the negated value. */
  lemma ParseIntMinusDigitsThen(s: string, d: string, rest: string)
    requires d != [] && AllDigits(d)
    requires rest == [] || !IsDigit(rest[0])
    requires s != [] && s[0] == '-' && s[1..] == d + rest
    ensures ParseInt(s) == Some(0 - DigitsValue(d))
  {
    NoLeadingSpace(s);
    DigitPrefixOfDigits(d, rest);
    assert Unsigned(s) == d + rest;
  }

  /** `parseInt` reads back the decimal form of any integer, whatever
      non-digit text follows it. */
  lemma ParseIntShow(n: int, rest: string)
    requires rest == [] || !IsDigit(rest[0])
    ensures ParseInt(ShowInt(n) + rest) == Some(n)
  {
    if n < 0 {
      ParseIntShowNegative(n, rest);
    } else {
      ShowNatValue(n);
      ParseIntDigitsThen(ShowNat(n), rest);
    }
  }

  lemma ParseIntShowNegative(n: int, rest: string)
    requires n < 0
    requires rest == [] || !IsDigit(rest[0])
    ensures ParseInt(ShowInt(n) + rest) == Some(n)
  {
    var m: nat := -n;
    var d := ShowNat(m);
    ShowNatValue(m);
    NegativeShape(n, rest);
    var s := ShowInt(n) + rest;
    ParseIntMinusDigitsThen(s, d, rest);
    assert ParseInt(s) == Some(0 - m);
  }

  lemma NegativeShape(n: int, rest: string)
    requires n < 0
    ensures var s := ShowInt(n) + rest; s != [] && s[0] == '-' && s[1..] == ShowNat(-n) + rest
  {
    var s := ShowInt(n) + rest;
    assert ShowInt(n) == "-" + ShowNat(-n);
    assert s[1..] == ShowNat(-n) + rest;
  }

  /** A non-empty string of digits parses to its value. */
  lemma ParseIntDigits(d: string)
    requires d != [] && AllDigits(d)
    ensures ParseInt(d) == Some(DigitsValue(d))
  {
    assert TrimStart(d) == d;
    assert Unsigned(d) == d;
    DigitPrefixOfDigits(d, "");
    assert d + "" == d;
  }

  // ---------------------------------------------------------------------
  // The month table
  // ---------------------------------------------------------------------

  const MonthKeys: seq<string> :=
    ["jan", "feb", "mar", "apr", "may", "jun", "jul", "aug", "sep", "oct", "nov", "dec"]

  /** The `months` record. */
  const Months: map<string, int> :=
    map["jan" := 0, "feb" := 1, "mar" := 2, "apr" := 3, "may" := 4, "jun" := 5,
        "jul" := 6, "aug" := 7, "sep" := 8, "oct" := 9, "nov" := 10, "dec" := 11]

  /** `months[key]`, `None` where it is `undefined`. */
  function MonthLookup(key: string): (r: Option<int>)
    ensures r.Some? <==> key in MonthKeys
    ensures r.Some? ==> 0 <= r.value < 12 && MonthKeys[r.value] == key
  {
    if key in Months then Some(Months[key]) else None
  }

  /** `s.substring(0, 3)`. */
  function Prefix3(s: string): (r: string)
    ensures |r| == if |s| < 3 then |s| else 3
    ensures r == s[..|r|]
  {
    if |s| <= 3 then s else s[..3]
  }

  // ---------------------------------------------------------------------
  // `parseCustomDate`
  // ---------------------------------------------------------------------

  /** The `Date` that `parseCustomDate` returns: the native parse, one built
      by `new Date(year, month, day)` (`None` standing for NaN), or now. */
  datatype ParsedDate =
    | Native(nativeDay: int)
    | FromParts(year: Option<int>, monthIndex: int, date: Option<int>)
    | Now(today: int)

  /** The year field: `parseInt`, plus 2000 when the field is two
      characters long. */
  function YearField(text: string): (r: Option<int>)
    ensures r.None? <==> ParseInt(text).None?
    ensures r.Some? ==> r.value == ParseInt(text).value + (if |text| == 2 then 2000 else 0)
  {
    var year := ParseInt(text);
    if |text| == 2 && year.Some? then Some(year.value + 2000) else year
  }

  function ParseCustomDate(dateStr: string, native: Option<int>, today: int): (r: ParsedDate)
    ensures native.Some? ==> r == Native(native.value)
    ensures native.None? && |Split(dateStr)| < 3 ==> r == Now(today)
    ensures native.None? && |Split(dateStr)| >= 3 ==>
              var parts := Split(dateStr);
              var month := MonthLookup(Prefix3(ToLower(parts[1])));
              (month.None? ==> r == Now(today))
              && (month.Some? ==> r == FromParts(YearField(parts[2]), month.value, ParseInt(parts[0])))
    ensures r.FromParts? ==> 0 <= r.monthIndex < 12
  {
    if native.Some? then Native(native.value)
    else
      var parts := Split(dateStr);
      if |parts| >= 3 then
        var day := ParseInt(parts[0]);
        var monthStr := ToLower(parts[1]);
        var year := YearField(parts[2]);
        var month := MonthLookup(Prefix3(monthStr));
        if month.Some? then FromParts(year, month.value, day) else Now(today)
      else Now(today)
  }

  // ---------------------------------------------------------------------
  // The day a parsed `Date` stands for
  // ---------------------------------------------------------------------

  /** The largest day number a `Date` holds: 8.64e15 ms either side of the
      epoch. */
  const MaxDays: int := 100000000

  /** The year `new Date(year, ...)` uses: 0..99 mean 1900..1999. */
  function FullYear(y: int): (r: int)
    ensures 0 <= y <= 99 ==> r == 1900 + y
    ensures !(0 <= y <= 99) ==> r == y
  {
    if 0 <= y <= 99 then 1900 + y else y
  }

  /** The day number of a parsed `Date`, `None` for an invalid date. A day
      past the end of its month runs on into the next months. */
  function DayOf(p: ParsedDate): (r: Option<int>)
    requires p.FromParts? ==> 0 <= p.monthIndex < 12
    ensures p.FromParts? && p.year.Some? && p.date.Some? && r.Some? && 1 <= p.date.value <= DaysInMonth(FullYear(p.year.value), p.monthIndex + 1)
            ==> CivilFromDays(r.value) == Civil(FullYear(p.year.value), p.monthIndex + 1, p.date.value)
    ensures p.FromParts? && (p.year.None? || p.date.None?) ==> r.None?
    ensures r.Some? ==> -MaxDays <= r.value <= MaxDays || !p.FromParts?
    ensures p.FromParts? && p.year.Some? && p.date.Some? ==>
              (r.Some? <==> -MaxDays <= DaysFromCivil(Civil(FullYear(p.year.value), p.monthIndex + 1, 1)) + p.date.value - 1 <= MaxDays)
    ensures p.FromParts? && r.Some? ==>
              r.value == DaysFromCivil(Civil(FullYear(p.year.value), p.monthIndex + 1, 1)) + p.date.value - 1
    ensures p.Native? ==> r == Some(p.nativeDay)
    ensures p.Now? ==> r == Some(p.today)
  {
    match p
    case Native(d) => Some(d)
    case Now(d) => Some(d)
    case FromParts(y, m, d) =>
      if y.None? || d.None? then None
      else
        var first := DaysFromCivil(Civil(FullYear(y.value), m + 1, 1));
        var z := first + d.value - 1;
        if -MaxDays <= z <= MaxDays then
          (if 1 <= d.value <= DaysInMonth(FullYear(y.value), m + 1) then
             DayOfMonth(FullYear(y.value), m + 1, d.value, z);
             Some(z)
           else Some(z))
        else None
  }

  // ---------------------------------------------------------------------
  // What the parser promises
  // ---------------------------------------------------------------------

  /** A string the native parser accepts is returned as it parsed it. */
  lemma NativeWins(dateStr: string, day: int, today: int)
    ensures ParseCustomDate(dateStr, Some(day), today) == Native(day)
    ensures DayOf(ParseCustomDate(dateStr, Some(day), today)) == Some(day)
  {
  }

  /** Without a separator there are not three fields, so the fallback is now. */
  lemma NoSeparatorMeansNow(dateStr: string, today: int)
    requires NoSeparator(dateStr)
    ensures ParseCustomDate(dateStr, None, today) == Now(today)
  {
    SplitShape(dateStr);
    NoSeparatorNoSeparators(dateStr);
  }

  lemma {:induction false} NoSeparatorNoSeparators(s: string)
    requires NoSeparator(s)
    ensures Separators(s) == []
  {
    if s != [] {
      NoSeparatorNoSeparators(s[1..]);
    }
  }

  /** Only the first three letters of the month field count, in any case. */
  lemma MonthByFirstThreeLetters(field: string)
    requires |field| >= 3
    ensures MonthLookup(Prefix3(ToLower(field))) == MonthLookup(ToLower(field[..3]))
  {
    assert Prefix3(ToLower(field)) == ToLower(field[..3]);
  }

  /** "DEC", "Dec" and "December" all name month 11. */
  lemma DecemberInAnyCase()
    ensures MonthLookup(Prefix3(ToLower("DEC"))) == Some(11)
    ensures MonthLookup(Prefix3(ToLower("Dec"))) == Some(11)
    ensures MonthLookup(Prefix3(ToLower("December"))) == Some(11)
  {
    assert ToLower("DEC") == "dec";
    assert ToLower("Dec") == "dec";
    assert Prefix3(ToLower("December")) == "dec";
  }

  /** A month field shorter than three letters names no month. */
  lemma ShortMonthField(field: string)
    requires |field| < 3
    ensures MonthLookup(Prefix3(ToLower(field))).None?
  {
  }

  lemma TwoDigitsValue(d1: char, d2: char)
    requires IsDigit(d1) && IsDigit(d2)
    ensures DigitsValue([d1, d2]) == 10 * (d1 - '0') as int + (d2 - '0') as int
  {
    var s := [d1, d2];
    assert s[..1] == [d1];
    assert DigitsValue(s) == DigitsValue([d1]) * 10 + (d2 - '0') as int;
    assert DigitsValue([d1]) == (d1 - '0') as int by {
      assert [d1][..0] == [];
    }
  }

  /** Two digits parse to their value. */
  lemma TwoDigitNumber(d1: char, d2: char)
    requires IsDigit(d1) && IsDigit(d2)
    ensures ParseInt([d1, d2]) == Some(10 * (d1 - '0') as int + (d2 - '0') as int)
  {
    ParseIntDigits([d1, d2]);
    TwoDigitsValue(d1, d2);
  }

  /** A two-digit year field names a year of this century, as written. */
  lemma TwoDigitYear(d1: char, d2: char)
    requires IsDigit(d1) && IsDigit(d2)
    ensures YearField([d1, d2]).Some?
    ensures 2000 <= YearField([d1, d2]).value <= 2099
    ensures YearField([d1, d2]).value == 2000 + 10 * (d1 - '0') as int + (d2 - '0') as int
  {
    TwoDigitNumber(d1, d2);
  }

  /** A string of three separator-free fields parses by its fields: the
      day and year fields as integers, the month field by its first three
      letters. */
  lemma ParseThreeFields(day: string, c1: char, month: string, c2: char, year: string, today: int)
    requires NoSeparator(day) && NoSeparator(month) && NoSeparator(year)
    requires IsSeparator(c1) && IsSeparator(c2)
    ensures var r := ParseCustomDate(day + [c1] + month + [c2] + year, None, today);
      var m := MonthLookup(Prefix3(ToLower(month)));
      r == if m.Some? then FromParts(YearField(year), m.value, ParseInt(day)) else Now(today)
  {
    SplitThree(day, c1, month, c2, year);
  }

  /** The form's "DD-Mon-YY" dates: a two-digit day, a month name and a
      two-digit year of this century. */
  lemma DayMonthYearForm(d1: char, d2: char, month: string, y1: char, y2: char, m: int, today: int)
    requires IsDigit(d1) && IsDigit(d2) && IsDigit(y1) && IsDigit(y2)
    requires NoSeparator(month) && MonthLookup(Prefix3(ToLower(month))) == Some(m)
    ensures ParseCustomDate([d1, d2] + ['-'] + month + ['-'] + [y1, y2], None, today)
            == FromParts(Some(2000 + 10 * (y1 - '0') as int + (y2 - '0') as int), m,
                         Some(10 * (d1 - '0') as int + (d2 - '0') as int))
  {
    var r := ParseCustomDate([d1, d2] + ['-'] + month + ['-'] + [y1, y2], None, today);
    ParseThreeFields([d1, d2], '-', month, '-', [y1, y2], today);
    assert r == FromParts(YearField([y1, y2]), m, ParseInt([d1, d2]));
    TwoDigitYear(y1, y2);
    TwoDigitNumber(d1, d2);
  }

  /** `new Date(y, m, d)` for a real day of the 21st century. */
  lemma DayOfDate(p: ParsedDate, y: int, m: int, d: int)
    requires p == FromParts(Some(y), m, Some(d))
    requires 2000 <= y <= 2099 && 0 <= m < 12 && 1 <= d <= DaysInMonth(y, m + 1)
    ensures DayOf(p).Some? && CivilFromDays(DayOf(p).value) == Civil(y, m + 1, d)
  {
    assert FullYear(y) == y;
    CenturyDays(y, m + 1);
  }

  /** The first of a month of the 21st century lies well within the range
      of a `Date`. */
  lemma CenturyDays(y: int, month: int)
    requires 2000 <= y <= 2099 && 1 <= month <= 12
    ensures 0 <= DaysFromCivil(Civil(y, month, 1)) <= 50000
  {
    var y' := if month <= 2 then y - 1 else y;
    assert y' / 400 == 4 || y' / 400 == 5;
  }
}
