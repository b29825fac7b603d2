/**
 * The text the app derives from a calendar day: the date-fns patterns used as
 * period keys ('yyyy', 'yyyy-MM', 'yyyy-MM-dd') and as display names, and the
 * `${getFullYear()}-${getMonth()}` key of the month timeline. Keys matter
 * because the app groups by them, so each key family is proved injective.
 */
module Formatting {
  import opened Calendar

  predicate IsDigit(c: char) { '0' <= c <= '9' }

  predicate AllDigits(s: string) {
    forall i :: 0 <= i < |s| ==> IsDigit(s[i])
  }

  function DigitChar(n: int): (c: char)
    requires 0 <= n <= 9
    ensures IsDigit(c)
  {
    "0123456789"[n]
  }

  function DigitValue(c: char): int {
    c as int - '0' as int
  }

  /** Decimal notation of `n` without leading zeros (JavaScript's String(n) for n >= 0). */
  function Digits(n: nat): (r: string)
    ensures |r| >= 1 && AllDigits(r)
    ensures n < 10 ==> |r| == 1
    ensures 10 <= n < 100 ==> |r| == 2
  {
    if n < 10 then [DigitChar(n)] else Digits(n / 10) + [DigitChar(n % 10)]
  }

  function Zeros(k: nat): (r: string)
    ensures |r| == k && AllDigits(r)
  {
    seq(k, _ => '0')
  }

  /** Zero-padded to at least `width` digits, as date-fns prints 'yyyy', 'MM' and 'dd'. */
  function Pad(n: nat, width: nat): (r: string)
    ensures AllDigits(r) && |r| >= 1
    ensures n < 100 && width == 2 ==> |r| == 2
  {
    var ds := Digits(n);
    if |ds| >= width then ds else Zeros(width - |ds|) + ds
  }

  /** The value of a string of decimal digits, read left to right onto `acc`. */
  function ValueFrom(acc: int, s: string): int
    decreases |s|
  {
    if s == [] then acc else ValueFrom(acc * 10 + DigitValue(s[0]), s[1..])
  }

  lemma {:induction false} ValueSnoc(acc: int, s: string, c: char)
    ensures ValueFrom(acc, s + [c]) == ValueFrom(acc, s) * 10 + DigitValue(c)
    decreases |s|
  {
    if s == [] {
    } else {
      assert (s + [c])[1..] == s[1..] + [c];
      ValueSnoc(acc * 10 + DigitValue(s[0]), s[1..], c);
    }
  }

  lemma {:induction false} ValueOfDigits(n: nat)
    ensures ValueFrom(0, Digits(n)) == n
  {
    if n >= 10 {
      ValueOfDigits(n / 10);
      ValueSnoc(0, Digits(n / 10), DigitChar(n % 10));
    }
  }

  lemma {:induction false} ValueSkipsZeros(k: nat, s: string)
    ensures ValueFrom(0, Zeros(k) + s) == ValueFrom(0, s)
  {
    if k > 0 {
      var t := Zeros(k) + s;
      assert t[0] == '0' && DigitValue(t[0]) == 0;
      assert ValueFrom(0, t) == ValueFrom(0, t[1..]);
      assert t[1..] == Zeros(k - 1) + s;
      ValueSkipsZeros(k - 1, s);
    } else {
      assert Zeros(k) + s == s;
    }
  }

  /** Reading a padded number back gives the number: padding loses nothing. */
  lemma PadValue(n: nat, width: nat)
    ensures ValueFrom(0, Pad(n, width)) == n
  {
    ValueOfDigits(n);
    var ds := Digits(n);
    if |ds| < width {
      ValueSkipsZeros(width - |ds|, ds);
    }
  }

  lemma PadInjective(a: nat, b: nat, width: nat)
    requires Pad(a, width) == Pad(b, width)
    ensures a == b
  {
    PadValue(a, width);
    PadValue(b, width);
  }

  lemma DigitsInjective(a: nat, b: nat)
    requires Digits(a) == Digits(b)
    ensures a == b
  {
    ValueOfDigits(a);
    ValueOfDigits(b);
  }

  /** Equal strings built from parts whose tails have the same length split the same way. */
  lemma SplitFixedTail(a: string, b: string, c: string, e: string)
    requires a + b == c + e && |b| == |e|
    ensures a == c && b == e
  {
    assert a == (a + b)[..|a|];
    assert c == (c + e)[..|c|];
    assert b == (a + b)[|a|..];
    assert e == (c + e)[|c|..];
  }

  /** Equal strings `a-b` and `c-e` whose tails hold no '-' split at the same dash. */
  lemma SplitAtLastDash(a: string, b: string, c: string, e: string)
    requires a + "-" + b == c + "-" + e
    requires '-' !in b && '-' !in e
    ensures a == c && b == e
  {
    var s := a + "-" + b;
    assert s[|a|] == '-' && s[|c|] == '-';
    forall i | |a| < i < |s|
      ensures s[i] != '-'
    {
      assert s[i] == b[i - |a| - 1];
    }
    forall i | |c| < i < |s|
      ensures s[i] != '-'
    {
      assert s[i] == e[i - |c| - 1];
    }
    assert |a| == |c|;
    assert a + "-" + b == a + ("-" + b);
    assert c + "-" + e == c + ("-" + e);
    SplitFixedTail(a, "-" + b, c, "-" + e);
    assert b == ("-" + b)[1..];
  }

  lemma NoDashInDigits(s: string)
    requires AllDigits(s)
    ensures '-' !in s
  {
    forall i | 0 <= i < |s|
      ensures s[i] != '-'
    {
      assert IsDigit(s[i]);
    }
  }

  // ---------------------------------------------------------------- keys

  lemma DropSign(s: string)
    ensures ("-" + s)[1..] == s
  {
  }

  /** A signed number's text starts with '-' exactly when the number is negative. */
  lemma SignedTextSign(n: int, digits: string)
    requires |digits| >= 1 && AllDigits(digits)
    ensures (if n < 0 then "-" + digits else digits)[0] == '-' <==> n < 0
  {
    assert IsDigit(digits[0]);
  }

  /** date-fns 'yyyy' for years from 1 on; years up to 0 carry a minus sign here. */
  function YearText(y: int): string {
    if y < 0 then "-" + Pad(-y, 4) else Pad(y, 4)
  }

  lemma YearTextInjective(a: int, b: int)
    requires YearText(a) == YearText(b)
    ensures a == b
  {
    var pa, pb := Pad(if a < 0 then -a else a, 4), Pad(if b < 0 then -b else b, 4);
    assert YearText(a) == if a < 0 then "-" + pa else pa;
    assert YearText(b) == if b < 0 then "-" + pb else pb;
    SignedTextSign(a, pa);
    SignedTextSign(b, pb);
    if a < 0 {
      SameAfterSign(pa, pb);
      PadInjective(-a, -b, 4);
    } else {
      PadInjective(a, b, 4);
    }
  }

  lemma SameAfterSign(x: string, y: string)
    requires "-" + x == "-" + y
    ensures x == y
  {
    DropSign(x);
    DropSign(y);
  }

  /** Texts `a-b` and `c-e` whose tails have the same length split alike. */
  lemma SplitAtDash(a: string, b: string, c: string, e: string)
    requires a + "-" + b == c + "-" + e && |b| == |e|
    ensures a == c && b == e
  {
    assert a + "-" + b == a + ("-" + b);
    assert c + "-" + e == c + ("-" + e);
    SplitFixedTail(a, "-" + b, c, "-" + e);
    SameAfterSign(b, e);
  }

  /** 'yyyy' */
  function YearKey(d: Date): string {
    YearText(d.year)
  }

  /** 'yyyy-MM' */
  function MonthKey(d: Date): string {
    YearText(d.year) + "-" + Pad(d.month, 2)
  }

  /** 'yyyy-MM-dd' */
  function DayKey(d: Date): string {
    YearText(d.year) + "-" + Pad(d.month, 2) + "-" + Pad(d.day, 2)
  }

  lemma YearKeyInjective(a: Date, b: Date)
    requires YearKey(a) == YearKey(b)
    ensures a.year == b.year
  {
    YearTextInjective(a.year, b.year);
  }

  lemma MonthKeyInjective(a: Date, b: Date)
    requires MonthKey(a) == MonthKey(b)
    ensures a.year == b.year && a.month == b.month
  {
    var ya, ma, yb, mb := YearText(a.year), Pad(a.month, 2), YearText(b.year), Pad(b.month, 2);
    assert |ma| == 2 && |mb| == 2;
    SplitAtDash(ya, ma, yb, mb);
    YearTextInjective(a.year, b.year);
    PadInjective(a.month, b.month, 2);
  }

  lemma DayKeyInjective(a: Date, b: Date)
    requires DayKey(a) == DayKey(b)
    ensures a == b
  {
    var ma, da, mb, db := MonthKey(a), Pad(a.day, 2), MonthKey(b), Pad(b.day, 2);
    assert |da| == 2 && |db| == 2;
    SplitAtDash(ma, da, mb, db);
    MonthKeyInjective(a, b);
    PadInjective(a.day, b.day, 2);
  }

  /** JavaScript's String(n) for an integer. */
  function NumberText(n: int): string {
    if n < 0 then "-" + Digits(-n) else Digits(n)
  }

  /** `${date.getFullYear()}-${date.getMonth()}`, the month is zero-based. */
  function YearMonthIndexKey(d: Date): string {
    NumberText(d.year) + "-" + NumberText(d.month - 1)
  }

  lemma NumberTextInjective(a: int, b: int)
    requires NumberText(a) == NumberText(b)
    ensures a == b
  {
    var da, db := Digits(if a < 0 then -a else a), Digits(if b < 0 then -b else b);
    assert NumberText(a) == if a < 0 then "-" + da else da;
    assert NumberText(b) == if b < 0 then "-" + db else db;
    SignedTextSign(a, da);
    SignedTextSign(b, db);
    if a < 0 {
      SameAfterSign(da, db);
      DigitsInjective(-a, -b);
    } else {
      DigitsInjective(a, b);
    }
  }

  /** Days share a month-timeline key exactly when they are in the same calendar month. */
  lemma YearMonthIndexKeyMeaning(a: Date, b: Date)
    ensures YearMonthIndexKey(a) == YearMonthIndexKey(b) <==> IsSameMonth(a, b)
  {
    if YearMonthIndexKey(a) == YearMonthIndexKey(b) {
      NoDashInDigits(Digits(a.month - 1));
      NoDashInDigits(Digits(b.month - 1));
      SplitAtLastDash(NumberText(a.year), NumberText(a.month - 1), NumberText(b.year), NumberText(b.month - 1));
      NumberTextInjective(a.year, b.year);
      NumberTextInjective(a.month - 1, b.month - 1);
    }
  }

  // ---------------------------------------------------------------- case

  /** `toLowerCase` on one character; only the ASCII capitals change. */
  function LowerChar(c: char): char {
    if 'A' <= c <= 'Z' then (c as int + 32) as char else c
  }

  /** `toLowerCase`, character by character. */
  function Lower(s: string): (r: string)
    ensures |r| == |s| && forall i :: 0 <= i < |s| ==> r[i] == LowerChar(s[i])
  {
    seq(|s|, i requires 0 <= i < |s| => LowerChar(s[i]))
  }

  /** `s.includes(part)` */
  function Contains(s: string, part: string): bool
    decreases |s|
  {
    (|part| <= |s| && s[..|part|] == part) || (s != [] && Contains(s[1..], part))
  }

  predicate OccursAt(s: string, part: string, i: int) {
    0 <= i <= |s| - |part| && s[i..i + |part|] == part
  }

  /** `part` is contained in `s` exactly when it occurs in `s` at some position. */
  lemma ContainsMeaning(s: string, part: string)
    ensures Contains(s, part) <==> exists i :: OccursAt(s, part, i)
  {
    if Contains(s, part) {
      var i := ContainsAt(s, part);
    }
    forall i | OccursAt(s, part, i)
      ensures Contains(s, part)
    {
      OccursContains(s, part, i);
    }
  }

  /** Where `includes` finds `part`: the first position it matches at. */
  lemma {:induction false} ContainsAt(s: string, part: string) returns (i: int)
    requires Contains(s, part)
    ensures OccursAt(s, part, i)
    decreases |s|
  {
    if |part| <= |s| && s[..|part|] == part {
      i := 0;
    } else {
      var j := ContainsAt(s[1..], part);
      i := j + 1;
      assert s[i..i + |part|] == s[1..][j..j + |part|];
    }
  }

  /** An occurrence at any position is found by `includes`. */
  lemma {:induction false} OccursContains(s: string, part: string, i: int)
    requires OccursAt(s, part, i)
    ensures Contains(s, part)
    decreases i
  {
    if i > 0 {
      assert s[1..][i - 1..i - 1 + |part|] == s[i..i + |part|];
      OccursContains(s[1..], part, i - 1);
    }
  }

  /** Three characters of `key`, at offsets `a`, `b` and `c`, found in `s` at position `i` onwards. */
  predicate Window(s: string, key: string, i: int, a: nat, b: nat, c: nat) {
    && 0 <= i && i + |key| <= |s| && a < |key| && b < |key| && c < |key|
    && s[i + a] == key[a] && s[i + b] == key[b] && s[i + c] == key[c]
  }

  /** `key` is not in `s` when no position of `s` matches three of its characters. */
  lemma KeyAbsent(s: string, key: string, a: nat, b: nat, c: nat)
    requires a < |key| && b < |key| && c < |key|
    requires forall i :: 0 <= i <= |s| - |key| ==> !Window(s, key, i, a, b, c)
    ensures !Contains(s, key)
  {
    ContainsMeaning(s, key);
    if Contains(s, key) {
      var i :| OccursAt(s, key, i);
      assert s[i..i + |key|][a] == s[i + a];
      assert s[i..i + |key|][b] == s[i + b];
      assert s[i..i + |key|][c] == s[i + c];
      assert Window(s, key, i, a, b, c);
    }
  }

  /** A key occurs at `i` when it agrees with the text character by character from there. */
  lemma OccursByChars(s: string, key: string, i: int)
    requires 0 <= i <= |s| - |key|
    requires forall k :: 0 <= k < |key| ==> key[k] == s[i + k]
    ensures OccursAt(s, key, i)
  {
    assert s[i..i + |key|] == key;
  }

  /** `key` is not in `s` when one of its characters is not. */
  lemma CharAbsent(s: string, key: string, a: nat)
    requires a < |key| && key[a] !in s
    ensures !Contains(s, key)
  {
    ContainsMeaning(s, key);
  }

  // ---------------------------------------------------------------- display names

  function MonthName(m: int): string {
    if m == 1 then "January" else if m == 2 then "February" else if m == 3 then "March"
    else if m == 4 then "April" else if m == 5 then "May" else if m == 6 then "June"
    else if m == 7 then "July" else if m == 8 then "August" else if m == 9 then "September"
    else if m == 10 then "October" else if m == 11 then "November" else "December"
  }

  function ShortMonthName(m: int): string {
    MonthName(m)[..3]
  }

  function WeekdayName(w: Weekday): string {
    if w == 0 then "Sunday" else if w == 1 then "Monday" else if w == 2 then "Tuesday"
    else if w == 3 then "Wednesday" else if w == 4 then "Thursday" else if w == 5 then "Friday"
    else "Saturday"
  }

  /** 'MMMM yyyy' */
  function LongMonthYear(d: Date): string {
    MonthName(d.month) + " " + YearText(d.year)
  }

  /** 'MMM yyyy' */
  function ShortMonthYear(d: Date): string {
    ShortMonthName(d.month) + " " + YearText(d.year)
  }

  /** 'MMM d, yyyy' */
  function ShortDate(d: Date): string {
    ShortMonthName(d.month) + " " + Digits(d.day) + ", " + YearText(d.year)
  }

  /** 'EEEE, MMM d, yyyy' */
  function LongDate(d: Date): string {
    WeekdayName(WeekdayOf(d)) + ", " + ShortDate(d)
  }

  /** 'MMM dd' */
  function MonthDay(d: Date): string {
    ShortMonthName(d.month) + " " + Pad(d.day, 2)
  }

  /** toLocaleDateString('en-US', { month: 'long', year: 'numeric' }) */
  function MonthYearLabel(d: Date): string {
    MonthName(d.month) + " " + NumberText(d.year)
  }
}
