/**
 Timestamps are stored as the text of UTC `isoformat()` and compared as text by the SQL, parsed by the
 Python code. Both comparisons agree.
 */
module IsoTimestamps {

  datatype Moment = Moment(year: nat, month: nat, day: nat, hour: nat, minute: nat, second: nat, micro: nat)

  predicate Valid(m: Moment) {
    1 <= m.year <= 9999 && 1 <= m.month <= 12 && 1 <= m.day <= 31 && m.hour < 24 && m.minute < 60 && m.second < 60 && m.micro < 1_000_000
  }

  /** How two UTC datetimes compare. */
  predicate Earlier(a: Moment, b: Moment) {
    if a.year != b.year then a.year < b.year
    else if a.month != b.month then a.month < b.month
    else if a.day != b.day then a.day < b.day
    else if a.hour != b.hour then a.hour < b.hour
    else if a.minute != b.minute then a.minute < b.minute
    else if a.second != b.second then a.second < b.second
    else a.micro < b.micro
  }

  function Digit(d: nat): char
    requires d < 10
  {
    '0' + d as char
  }

  /** `n` in decimal, zero-padded to `width` digits. */
  function Digits(n: nat, width: nat): (r: string)
    ensures |r| == width
  {
    if width == 0 then "" else Digits(n / 10, width - 1) + [Digit(n % 10)]
  }

  const UTC := "+00:00"

  function Fraction(micro: nat): string { if micro == 0 then UTC else "." + Digits(micro, 6) + UTC }

  /** `isoformat()`: the fraction is left out when it is zero. */
  function IsoText(m: Moment): string {
    Digits(m.year, 4) + ("-" + (Digits(m.month, 2) + ("-" + (Digits(m.day, 2) + ("T" +
    (Digits(m.hour, 2) + (":" + (Digits(m.minute, 2) + (":" + (Digits(m.second, 2) + Fraction(m.micro)))))))))))
  }

  /** SQLite's comparison of texts. */
  predicate Less(s: string, t: string) {
    t != "" && (s == "" || s[0] < t[0] || (s[0] == t[0] && Less(s[1..], t[1..])))
  }

  // ---------- reading a text back ----------

  function Value(c: char): nat { if c < '0' then 0 else c as int - '0' as int }

  function Number(s: string): nat {
    if s == "" then 0 else 10 * Number(s[..|s| - 1]) + Value(s[|s| - 1])
  }

  /** `datetime.fromisoformat` on a text that `isoformat` made. */
  function FromIso(s: string): Moment
    requires |s| >= 25
  {
    Moment(Number(s[..4]), Number(s[5..7]), Number(s[8..10]), Number(s[11..13]), Number(s[14..16]), Number(s[17..19]),
           if s[19] == '.' && |s| >= 26 then Number(s[20..26]) else 0)
  }

  // ---------- decimal digits ----------

  function Power(w: nat): nat { if w == 0 then 1 else 10 * Power(w - 1) }

  lemma {:induction false} DigitsOrder(n: nat, m: nat, w: nat)
    requires n < Power(w) && m < Power(w)
    ensures Less(Digits(n, w), Digits(m, w)) <==> n < m
    ensures Digits(n, w) == Digits(m, w) <==> n == m
  {
    if w > 0 {
      DigitsOrder(n / 10, m / 10, w - 1);
      var x, y, u, v := Digits(n / 10, w - 1), Digits(m / 10, w - 1), [Digit(n % 10)], [Digit(m % 10)];
      LessOfConcat(x, y, u, v);
      assert Digits(n, w)[..w - 1] == x && Digits(m, w)[..w - 1] == y;
      assert Digits(n, w)[w - 1] == Digit(n % 10) && Digits(m, w)[w - 1] == Digit(m % 10);
      OneDigit(n % 10, m % 10);
    }
  }

  lemma {:induction false} OneDigit(a: nat, b: nat)
    requires a < 10 && b < 10
    ensures Less([Digit(a)], [Digit(b)]) <==> a < b
    ensures Digit(a) == Digit(b) <==> a == b
  {
  }

  lemma {:induction false} NumberOfDigits(n: nat, w: nat)
    requires n < Power(w)
    ensures Number(Digits(n, w)) == n
  {
    if w > 0 {
      NumberOfDigits(n / 10, w - 1);
      assert Digits(n, w)[..w - 1] == Digits(n / 10, w - 1);
    }
  }

  // ---------- comparing part by part ----------

  /** Parts of equal width decide before what follows them. */
  lemma {:induction false} LessOfConcat(x: string, y: string, u: string, v: string)
    requires |x| == |y|
    ensures Less(x + u, y + v) <==> Less(x, y) || (x == y && Less(u, v))
  {
    if x == "" {
      assert x + u == u && y + v == v;
    } else {
      assert (x + u)[1..] == x[1..] + u && (y + v)[1..] == y[1..] + v;
      LessOfConcat(x[1..], y[1..], u, v);
      assert x == [x[0]] + x[1..] && y == [y[0]] + y[1..];
    }
  }

  /** A number, a separator or nothing, and the rest. */
  lemma {:induction false} NumberThen(n: nat, m: nat, w: nat, u: string, v: string)
    requires n < Power(w) && m < Power(w)
    ensures Less(Digits(n, w) + u, Digits(m, w) + v) <==> n < m || (n == m && Less(u, v))
  {
    LessOfConcat(Digits(n, w), Digits(m, w), u, v);
    DigitsOrder(n, m, w);
  }

  lemma {:induction false} SeparatorThen(c: char, u: string, v: string)
    ensures Less([c] + u, [c] + v) <==> Less(u, v)
  {
  }

  lemma {:induction false} NotLessThanItself(s: string)
    ensures !Less(s, s)
  {
    if s != "" {
      NotLessThanItself(s[1..]);
    }
  }

  lemma {:induction false} Powers()
    ensures Power(2) == 100 && Power(4) == 10_000 && Power(6) == 1_000_000
  {
  }

  /** No fraction sorts before any fraction, because '+' sorts before '.'. */
  lemma {:induction false} FractionOrder(a: nat, b: nat)
    requires a < 1_000_000 && b < 1_000_000
    ensures Less(Fraction(a), Fraction(b)) <==> a < b
  {
    Powers();
    NotLessThanItself(UTC);
    if a > 0 && b > 0 {
      assert "." + Digits(a, 6) + UTC == "." + (Digits(a, 6) + UTC);
      assert "." + Digits(b, 6) + UTC == "." + (Digits(b, 6) + UTC);
      SeparatorThen('.', Digits(a, 6) + UTC, Digits(b, 6) + UTC);
      NumberThen(a, b, 6, UTC, UTC);
    } else {
      assert Fraction(a)[0] == (if a == 0 then '+' else '.') && Fraction(b)[0] == (if b == 0 then '+' else '.');
    }
  }

  function TimeText(m: Moment): string {
    Digits(m.hour, 2) + (":" + (Digits(m.minute, 2) + (":" + (Digits(m.second, 2) + Fraction(m.micro)))))
  }

  lemma {:induction false} TimeOrder(a: Moment, b: Moment)
    requires Valid(a) && Valid(b)
    ensures Less(TimeText(a), TimeText(b)) <==>
      a.hour < b.hour || (a.hour == b.hour && (a.minute < b.minute || (a.minute == b.minute &&
      (a.second < b.second || (a.second == b.second && a.micro < b.micro)))))
  {
    Powers();
    FractionOrder(a.micro, b.micro);
    var sa, sb := Digits(a.second, 2) + Fraction(a.micro), Digits(b.second, 2) + Fraction(b.micro);
    NumberThen(a.second, b.second, 2, Fraction(a.micro), Fraction(b.micro));
    SeparatorThen(':', sa, sb);
    var ma, mb := Digits(a.minute, 2) + (":" + sa), Digits(b.minute, 2) + (":" + sb);
    NumberThen(a.minute, b.minute, 2, ":" + sa, ":" + sb);
    SeparatorThen(':', ma, mb);
    NumberThen(a.hour, b.hour, 2, ":" + ma, ":" + mb);
  }

  /** Comparing the stored texts is comparing the instants. */
  lemma {:induction false} TextOrderIsTimeOrder(a: Moment, b: Moment)
    requires Valid(a) && Valid(b)
    ensures Less(IsoText(a), IsoText(b)) <==> Earlier(a, b)
  {
    Powers();
    TimeOrder(a, b);
    var ta, tb := TimeText(a), TimeText(b);
    SeparatorThen('T', ta, tb);
    var da, db := Digits(a.day, 2) + ("T" + ta), Digits(b.day, 2) + ("T" + tb);
    NumberThen(a.day, b.day, 2, "T" + ta, "T" + tb);
    SeparatorThen('-', da, db);
    var ma, mb := Digits(a.month, 2) + ("-" + da), Digits(b.month, 2) + ("-" + db);
    NumberThen(a.month, b.month, 2, "-" + da, "-" + db);
    SeparatorThen('-', ma, mb);
    NumberThen(a.year, b.year, 4, "-" + ma, "-" + mb);
    assert IsoText(a) == Digits(a.year, 4) + ("-" + ma) && IsoText(b) == Digits(b.year, 4) + ("-" + mb);
  }

  // ---------- text and parsed comparisons agree ----------

  lemma {:induction false} PartsOfText(m: Moment)
    ensures var s := IsoText(m);
      |s| >= 25 && s[..4] == Digits(m.year, 4) && s[5..7] == Digits(m.month, 2) && s[8..10] == Digits(m.day, 2) &&
      s[11..] == TimeText(m)
  {
  }

  lemma {:induction false} PartsOfTime(m: Moment)
    ensures var t := TimeText(m);
      |t| >= 14 && t[..2] == Digits(m.hour, 2) && t[3..5] == Digits(m.minute, 2) && t[6..8] == Digits(m.second, 2) &&
      t[8..] == Fraction(m.micro)
  {
  }

  lemma {:induction false} DateBack(m: Moment)
    requires Valid(m)
    ensures var s := IsoText(m); |s| >= 25 && Number(s[..4]) == m.year && Number(s[5..7]) == m.month && Number(s[8..10]) == m.day
  {
    Powers();
    PartsOfText(m);
    NumberOfDigits(m.year, 4);
    NumberOfDigits(m.month, 2);
    NumberOfDigits(m.day, 2);
  }

  lemma {:induction false} TimeBack(m: Moment)
    requires Valid(m)
    ensures var t := TimeText(m);
      |t| >= 14 && Number(t[..2]) == m.hour && Number(t[3..5]) == m.minute && Number(t[6..8]) == m.second && t[8..] == Fraction(m.micro)
  {
    Powers();
    PartsOfTime(m);
    NumberOfDigits(m.hour, 2);
    NumberOfDigits(m.minute, 2);
    NumberOfDigits(m.second, 2);
  }

  lemma {:induction false} ClockBack(s: string, t: string, micro: nat)
    requires |s| >= 25 && |t| >= 14 && s[11..] == t && micro < 1_000_000 && t[8..] == Fraction(micro)
    ensures FromIso(s).hour == Number(t[..2]) && FromIso(s).minute == Number(t[3..5]) && FromIso(s).second == Number(t[6..8])
    ensures FromIso(s).micro == micro
  {
    assert s[11..13] == t[..2] && s[14..16] == t[3..5] && s[17..19] == t[6..8] && s[19..] == t[8..];
    FractionBack(micro);
    assert s[19] == s[19..][0];
    if micro > 0 {
      assert s[20..26] == Fraction(micro)[1..7];
    }
  }

  /** Parsing a stored text gives the instant back. */
  lemma {:induction false} ParsedBack(m: Moment)
    requires Valid(m)
    ensures |IsoText(m)| >= 25 && FromIso(IsoText(m)) == m
  {
    DateBack(m);
    TimeBack(m);
    PartsOfText(m);
    ClockBack(IsoText(m), TimeText(m), m.micro);
  }

  lemma {:induction false} FractionBack(micro: nat)
    requires micro < 1_000_000
    ensures Fraction(micro)[0] == '.' <==> micro > 0
    ensures micro > 0 ==> |Fraction(micro)| == 13 && Number(Fraction(micro)[1..7]) == micro
  {
    Powers();
    NumberOfDigits(micro, 6);
    if micro > 0 {
      assert Fraction(micro)[1..7] == Digits(micro, 6);
    }
  }

  /** The separators of the text and its two lengths. */
  lemma {:induction false} TextForm(m: Moment)
    ensures var s := IsoText(m);
      |s| == (if m.micro == 0 then 25 else 32) && s[4] == '-' && s[7] == '-' && s[10] == 'T' && s[13] == ':' && s[16] == ':' &&
      (m.micro != 0 ==> s[19] == '.') && s[|s| - 6..] == "+00:00"
  {
    PartsOfText(m);
    PartsOfTime(m);
    var s, t := IsoText(m), TimeText(m);
    assert s[4] == '-' && s[7] == '-' && s[10] == 'T';
    assert s[13] == s[11..][2] && s[16] == s[11..][5];
    assert s[19..] == s[11..][8..] == Fraction(m.micro);
    assert |s| == 19 + |Fraction(m.micro)| && s[|s| - 6..] == s[19..][|Fraction(m.micro)| - 6..];
  }

  /** The text test of the queries and the parsed test of the code never disagree, strict or not. */
  lemma {:induction false} TextAndParsedTestsAgree(a: Moment, b: Moment)
    requires Valid(a) && Valid(b)
    ensures |IsoText(a)| >= 25 && |IsoText(b)| >= 25
    ensures Less(IsoText(a), IsoText(b)) <==> Earlier(FromIso(IsoText(a)), FromIso(IsoText(b)))
    ensures (IsoText(a) == IsoText(b) || Less(IsoText(a), IsoText(b))) <==> !Earlier(FromIso(IsoText(b)), FromIso(IsoText(a)))
  {
    ParsedBack(a);
    ParsedBack(b);
    TextOrderIsTimeOrder(a, b);
    EarlierIsTotal(a, b);
  }

  lemma {:induction false} EarlierIsTotal(a: Moment, b: Moment)
    ensures !Earlier(b, a) <==> a == b || Earlier(a, b)
  {
  }
}
