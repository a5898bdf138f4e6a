/**
 * UTC instants as the program stores them, `datetime.now(timezone.utc).isoformat()`,
 * and zero-padded numbers: both are compared as text (forven/ai_dropzone_sessions.py).
 */
module IsoTime {
  import opened Basics
  import opened Text

  function Pow10(w: nat): (p: nat)
    ensures p >= 1
  {
    if w == 0 then 1 else 10 * Pow10(w - 1)
  }

  function Digit(d: nat): char
    requires d < 10
  {
    '0' + d as char
  }

  /** The last `w` decimal digits of `n`. */
  function Pad(n: nat, w: nat): (s: string)
    ensures |s| == w
  {
    if w == 0 then "" else Pad(n / 10, w - 1) + [Digit(n % 10)]
  }

  predicate IsDigits(s: string) {
    forall i :: 0 <= i < |s| ==> '0' <= s[i] <= '9'
  }

  function Value(s: string): nat
    requires IsDigits(s)
  {
    if s == "" then 0 else 10 * Value(s[..|s| - 1]) + (s[|s| - 1] as int - '0' as int)
  }

  lemma {:induction false} PadValue(n: nat, w: nat)
    requires n < Pow10(w)
    ensures IsDigits(Pad(n, w)) && Value(Pad(n, w)) == n
  {
    if w > 0 {
      PadValue(n / 10, w - 1);
      assert Pad(n, w)[..w - 1] == Pad(n / 10, w - 1);
    }
  }

  lemma OneCharOrder(c: char, d: char)
    ensures Less([c], [d]) <==> c < d
  {
    assert [c][1..] == [] && [d][1..] == [];
  }

  /** On numbers of one width, text order is numeric order. */
  lemma {:induction false} PadOrder(m: nat, n: nat, w: nat)
    requires m < Pow10(w) && n < Pow10(w)
    ensures Less(Pad(m, w), Pad(n, w)) <==> m < n
    ensures Pad(m, w) == Pad(n, w) <==> m == n
  {
    if w > 0 {
      PadOrder(m / 10, n / 10, w - 1);
      LessByHead(Pad(m / 10, w - 1), [Digit(m % 10)], Pad(n / 10, w - 1), [Digit(n % 10)]);
      OneCharOrder(Digit(m % 10), Digit(n % 10));
      var a, b := Pad(m, w), Pad(n, w);
      assert a[..w - 1] == Pad(m / 10, w - 1) && b[..w - 1] == Pad(n / 10, w - 1);
      assert a[w - 1] == Digit(m % 10) && b[w - 1] == Digit(n % 10);
    }
  }

  // ---- instants ----

  datatype Instant = Instant(year: nat, month: nat, day: nat, hour: nat, minute: nat, second: nat, micro: nat)

  predicate Valid(t: Instant) {
    && 1 <= t.year < 10000 && 1 <= t.month <= 12 && 1 <= t.day <= 31
    && t.hour < 24 && t.minute < 60 && t.second < 60 && t.micro < 1000000
  }

  /** Chronological order of UTC instants. */
  predicate Before(a: Instant, b: Instant) {
    a.year < b.year || (a.year == b.year && (
    a.month < b.month || (a.month == b.month && (
    a.day < b.day || (a.day == b.day && (
    a.hour < b.hour || (a.hour == b.hour && (
    a.minute < b.minute || (a.minute == b.minute && (
    a.second < b.second || (a.second == b.second && a.micro < b.micro)))))))))))
  }

  const ZONE: string := "+00:00"

  /** The fraction is dropped when it is zero. */
  function Fraction(micro: nat): string {
    if micro == 0 then ZONE else "." + (Pad(micro, 6) + ZONE)
  }

  function Clock(t: Instant): string {
    Pad(t.hour, 2) + (":" + (Pad(t.minute, 2) + (":" + (Pad(t.second, 2) + Fraction(t.micro)))))
  }

  function Iso(t: Instant): string {
    Pad(t.year, 4) + ("-" + (Pad(t.month, 2) + ("-" + (Pad(t.day, 2) + ("T" + Clock(t))))))
  }

  /** One numeric field in front of two texts, with a separator between. */
  lemma FieldOrder(m: nat, n: nat, w: nat, sep: string, x: string, y: string)
    requires m < Pow10(w) && n < Pow10(w)
    ensures Less(Pad(m, w) + (sep + x), Pad(n, w) + (sep + y)) <==> m < n || (m == n && Less(x, y))
  {
    PadOrder(m, n, w);
    LessByHead(Pad(m, w), sep + x, Pad(n, w), sep + y);
    LessByHead(sep, x, sep, y);
    LessIrreflexive(sep);
  }

  lemma Powers()
    ensures Pow10(1) == 10 && Pow10(2) == 100 && Pow10(4) == 10000 && Pow10(6) == 1000000
  {
    assert Pow10(3) == 1000 && Pow10(5) == 100000;
  }

  lemma DotAfterPlus(x: string, y: string)
    requires x != "" && x[0] == '+' && y != "" && y[0] == '.'
    ensures Less(x, y) && !Less(y, x)
  {
  }

  /** Dropping a zero fraction keeps the order because '+' sorts before '.'. */
  lemma FractionOrder(a: nat, b: nat)
    requires a < 1000000 && b < 1000000
    ensures Less(Fraction(a), Fraction(b)) <==> a < b
  {
    Powers();
    LessIrreflexive(ZONE);
    if a != 0 && b != 0 {
      LessByHead(".", Pad(a, 6) + ZONE, ".", Pad(b, 6) + ZONE);
      LessIrreflexive(".");
      PadOrder(a, b, 6);
      LessByHead(Pad(a, 6), ZONE, Pad(b, 6), ZONE);
    } else if a == 0 && b != 0 {
      DotAfterPlus(Fraction(a), Fraction(b));
    } else if a != 0 {
      DotAfterPlus(Fraction(b), Fraction(a));
    }
  }

  lemma ClockOrder(a: Instant, b: Instant)
    requires Valid(a) && Valid(b)
    ensures Less(Clock(a), Clock(b)) <==>
            a.hour < b.hour || (a.hour == b.hour && (
            a.minute < b.minute || (a.minute == b.minute && (
            a.second < b.second || (a.second == b.second && a.micro < b.micro)))))
  {
    Powers();
    FractionOrder(a.micro, b.micro);
    assert "" + Fraction(a.micro) == Fraction(a.micro) && "" + Fraction(b.micro) == Fraction(b.micro);
    FieldOrder(a.second, b.second, 2, "", Fraction(a.micro), Fraction(b.micro));
    var sa, sb := Pad(a.second, 2) + Fraction(a.micro), Pad(b.second, 2) + Fraction(b.micro);
    FieldOrder(a.minute, b.minute, 2, ":", sa, sb);
    FieldOrder(a.hour, b.hour, 2, ":", Pad(a.minute, 2) + (":" + sa), Pad(b.minute, 2) + (":" + sb));
  }

  /** For all valid instants, the text order of their ISO forms is their order in time. */
  lemma IsoOrderIsTimeOrder(a: Instant, b: Instant)
    requires Valid(a) && Valid(b)
    ensures Less(Iso(a), Iso(b)) <==> Before(a, b)
  {
    Powers();
    ClockOrder(a, b);
    FieldOrder(a.day, b.day, 2, "T", Clock(a), Clock(b));
    var da, db := Pad(a.day, 2) + ("T" + Clock(a)), Pad(b.day, 2) + ("T" + Clock(b));
    FieldOrder(a.month, b.month, 2, "-", da, db);
    FieldOrder(a.year, b.year, 4, "-", Pad(a.month, 2) + ("-" + da), Pad(b.month, 2) + ("-" + db));
  }
}
