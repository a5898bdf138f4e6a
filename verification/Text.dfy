/** Text as the program uses it: joining, stripping, and code-point order. */
module Text {

  function Join(parts: seq<string>): string {
    if parts == [] then "" else parts[0] + Join(parts[1..])
  }

  /** The characters `str.strip()` removes. */
  predicate IsSpace(c: char) {
    var n := c as int;
    9 <= n <= 13 || 28 <= n <= 32 || n == 0x85 || n == 0xA0 || n == 0x1680 || 0x2000 <= n <= 0x200A
    || n == 0x2028 || n == 0x2029 || n == 0x202F || n == 0x205F || n == 0x3000
  }

  function StripLeft(s: string, drop: char -> bool): string {
    if s == "" || !drop(s[0]) then s else StripLeft(s[1..], drop)
  }

  function StripRight(s: string, drop: char -> bool): string {
    if s == "" || !drop(s[|s| - 1]) then s else StripRight(s[..|s| - 1], drop)
  }

  function StripBy(s: string, drop: char -> bool): string {
    StripRight(StripLeft(s, drop), drop)
  }

  function Strip(s: string): string {
    StripBy(s, IsSpace)
  }

  lemma {:induction false} StripLeftLaw(s: string, drop: char -> bool)
    ensures var r := StripLeft(s, drop); (r == "" || !drop(r[0])) && |r| <= |s| && r == s[|s| - |r|..]
  {
    if s != "" && drop(s[0]) { StripLeftLaw(s[1..], drop); }
  }

  lemma {:induction false} StripRightLaw(s: string, drop: char -> bool)
    ensures var r := StripRight(s, drop); (r == "" || !drop(r[|r| - 1])) && |r| <= |s| && r == s[..|r|]
  {
    if s != "" && drop(s[|s| - 1]) { StripRightLaw(s[..|s| - 1], drop); }
  }

  /** What is left is a slice of the text with no dropped character at either end. */
  lemma StripByLaw(s: string, drop: char -> bool) returns (i: nat, j: nat)
    ensures i <= j <= |s| && StripBy(s, drop) == s[i..j]
    ensures i < j ==> !drop(s[i]) && !drop(s[j - 1])
  {
    var l := StripLeft(s, drop);
    StripLeftLaw(s, drop);
    StripRightLaw(l, drop);
    i := |s| - |l|;
    j := i + |StripRight(l, drop)|;
  }

  lemma NothingToStrip(s: string, drop: char -> bool)
    requires s != "" ==> !drop(s[0]) && !drop(s[|s| - 1])
    ensures StripBy(s, drop) == s
  {
  }

  lemma StripIsIdempotent(s: string)
    ensures Strip(Strip(s)) == Strip(s)
  {
    var i, j := StripByLaw(s, IsSpace);
    NothingToStrip(s[i..j], IsSpace);
  }

  /** Case folding of ASCII letters. */
  function LowerChar(c: char): char {
    if 'A' <= c <= 'Z' then (c as int + 32) as char else c
  }

  function Lower(s: string): string {
    if s == "" then "" else [LowerChar(s[0])] + Lower(s[1..])
  }

  /** Code-point order: Python's `<` on `str`, and SQLite's BINARY collation. */
  predicate Less(a: string, b: string) {
    if b == "" then false
    else if a == "" then true
    else if a[0] != b[0] then a[0] < b[0]
    else Less(a[1..], b[1..])
  }

  lemma {:induction false} LessIrreflexive(a: string)
    ensures !Less(a, a)
  {
    if a != "" { LessIrreflexive(a[1..]); }
  }

  lemma {:induction false} LessTransitive(a: string, b: string, c: string)
    requires Less(a, b) && Less(b, c)
    ensures Less(a, c)
  {
    if a != "" && a[0] == b[0] && b[0] == c[0] { LessTransitive(a[1..], b[1..], c[1..]); }
  }

  lemma {:induction false} LessTotal(a: string, b: string)
    ensures Less(a, b) || Less(b, a) || a == b
  {
    if a != "" && b != "" && a[0] == b[0] {
      LessTotal(a[1..], b[1..]);
      assert a == [a[0]] + a[1..] && b == [b[0]] + b[1..];
    }
  }

  /** Equal-length heads decide the order; only equal heads defer to the tails. */
  lemma {:induction false} LessByHead(a: string, x: string, b: string, y: string)
    requires |a| == |b|
    ensures Less(a + x, b + y) <==> (Less(a, b) || (a == b && Less(x, y)))
  {
    if a == "" {
      assert a + x == x && b + y == y;
    } else {
      assert (a + x)[0] == a[0] && (b + y)[0] == b[0];
      assert (a + x)[1..] == a[1..] + x && (b + y)[1..] == b[1..] + y;
      LessByHead(a[1..], x, b[1..], y);
      if a[0] == b[0] && a[1..] == b[1..] {
        assert a == [a[0]] + a[1..] && b == [b[0]] + b[1..];
      }
    }
  }
}
