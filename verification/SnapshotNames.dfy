/**
 * Names of managed database snapshots (forven/backups.py): the reason sanitiser, the
 * name printer and the name parser.
 */
module SnapshotNames {
  import opened Basics
  import opened Text

  predicate IsDigit(c: char) {
    '0' <= c <= '9'
  }

  /** The class `[a-z0-9_-]`. */
  predicate IsSafe(c: char) {
    'a' <= c <= 'z' || IsDigit(c) || c == '_' || c == '-'
  }

  predicate IsEdge(c: char) {
    c == '-' || c == '_'
  }

  predicate AllSafe(s: string) {
    forall i :: 0 <= i < |s| ==> IsSafe(s[i])
  }

  /** `re.sub("[^a-z0-9_-]+", "-", s)`: each maximal run of other characters becomes one dash. */
  function Squash(s: string, inRun: bool): string {
    if s == "" then ""
    else if IsSafe(s[0]) then [s[0]] + Squash(s[1..], false)
    else (if inRun then "" else "-") + Squash(s[1..], true)
  }

  /** `str(reason or "manual").strip().lower()`. */
  function Fold(raw: string): string {
    Lower(Strip(if raw == "" then "manual" else raw))
  }

  function Sanitise(folded: string): string {
    var trimmed := StripBy(Squash(folded, false), IsEdge);
    if trimmed == "" then "manual" else trimmed
  }

  function SafeReason(raw: string): string {
    Sanitise(Fold(raw))
  }

  /** Reasons the sanitiser produces: safe characters, no dash or underscore at either end. */
  predicate Canonical(r: string) {
    r != "" && AllSafe(r) && !IsEdge(r[0]) && !IsEdge(r[|r| - 1])
  }

  lemma {:induction false} SquashIsSafe(s: string, inRun: bool)
    ensures AllSafe(Squash(s, inRun))
  {
    if s != "" { SquashIsSafe(s[1..], !IsSafe(s[0])); }
  }

  lemma {:induction false} SquashKeepsSafe(s: string)
    requires AllSafe(s)
    ensures Squash(s, false) == s
  {
    if s != "" {
      SquashKeepsSafe(s[1..]);
      assert s == [s[0]] + s[1..];
    }
  }

  lemma SliceIsSafe(s: string, i: nat, j: nat)
    requires i <= j <= |s| && AllSafe(s)
    ensures AllSafe(s[i..j])
  {
    forall k | 0 <= k < j - i ensures IsSafe(s[i..j][k]) { assert s[i..j][k] == s[i + k]; }
  }

  lemma TrimmedIsCanonical(s: string)
    requires AllSafe(s)
    ensures var r := StripBy(s, IsEdge); r == "" || Canonical(r)
  {
    var i, j := StripByLaw(s, IsEdge);
    SliceIsSafe(s, i, j);
  }

  lemma ManualIsCanonical()
    ensures Canonical("manual")
  {
  }

  lemma SanitiseIsCanonical(folded: string)
    ensures Canonical(Sanitise(folded))
  {
    SquashIsSafe(folded, false);
    TrimmedIsCanonical(Squash(folded, false));
    ManualIsCanonical();
  }

  lemma SafeReasonIsCanonical(raw: string)
    ensures Canonical(SafeReason(raw))
  {
    SanitiseIsCanonical(Fold(raw));
  }

  lemma {:induction false} LowerKeepsSafe(s: string)
    requires AllSafe(s)
    ensures Lower(s) == s
  {
    if s != "" {
      LowerKeepsSafe(s[1..]);
      assert s == [s[0]] + s[1..];
      assert IsSafe(s[0]);
    }
  }

  /** Canonical reasons are fixed points, so the sanitiser is idempotent. */
  lemma CanonicalIsFixed(r: string)
    requires Canonical(r)
    ensures SafeReason(r) == r
  {
    assert IsSafe(r[0]) && IsSafe(r[|r| - 1]);
    NothingToStrip(r, IsSpace);
    LowerKeepsSafe(r);
    SquashKeepsSafe(r);
    NothingToStrip(r, IsEdge);
  }

  lemma SafeReasonIsIdempotent(raw: string)
    ensures SafeReason(SafeReason(raw)) == SafeReason(raw)
  {
    SafeReasonIsCanonical(raw);
    CanonicalIsFixed(SafeReason(raw));
  }

  // ---- printer ----

  predicate Digits(s: string) {
    forall i :: 0 <= i < |s| ==> IsDigit(s[i])
  }

  /** What the stamp group of the pattern accepts: eight digits, `T`, six or more digits, `Z`. */
  predicate IsStamp(s: string) {
    && |s| >= 16 && Digits(s[..8]) && s[8] == 'T' && Digits(s[9..|s| - 1]) && s[|s| - 1] == 'Z'
  }

  const HEAD: string := "forven-"
  const TAIL: string := ".db"

  function Print(reason: string, stamp: string): string {
    HEAD + (reason + "-" + stamp) + TAIL
  }

  // ---- parser ----

  /** The rest of the pattern after the reason: a dash and a stamp. */
  predicate IsRest(s: string) {
    s != "" && s[0] == '-' && IsStamp(s[1..])
  }

  /** The lazy reason group: the shortest non-empty safe prefix after which the rest matches. */
  function LazyReason(body: string, k: nat): Option<string>
    requires k <= |body|
    decreases |body| - k
  {
    if k > 0 && AllSafe(body[..k]) && IsRest(body[k..]) then Some(body[..k])
    else if k == |body| then None
    else LazyReason(body, k + 1)
  }

  /** `$` also matches before a final newline. */
  function Chomp(name: string): string {
    if name != "" && name[|name| - 1] == '\n' then name[..|name| - 1] else name
  }

  function Parse(name: string): Option<string> {
    var text := Chomp(name);
    if |text| < |HEAD| + |TAIL| || text[..|HEAD|] != HEAD || text[|text| - |TAIL|..] != TAIL then None
    else LazyReason(text[|HEAD|..|text| - |TAIL|], 0)
  }

  lemma RestHasNoInnerDash(s: string)
    requires IsRest(s)
    ensures forall i :: 1 <= i < |s| ==> s[i] != '-'
  {
    forall i | 1 <= i < |s| ensures s[i] != '-' {
      var t := s[1..];
      var j := i - 1;
      assert s[i] == t[j];
      if j < 8 { assert t[j] == t[..8][j] && IsDigit(t[..8][j]); }
      else if 9 <= j < |t| - 1 { assert t[j] == t[9..|t| - 1][j - 9] && IsDigit(t[9..|t| - 1][j - 9]); }
    }
  }

  /** At most one split of a body into reason and rest exists: the rest starts at the last dash. */
  lemma RestIsUnique(body: string, j: nat, k: nat)
    requires j < k <= |body| && IsRest(body[k..])
    ensures !IsRest(body[j..])
  {
    assert body[k] == body[k..][0] == '-';
    assert body[j..][k - j] == '-';
    if IsRest(body[j..]) { RestHasNoInnerDash(body[j..]); }
  }

  lemma {:induction false} LazyFindsSplit(body: string, k: nat, at: nat)
    requires k <= at <= |body| && 0 < at && AllSafe(body[..at]) && IsRest(body[at..])
    ensures LazyReason(body, k) == Some(body[..at])
    decreases at - k
  {
    if k < at {
      RestIsUnique(body, k, at);
      LazyFindsSplit(body, k + 1, at);
    }
  }

  lemma {:induction false} LazyIsSplit(body: string, k: nat) returns (at: nat)
    requires k <= |body| && LazyReason(body, k).Some?
    ensures k <= at <= |body| && at > 0 && LazyReason(body, k) == Some(body[..at])
    ensures AllSafe(body[..at]) && IsRest(body[at..])
    decreases |body| - k
  {
    if k > 0 && AllSafe(body[..k]) && IsRest(body[k..]) {
      at := k;
    } else {
      at := LazyIsSplit(body, k + 1);
    }
  }

  lemma PrintedParts(reason: string, stamp: string)
    ensures var text, body := Print(reason, stamp), reason + "-" + stamp;
            && |text| == |HEAD| + |body| + |TAIL|
            && text[..|HEAD|] == HEAD && text[|text| - |TAIL|..] == TAIL
            && text[|HEAD|..|text| - |TAIL|] == body && Chomp(text) == text
            && body[..|reason|] == reason && body[|reason|..] == "-" + stamp
  {
    var text, body := Print(reason, stamp), reason + "-" + stamp;
    assert text[|text| - 1] == TAIL[2];
    assert text[..|HEAD|] == HEAD;
    assert text[|HEAD|..|text| - |TAIL|] == body;
  }

  /** Parsing a printed name gives its reason back, for every safe reason and every stamp of the grammar. */
  lemma ParsePrinted(reason: string, stamp: string)
    requires reason != "" && AllSafe(reason) && IsStamp(stamp)
    ensures Parse(Print(reason, stamp)) == Some(reason)
  {
    PrintedParts(reason, stamp);
    var body := reason + "-" + stamp;
    assert ("-" + stamp)[1..] == stamp;
    LazyFindsSplit(body, 0, |reason|);
  }

  /** And only such names parse, up to one final newline: everything else in the directory is out of reach. */
  lemma ParsedWasPrinted(name: string) returns (stamp: string)
    requires Parse(name).Some?
    ensures Parse(name).value != "" && AllSafe(Parse(name).value) && IsStamp(stamp)
    ensures Chomp(name) == Print(Parse(name).value, stamp)
  {
    var text := Chomp(name);
    var body := text[|HEAD|..|text| - |TAIL|];
    var at := LazyIsSplit(body, 0);
    stamp := body[at..][1..];
    assert body == body[..at] + "-" + stamp;
    assert text == text[..|HEAD|] + text[|HEAD|..|text| - |TAIL|] + text[|text| - |TAIL|..];
  }

  /** For every raw reason the snapshot's name parses to exactly the sanitised reason, and to no other. */
  lemma NameOfRawReason(raw: string, stamp: string, other: string)
    requires IsStamp(stamp)
    ensures Parse(Print(SafeReason(raw), stamp)) == Some(SafeReason(raw))
    ensures SafeReason(other) != SafeReason(raw) ==> Parse(Print(SafeReason(other), stamp)) != Some(SafeReason(raw))
  {
    SafeReasonIsCanonical(raw);
    ParsePrinted(SafeReason(raw), stamp);
    SafeReasonIsCanonical(other);
    ParsePrinted(SafeReason(other), stamp);
  }

  /** Distinct reason and stamp pairs never share a file name. */
  lemma PrintIsInjective(r: string, s: string, r': string, s': string)
    requires r != "" && r' != "" && AllSafe(r) && AllSafe(r') && IsStamp(s) && IsStamp(s')
    requires Print(r, s) == Print(r', s')
    ensures r == r' && s == s'
  {
    ParsePrinted(r, s);
    ParsePrinted(r', s');
    PrintedParts(r, s);
    PrintedParts(r', s');
    assert ("-" + s)[1..] == s && ("-" + s')[1..] == s';
  }
}
