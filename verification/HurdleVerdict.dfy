/**
 * Classifying a measured hurdle block and deciding what it blocks
 * (forven/baseline_hurdle.py, evaluate_baseline_hurdle and baseline_hurdle_gate_reason).
 */
module HurdleVerdict {
  import opened Basics

  datatype GateMode = Off | Observe | Enforce

  datatype Config = Config(minAlphaPct: real, minAlphaT: real, minDays: int, paper: GateMode, live: GateMode)

  datatype Status = Unclassified | Errored | Insufficient | Fail | Pass

  /** A stored block: `reason` is the insufficient_reason key, `alphaPct` is absent when nothing was measured. */
  datatype Block = Block(
    error: bool, days: int, reason: Option<string>, alphaPct: Option<real>, alphaT: real, status: Status)

  predicate HasReason(b: Block) {
    b.reason.Some? && b.reason.value != ""
  }

  predicate TooShort(b: Block, c: Config) {
    HasReason(b) || b.days < c.minDays || b.alphaPct.None?
  }

  predicate FallsShort(b: Block, c: Config)
    requires b.alphaPct.Some?
  {
    b.alphaPct.value <= c.minAlphaPct || (c.minAlphaT > 0.0 && b.alphaT < c.minAlphaT)
  }

  /** Classification works on a copy; a missing reason is filled in, an existing one is kept. */
  function Evaluate(b: Block, c: Config): Block {
    if b.error then b.(status := Errored)
    else if TooShort(b, c) then
      b.(status := Insufficient, reason := if b.reason.None? then Some("too few out-of-sample days") else b.reason)
    else b.(status := if FallsShort(b, c) then Fail else Pass)
  }

  /** The gate of a stage re-classifies the stored block against the current thresholds. */
  predicate Blocks(b: Block, c: Config, live: bool) {
    (if live then c.live else c.paper) == Enforce && Evaluate(b, c).status == Fail
  }

  /** Missing evidence is never a merit failure, whatever the thresholds and modes. */
  lemma EvidenceIsNeededToBlock(b: Block, c: Config, live: bool)
    requires Blocks(b, c, live)
    ensures !b.error && !HasReason(b) && b.alphaPct.Some? && b.days >= c.minDays
  {
  }

  predicate Stricter(c: Config, d: Config) {
    d.minAlphaPct <= c.minAlphaPct && d.minAlphaT <= c.minAlphaT && d.minDays <= c.minDays
  }

  /** A block that passes strict thresholds passes all looser ones. */
  lemma PassSurvivesLoosening(b: Block, c: Config, d: Config)
    requires Stricter(c, d) && Evaluate(b, c).status == Pass
    ensures Evaluate(b, d).status == Pass
  {
  }

  /** The first classification stores a reason of its own. */
  predicate StoresReason(b: Block, c: Config) {
    !b.error && b.reason.None? && TooShort(b, c)
  }

  /**
   * A settings change is meant to apply to stored results. It does for a block that was
   * classified before exactly when that classification stored no reason of its own, or the
   * block is insufficient under the new thresholds anyway.
   */
  lemma ReclassifiesIff(b: Block, first: Config, second: Config)
    ensures Evaluate(Evaluate(b, first), second).status == Evaluate(b, second).status
            <==> (StoresReason(b, first) ==> TooShort(b, second))
  {
  }

  /** A stale reason only ever hides a verdict: it never blocks, and never passes, what fresh evidence would not. */
  lemma StaleReasonNeverDecides(b: Block, first: Config, second: Config, live: bool)
    ensures Blocks(Evaluate(b, first), second, live) ==> Blocks(b, second, live)
    ensures Evaluate(Evaluate(b, first), second).status == Pass ==> Evaluate(b, second).status == Pass
  {
  }

  /** It can hide one: thirty measured days classified when sixty were required stay insufficient when ten would do. */
  lemma StaleReasonCanHide() returns (b: Block, first: Config, second: Config)
    ensures b.days >= second.minDays && b.alphaPct.Some? && !HasReason(b)
    ensures Evaluate(b, second).status == Pass && Evaluate(Evaluate(b, first), second).status == Insufficient
  {
    b := Block(false, 30, None, Some(5.0), 2.0, Unclassified);
    first, second := Config(0.0, 0.0, 60, Observe, Enforce), Config(0.0, 0.0, 10, Observe, Enforce);
  }

  // ---- any number of settings changes ----

  /** The block stored again after each of these classifications, oldest first. */
  function Reclassified(b: Block, configs: seq<Config>): Block {
    if configs == [] then b
    else Evaluate(Reclassified(b, configs[..|configs| - 1]), configs[|configs| - 1])
  }

  ghost predicate EverStoredReason(b: Block, configs: seq<Config>) {
    exists i :: 0 <= i < |configs| && StoresReason(b, configs[i])
  }

  lemma EverStoredSnoc(b: Block, configs: seq<Config>)
    requires configs != []
    ensures var n := |configs| - 1;
            EverStoredReason(b, configs) <==> EverStoredReason(b, configs[..n]) || StoresReason(b, configs[n])
  {
    var n := |configs| - 1;
    if EverStoredReason(b, configs[..n]) {
      var i :| 0 <= i < n && StoresReason(b, configs[..n][i]);
      assert configs[i] == configs[..n][i];
    }
    if i :| 0 <= i < |configs| && StoresReason(b, configs[i]) {
      if i < n { assert configs[..n][i] == configs[i]; }
    }
  }

  /** All that survives of the earlier classifications is a reason once stored. */
  lemma {:induction false} ReclassifiedShape(b: Block, configs: seq<Config>)
    ensures var r := Reclassified(b, configs);
            && r.error == b.error && r.days == b.days && r.alphaPct == b.alphaPct && r.alphaT == b.alphaT
            && (if EverStoredReason(b, configs) then HasReason(r) else r.reason == b.reason)
  {
    if configs != [] {
      ReclassifiedShape(b, configs[..|configs| - 1]);
      EverStoredSnoc(b, configs);
    }
  }

  /**
   * After any number of settings changes, classifying the stored block agrees with
   * classifying the measured one if and only if no change ever stored a reason, or the
   * block is insufficient under the present thresholds anyway.
   */
  lemma HistoryCountsIff(b: Block, configs: seq<Config>, now: Config)
    ensures Evaluate(Reclassified(b, configs), now).status == Evaluate(b, now).status
            <==> (EverStoredReason(b, configs) ==> TooShort(b, now))
  {
    ReclassifiedShape(b, configs);
  }
}
