/**
 * Trades written to a result artifact and read back (forven/backtest_api.py,
 * _normalize_trade_artifact_rows and _normalize_trade_rows). Writer and reader
 * are separate loops that each carry a compounding equity.
 */
module TradeArtifacts {
  import opened Basics

  const DISPLAY_EQUITY: real := 10000.0

  /** A row handed to the writer: absent fields are None. */
  datatype RawRow =
    | Dict(
        entryTime: string, entryTs: string, exitTime: string, exitTs: string,  // "" when absent
        entryPrice: Option<real>, exitPrice: Option<real>,
        pnlPct: Option<real>, returnPct: Option<real>, pnl: Option<real>)
    | NotDict

  datatype Stored = Stored(
    entryTime: string, entryPrice: real, exitTime: string, exitPrice: real,
    pnl: real, returnPct: real, pnlPct: real)

  /** A row met by the reader, which also serves legacy artifacts; synonymous keys are already merged. */
  datatype ReadRow =
    | Fields(
        entryTime: string, exitTime: string, entryPrice: Option<real>, exitPrice: Option<real>,
        pnl: Option<real>, pnlPct: Option<real>, returnPct: Option<real>, ret: Option<real>)
    | NotFields

  datatype Trade = Trade(
    entryTime: string, entryPrice: real, exitTime: string, exitPrice: real, pnl: real, returnPct: real)

  function Or(a: string, b: string): string {
    if a != "" then a else b
  }

  /** Equity after a trade with ratio `r`, floored at zero. */
  function Grow(equity: real, r: real): real {
    MaxR(0.0, equity * (1.0 + r))
  }

  // ---- the writer ----

  function Ratio(row: RawRow): real
    requires row.Dict?
  {
    if row.pnlPct.Some? then row.pnlPct.value else row.returnPct.GetOr(0.0)
  }

  function WriteRow(row: RawRow, equity: real): Stored
    requires row.Dict?
  {
    var ratio := Ratio(row);
    Stored(Or(row.entryTime, row.entryTs), row.entryPrice.GetOr(0.0),
           Or(row.exitTime, Or(row.exitTs, row.entryTime)), row.exitPrice.GetOr(0.0),
           row.pnl.GetOr(equity * ratio), ratio * 100.0, ratio)
  }

  function Write(rows: seq<RawRow>, equity: real): seq<Stored> {
    if rows == [] then []
    else if rows[0].NotDict? then Write(rows[1..], equity)
    else [WriteRow(rows[0], equity)] + Write(rows[1..], Grow(equity, Ratio(rows[0])))
  }

  lemma WriteFrom(rows: seq<RawRow>, i: nat, equity: real)
    requires i < |rows|
    ensures Write(rows[i..], equity) ==
            if rows[i].NotDict? then Write(rows[i + 1..], equity)
            else [WriteRow(rows[i], equity)] + Write(rows[i + 1..], Grow(equity, Ratio(rows[i])))
  {
    assert rows[i..][0] == rows[i] && rows[i..][1..] == rows[i + 1..];
  }

  lemma WriteStep(rows: seq<RawRow>, i: nat, equity: real, stored: seq<Stored>, row: Stored)
    requires i < |rows| && rows[i].Dict? && row == WriteRow(rows[i], equity)
    ensures stored + Write(rows[i..], equity) == stored + [row] + Write(rows[i + 1..], Grow(equity, row.pnlPct))
  {
    WriteFrom(rows, i, equity);
  }

  method NormalizeTradeArtifactRows(rows: seq<RawRow>) returns (stored: seq<Stored>)
    ensures stored == Write(rows, DISPLAY_EQUITY)
  {
    stored := [];
    var equity := DISPLAY_EQUITY;
    assert rows[0..] == rows;
    for i := 0 to |rows|
      invariant stored + Write(rows[i..], equity) == Write(rows, DISPLAY_EQUITY)
    {
      if rows[i].NotDict? {
        WriteFrom(rows, i, equity);
      } else {
        var row := WriteRow(rows[i], equity);
        WriteStep(rows, i, equity, stored, row);
        stored := stored + [row];
        equity := Grow(equity, row.pnlPct);
      }
    }
  }

  // ---- the reader ----

  /** What the reader carries from row to row; `display` is the last return it computed, if any. */
  datatype Carry = Carry(equity: real, display: Option<real>)

  const TINY: real := 0.000001

  /** The legacy shape in which `return_pct` held a ratio. */
  predicate ReturnIsRatio(row: ReadRow)
    requires row.Fields?
  {
    row.pnl.Some? && row.returnPct.Some? && row.returnPct.value != 0.0
    && AbsR(row.returnPct.value) < 1.0 && AbsR(row.pnl.value - row.returnPct.value) < TINY
  }

  /** Ratio and displayed return before the price fallback; a row without any return leaves the display alone. */
  function Returns(row: ReadRow, display: Option<real>): (real, Option<real>)
    requires row.Fields?
  {
    if row.pnlPct.Some? then (row.pnlPct.value, Some(row.pnlPct.value * 100.0))
    else if row.returnPct.Some? then
      if ReturnIsRatio(row) then (row.returnPct.value, Some(row.returnPct.value * 100.0))
      else (row.returnPct.value / 100.0, Some(row.returnPct.value))
    else if row.ret.Some? then (row.ret.value, Some(row.ret.value * 100.0))
    else (0.0, display)
  }

  function FromPrices(rd: (real, Option<real>), ep: real, xp: real): (real, Option<real>) {
    if rd.0 == 0.0 && ep != 0.0 && xp != 0.0 then ((xp - ep) / ep, Some((xp - ep) / ep * 100.0)) else rd
  }

  /** The stored PnL is absent, or is the raw ratio written by mistake. */
  predicate NeedsRepair(pnl: real, ratio: real) {
    pnl == 0.0 || (AbsR(pnl - ratio) < TINY && AbsR(pnl) < 1.0 && ratio != 0.0)
  }

  predicate Kept(row: ReadRow) {
    row.Fields? && row.entryTime != "" && row.entryPrice.Some?
  }

  function RatioAndDisplay(row: ReadRow, display: Option<real>): (real, Option<real>)
    requires Kept(row)
  {
    FromPrices(Returns(row, display), row.entryPrice.value, row.exitPrice.GetOr(row.entryPrice.value))
  }

  /** None when the row raises because no return was ever computed. */
  function ReadOne(row: ReadRow, c: Carry): Option<(Trade, Carry)>
    requires Kept(row)
  {
    var (ratio, display) := RatioAndDisplay(row, c.display);
    if display.None? then None
    else
      var pnl := row.pnl.GetOr(0.0);
      Some((Trade(row.entryTime, row.entryPrice.value, Or(row.exitTime, row.entryTime),
                  row.exitPrice.GetOr(row.entryPrice.value),
                  if NeedsRepair(pnl, ratio) then c.equity * ratio else pnl, display.value),
            Carry(Grow(c.equity, ratio), display)))
  }

  function Prepend(trades: seq<Trade>, rest: Option<seq<Trade>>): Option<seq<Trade>> {
    match rest case None => None case Some(more) => Some(trades + more)
  }

  function Read(rows: seq<ReadRow>, c: Carry): Option<seq<Trade>> {
    if rows == [] then Some([])
    else if !Kept(rows[0]) then Read(rows[1..], c)
    else
      match ReadOne(rows[0], c)
      case None => None
      case Some((trade, c')) => Prepend([trade], Read(rows[1..], c'))
  }

  lemma ReadFrom(rows: seq<ReadRow>, i: nat, c: Carry)
    requires i < |rows|
    ensures Read(rows[i..], c) ==
            if !Kept(rows[i]) then Read(rows[i + 1..], c)
            else match ReadOne(rows[i], c)
              case None => None
              case Some((trade, c')) => Prepend([trade], Read(rows[i + 1..], c'))
  {
    assert rows[i..][0] == rows[i] && rows[i..][1..] == rows[i + 1..];
  }

  lemma PrependOne(out: seq<Trade>, trade: Trade, rest: Option<seq<Trade>>)
    ensures Prepend(out, Prepend([trade], rest)) == Prepend(out + [trade], rest)
  {
    if rest.Some? { assert out + ([trade] + rest.value) == (out + [trade]) + rest.value; }
  }

  method NormalizeTradeRows(rows: seq<ReadRow>) returns (trades: Option<seq<Trade>>)
    ensures trades == Read(rows, Carry(DISPLAY_EQUITY, None))
  {
    var out, equity, display := [], DISPLAY_EQUITY, None;
    assert rows[0..] == rows;
    ghost var all := Read(rows, Carry(equity, display));
    assert Prepend(out, all) == all by { if all.Some? { assert [] + all.value == all.value; } }
    for i := 0 to |rows|
      invariant Prepend(out, Read(rows[i..], Carry(equity, display))) == all
    {
      var row := rows[i];
      ReadFrom(rows, i, Carry(equity, display));
      if row.NotFields? || row.entryTime == "" || row.entryPrice.None? {
        continue;
      }
      var ep := row.entryPrice.value;
      var xp := row.exitPrice.GetOr(ep);
      var pnl := row.pnl.GetOr(0.0);
      var rd := FromPrices(Returns(row, display), ep, xp);
      if rd.1.None? {
        return None;
      }
      var ratio := rd.0;
      var dollars := if NeedsRepair(pnl, ratio) then equity * ratio else pnl;
      var trade := Trade(row.entryTime, ep, Or(row.exitTime, row.entryTime), xp, dollars, rd.1.value);
      assert Kept(row) && RatioAndDisplay(row, display) == rd;
      assert ReadOne(row, Carry(equity, display)).value.0.pnl == dollars;
      assert ReadOne(row, Carry(equity, display)).value.0 == trade;
      assert ReadOne(row, Carry(equity, display)) == Some((trade, Carry(Grow(equity, ratio), rd.1)));
      PrependOne(out, trade, Read(rows[i + 1..], Carry(Grow(equity, ratio), rd.1)));
      out := out + [trade];
      equity, display := Grow(equity, ratio), rd.1;
    }
    assert rows[|rows|..] == [] && out + [] == out;
    trades := Some(out);
  }

  // ---- write, then read ----

  function AsRead(s: Stored): ReadRow {
    Fields(s.entryTime, s.exitTime, Some(s.entryPrice), Some(s.exitPrice), Some(s.pnl), Some(s.pnlPct),
        Some(s.returnPct), None)
  }

  function AllAsRead(stored: seq<Stored>): seq<ReadRow> {
    if stored == [] then [] else [AsRead(stored[0])] + AllAsRead(stored[1..])
  }

  ghost predicate Reproduces(stored: seq<Stored>, trades: seq<Trade>) {
    |trades| == |stored|
    && forall i :: 0 <= i < |stored| ==> trades[i].pnl == stored[i].pnl && trades[i].returnPct == stored[i].returnPct
  }

  /** What the writer can check of one row, at the equity it carries there. */
  predicate Faithful(s: Stored, equity: real) {
    && s.entryTime != ""
    && !(s.pnlPct == 0.0 && s.entryPrice != 0.0 && s.exitPrice != 0.0 && s.entryPrice != s.exitPrice)
    && (NeedsRepair(s.pnl, s.pnlPct) ==> s.pnl == equity * s.pnlPct)
  }

  predicate AllFaithful(rows: seq<RawRow>, equity: real) {
    rows == []
    || (if rows[0].NotDict? then AllFaithful(rows[1..], equity)
        else Faithful(WriteRow(rows[0], equity), equity) && AllFaithful(rows[1..], Grow(equity, Ratio(rows[0]))))
  }

  lemma {:induction false} ReadNeverGrows(rows: seq<ReadRow>, c: Carry)
    ensures var r := Read(rows, c); r.Some? ==> |r.value| <= |rows|
  {
    if rows != [] {
      if Kept(rows[0]) && ReadOne(rows[0], c).Some? {
        ReadNeverGrows(rows[1..], ReadOne(rows[0], c).value.1);
      } else {
        ReadNeverGrows(rows[1..], c);
      }
    }
  }

  lemma {:induction false} WrittenRowsAlwaysRead(stored: seq<Stored>, c: Carry)
    ensures Read(AllAsRead(stored), c).Some? && |AllAsRead(stored)| == |stored|
  {
    if stored != [] {
      var rows := AllAsRead(stored);
      assert rows[0] == AsRead(stored[0]) && rows[1..] == AllAsRead(stored[1..]);
      WrittenRowsAlwaysRead(stored[1..], if Kept(rows[0]) then ReadOne(rows[0], c).value.1 else c);
    }
  }

  /** One stored row is read back exactly iff it is faithful, and then both loops carry the same equity on. */
  lemma ReadBackOne(s: Stored, c: Carry)
    requires s.entryTime != "" && s.returnPct == s.pnlPct * 100.0
    ensures Kept(AsRead(s)) && ReadOne(AsRead(s), c).Some?
    ensures var (trade, c') := ReadOne(AsRead(s), c).value;
            && ((trade.pnl == s.pnl && trade.returnPct == s.returnPct) <==> Faithful(s, c.equity))
            && (Faithful(s, c.equity) ==> c'.equity == Grow(c.equity, s.pnlPct))
  {
    var ep, xp := s.entryPrice, s.exitPrice;
    if s.pnlPct == 0.0 && ep != 0.0 && xp != 0.0 {
      assert (xp - ep) / ep == 0.0 <==> xp == ep;
    }
  }

  /**
   * Writing and then reading reproduces every row's return and dollar PnL if and only
   * if every written row is faithful; no input is excluded.
   */
  lemma {:induction false} ReadBackIffFaithful(rows: seq<RawRow>, equity: real, display: Option<real>)
    ensures var stored := Write(rows, equity);
            var read := Read(AllAsRead(stored), Carry(equity, display));
            read.Some? && (Reproduces(stored, read.value) <==> AllFaithful(rows, equity))
  {
    var stored := Write(rows, equity);
    var c := Carry(equity, display);
    WrittenRowsAlwaysRead(stored, c);
    if rows == [] {
    } else if rows[0].NotDict? {
      ReadBackIffFaithful(rows[1..], equity, display);
    } else {
      var head := WriteRow(rows[0], equity);
      var equity' := Grow(equity, Ratio(rows[0]));
      var tail := Write(rows[1..], equity');
      assert stored[0] == head && stored[1..] == tail;
      assert AllAsRead(stored)[0] == AsRead(head) && AllAsRead(stored)[1..] == AllAsRead(tail);
      if head.entryTime == "" {
        WrittenRowsAlwaysRead(tail, c);
        ReadNeverGrows(AllAsRead(tail), c);
      } else {
        ReadBackOne(head, c);
        var (trade, c') := ReadOne(AsRead(head), c).value;
        WrittenRowsAlwaysRead(tail, c');
        if Faithful(head, equity) {
          ReadBackIffFaithful(rows[1..], equity', c'.display);
        }
        HeadAndTail(head, tail, trade, Read(AllAsRead(tail), c').value);
      }
    }
  }

  /** It can fail: a zero PnL beside a return of one half is read back as half the equity. */
  lemma ReadBackCanDiffer() returns (rows: seq<RawRow>)
    ensures var stored := Write(rows, DISPLAY_EQUITY);
            var read := Read(AllAsRead(stored), Carry(DISPLAY_EQUITY, None));
            read.Some? && !Reproduces(stored, read.value)
  {
    var row := Dict("t", "", "", "", None, None, Some(0.5), None, Some(0.0));
    rows := [row];
    assert !Faithful(WriteRow(row, DISPLAY_EQUITY), DISPLAY_EQUITY);
    ReadBackIffFaithful(rows, DISPLAY_EQUITY, None);
  }

  lemma HeadAndTail(head: Stored, tail: seq<Stored>, trade: Trade, more: seq<Trade>)
    ensures Reproduces([head] + tail, [trade] + more) <==>
            trade.pnl == head.pnl && trade.returnPct == head.returnPct && Reproduces(tail, more)
  {
    var s, t := [head] + tail, [trade] + more;
    if Reproduces(s, t) {
      assert s[0] == head && t[0] == trade;
      forall i | 0 <= i < |tail| ensures more[i].pnl == tail[i].pnl && more[i].returnPct == tail[i].returnPct {
        assert s[i + 1] == tail[i] && t[i + 1] == more[i];
      }
    }
  }

  /** The writer derives every dollar PnL itself. */
  predicate Derived(rows: seq<RawRow>) {
    forall i :: 0 <= i < |rows| ==> rows[i].Dict? ==> rows[i].pnl.None?
  }

  /** The shapes a caller must avoid: no entry time, or a zero return beside differing non-zero prices. */
  predicate Plain(row: RawRow) {
    row.Dict? ==>
      && Or(row.entryTime, row.entryTs) != ""
      && !(Ratio(row) == 0.0 && row.entryPrice.GetOr(0.0) != 0.0 && row.exitPrice.GetOr(0.0) != 0.0
           && row.entryPrice.GetOr(0.0) != row.exitPrice.GetOr(0.0))
  }

  predicate AllPlain(rows: seq<RawRow>) {
    rows == [] || (Plain(rows[0]) && AllPlain(rows[1..]))
  }

  lemma DerivedRowIsFaithfulIffPlain(row: RawRow, equity: real)
    requires row.Dict? && row.pnl.None?
    ensures Faithful(WriteRow(row, equity), equity) <==> Plain(row)
  {
  }

  /** With derived PnL the condition no longer mentions equity: the repair fires without changing anything. */
  lemma {:induction false} DerivedRowsReadBackIffPlain(rows: seq<RawRow>, equity: real)
    requires Derived(rows)
    ensures AllFaithful(rows, equity) <==> AllPlain(rows)
  {
    if rows != [] {
      DerivedRowsReadBackIffPlain(rows[1..], if rows[0].NotDict? then equity else Grow(equity, Ratio(rows[0])));
      if rows[0].Dict? { DerivedRowIsFaithfulIffPlain(rows[0], equity); }
    }
  }

  // ---- conservation ----

  function Pnls(stored: seq<Stored>): real {
    if stored == [] then 0.0 else stored[0].pnl + Pnls(stored[1..])
  }

  function FinalEquity(rows: seq<RawRow>, equity: real): real {
    if rows == [] then equity
    else FinalEquity(rows[1..], if rows[0].NotDict? then equity else Grow(equity, Ratio(rows[0])))
  }

  /** Some trade loses more than the whole equity it started from. */
  predicate Overdrawn(rows: seq<RawRow>, equity: real) {
    rows != [] &&
    if rows[0].NotDict? then Overdrawn(rows[1..], equity)
    else (equity > 0.0 && Ratio(rows[0]) < -1.0) || Overdrawn(rows[1..], Grow(equity, Ratio(rows[0])))
  }

  /** The floor only ever adds; it does so exactly on an overdrawn trade. */
  lemma GrowStep(equity: real, r: real)
    requires equity >= 0.0
    ensures Grow(equity, r) >= 0.0 && Grow(equity, r) >= equity + equity * r
    ensures Grow(equity, r) == equity + equity * r <==> !(equity > 0.0 && r < -1.0)
  {
    assert equity * (1.0 + r) == equity + equity * r;
    if r >= -1.0 {
      assert equity * (1.0 + r) >= 0.0;
    } else if equity > 0.0 {
      assert equity * (-1.0 - r) > 0.0;
      assert equity * (1.0 + r) == -(equity * (-1.0 - r));
    }
  }

  lemma PnlsHead(rows: seq<RawRow>, equity: real)
    requires rows != [] && rows[0].Dict? && rows[0].pnl.None?
    ensures Pnls(Write(rows, equity)) == equity * Ratio(rows[0]) + Pnls(Write(rows[1..], Grow(equity, Ratio(rows[0]))))
  {
    var tail := Write(rows[1..], Grow(equity, Ratio(rows[0])));
    assert ([WriteRow(rows[0], equity)] + tail)[1..] == tail;
  }

  /**
   * The dollar PnLs never add up to more than the change of equity, and they add up to
   * it exactly when no trade is overdrawn.
   */
  lemma {:induction false} PnlsAreTheEquityChange(rows: seq<RawRow>, equity: real)
    requires Derived(rows) && equity >= 0.0
    ensures Pnls(Write(rows, equity)) <= FinalEquity(rows, equity) - equity
    ensures Pnls(Write(rows, equity)) == FinalEquity(rows, equity) - equity <==> !Overdrawn(rows, equity)
  {
    if rows == [] {
    } else if rows[0].NotDict? {
      PnlsAreTheEquityChange(rows[1..], equity);
    } else {
      var r := Ratio(rows[0]);
      GrowStep(equity, r);
      PnlsHead(rows, equity);
      PnlsAreTheEquityChange(rows[1..], Grow(equity, r));
    }
  }

  /** Zero equity is absorbing: nothing is earned or lost after it. */
  lemma {:induction false} WipedOutStaysOut(rows: seq<RawRow>)
    requires Derived(rows)
    ensures FinalEquity(rows, 0.0) == 0.0
    ensures forall i :: 0 <= i < |Write(rows, 0.0)| ==> Write(rows, 0.0)[i].pnl == 0.0
  {
    if rows != [] {
      WipedOutStaysOut(rows[1..]);
      if rows[0].Dict? {
        var r := Ratio(rows[0]);
        assert 0.0 * (1.0 + r) == 0.0 && 0.0 * r == 0.0;
      }
    }
  }

  // ---- the display carried over from another row ----

  /** A row with no return of its own and no usable prices. */
  predicate Bare(row: ReadRow)
    requires Kept(row)
  {
    row.pnlPct.None? && row.returnPct.None? && row.ret.None?
    && (row.entryPrice.value == 0.0 || row.exitPrice.GetOr(row.entryPrice.value) == 0.0)
  }

  predicate FirstKeptIsBare(rows: seq<ReadRow>) {
    rows != [] && if Kept(rows[0]) then Bare(rows[0]) else FirstKeptIsBare(rows[1..])
  }

  /** What a kept row shows does not depend on the row before it exactly when it is not bare. */
  lemma InheritsIffBare(row: ReadRow, one: Option<real>, other: Option<real>)
    requires Kept(row) && one != other
    ensures RatioAndDisplay(row, one).0 == RatioAndDisplay(row, other).0
    ensures RatioAndDisplay(row, one) != RatioAndDisplay(row, other) <==> Bare(row)
    ensures Bare(row) ==> RatioAndDisplay(row, one) == (0.0, one)
  {
    var own := row.pnlPct.Some? || row.returnPct.Some? || row.ret.Some?;
    assert own ==> Returns(row, one) == Returns(row, other);
    assert !own ==> Returns(row, one) == (0.0, one) && Returns(row, other) == (0.0, other);
  }

  lemma {:induction false} ReadAfterDisplay(rows: seq<ReadRow>, c: Carry)
    requires c.display.Some?
    ensures Read(rows, c).Some?
  {
    if rows != [] {
      ReadAfterDisplay(rows[1..], if Kept(rows[0]) then ReadOne(rows[0], c).value.1 else c);
    }
  }

  /** Reading raises exactly when the first row it keeps is bare; a later bare row shows its predecessor's return. */
  lemma {:induction false} ReadRaisesIffFirstIsBare(rows: seq<ReadRow>, equity: real)
    ensures Read(rows, Carry(equity, None)).None? <==> FirstKeptIsBare(rows)
  {
    if rows != [] {
      if !Kept(rows[0]) {
        ReadRaisesIffFirstIsBare(rows[1..], equity);
      } else if !Bare(rows[0]) {
        ReadAfterDisplay(rows[1..], ReadOne(rows[0], Carry(equity, None)).value.1);
      }
    }
  }
}
