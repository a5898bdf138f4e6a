/**
 * Direction books and the risk section of the settings writer (forven/api_core.py,
 * _apply_settings_section and _has_open_book_routed_trades): a trade opened in a book
 * must be closable against the address it was opened with.
 */
module BookRouting {
  import opened Basics
  import opened Text

  datatype Book = Main | Long | Short | Named(wallet: string)

  /** A live trade and the sub-account its book resolved to when it opened. */
  datatype Trade = Trade(book: Book, address: string, open: bool)

  datatype Settings = Settings(
    riskPct: real, positionPct: real,               // twins: the preferred and the legacy key
    enabled: bool, longAddress: string, shortAddress: string)

  /** A risk-section write: absent keys are None. `queryFails` is the trade query raising. */
  datatype Payload = Payload(
    riskPct: Option<real>, positionPct: Option<real>,
    enabled: Option<bool>, longAddress: Option<string>, shortAddress: Option<string>,
    queryFails: bool)

  datatype State = State(settings: Settings, trades: seq<Trade>)

  predicate Routed(t: Trade) {
    t.open && !t.book.Main?
  }

  /** A failing query counts as no open trade. */
  predicate Locked(s: State, queryFails: bool) {
    !queryFails && exists i :: 0 <= i < |s.trades| && Routed(s.trades[i])
  }

  /** The payload does not set the twins apart. */
  predicate Coherent(p: Payload) {
    p.riskPct.Some? && p.positionPct.Some? ==> p.riskPct == p.positionPct
  }

  function WriteTwins(p: Payload, s: Settings): Settings {
    var s1 := match p.riskPct
      case None => s
      case Some(v) => s.(riskPct := v, positionPct := if p.positionPct.None? then v else s.positionPct);
    match p.positionPct
    case None => s1
    case Some(v) => s1.(positionPct := v, riskPct := if p.riskPct.None? then v else s1.riskPct)
  }

  function WriteAddress(requested: Option<string>, current: string, locked: bool): string {
    match requested
    case None => current
    case Some(raw) => if Strip(raw) != Strip(current) && locked then current else Strip(raw)
  }

  function WriteEnabled(requested: Option<bool>, current: bool, locked: bool): bool {
    match requested
    case None => current
    case Some(v) => if !v && current && locked then current else v
  }

  function WriteRisk(p: Payload, s: Settings, locked: bool): Settings {
    WriteTwins(p, s).(
      enabled := WriteEnabled(p.enabled, s.enabled, locked),
      longAddress := WriteAddress(p.longAddress, s.longAddress, locked),
      shortAddress := WriteAddress(p.shortAddress, s.shortAddress, locked))
  }

  /** The settings blob, updated key by key. */
  class SettingsBlob {
    var s: Settings

    constructor (initial: Settings)
      ensures s == initial
    {
      s := initial;
    }

    /** Every key given is stored; the twins then agree unless both were given and differ, or neither was. */
    method ApplyTwins(p: Payload)
      modifies this
      ensures s == WriteTwins(p, old(s))
      ensures p.riskPct.Some? ==> s.riskPct == p.riskPct.value
      ensures p.positionPct.Some? ==> s.positionPct == p.positionPct.value
      ensures p.riskPct.None? && p.positionPct.None? ==> s == old(s)
      ensures p.riskPct.Some? || p.positionPct.Some? ==> (s.riskPct == s.positionPct <==> Coherent(p))
    {
      if p.riskPct.Some? {
        s := s.(riskPct := p.riskPct.value);
        if p.positionPct.None? {
          s := s.(positionPct := p.riskPct.value);
        }
      }
      if p.positionPct.Some? {
        s := s.(positionPct := p.positionPct.value);
        if p.riskPct.None? {
          s := s.(riskPct := p.positionPct.value);
        }
      }
    }

    /** One book address: refused when it would change while a routed trade is open. */
    method ResolveAddress(requested: Option<string>, current: string, locked: bool) returns (address: string)
      ensures address == WriteAddress(requested, current, locked)
      ensures Strip(address) != Strip(current) ==> requested.Some? && !locked
      ensures !locked ==> Strip(address) == Strip(requested.GetOr(current))
    {
      if requested.Some? { StripIsIdempotent(requested.value); }
      address := current;
      if requested.Some? {
        var wanted := Strip(requested.value);
        if wanted == Strip(current) || !locked {
          address := wanted;
        }
      }
    }

    method ResolveEnabled(requested: Option<bool>, current: bool, locked: bool) returns (enabled: bool)
      ensures enabled == WriteEnabled(requested, current, locked)
      ensures current && !enabled ==> requested == Some(false) && !locked
      ensures !locked ==> enabled == requested.GetOr(current)
      ensures requested == Some(true) ==> enabled
    {
      enabled := current;
      if requested.Some? && (requested.value || !current || !locked) {
        enabled := requested.value;
      }
    }

    method ApplyRiskSection(p: Payload, locked: bool)
      modifies this
      ensures s == WriteRisk(p, old(s), locked)
    {
      var before := s;
      ApplyTwins(p);
      var enabled := ResolveEnabled(p.enabled, before.enabled, locked);
      var long := ResolveAddress(p.longAddress, before.longAddress, locked);
      var short := ResolveAddress(p.shortAddress, before.shortAddress, locked);
      s := s.(enabled := enabled, longAddress := long, shortAddress := short);
    }
  }

  // ---- trades ----

  /** The sub-account a direction book resolves to; empty means the master wallet. */
  function AddressOf(book: Book, s: Settings): string {
    match book
    case Long => Strip(s.longAddress)
    case Short => Strip(s.shortAddress)
    case _ => ""
  }

  /** Where a new position goes; None skips a short that has no sub-account. */
  function ResolveOpen(short: bool, s: Settings): Option<Book> {
    if !s.enabled then Some(Main)
    else if !short then Some(Long)
    else if AddressOf(Short, s) == "" then None
    else Some(Short)
  }

  datatype Op =
    | Write(p: Payload)
    | Open(short: bool)
    | OpenNamed(wallet: string, address: string)
    | Close(i: nat)

  function Apply(s: State, op: Op): State {
    match op
    case Write(p) => s.(settings := WriteRisk(p, s.settings, Locked(s, p.queryFails)))
    case Open(short) =>
      (match ResolveOpen(short, s.settings)
       case None => s
       case Some(book) => s.(trades := s.trades + [Trade(book, AddressOf(book, s.settings), true)]))
    case OpenNamed(wallet, address) => s.(trades := s.trades + [Trade(Named(wallet), address, true)])
    case Close(i) => if i < |s.trades| then s.(trades := s.trades[i := s.trades[i].(open := false)]) else s
  }

  function Run(s: State, ops: seq<Op>): State {
    if ops == [] then s else Apply(Run(s, ops[..|ops| - 1]), ops[|ops| - 1])
  }

  predicate InDirectionBook(t: Trade) {
    t.open && (t.book.Long? || t.book.Short?)
  }

  /** An open trade of a direction book closes against the address it opened with, books still being enabled. */
  predicate Routable(t: Trade, s: Settings) {
    InDirectionBook(t) ==> s.enabled && AddressOf(t.book, s) == t.address
  }

  ghost predicate AllRoutable(s: State) {
    forall i :: 0 <= i < |s.trades| ==> Routable(s.trades[i], s.settings)
  }

  lemma LockedKeepsAddress(requested: Option<string>, current: string)
    ensures Strip(WriteAddress(requested, current, true)) == Strip(current)
  {
    if requested.Some? { StripIsIdempotent(requested.value); }
  }

  lemma FreeWriteTakesAddress(requested: Option<string>, current: string)
    ensures Strip(WriteAddress(requested, current, false)) == Strip(requested.GetOr(current))
  {
    if requested.Some? { StripIsIdempotent(requested.value); }
  }

  lemma LockedWriteKeepsRouting(p: Payload, s: Settings, book: Book)
    ensures AddressOf(book, WriteRisk(p, s, true)) == AddressOf(book, s)
    ensures s.enabled ==> WriteRisk(p, s, true).enabled
  {
    LockedKeepsAddress(p.longAddress, s.longAddress);
    LockedKeepsAddress(p.shortAddress, s.shortAddress);
  }

  lemma WriteKeepsRoutable(s: State, p: Payload)
    requires AllRoutable(s) && !p.queryFails
    ensures AllRoutable(Apply(s, Write(p)))
  {
    var s' := Apply(s, Write(p));
    forall i | 0 <= i < |s.trades| ensures Routable(s.trades[i], s'.settings) {
      var t := s.trades[i];
      assert Routable(t, s.settings);
      if Routed(t) {
        assert Locked(s, false);
        LockedWriteKeepsRouting(p, s.settings, t.book);
      }
    }
  }

  lemma ApplyKeepsRoutable(s: State, op: Op)
    requires AllRoutable(s) && (op.Write? ==> !op.p.queryFails)
    ensures AllRoutable(Apply(s, op))
  {
    match op
    case Write(p) => WriteKeepsRoutable(s, p);
    case Open(short) =>
    case OpenNamed(_, _) =>
    case Close(i) =>
      forall j | 0 <= j < |s.trades| ensures Routable(Apply(s, op).trades[j], s.settings) {
        assert Routable(s.trades[j], s.settings);
      }
  }

  /** Over any run of writes, opens and closes with working trade queries every open trade stays routable. */
  lemma {:induction false} RunsStayRoutable(s: State, ops: seq<Op>)
    requires AllRoutable(s) && forall i :: 0 <= i < |ops| ==> ops[i].Write? ==> !ops[i].p.queryFails
    ensures AllRoutable(Run(s, ops))
  {
    if ops != [] {
      RunsStayRoutable(s, ops[..|ops| - 1]);
      ApplyKeepsRoutable(Run(s, ops[..|ops| - 1]), ops[|ops| - 1]);
    }
  }

  /** The payload itself leaves a direction book enabled and its address, stripped, as it is. */
  predicate SparesBook(p: Payload, book: Book, s: Settings) {
    && p.enabled.GetOr(true)
    && (book.Long? ==> Strip(p.longAddress.GetOr(s.longAddress)) == AddressOf(book, s))
    && (book.Short? ==> Strip(p.shortAddress.GetOr(s.shortAddress)) == AddressOf(book, s))
  }

  lemma FailedQueryOneTrade(s: State, p: Payload, i: nat)
    requires p.queryFails && i < |s.trades| && Routable(s.trades[i], s.settings)
    ensures Routable(s.trades[i], Apply(s, Write(p)).settings) <==>
            (InDirectionBook(s.trades[i]) ==> SparesBook(p, s.trades[i].book, s.settings))
  {
    FreeWriteLaw(p, s.settings);
  }

  /** What an unlocked write leaves where each book resolves. */
  lemma FreeWriteLaw(p: Payload, s: Settings)
    ensures var after := WriteRisk(p, s, false);
            && after.enabled == p.enabled.GetOr(s.enabled)
            && AddressOf(Long, after) == Strip(p.longAddress.GetOr(s.longAddress))
            && AddressOf(Short, after) == Strip(p.shortAddress.GetOr(s.shortAddress))
  {
    FreeWriteTakesAddress(p.longAddress, s.longAddress);
    FreeWriteTakesAddress(p.shortAddress, s.shortAddress);
  }

  /**
   * The guard fails open: when the trade query raises, a write keeps every open trade
   * routable exactly when the payload spares every direction book that has one.
   */
  lemma FailedQueryKeepsRoutableIff(s: State, p: Payload)
    requires p.queryFails && AllRoutable(s)
    ensures AllRoutable(Apply(s, Write(p))) <==>
            forall i :: 0 <= i < |s.trades| && InDirectionBook(s.trades[i]) ==>
                SparesBook(p, s.trades[i].book, s.settings)
  {
    var s' := Apply(s, Write(p));
    forall i | 0 <= i < |s.trades|
      ensures Routable(s.trades[i], s'.settings) <==>
              (InDirectionBook(s.trades[i]) ==> SparesBook(p, s.trades[i].book, s.settings))
    {
      FailedQueryOneTrade(s, p, i);
    }
    assert s'.trades == s.trades;
  }

  /** So with a failing query a write can disable books under an open long trade. */
  lemma FailedQueryCanMisroute() returns (s: State, p: Payload)
    ensures AllRoutable(s) && p.queryFails && !AllRoutable(Apply(s, Write(p)))
  {
    var settings := Settings(1.0, 1.0, true, "a", "");
    var trade := Trade(Long, AddressOf(Long, settings), true);
    s, p := State(settings, [trade]), Payload(None, None, Some(false), None, None, true);
    FailedQueryOneTrade(s, p, 0);
    assert s.trades[0] == trade && !SparesBook(p, Long, settings);
    assert Apply(s, Write(p)).trades == s.trades;
  }

  // ---- twins ----

  /** The two per-trade risk keys agree over every run whose writes do not set them apart on purpose. */
  lemma {:induction false} TwinsStayEqual(s: State, ops: seq<Op>)
    requires s.settings.riskPct == s.settings.positionPct
    requires forall i :: 0 <= i < |ops| ==> ops[i].Write? ==> Coherent(ops[i].p)
    ensures Run(s, ops).settings.riskPct == Run(s, ops).settings.positionPct
  {
    if ops != [] {
      TwinsStayEqual(s, ops[..|ops| - 1]);
      if ops[|ops| - 1].Write? { assert Coherent(ops[|ops| - 1].p); }
    }
  }
}
