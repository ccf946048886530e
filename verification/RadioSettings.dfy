/**
 The radio part of the configuration and the edits a client may make to it
 (spe/websocket_handler.py: `_coerce_radio_field`, `_radio_config_payload` and the checks of
 `_handle_set_radio_config`).
 */
module RadioSettings {
  import opened Text

  datatype FlexConfig = FlexConfig(enabled: bool, host: string, port: int, slice: int, watts: int)

  datatype TciConfig = TciConfig(host: string, port: int, trx: int, mode: string, drive: int)

  datatype Config = Config(kind: string, flex: FlexConfig, tci: TciConfig)

  /** The channel a tune drives and the power it asks for. */
  function Channel(c: Config): int {
    if c.kind == "tci" then c.tci.trx else c.flex.slice
  }

  function Watts(c: Config): int {
    if c.kind == "flex" then c.flex.watts else 0
  }

  /** A decoded JSON value. `Other` is a fraction, null, array or object, with its `str`. */
  datatype Json = JText(text: string) | JInt(n: int) | JBool(b: bool) | Other(shown: string)

  datatype Section = Absent | NotAnObject | Fields(values: map<string, Json>)

  datatype Payload = Payload(kind: Option<Json>, flex: Section, tci: Section)

  datatype Outcome = UnknownKind | BadField | Accepted(config: Config)

  function Shown(v: Json): string {
    match v
    case JText(t) => t
    case JInt(n) => IntText(n)
    case JBool(b) => if b then "True" else "False"
    case Other(t) => t
  }

  /** A whole number within bounds. JSON true and false are refused though Python counts them
      as 1 and 0, and so is a fraction, even a whole one. */
  function CoerceInt(v: Json, lo: int, hi: int): Option<int> {
    if v.JBool? || v.Other? then None
    else match ParseInt(Strip(Shown(v)))
      case None => None
      case Some(n) => if lo <= n <= hi then Some(n) else None
  }

  predicate IsHost(s: string) {
    |s| <= 255 && forall i :: 0 <= i < |s| ==> !IsSpace(s[i])
  }

  function CoerceHost(v: Json): Option<string> {
    var host := Strip(Shown(v));
    if IsHost(host) then Some(host) else None
  }

  predicate IsMode(s: string) {
    1 <= |s| <= 10 && forall i :: 0 <= i < |s| ==> IsDigit(s[i]) || 'A' <= s[i] <= 'Z'
  }

  predicate AlphaNumeric(s: string) {
    s != "" && forall i :: 0 <= i < |s| ==> IsDigit(s[i]) || 'A' <= s[i] <= 'Z' || 'a' <= s[i] <= 'z'
  }

  function CoerceMode(v: Json): Option<string> {
    var mode := Upper(Strip(Shown(v)));
    if AlphaNumeric(mode) && |mode| <= 10 then Some(mode) else None
  }

  function KindName(v: Json): string {
    Lower(Strip(Shown(v)))
  }

  predicate KnownKind(kind: string) {
    kind == "flex" || kind == "tci" || kind == "none"
  }

  // A field the client did not send keeps its value.

  function IntField(s: Section, name: string, lo: int, hi: int, keep: int): Option<int> {
    if s.Fields? && name in s.values then CoerceInt(s.values[name], lo, hi) else Some(keep)
  }

  function HostField(s: Section, keep: string): Option<string> {
    if s.Fields? && "host" in s.values then CoerceHost(s.values["host"]) else Some(keep)
  }

  function ModeField(s: Section, keep: string): Option<string> {
    if s.Fields? && "mode" in s.values then CoerceMode(s.values["mode"]) else Some(keep)
  }

  function AppliedFlex(c: FlexConfig, s: Section, enabled: bool): Option<FlexConfig> {
    var host := HostField(s, c.host);
    var port := IntField(s, "port", 1, 65535, c.port);
    var slice := IntField(s, "slice_rx", 0, 7, c.slice);
    var watts := IntField(s, "tune_power_watts", 1, 100, c.watts);
    if s.NotAnObject? || host.None? || port.None? || slice.None? || watts.None? then None
    else Some(FlexConfig(enabled, host.value, port.value, slice.value, watts.value))
  }

  function AppliedTci(c: TciConfig, s: Section): Option<TciConfig> {
    var host := HostField(s, c.host);
    var port := IntField(s, "port", 1, 65535, c.port);
    var trx := IntField(s, "trx", 0, 1, c.trx);
    var mode := ModeField(s, c.mode);
    var drive := IntField(s, "tune_drive", 0, 100, c.drive);
    if s.NotAnObject? || host.None? || port.None? || trx.None? || mode.None? || drive.None? then None
    else Some(TciConfig(host.value, port.value, trx.value, mode.value, drive.value))
  }

  /** The configuration a client's edit leads to, or why it is refused whole. */
  function Applied(c: Config, p: Payload): Outcome {
    var kind := KindName(if p.kind.Some? then p.kind.value else JText(c.kind));
    if !KnownKind(kind) then UnknownKind
    else
      var flex := AppliedFlex(c.flex, p.flex, kind == "flex");
      var tci := AppliedTci(c.tci, p.tci);
      if flex.None? || tci.None? then BadField else Accepted(Config(kind, flex.value, tci.value))
  }

  predicate InRange(c: Config) {
    && KnownKind(c.kind) && (c.flex.enabled <==> c.kind == "flex")
    && IsHost(c.flex.host) && 1 <= c.flex.port <= 65535 && 0 <= c.flex.slice <= 7 && 1 <= c.flex.watts <= 100
    && IsHost(c.tci.host) && 1 <= c.tci.port <= 65535 && 0 <= c.tci.trx <= 1
    && IsMode(c.tci.mode) && 0 <= c.tci.drive <= 100
  }

  lemma CoercedMode(v: Json)
    ensures CoerceMode(v).Some? ==> IsMode(CoerceMode(v).value)
  {
    var s := Strip(Shown(v));
    forall i | 0 <= i < |s|
      ensures !('a' <= Upper(s)[i] <= 'z')
    {
      assert Upper(s)[i] == UpperChar(s[i]);
    }
  }

  /** No edit takes a configuration out of the ranges the radios can use. */
  lemma EditsStayInRange(c: Config, p: Payload)
    requires InRange(c) && Applied(c, p).Accepted?
    ensures InRange(Applied(c, p).config)
  {
    if p.tci.Fields? && "mode" in p.tci.values {
      CoercedMode(p.tci.values["mode"]);
    }
  }

  /** What a client is told: every field of the configuration but `enabled`. */
  function Described(c: Config): Payload {
    Payload(
      Some(JText(c.kind)),
      Fields(map["host" := JText(c.flex.host), "port" := JInt(c.flex.port),
                 "slice_rx" := JInt(c.flex.slice), "tune_power_watts" := JInt(c.flex.watts)]),
      Fields(map["host" := JText(c.tci.host), "port" := JInt(c.tci.port), "trx" := JInt(c.tci.trx),
                 "mode" := JText(c.tci.mode), "tune_drive" := JInt(c.tci.drive)]))
  }

  lemma CoerceIntBack(n: int, lo: int, hi: int)
    requires lo <= n <= hi
    ensures CoerceInt(JInt(n), lo, hi) == Some(n)
  {
    var m: nat := if n < 0 then -n else n;
    DigitsAreTight(NatText(m));
    StripTight(IntText(n));
    IntRoundTrip(n);
  }

  lemma CoerceHostBack(host: string)
    requires IsHost(host)
    ensures CoerceHost(JText(host)) == Some(host)
  {
    StripTight(host);
  }

  lemma CoerceModeBack(mode: string)
    requires IsMode(mode)
    ensures CoerceMode(JText(mode)) == Some(mode)
  {
    assert IsDigit(mode[0]) || 'A' <= mode[0] <= 'Z';
    StripTight(mode);
    assert Upper(mode) == mode;
  }

  lemma KindNameBack(kind: string)
    requires KnownKind(kind)
    ensures KindName(JText(kind)) == kind
  {
    StripTight(kind);
    assert Lower(kind) == kind;
  }

  lemma FlexBack(now: FlexConfig, c: Config)
    requires InRange(c)
    ensures AppliedFlex(now, Described(c).flex, c.kind == "flex") == Some(c.flex)
  {
    hide CoerceInt, CoerceHost;
    CoerceHostBack(c.flex.host);
    CoerceIntBack(c.flex.port, 1, 65535);
    CoerceIntBack(c.flex.slice, 0, 7);
    CoerceIntBack(c.flex.watts, 1, 100);
  }

  lemma TciBack(now: TciConfig, c: Config)
    requires InRange(c)
    ensures AppliedTci(now, Described(c).tci) == Some(c.tci)
  {
    hide CoerceInt, CoerceHost, CoerceMode;
    CoerceHostBack(c.tci.host);
    CoerceModeBack(c.tci.mode);
    CoerceIntBack(c.tci.port, 1, 65535);
    CoerceIntBack(c.tci.trx, 0, 1);
    CoerceIntBack(c.tci.drive, 0, 100);
  }

  /** A client that sends back a description it was given gets exactly that configuration,
      whatever the configuration has become meanwhile. */
  lemma DescribedComesBack(now: Config, c: Config)
    requires InRange(c)
    ensures Applied(now, Described(c)) == Accepted(c)
  {
    hide AppliedFlex, AppliedTci;
    KindNameBack(c.kind);
    FlexBack(now.flex, c);
    TciBack(now.tci, c);
  }

  /** Applying an accepted edit again changes nothing. */
  lemma EditIsIdempotent(c: Config, p: Payload)
    requires Applied(c, p).Accepted?
    ensures Applied(Applied(c, p).config, p) == Applied(c, p)
  {
    hide CoerceInt, CoerceHost, CoerceMode;
    KindNameBack(Applied(c, p).config.kind);
  }

  // ------------------------------------------------------------ one edit, two configurations

  predicate Sends(s: Section, name: string) {
    s.Fields? && name in s.values
  }

  /** Two configurations agree on every field an edit leaves alone. */
  predicate AgreeElsewhere(a: Config, b: Config, p: Payload) {
    && (p.kind.None? ==> KindName(JText(a.kind)) == KindName(JText(b.kind)))
    && (Sends(p.flex, "host") || a.flex.host == b.flex.host)
    && (Sends(p.flex, "port") || a.flex.port == b.flex.port)
    && (Sends(p.flex, "slice_rx") || a.flex.slice == b.flex.slice)
    && (Sends(p.flex, "tune_power_watts") || a.flex.watts == b.flex.watts)
    && (Sends(p.tci, "host") || a.tci.host == b.tci.host)
    && (Sends(p.tci, "port") || a.tci.port == b.tci.port)
    && (Sends(p.tci, "trx") || a.tci.trx == b.tci.trx)
    && (Sends(p.tci, "mode") || a.tci.mode == b.tci.mode)
    && (Sends(p.tci, "tune_drive") || a.tci.drive == b.tci.drive)
  }

  /** An edit gives two configurations the same outcome exactly when they agree on every field
      it leaves alone. */
  lemma SameOutcome(a: Config, b: Config, p: Payload)
    requires Applied(a, p).Accepted? && Applied(b, p).Accepted?
    ensures Applied(a, p) == Applied(b, p) <==> AgreeElsewhere(a, b, p)
  {
    hide CoerceInt, CoerceHost, CoerceMode, KindName;
  }

  /** Whether an edit is accepted does not depend on the configuration it meets. */
  lemma AcceptedAnywhere(a: Config, b: Config, p: Payload)
    requires Applied(a, p).Accepted? && InRange(b)
    ensures Applied(b, p).Accepted?
  {
    hide CoerceInt, CoerceHost, CoerceMode;
    KindNameBack(b.kind);
  }

  // ------------------------------------------------------------ what is accepted

  /** A number is accepted as it is or not at all: exactly a whole number within the bounds, or a
      text that reads as one; never a truth value, a fraction or anything else, and never moved
      into the bounds. */
  lemma NumbersAreNotMoved(v: Json, lo: int, hi: int, n: int)
    ensures CoerceInt(v, lo, hi) == Some(n) <==>
              lo <= n <= hi && (v == JInt(n) || (v.JText? && ParseInt(Strip(v.text)) == Some(n)))
  {
    hide ParseInt;
    if v.JInt? {
      var m: nat := if v.n < 0 then -v.n else v.n;
      DigitsAreTight(NatText(m));
      StripTight(IntText(v.n));
      IntRoundTrip(v.n);
    }
  }

  /** What a field of an accepted edit becomes. */
  predicate NumberSet(s: Section, name: string, lo: int, hi: int, before: int, after: int) {
    if Sends(s, name) then CoerceInt(s.values[name], lo, hi) == Some(after) else after == before
  }

  /** Every field of an accepted edit is what the client sent for it, within its own bounds, and
      every field not sent is what it was; the Flex is enabled exactly under its own kind. */
  lemma EditSetsWhatIsSent(c: Config, p: Payload)
    requires Applied(c, p).Accepted?
    ensures var d := Applied(c, p).config;
            && d.kind in {"flex", "tci", "none"} && (d.flex.enabled <==> d.kind == "flex")
            && d.kind == KindName(if p.kind.Some? then p.kind.value else JText(c.kind))
            && NumberSet(p.flex, "port", 1, 65535, c.flex.port, d.flex.port)
            && NumberSet(p.flex, "slice_rx", 0, 7, c.flex.slice, d.flex.slice)
            && NumberSet(p.flex, "tune_power_watts", 1, 100, c.flex.watts, d.flex.watts)
            && NumberSet(p.tci, "port", 1, 65535, c.tci.port, d.tci.port)
            && NumberSet(p.tci, "trx", 0, 1, c.tci.trx, d.tci.trx)
            && NumberSet(p.tci, "tune_drive", 0, 100, c.tci.drive, d.tci.drive)
            && (if Sends(p.flex, "host") then d.flex.host == Strip(Shown(p.flex.values["host"])) else d.flex.host == c.flex.host)
            && (if Sends(p.tci, "host") then d.tci.host == Strip(Shown(p.tci.values["host"])) else d.tci.host == c.tci.host)
            && (if Sends(p.tci, "mode") then d.tci.mode == Upper(Strip(Shown(p.tci.values["mode"]))) else d.tci.mode == c.tci.mode)
  {
    hide CoerceInt, KindName, Shown, Strip, Upper;
  }

  /** One bad number, and the whole edit is refused. */
  lemma OutOfBoundsIsRefused(c: Config, p: Payload, n: int)
    requires Sends(p.flex, "port") && p.flex.values["port"] == JInt(n) && !(1 <= n <= 65535)
    ensures !Applied(c, p).Accepted?
  {
    hide CoerceInt, CoerceHost, CoerceMode, KindName;
    if CoerceInt(JInt(n), 1, 65535).Some? {
      NumbersAreNotMoved(JInt(n), 1, 65535, CoerceInt(JInt(n), 1, 65535).value);
    }
  }
}
