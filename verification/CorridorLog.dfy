/** Admin edits of payment corridors and the append-only changeLog they leave behind. */
module CorridorLog {
  import opened Options
  import Runs

  /** A value of a request body, of a document or of a log entry. `Numeral(r)` is the text that
      `String(r)` prints; `Text` is any other text, with the number it reads as, if any;
      `JsonText` is a text that parses to an object. `Absent` is `undefined`. */
  datatype Value =
    | Absent
    | Null
    | Num(r: real)
    | Flag(b: bool)
    | Numeral(r: real)
    | Text(s: string, number: Option<real>)
    | JsonText(members: map<Key, Value>)
    | Date(ms: int)

  /** A key, by the schema path it names. */
  datatype Key =
    | Number(name: string)      // alytoCSpread, fixedFee, manualExchangeRate, ...
    | IsActive
    | Setting(name: string)     // every other path of the schema
    | Protected(name: string)   // refused by updateCorridor
    | Unknown(name: string)     // no path of the schema

  datatype Entry = Entry(field: Key, oldValue: Value, newValue: Value)

  /** A corridor document: its schema fields and its history. */
  datatype Corridor = Corridor(fields: map<Key, Value>, changeLog: seq<Entry>)

  type Corridors = map<string, Corridor>

  /** One member of a request body, and one assignment it asks for. */
  datatype Member = Member(name: string, val: Value)

  datatype Change = Change(key: Key, val: Value)

  datatype Group = All | Standard | HarborOnly

  datatype Pricing = Pricing(spreadPercent: Value, fixedFee: Value)

  /** Notes are trimmed. The flags and sets say which database writes succeed. */
  datatype Request =
    | SetRate(id: string, rate: Value, note: string, saveOk: bool)
    | Edit(id: string, body: seq<Member>, saveOk: bool)
    | GlobalPricing(legalEntity: string, group: Group, personal: Option<Pricing>, business: Option<Pricing>,
                    written: set<string>, pushed: set<string>)
    | Deactivate(id: string, inFlight: nat, now: int, saveOk: bool)

  const MIN_NOTE_LENGTH := 10

  // ── The schema ────────────────────────────────────────────────────────────

  const NUMBER_FIELDS: seq<string> :=
    ["alytoCSpread", "businessAlytoCSpread", "businessFixedFee", "fixedFee", "payinFeePercent", "payoutFeeFixed",
     "profitRetentionPercent", "vitaRateMarkup", "manualExchangeRate", "fxBufferPct", "minAmountOrigin",
     "minAmountUSD", "minAmountUSDBusiness", "providerFloorUSD", "maxAmountOrigin",
     "payoutEtaMinBusinessDays", "payoutEtaMaxBusinessDays"]

  const SETTINGS: seq<string> :=
    ["originCountry", "destinationCountry", "originCurrency", "destinationCurrency", "payinMethod", "payoutMethod",
     "stellarAsset", "vitaPayoutCurrency", "fintocConfig", "bankQrConfig", "fallbackPayoutMethod", "legalEntity",
     "routingScenario", "adminNotes", "deletedAt"]

  const PROTECTED_FIELDS: seq<string> := ["corridorId", "_id", "__v", "createdAt", "updatedAt", "changeLog"]

  function KeyOf(name: string): Key {
    if name == "isActive" then IsActive
    else if name in NUMBER_FIELDS then Number(name)
    else if name in SETTINGS then Setting(name)
    else if name in PROTECTED_FIELDS then Protected(name)
    else Unknown(name)
  }

  const GLOBAL_PRICING := Unknown("global_pricing_update")
  const ALYTO_SPREAD := Number("alytoCSpread")
  const FIXED_FEE := Number("fixedFee")
  const BUSINESS_SPREAD := Number("businessAlytoCSpread")
  const BUSINESS_FEE := Number("businessFixedFee")
  const MANUAL_RATE := Number("manualExchangeRate")

  /** The scalar fields the replay is about. */
  predicate Economic(f: Key) {
    f.Number? || f.IsActive?
  }

  /** What the schema stores for a value, if it accepts it. */
  function Cast(f: Key, v: Value): Option<Value> {
    match f
    case Number(_) => CastNumber(v)
    case IsActive => CastBoolean(v)
    case _ => Some(v)
  }

  function CastNumber(v: Value): Option<Value> {
    match v
    case Absent => Some(v)
    case Null => Some(v)
    case Num(_) => Some(v)
    case Flag(b) => Some(Num(if b then 1.0 else 0.0))
    case Numeral(r) => Some(Num(r))
    case Text(s, number) =>
      if s == "" then Some(Null)
      else if number.Some? then Some(Num(number.value))
      else None
    case _ => None
  }

  function CastBoolean(v: Value): Option<Value> {
    match v
    case Absent => Some(v)
    case Null => Some(v)
    case Flag(_) => Some(v)
    case Num(r) => BooleanOfNumber(r)
    case Numeral(r) => BooleanOfNumber(r)
    case Text(s, _) =>
      if s == "true" || s == "yes" then Some(Flag(true))
      else if s == "false" || s == "no" then Some(Flag(false))
      else None
    case _ => None
  }

  function BooleanOfNumber(r: real): Option<Value> {
    if r == 1.0 then Some(Flag(true)) else if r == 0.0 then Some(Flag(false)) else None
  }

  /** `Number(v)`, when it is finite. */
  function ToNumber(v: Value): Option<real> {
    match v
    case Null => Some(0.0)
    case Num(r) => Some(r)
    case Flag(b) => Some(if b then 1.0 else 0.0)
    case Numeral(r) => Some(r)
    case Text(s, number) => if s == "" then Some(0.0) else number
    case _ => None
  }

  /** `String(a) === String(b)`. */
  predicate SamePrint(a: Value, b: Value) {
    Printed(a) == Printed(b)
  }

  function Printed(v: Value): Value {
    match v
    case Absent => Text("undefined", None)
    case Null => Text("null", None)
    case Num(r) => Numeral(r)
    case Flag(b) => Text(if b then "true" else "false", None)
    case Text(s, _) => Text(s, None)
    case _ => v
  }

  /** The words that print like a non-number do not read as numbers. */
  predicate WellFormed(v: Value) {
    v.Text? && (v.s == "undefined" || v.s == "null" || v.s == "true" || v.s == "false") ==> v.number.None?
  }

  /** A parsed JSON object: no key twice. */
  ghost predicate WellFormedBody(body: seq<Member>) {
    && (forall i, j :: 0 <= i < j < |body| ==> body[i].name != body[j].name)
    && (forall i :: 0 <= i < |body| ==> WellFormed(body[i].val))
  }

  // ── One corridor ──────────────────────────────────────────────────────────

  function Field(c: Corridor, f: Key): Value {
    if f in c.fields then c.fields[f] else Absent
  }

  /** Assigning to a document: the cast value is stored, a key outside the schema is dropped. */
  function Assign(c: Corridor, f: Key, v: Value): Corridor {
    if f.Unknown? || Cast(f, v).None? then c else c.(fields := c.fields[f := Cast(f, v).value])
  }

  function Push(c: Corridor, e: Entry): Corridor {
    c.(changeLog := c.changeLog + [e])
  }

  function Lower(s: string): string {
    seq(|s|, i requires 0 <= i < |s| => if 'A' <= s[i] <= 'Z' then (s[i] as int + 32) as char else s[i])
  }

  function RateOf(c: Corridor): Value {
    var v := Field(c, MANUAL_RATE);
    if v.Null? || v.Absent? then Num(0.0) else v
  }

  predicate ManualRail(c: Corridor) {
    Field(c, Setting("payinMethod")) == Text("manual", None) || Field(c, Setting("payinMethod")) == Text("bankQr", None)
  }

  function Rated(c: Corridor, rate: real): Corridor {
    Push(Assign(c, MANUAL_RATE, Num(rate)), Entry(MANUAL_RATE, RateOf(c), Num(rate)))
  }

  /** The assignments an edit asks for: the body without its protected keys. */
  function Allowed(body: seq<Member>): seq<Change> {
    if body == [] then []
    else
      var rest := Allowed(body[..|body| - 1]);
      var last := body[|body| - 1];
      var key := KeyOf(last.name);
      if key.Protected? then rest else rest + [Change(key, last.val)]
  }

  /** The edits applied in order; the log quotes the document as it was before the first. */
  function Edited(before: Corridor, updates: seq<Change>): Corridor {
    if updates == [] then before
    else
      var u := updates[|updates| - 1];
      var c := Edited(before, updates[..|updates| - 1]);
      var logged :=
        if SamePrint(Field(before, u.key), u.val) then c
        else Push(c, Entry(u.key, Field(before, u.key), u.val));
      Assign(logged, u.key, u.val)
  }

  predicate Castable(updates: seq<Change>) {
    forall i :: 0 <= i < |updates| ==> Cast(updates[i].key, updates[i].val).Some?
  }

  function Deactivated(c: Corridor, now: int): Corridor {
    Push(Assign(Assign(c, IsActive, Flag(false)), Setting("deletedAt"), Date(now)), Entry(IsActive, Flag(true), Flag(false)))
  }

  // ── Global pricing ────────────────────────────────────────────────────────

  predicate Given(v: Value) {
    !v.Null? && !v.Absent?
  }

  function PricingSet(p: Option<Pricing>, spread: Key, fee: Key): map<Key, Value> {
    if p.None? then map[]
    else
      (if Given(p.value.spreadPercent) then map[spread := p.value.spreadPercent] else map[])
      + if Given(p.value.fixedFee) then map[fee := p.value.fixedFee] else map[]
  }

  function NewPrices(personal: Option<Pricing>, business: Option<Pricing>): map<Key, Value> {
    PricingSet(personal, ALYTO_SPREAD, FIXED_FEE) + PricingSet(business, BUSINESS_SPREAD, BUSINESS_FEE)
  }

  predicate InGroup(c: Corridor, legalEntity: string, group: Group) {
    && (legalEntity != "all" ==> Field(c, Setting("legalEntity")) == Text(legalEntity, None))
    && (group.Standard? ==> Field(c, Setting("payoutMethod")) == Text("vitaWallet", None)
                            || Field(c, Setting("payoutMethod")) == Text("anchorBolivia", None))
    && (group.HarborOnly? ==> Field(c, Setting("payoutMethod")) == Text("owlPay", None))
  }

  function Affected(s: Corridors, legalEntity: string, group: Group): set<string> {
    set id | id in s && InGroup(s[id], legalEntity, group)
  }

  predicate CastableMap(prices: map<Key, Value>) {
    forall f :: f in prices ==> Cast(f, prices[f]).Some?
  }

  function Priced(c: Corridor, prices: map<Key, Value>): Corridor
    requires CastableMap(prices)
  {
    c.(fields := c.fields + map f | f in prices :: Cast(f, prices[f]).value)
  }

  /** The four prices as JSON prints them: a missing one is left out. */
  function OldPrices(c: Corridor): map<Key, Value> {
    map f | f in {ALYTO_SPREAD, FIXED_FEE, BUSINESS_SPREAD, BUSINESS_FEE} && Field(c, f) != Absent
      :: Field(c, f)
  }

  function PricingEntry(c: Corridor, prices: map<Key, Value>): Entry {
    Entry(GLOBAL_PRICING, JsonText(OldPrices(c)), JsonText(prices))
  }

  /** One document after a global change: written by the updateMany, then logged by its own push. */
  function Repriced(c: Corridor, prices: map<Key, Value>, isWritten: bool, isPushed: bool): Corridor
    requires CastableMap(prices)
  {
    var c' := if isWritten then Priced(c, prices) else c;
    if isPushed then Push(c', PricingEntry(c, prices)) else c'
  }

  function RepricedAll(
    s: Corridors, prices: map<Key, Value>, hit: set<string>, written: set<string>, pushed: set<string>): Corridors
    requires CastableMap(prices)
  {
    map id | id in s :: if id in hit then Repriced(s[id], prices, id in written, id in pushed) else s[id]
  }

  // ── All corridors ─────────────────────────────────────────────────────────

  /** The status code of a global change. */
  function PricingCode(s: Corridors, r: Request): nat
    requires r.GlobalPricing?
  {
    var hit := Affected(s, r.legalEntity, r.group);
    if r.legalEntity == "" || (r.personal.None? && r.business.None?) then 400
    else if hit == {} then 404
    else if !CastableMap(NewPrices(r.personal, r.business)) || !(hit <= r.written && hit <= r.pushed) then 500
    else 200
  }

  /** The status code and the documents after a request. */
  function Next(s: Corridors, r: Request): (nat, Corridors) {
    match r
    case SetRate(rawId, rate, note, saveOk) =>
      var id, n := Lower(rawId), ToNumber(rate);
      if n.None? || n.value <= 0.0 || |note| < MIN_NOTE_LENGTH then (400, s)
      else if id !in s then (404, s)
      else if !ManualRail(s[id]) then (400, s)
      else if !saveOk then (500, s)
      else (200, s[id := Rated(s[id], n.value)])
    case Edit(rawId, body, saveOk) =>
      var id, updates := Lower(rawId), Allowed(body);
      if updates == [] then (400, s)
      else if id !in s then (404, s)
      else if !Castable(updates) then (400, s)
      else if !saveOk then (500, s)
      else (200, s[id := Edited(s[id], updates)])
    case Deactivate(rawId, inFlight, now, saveOk) =>
      var id := Lower(rawId);
      if id !in s then (404, s)
      else if Field(s[id], IsActive) != Flag(true) then (400, s)
      else if inFlight > 0 then (409, s)
      else if !saveOk then (500, s)
      else (200, s[id := Deactivated(s[id], now)])
    case GlobalPricing(entity, group, personal, business, written, pushed) =>
      var code := PricingCode(s, r);
      var prices, hit := NewPrices(personal, business), Affected(s, entity, group);
      if code == 400 || code == 404 || !CastableMap(prices) then (code, s)
      else
        (code, RepricedAll(s, prices, hit, written, if hit <= written then pushed else {}))
  }

  class CorridorAdmin {
    var corridors: Corridors

    constructor (s: Corridors)
      ensures corridors == s
    {
      corridors := s;
    }

    method SetCorridorRate(rawId: string, rate: Value, note: string, saveOk: bool) returns (code: nat)
      modifies this
      ensures (code, corridors) == Next(old(corridors), SetRate(rawId, rate, note, saveOk))
    {
      var n := ToNumber(rate);
      if n.None? || n.value <= 0.0 || |note| < MIN_NOTE_LENGTH {
        return 400;
      }
      var id := Lower(rawId);
      if id !in corridors {
        return 404;
      }
      var corridor := corridors[id];
      if !ManualRail(corridor) {
        return 400;
      }
      var oldRate := RateOf(corridor);
      corridor := Assign(corridor, MANUAL_RATE, Num(n.value));
      corridor := Push(corridor, Entry(MANUAL_RATE, oldRate, Num(n.value)));
      if !saveOk {
        return 500;
      }
      corridors := corridors[id := corridor];
      return 200;
    }

    method UpdateCorridor(rawId: string, body: seq<Member>, saveOk: bool) returns (code: nat)
      modifies this
      ensures (code, corridors) == Next(old(corridors), Edit(rawId, body, saveOk))
    {
      var updates: seq<Change> := [];
      for i := 0 to |body|
        invariant updates == Allowed(body[..i])
      {
        assert body[..i + 1][..i] == body[..i];
        var key := KeyOf(body[i].name);
        if !key.Protected? {
          updates := updates + [Change(key, body[i].val)];
        }
      }
      assert body[..|body|] == body;
      if updates == [] {
        return 400;
      }
      var id := Lower(rawId);
      if id !in corridors {
        return 404;
      }
      var before := corridors[id];
      var corridor := before;
      var invalid := false;
      for i := 0 to |updates|
        invariant corridor == Edited(before, updates[..i])
        invariant invalid <==> !Castable(updates[..i])
      {
        assert updates[..i + 1][..i] == updates[..i];
        assert Castable(updates[..i + 1]) <==> Castable(updates[..i]) && Cast(updates[i].key, updates[i].val).Some?
        by { CastableStep(updates, i); }
        var u := updates[i];
        if !SamePrint(Field(before, u.key), u.val) {
          corridor := Push(corridor, Entry(u.key, Field(before, u.key), u.val));
        }
        invalid := invalid || Cast(u.key, u.val).None?;
        corridor := Assign(corridor, u.key, u.val);
      }
      assert updates[..|updates|] == updates;
      if invalid {
        return 400;
      }
      if !saveOk {
        return 500;
      }
      corridors := corridors[id := corridor];
      return 200;
    }

    method UpdateGlobalPricing(
      legalEntity: string, group: Group, personal: Option<Pricing>, business: Option<Pricing>,
      written: set<string>, pushed: set<string>)
      returns (code: nat)
      modifies this
      ensures (code, corridors) ==
              Next(old(corridors), GlobalPricing(legalEntity, group, personal, business, written, pushed))
    {
      if legalEntity == "" || (personal.None? && business.None?) {
        return 400;
      }
      var prices := NewPrices(personal, business);
      var affected := Affected(corridors, legalEntity, group);
      if affected == {} {
        return 404;
      }
      if !CastableMap(prices) {
        return 500;
      }
      var before := corridors;
      corridors := map id | id in before :: if id in affected && id in written then Priced(before[id], prices) else before[id];
      assert corridors == RepricedAll(before, prices, affected, written, {});
      if !(affected <= written) {
        return 500;
      }
      PushPricing(before, prices, affected, written, pushed);
      return if affected <= pushed then 200 else 500;
    }

    /** The changeLog pushes, one document at a time, in any order. */
    method PushPricing(
      before: Corridors, prices: map<Key, Value>, affected: set<string>, written: set<string>, pushed: set<string>)
      requires CastableMap(prices) && affected <= before.Keys && affected <= written
      requires corridors == RepricedAll(before, prices, affected, written, {})
      modifies this
      ensures corridors == RepricedAll(before, prices, affected, written, pushed)
    {
      var rest := affected;
      while rest != {}
        invariant rest <= affected
        invariant corridors == RepricedAll(before, prices, affected, written, pushed - rest)
        decreases |rest|
      {
        var id :| id in rest;
        assert corridors[id] == Priced(before[id], prices);
        if id in pushed {
          corridors := corridors[id := Push(corridors[id], PricingEntry(before[id], prices))];
        }
        rest := rest - {id};
      }
    }

    method DeactivateCorridor(rawId: string, inFlight: nat, now: int, saveOk: bool) returns (code: nat)
      modifies this
      ensures (code, corridors) == Next(old(corridors), Deactivate(rawId, inFlight, now, saveOk))
    {
      var id := Lower(rawId);
      if id !in corridors {
        return 404;
      }
      var corridor := corridors[id];
      if Field(corridor, IsActive) != Flag(true) {
        return 400;
      }
      if inFlight > 0 {
        return 409;
      }
      corridor := Assign(corridor, IsActive, Flag(false));
      corridor := Assign(corridor, Setting("deletedAt"), Date(now));
      corridor := Push(corridor, Entry(IsActive, Flag(true), Flag(false)));
      if !saveOk {
        return 500;
      }
      corridors := corridors[id := corridor];
      return 200;
    }
  }

  lemma CastableStep(updates: seq<Change>, i: nat)
    requires i < |updates|
    ensures Castable(updates[..i + 1]) <==> Castable(updates[..i]) && Cast(updates[i].key, updates[i].val).Some?
  {
    assert updates[..i + 1] == updates[..i] + [updates[i]];
  }

  // ── Replay ────────────────────────────────────────────────────────────────

  /** The value an entry leaves in a field, if it is about that field. A global entry quotes the
      old prices, which an edit of a key of the same name cannot. */
  function Says(e: Entry, f: Key): Option<Value> {
    if e.field == f then Cast(f, e.newValue)
    else if e.field == GLOBAL_PRICING && e.oldValue != Absent && e.newValue.JsonText? && f in e.newValue.members
    then Cast(f, e.newValue.members[f])
    else None
  }

  /** Folding a log over the value the field was created with. */
  function Replay(log: seq<Entry>, f: Key, created: Value): Value {
    if log == [] then created
    else
      var said := Says(log[|log| - 1], f);
      if said.Some? then said.value else Replay(log[..|log| - 1], f, created)
  }

  /** A stored value is its own cast. */
  predicate Stored(c: Corridor, f: Key) {
    Cast(f, Field(c, f)) == Some(Field(c, f))
  }

  predicate Agrees(c: Corridor, f: Key, created: Value) {
    Stored(c, f) && Field(c, f) == Replay(c.changeLog, f, created) && Chained(c.changeLog, f, created)
  }

  /** An entry quotes `v` as the old value of `f`, an unset manual rate as zero. */
  predicate Quotes(e: Entry, f: Key, v: Value) {
    && (e.field == f ==> e.oldValue == v || (f == MANUAL_RATE && !Given(v) && e.oldValue == Num(0.0)))
    && (e.field == GLOBAL_PRICING && e.oldValue.JsonText? && f in e.oldValue.members ==> e.oldValue.members[f] == v)
  }

  /** Each entry's old value is what the earlier entries replay to. */
  predicate Chained(log: seq<Entry>, f: Key, created: Value) {
    forall i :: 0 <= i < |log| ==> Quotes(log[i], f, Replay(log[..i], f, created))
  }

  /** No document holds a field outside the schema under the name of the global entries. */
  predicate NoStray(c: Corridor) {
    GLOBAL_PRICING !in c.fields
  }

  ghost predicate Replays(c: Corridor, created: Corridor) {
    NoStray(c) && forall f :: Economic(f) ==> Agrees(c, f, Field(created, f))
  }

  lemma ReplayPush(c: Corridor, e: Entry, f: Key, created: Value)
    ensures Replay(Push(c, e).changeLog, f, created) ==
              if Says(e, f).Some? then Says(e, f).value else Replay(c.changeLog, f, created)
    ensures Chained(c.changeLog, f, created) && Quotes(e, f, Replay(c.changeLog, f, created))
            ==> Chained(Push(c, e).changeLog, f, created)
  {
    var log := c.changeLog;
    assert (log + [e])[..|log|] == log;
    if Chained(log, f, created) && Quotes(e, f, Replay(log, f, created)) {
      forall i | 0 <= i <= |log| ensures Quotes((log + [e])[i], f, Replay((log + [e])[..i], f, created)) {
        assert i < |log| ==> (log + [e])[i] == log[i];
        assert (log + [e])[..i] == log[..i];
      }
    }
  }

  /** Equal prints mean equal stored values. */
  lemma SamePrintSameValue(f: Key, held: Value, v: Value)
    requires Economic(f) && WellFormed(v)
    requires Cast(f, held) == Some(held) && SamePrint(held, v) && Cast(f, v).Some?
    ensures Cast(f, v) == Some(held)
  {
  }

  lemma CastStored(f: Key, v: Value)
    requires Economic(f) && Cast(f, v).Some?
    ensures Cast(f, Cast(f, v).value) == Cast(f, v)
  {
  }

  ghost predicate Mentions(updates: seq<Change>, f: Key) {
    exists i :: 0 <= i < |updates| && updates[i].key == f
  }

  /** One field through a whole edit. */
  ghost predicate WellFormedChanges(updates: seq<Change>) {
    && (forall i, j :: 0 <= i < j < |updates| ==> updates[i].key != updates[j].key)
    && (forall i :: 0 <= i < |updates| ==> WellFormed(updates[i].val))
  }

  /** One assignment of an edit, for a field it has not touched before. */
  lemma EditedStep(before: Corridor, c: Corridor, u: Change, f: Key, created: Value)
    requires WellFormed(u.val) && Cast(u.key, u.val).Some? && Economic(f)
    requires NoStray(before) && NoStray(c) && Agrees(c, f, created)
    requires u.key == f ==> Field(c, f) == Field(before, f)
    ensures var e := Entry(u.key, Field(before, u.key), u.val);
            var c' := Assign(if SamePrint(Field(before, u.key), u.val) then c else Push(c, e), u.key, u.val);
            NoStray(c') && Agrees(c', f, created) && (u.key != f ==> Field(c', f) == Field(c, f))
  {
    var e := Entry(u.key, Field(before, u.key), u.val);
    ReplayPush(c, e, f, created);
    if u.key == f {
      CastStored(f, u.val);
      if SamePrint(Field(before, f), u.val) {
        SamePrintSameValue(f, Field(before, f), u.val);
      }
    }
  }

  /** One field through a whole edit. */
  lemma {:induction false} EditedField(before: Corridor, updates: seq<Change>, f: Key, created: Value)
    requires WellFormedChanges(updates) && Castable(updates)
    requires NoStray(before) && Economic(f) && Agrees(before, f, created)
    ensures var c := Edited(before, updates);
            && NoStray(c) && Agrees(c, f, created)
            && (!Mentions(updates, f) ==> Field(c, f) == Field(before, f))
  {
    if updates != [] {
      var n := |updates| - 1;
      EditedField(before, updates[..n], f, created);
      assert Mentions(updates[..n], f) ==> Mentions(updates, f) && updates[n].key != f;
      EditedStep(before, Edited(before, updates[..n]), updates[n], f, created);
    }
  }

  lemma {:induction false} AllowedBody(body: seq<Member>)
    requires WellFormedBody(body)
    ensures WellFormedChanges(Allowed(body))
    ensures forall u :: u in Allowed(body) <==> !u.key.Protected? && exists m :: m in body && u == Change(KeyOf(m.name), m.val)
  {
    if body != [] {
      var n := |body| - 1;
      AllowedBody(body[..n]);
      assert body == body[..n] + [body[n]];
      var rest := Allowed(body[..n]);
      forall i | 0 <= i < |rest| ensures rest[i].key != KeyOf(body[n].name) {
        var m :| m in body[..n] && rest[i] == Change(KeyOf(m.name), m.val);
        var j :| 0 <= j < n && body[j] == m;
        if KeyOf(m.name) == KeyOf(body[n].name) {
          KeyNames(m.name);
          KeyNames(body[n].name);
        }
      }
    }
  }

  function NameOf(k: Key): string {
    if k.IsActive? then "isActive" else k.name
  }

  lemma KeyNames(name: string)
    ensures NameOf(KeyOf(name)) == name
  {
  }

  /** The documents written by a request whose global entry never reached their log. */
  predicate Unlogged(s: Corridors, r: Request, id: string) {
    && r.GlobalPricing? && id in s
    && r.legalEntity != "" && (r.personal.Some? || r.business.Some?)
    && InGroup(s[id], r.legalEntity, r.group)
    && CastableMap(NewPrices(r.personal, r.business))
    && id in r.written
    && !(Affected(s, r.legalEntity, r.group) <= r.written && id in r.pushed)
  }

  /** The new prices are the ones already there. */
  predicate SamePrices(c: Corridor, prices: map<Key, Value>) {
    forall f :: f in prices ==> Cast(f, prices[f]) == Some(Field(c, f))
  }

  ghost predicate WellFormedRequest(r: Request) {
    r.Edit? ==> WellFormedBody(r.body)
  }

  lemma PricesAreEconomic(personal: Option<Pricing>, business: Option<Pricing>)
    ensures forall f :: f in NewPrices(personal, business) ==> Economic(f)
    ensures GLOBAL_PRICING !in NewPrices(personal, business)
  {
  }

  lemma RepricedField(c: Corridor, prices: map<Key, Value>, f: Key, created: Value)
    requires CastableMap(prices) && GLOBAL_PRICING !in prices
    requires Economic(f) && Agrees(c, f, created)
    ensures Agrees(Push(Priced(c, prices), PricingEntry(c, prices)), f, created)
    ensures Agrees(Priced(c, prices), f, created) <==> (f in prices ==> Cast(f, prices[f]) == Some(Field(c, f)))
  {
    if f in prices {
      CastStored(f, prices[f]);
    }
    ReplayPush(Priced(c, prices), PricingEntry(c, prices), f, created);
  }

  lemma RepricedReplays(c: Corridor, created: Corridor, prices: map<Key, Value>)
    requires CastableMap(prices) && GLOBAL_PRICING !in prices && (forall f :: f in prices ==> Economic(f))
    requires Replays(c, created)
    ensures Replays(Repriced(c, prices, true, true), created)
    ensures Replays(Repriced(c, prices, true, false), created) <==> SamePrices(c, prices)
  {
    forall f | Economic(f)
      ensures Agrees(Repriced(c, prices, true, true), f, Field(created, f))
      ensures Agrees(Repriced(c, prices, true, false), f, Field(created, f))
              <==> (f in prices ==> Cast(f, prices[f]) == Some(Field(c, f)))
    {
      assert Agrees(c, f, Field(created, f));
      RepricedField(c, prices, f, Field(created, f));
    }
  }

  /** An assignment together with its entry. */
  lemma LoggedAssign(c: Corridor, k: Key, v: Value, oldValue: Value, f: Key, created: Value)
    requires Economic(f) && Economic(k) && Cast(k, v).Some?
    requires Agrees(c, f, created) && Quotes(Entry(k, oldValue, v), f, Field(c, f))
    ensures Agrees(Push(Assign(c, k, v), Entry(k, oldValue, v)), f, created)
  {
    if f == k {
      CastStored(k, v);
    }
    ReplayPush(Assign(c, k, v), Entry(k, oldValue, v), f, created);
  }

  /** The main step: a request keeps the replay of a document exactly unless it is a global change
      whose log push was lost and which really changed a price. */
  lemma StepReplaysExactly(s: Corridors, r: Request, id: string, created: Corridor)
    requires id in s && Replays(s[id], created) && WellFormedRequest(r)
    ensures id in Next(s, r).1
    ensures Replays(Next(s, r).1[id], created)
            <==> (Unlogged(s, r, id) ==> SamePrices(s[id], NewPrices(r.personal, r.business)))
  {
    var c, c' := s[id], Next(s, r).1[id];
    match r
    case SetRate(rawId, rate, note, saveOk) =>
      if c' != c {
        RatedReplays(c, created, ToNumber(rate).value);
      }
    case Edit(rawId, body, saveOk) =>
      if c' != c {
        EditReplays(c, created, body);
      }
    case Deactivate(rawId, inFlight, now, saveOk) =>
      if c' != c {
        DeactivatedReplays(c, created, now);
      }
    case GlobalPricing(entity, group, personal, business, written, pushed) =>
      GlobalReplaysExactly(s, r, id, created);
  }

  lemma EditReplays(c: Corridor, created: Corridor, body: seq<Member>)
    requires Replays(c, created) && WellFormedBody(body) && Castable(Allowed(body))
    ensures Replays(Edited(c, Allowed(body)), created)
  {
    AllowedBody(body);
    forall f | Economic(f)
      ensures NoStray(Edited(c, Allowed(body))) && Agrees(Edited(c, Allowed(body)), f, Field(created, f))
    {
      assert Agrees(c, f, Field(created, f));
      EditedField(c, Allowed(body), f, Field(created, f));
    }
    assert Economic(IsActive);
  }

  /** What a global change does to one document. */
  lemma GlobalOn(s: Corridors, r: Request, id: string)
    requires r.GlobalPricing? && id in s
    ensures var prices := NewPrices(r.personal, r.business);
            && id in Next(s, r).1
            && (CastableMap(prices) && Unlogged(s, r, id) ==> Next(s, r).1[id] == Repriced(s[id], prices, true, false))
            && (CastableMap(prices) && !Unlogged(s, r, id) ==>
                  Next(s, r).1[id] == s[id] || Next(s, r).1[id] == Repriced(s[id], prices, true, true))
            && (!CastableMap(prices) ==> Next(s, r).1[id] == s[id])
  {
    var prices, hit := NewPrices(r.personal, r.business), Affected(s, r.legalEntity, r.group);
    if CastableMap(prices) {
      assert id in hit <==> InGroup(s[id], r.legalEntity, r.group);
      assert Repriced(s[id], prices, false, false) == s[id];
    }
  }

  lemma GlobalReplaysExactly(s: Corridors, r: Request, id: string, created: Corridor)
    requires r.GlobalPricing? && id in s && Replays(s[id], created)
    ensures id in Next(s, r).1
    ensures Replays(Next(s, r).1[id], created)
            <==> (Unlogged(s, r, id) ==> SamePrices(s[id], NewPrices(r.personal, r.business)))
  {
    GlobalOn(s, r, id);
    var prices := NewPrices(r.personal, r.business);
    if CastableMap(prices) {
      PricesAreEconomic(r.personal, r.business);
      RepricedReplays(s[id], created, prices);
    }
  }

  lemma RatedReplays(c: Corridor, created: Corridor, rate: real)
    requires Replays(c, created)
    ensures Replays(Rated(c, rate), created)
  {
    forall f | Economic(f) ensures Agrees(Rated(c, rate), f, Field(created, f)) {
      assert Agrees(c, f, Field(created, f));
      LoggedAssign(c, MANUAL_RATE, Num(rate), RateOf(c), f, Field(created, f));
    }
  }

  lemma DeactivatedReplays(c: Corridor, created: Corridor, now: int)
    requires Replays(c, created) && Field(c, IsActive) == Flag(true)
    ensures Replays(Deactivated(c, now), created)
  {
    var stamped := Assign(c, Setting("deletedAt"), Date(now));
    assert Deactivated(c, now) == Push(Assign(stamped, IsActive, Flag(false)), Entry(IsActive, Flag(true), Flag(false)));
    forall f | Economic(f) ensures Agrees(Deactivated(c, now), f, Field(created, f)) {
      assert Agrees(c, f, Field(created, f));
      LoggedAssign(stamped, IsActive, Flag(false), Flag(true), f, Field(created, f));
    }
  }

  /** A request answered with success leaves nothing unlogged. */
  lemma SuccessIsLogged(s: Corridors, r: Request, id: string)
    requires id in s
    ensures Unlogged(s, r, id) ==> Next(s, r).0 == 500
  {
    if Unlogged(s, r, id) {
      assert id in Affected(s, r.legalEntity, r.group);
    }
  }

  /** A lost push really can leave a price the log does not know. */
  lemma LostPushExample()
    ensures var created := Corridor(map[FIXED_FEE := Num(1.0)], []);
            var s := map["cl-bo" := created];
            var r := GlobalPricing("all", All, Some(Pricing(Null, Num(2.0))), None, {"cl-bo"}, {});
            var c := Next(s, r).1["cl-bo"];
            Field(c, FIXED_FEE) == Num(2.0) && Replay(c.changeLog, FIXED_FEE, Num(1.0)) == Num(1.0)
  {
    var created := Corridor(map[FIXED_FEE := Num(1.0)], []);
    var s := map["cl-bo" := created];
    assert "cl-bo" in Affected(s, "all", All);
    assert NewPrices(Some(Pricing(Null, Num(2.0))), None)[FIXED_FEE] == Num(2.0);
  }

  // ── Runs ──────────────────────────────────────────────────────────────────

  /** The state after a request, whatever it answered. */
  function After(s: Corridors, r: Request): Corridors {
    Next(s, r).1
  }

  function Run(s: Corridors, rs: seq<Request>): Corridors {
    Runs.Run(After, s, rs)
  }

  ghost predicate AllLogged(s: Corridors, rs: seq<Request>, id: string)
    decreases |rs|
  {
    rs == [] || (WellFormedRequest(rs[0]) && !Unlogged(s, rs[0], id) && AllLogged(Next(s, rs[0]).1, rs[1..], id))
  }

  /** Over every run of rate, field, global-pricing and deactivation edits that lost no push, the
      log replays to every economic field of the document, and its old values chain. */
  lemma {:induction false} RunReplays(s: Corridors, rs: seq<Request>, id: string, created: Corridor)
    requires id in s && Replays(s[id], created) && AllLogged(s, rs, id)
    ensures id in Run(s, rs) && Replays(Run(s, rs)[id], created)
    decreases |rs|
  {
    if rs != [] {
      StepReplaysExactly(s, rs[0], id, created);
      RunReplays(Next(s, rs[0]).1, rs[1..], id, created);
    }
  }

  ghost predicate Fresh(created: Corridor) {
    created.changeLog == [] && NoStray(created) && forall f :: Economic(f) ==> Stored(created, f)
  }

  /** From creation on. */
  lemma LogReplaysToState(s: Corridors, rs: seq<Request>, id: string, f: Key)
    requires id in s && Fresh(s[id]) && AllLogged(s, rs, id) && Economic(f)
    ensures id in Run(s, rs)
    ensures var c := Run(s, rs)[id];
            Field(c, f) == Replay(c.changeLog, f, Field(s[id], f)) && Chained(c.changeLog, f, Field(s[id], f))
  {
    RunReplays(s, rs, id, s[id]);
    assert Agrees(Run(s, rs)[id], f, Field(s[id], f));
  }

  lemma {:induction false} EditedKeeps(before: Corridor, updates: seq<Change>, name: string)
    requires forall u :: u in updates ==> !u.key.Protected?
    ensures var c := Edited(before, updates);
            before.changeLog <= c.changeLog && Field(c, Protected(name)) == Field(before, Protected(name))
  {
    if updates != [] {
      EditedKeeps(before, updates[..|updates| - 1], name);
      assert updates[|updates| - 1] in updates;
    }
  }

  lemma {:induction false} AllowedKeys(body: seq<Member>)
    ensures forall u :: u in Allowed(body) ==> !u.key.Protected?
  {
    if body != [] {
      AllowedKeys(body[..|body| - 1]);
    }
  }

  lemma StepKeepsHistory(s: Corridors, r: Request, id: string, name: string)
    requires id in s
    ensures var s' := Next(s, r).1;
            && id in s'
            && s[id].changeLog <= s'[id].changeLog
            && Field(s'[id], Protected(name)) == Field(s[id], Protected(name))
  {
    match r
    case Edit(_, body, _) =>
      AllowedKeys(body);
      EditedKeeps(s[id], Allowed(body), name);
    case GlobalPricing(_, _, _, _, _, _) => GlobalKeepsHistory(s, r, id, name);
    case SetRate(_, _, _, _) =>
    case Deactivate(_, _, _, _) =>
  }

  lemma GlobalKeepsHistory(s: Corridors, r: Request, id: string, name: string)
    requires id in s && r.GlobalPricing?
    ensures var s' := Next(s, r).1;
            && id in s'
            && s[id].changeLog <= s'[id].changeLog
            && Field(s'[id], Protected(name)) == Field(s[id], Protected(name))
  {
    GlobalOn(s, r, id);
    PricesAreEconomic(r.personal, r.business);
  }

  /** In every run whatsoever, with lost pushes and malformed bodies too, no document disappears, its
      history is only appended to and its protected fields stay as they were. */
  lemma {:induction false} HistoryOnlyGrows(s: Corridors, rs: seq<Request>, id: string, name: string)
    requires id in s
    ensures var s' := Run(s, rs);
            && id in s'
            && s[id].changeLog <= s'[id].changeLog
            && Field(s'[id], Protected(name)) == Field(s[id], Protected(name))
    decreases |rs|
  {
    if rs != [] {
      StepKeepsHistory(s, rs[0], id, name);
      HistoryOnlyGrows(Next(s, rs[0]).1, rs[1..], id, name);
    }
  }
}
