/** What an accepted corridor request does to the documents, and when a request is accepted. */
module CorridorEffects {
  import opened CorridorLog
  import opened Options

  // ── The schema and its values ─────────────────────────────────────────────

  /** The body's names: numbers, the flag, other settings, protected names, and the rest. */
  lemma KeysOfSchema(name: string)
    ensures name in NUMBER_FIELDS ==> KeyOf(name) == Number(name)
    ensures name == "isActive" ==> KeyOf(name) == IsActive
    ensures name in PROTECTED_FIELDS ==> KeyOf(name) == Protected(name)
    ensures KeyOf(name).Setting? ==> name in SETTINGS
    ensures KeyOf(name).Unknown? ==>
              name !in NUMBER_FIELDS && name != "isActive" && name !in SETTINGS && name !in PROTECTED_FIELDS
  {
  }

  /** What is stored: a number for everything that reads as one, null for null and for the empty text;
      a flag for the words and digits that mean one; nothing else. */
  lemma StoredNumber(name: string, r: real, s: string, number: Option<real>)
    ensures Cast(Number(name), Num(r)) == Some(Num(r)) && Cast(Number(name), Numeral(r)) == Some(Num(r))
    ensures Cast(Number(name), Flag(true)) == Some(Num(1.0)) && Cast(Number(name), Flag(false)) == Some(Num(0.0))
    ensures Cast(Number(name), Null) == Some(Null) && Cast(Number(name), Text("", number)) == Some(Null)
    ensures s != "" ==> Cast(Number(name), Text(s, number)) == match number case Some(n) => Some(Num(n)) case None => None
  {
  }

  lemma StoredFlag(r: real, s: string, number: Option<real>, b: bool)
    ensures Cast(IsActive, Flag(b)) == Some(Flag(b)) && Cast(IsActive, Null) == Some(Null)
    ensures Cast(IsActive, Num(r)) == Cast(IsActive, Numeral(r))
    ensures Cast(IsActive, Num(1.0)) == Some(Flag(true)) && Cast(IsActive, Num(0.0)) == Some(Flag(false))
    ensures r != 0.0 && r != 1.0 ==> Cast(IsActive, Num(r)) == None
    ensures Cast(IsActive, Text(s, number)) ==
              if s == "true" || s == "yes" then Some(Flag(true))
              else if s == "false" || s == "no" then Some(Flag(false)) else None
  {
  }

  /** Two values print alike: equal numbers, as numbers or as numerals, equal flags or texts, and a word and
      the non-text it spells. */
  lemma PrintsAlike(r: real, q: real, s: string, t: string, m: Option<real>, n: Option<real>, b: bool)
    ensures SamePrint(Num(r), Num(q)) <==> r == q
    ensures SamePrint(Num(r), Numeral(q)) <==> r == q
    ensures SamePrint(Text(s, m), Text(t, n)) <==> s == t
    ensures SamePrint(Null, Text(s, m)) <==> s == "null"
    ensures SamePrint(Absent, Text(s, m)) <==> s == "undefined"
    ensures SamePrint(Flag(b), Text(s, m)) <==> s == if b then "true" else "false"
    ensures !SamePrint(Num(r), Null) && !SamePrint(Num(r), Flag(b)) && !SamePrint(Num(r), Text(s, m)) && !SamePrint(Null, Flag(b))
    ensures !SamePrint(Flag(true), Flag(false)) && !SamePrint(Absent, Null) && !SamePrint(Absent, Num(r))
  {
  }

  // ── updateCorridor ────────────────────────────────────────────────────────

  /** The entries an edit owes: one for each unprotected name of the body whose value prints differently
      from the one in the document, in the order of the body. */
  function Owed(c: Corridor, body: seq<Member>): seq<Entry> {
    if body == [] then [] else OwedFor(c, body[0]) + Owed(c, body[1..])
  }

  function OwedFor(c: Corridor, m: Member): seq<Entry> {
    var key := KeyOf(m.name);
    if key.Protected? || SamePrint(Field(c, key), m.val) then [] else [Entry(key, Field(c, key), m.val)]
  }

  lemma {:induction false} OwedSnoc(c: Corridor, body: seq<Member>, m: Member)
    ensures Owed(c, body + [m]) == Owed(c, body) + OwedFor(c, m)
  {
    if body == [] {
      assert body + [m] == [m] && [m][1..] == [];
    } else {
      assert (body + [m])[0] == body[0] && (body + [m])[1..] == body[1..] + [m];
      OwedSnoc(c, body[1..], m);
    }
  }

  lemma EditedSnoc(before: Corridor, updates: seq<Change>, u: Change)
    ensures var c := Edited(before, updates);
            Edited(before, updates + [u]) ==
              Assign(if SamePrint(Field(before, u.key), u.val) then c
                     else Push(c, Entry(u.key, Field(before, u.key), u.val)), u.key, u.val)
  {
    assert (updates + [u])[..|updates|] == updates;
  }

  lemma {:induction false} EditedLog(c: Corridor, body: seq<Member>)
    ensures Edited(c, Allowed(body)).changeLog == c.changeLog + Owed(c, body)
  {
    if body != [] {
      var n := |body| - 1;
      var front, m := body[..n], body[n];
      assert body == front + [m];
      EditedLog(c, front);
      OwedSnoc(c, front, m);
      if !KeyOf(m.name).Protected? {
        EditedSnoc(c, Allowed(front), Change(KeyOf(m.name), m.val));
      }
    }
  }

  /** A field after an edit: the stored form of the value the edit names for it, or what it was. */
  lemma {:induction false} EditedValue(c: Corridor, updates: seq<Change>, f: Key)
    requires WellFormedChanges(updates) && Castable(updates)
    ensures (forall i :: 0 <= i < |updates| ==> updates[i].key != f) ==> Field(Edited(c, updates), f) == Field(c, f)
    ensures forall i :: 0 <= i < |updates| && updates[i].key == f && !f.Unknown? ==>
              Some(Field(Edited(c, updates), f)) == Cast(f, updates[i].val)
    ensures f.Unknown? ==> Field(Edited(c, updates), f) == Field(c, f)
  {
    if updates != [] {
      var n := |updates| - 1;
      assert updates == updates[..n] + [updates[n]];
      EditedValue(c, updates[..n], f);
      EditedSnoc(c, updates[..n], updates[n]);
      AssignedValue(c, Edited(c, updates[..n]), updates[n], f);
    }
  }

  lemma AssignedValue(before: Corridor, c: Corridor, u: Change, f: Key)
    requires Cast(u.key, u.val).Some?
    ensures var c' := Assign(if SamePrint(Field(before, u.key), u.val) then c
                             else Push(c, Entry(u.key, Field(before, u.key), u.val)), u.key, u.val);
            Field(c', f) == if u.key == f && !f.Unknown? then Cast(f, u.val).value else Field(c, f)
  {
  }

  /** The body names the field. */
  ghost predicate Named(body: seq<Member>, f: Key) {
    exists m :: m in body && KeyOf(m.name) == f
  }

  /** An accepted edit takes effect: every unprotected schema field the body names holds the stored form of
      its value, every other field is as it was, and the log has gained exactly the entries it owes. */
  lemma EditTakesEffect(s: Corridors, rawId: string, body: seq<Member>, saveOk: bool)
    requires WellFormedBody(body) && Next(s, Edit(rawId, body, saveOk)).0 == 200
    ensures saveOk && Lower(rawId) in s
    ensures var id, s' := Lower(rawId), Next(s, Edit(rawId, body, saveOk)).1;
            && s' == s[id := s'[id]]
            && (forall m :: m in body && !KeyOf(m.name).Protected? && !KeyOf(m.name).Unknown? ==>
                  Some(Field(s'[id], KeyOf(m.name))) == Cast(KeyOf(m.name), m.val))
            && (forall f :: !Named(body, f) || f.Protected? || f.Unknown? ==> Field(s'[id], f) == Field(s[id], f))
            && s'[id].changeLog == s[id].changeLog + Owed(s[id], body)
  {
    var c, updates := s[Lower(rawId)], Allowed(body);
    AllowedBody(body);
    EditedLog(c, body);
    forall m | m in body && !KeyOf(m.name).Protected? && !KeyOf(m.name).Unknown?
      ensures Some(Field(Edited(c, updates), KeyOf(m.name))) == Cast(KeyOf(m.name), m.val)
    {
      assert Change(KeyOf(m.name), m.val) in updates;
      var i :| 0 <= i < |updates| && updates[i] == Change(KeyOf(m.name), m.val);
      EditedValue(c, updates, KeyOf(m.name));
    }
    forall f | !Named(body, f) || f.Protected? || f.Unknown?
      ensures Field(Edited(c, updates), f) == Field(c, f)
    {
      EditedValue(c, updates, f);
      forall i | 0 <= i < |updates| ensures updates[i].key != f || f.Unknown? {
        assert updates[i] in updates;
        var m :| m in body && updates[i] == Change(KeyOf(m.name), m.val);
      }
    }
  }

  /** The answers to an edit: 404 for an unknown corridor; 400 when nothing unprotected is named, or a value
      does not fit its field; 500 when the save fails; and no refusal changes anything. */
  lemma EditAnswers(s: Corridors, rawId: string, body: seq<Member>, saveOk: bool)
    requires WellFormedBody(body)
    ensures var (code, s') := Next(s, Edit(rawId, body, saveOk));
            var asks := exists m :: m in body && !KeyOf(m.name).Protected?;
            var fits := forall m :: m in body && !KeyOf(m.name).Protected? ==> Cast(KeyOf(m.name), m.val).Some?;
            && (code == 404 <==> asks && Lower(rawId) !in s)
            && (code == 400 <==> !asks || (Lower(rawId) in s && !fits))
            && (code == 500 <==> asks && Lower(rawId) in s && fits && !saveOk)
            && (code == 200 <==> asks && Lower(rawId) in s && fits && saveOk)
            && (code != 200 ==> s' == s)
  {
    AllowedBody(body);
    var updates := Allowed(body);
    if m :| m in body && !KeyOf(m.name).Protected? {
      assert Change(KeyOf(m.name), m.val) in updates;
    }
    if updates != [] {
      assert updates[0] in updates;
    }
    CastableMembers(body);
  }

  lemma CastableMembers(body: seq<Member>)
    requires WellFormedBody(body)
    ensures Castable(Allowed(body)) <==>
              forall m :: m in body && !KeyOf(m.name).Protected? ==> Cast(KeyOf(m.name), m.val).Some?
  {
    AllowedBody(body);
    var updates := Allowed(body);
    if Castable(updates) {
      forall m | m in body && !KeyOf(m.name).Protected? ensures Cast(KeyOf(m.name), m.val).Some? {
        assert Change(KeyOf(m.name), m.val) in updates;
        var i :| 0 <= i < |updates| && updates[i] == Change(KeyOf(m.name), m.val);
      }
    }
    if forall m :: m in body && !KeyOf(m.name).Protected? ==> Cast(KeyOf(m.name), m.val).Some? {
      forall i | 0 <= i < |updates| ensures Cast(updates[i].key, updates[i].val).Some? {
        assert updates[i] in updates;
        var m :| m in body && updates[i] == Change(KeyOf(m.name), m.val);
      }
    }
  }

  lemma FeeKey()
    ensures KeyOf("fixedFee") == FIXED_FEE
  {
    assert NUMBER_FIELDS[3] == "fixedFee";
  }

  /** An example: a fee of 1, a request for 2, an accepted answer. */
  lemma FeeExample(s: Corridors, rawId: string, m: Member)
    requires Lower(rawId) in s && Field(s[Lower(rawId)], FIXED_FEE) == Num(1.0)
    requires KeyOf(m.name) == FIXED_FEE && m.val == Num(2.0)
    ensures var (code, s') := Next(s, Edit(rawId, [m], true));
            && code == 200 && Field(s'[Lower(rawId)], FIXED_FEE) == Num(2.0)
            && s'[Lower(rawId)].changeLog == s[Lower(rawId)].changeLog + [Entry(FIXED_FEE, Num(1.0), Num(2.0))]
  {
    assert m in [m];
    EditAnswers(s, rawId, [m], true);
    EditTakesEffect(s, rawId, [m], true);
    assert [m][1..] == [] && Owed(s[Lower(rawId)], [m]) == OwedFor(s[Lower(rawId)], m) + [];
  }

  // ── setCorridorRate, deactivateCorridor, updateGlobalPricing ──────────────

  /** A rate change: accepted for a positive rate with a note of ten characters on a manual or QR corridor;
      it sets the rate and logs the old one, zero if there was none. */
  lemma RateTakesEffect(s: Corridors, rawId: string, rate: Value, note: string, saveOk: bool)
    ensures var (code, s') := Next(s, SetRate(rawId, rate, note, saveOk));
            var id := Lower(rawId);
            var good := ToNumber(rate).Some? && ToNumber(rate).value > 0.0 && |note| >= 10;
            var manual := id in s && (Field(s[id], Setting("payinMethod")) == Text("manual", None)
                                      || Field(s[id], Setting("payinMethod")) == Text("bankQr", None));
            && (code == 404 <==> good && id !in s)
            && (code == 400 <==> !good || (id in s && !manual))
            && (code == 200 <==> good && manual && saveOk)
            && (code != 200 ==> s' == s)
            && (code == 200 ==>
                  var n, was := ToNumber(rate).value, Field(s[id], MANUAL_RATE);
                  && s' == s[id := Corridor(
                       s[id].fields[MANUAL_RATE := Num(n)],
                       s[id].changeLog
                       + [Entry(MANUAL_RATE, if was == Null || was == Absent then Num(0.0) else was, Num(n))])])
  {
  }

  lemma RateNumber(r: real, s: string, number: Option<real>)
    ensures ToNumber(Num(r)) == Some(r) && ToNumber(Numeral(r)) == Some(r)
    ensures ToNumber(Absent) == None && ToNumber(Null) == Some(0.0)
    ensures ToNumber(Text(s, number)) == if s == "" then Some(0.0) else number
  {
  }

  /** A deactivation: accepted for an active corridor without transactions in flight; it clears the flag,
      stamps the time and logs the change. */
  lemma DeactivationTakesEffect(s: Corridors, rawId: string, inFlight: nat, now: int, saveOk: bool)
    ensures var (code, s') := Next(s, Deactivate(rawId, inFlight, now, saveOk));
            var id := Lower(rawId);
            var active := id in s && Field(s[id], IsActive) == Flag(true);
            && (code == 404 <==> id !in s)
            && (code == 400 <==> id in s && !active)
            && (code == 409 <==> active && inFlight > 0)
            && (code == 200 <==> active && inFlight == 0 && saveOk)
            && (code != 200 ==> s' == s)
            && (code == 200 ==>
                  s' == s[id := Corridor(
                       s[id].fields[IsActive := Flag(false)][Setting("deletedAt") := Date(now)],
                       s[id].changeLog + [Entry(IsActive, Flag(true), Flag(false))])])
  {
  }

  /** The corridors a global change is about. */
  predicate Chosen(c: Corridor, legalEntity: string, group: Group) {
    var payout := Field(c, Setting("payoutMethod"));
    && (legalEntity == "all" || Field(c, Setting("legalEntity")) == Text(legalEntity, None))
    && (group == All
        || (group == Standard && (payout == Text("vitaWallet", None) || payout == Text("anchorBolivia", None)))
        || (group == HarborOnly && payout == Text("owlPay", None)))
  }

  /** The price a global change sets for a field, if any. */
  function NewPrice(r: Request, f: Key): Option<Value>
    requires r.GlobalPricing?
  {
    var v :=
      if f == ALYTO_SPREAD && r.personal.Some? then r.personal.value.spreadPercent
      else if f == FIXED_FEE && r.personal.Some? then r.personal.value.fixedFee
      else if f == BUSINESS_SPREAD && r.business.Some? then r.business.value.spreadPercent
      else if f == BUSINESS_FEE && r.business.Some? then r.business.value.fixedFee
      else Absent;
    if v == Absent || v == Null then None else Some(v)
  }

  lemma NewPricesAre(r: Request, f: Key)
    requires r.GlobalPricing?
    ensures var prices := NewPrices(r.personal, r.business);
            if f in prices then NewPrice(r, f) == Some(prices[f]) else NewPrice(r, f) == None
  {
  }

  /** A global change that was let through, also one that failed midway: every chosen corridor that the
      update reached has the stored form of each price given, its other fields as they were; every one that
      the push reached, which comes only after the whole update, has one more entry, quoting its old prices and
      the new ones; no other corridor moves. */
  lemma GlobalTakesEffect(s: Corridors, r: Request, id: string)
    requires r.GlobalPricing? && Next(s, r).0 in {200, 500} && id in s
    requires forall f :: NewPrice(r, f).Some? ==> Cast(f, NewPrice(r, f).value).Some?
    ensures var s' := Next(s, r).1;
            && s'.Keys == s.Keys
            && (!Chosen(s[id], r.legalEntity, r.group) ==> s'[id] == s[id])
            && (Chosen(s[id], r.legalEntity, r.group) ==>
                  && PricesSet(s[id], s'[id], r, id in r.written)
                  && EntryLeft(s[id], s'[id], r, AllChosen(s, r) <= r.written && id in r.pushed))
  {
    var prices := NewPrices(r.personal, r.business);
    assert InGroup(s[id], r.legalEntity, r.group) <==> Chosen(s[id], r.legalEntity, r.group);
    assert Affected(s, r.legalEntity, r.group) == AllChosen(s, r);
    forall f ensures if f in prices then NewPrice(r, f) == Some(prices[f]) else NewPrice(r, f) == None {
      NewPricesAre(r, f);
    }
    if Chosen(s[id], r.legalEntity, r.group) {
      RepricedFields(s[id], r, id in r.written, AllChosen(s, r) <= r.written && id in r.pushed);
    }
  }

  ghost function AllChosen(s: Corridors, r: Request): set<string>
    requires r.GlobalPricing?
  {
    set id | id in s && Chosen(s[id], r.legalEntity, r.group)
  }

  ghost predicate PricesSet(c: Corridor, c': Corridor, r: Request, reached: bool)
    requires r.GlobalPricing?
  {
    forall f :: if reached && NewPrice(r, f).Some? then Some(Field(c', f)) == Cast(f, NewPrice(r, f).value)
                else Field(c', f) == Field(c, f)
  }

  ghost predicate EntryLeft(c: Corridor, c': Corridor, r: Request, reached: bool)
    requires r.GlobalPricing?
  {
    if !reached then c'.changeLog == c.changeLog
    else exists was, becomes ::
      && c'.changeLog == c.changeLog + [Entry(Unknown("global_pricing_update"), JsonText(was), JsonText(becomes))]
      && (forall f :: f in was <==> f in {ALYTO_SPREAD, FIXED_FEE, BUSINESS_SPREAD, BUSINESS_FEE} && Field(c, f) != Absent)
      && (forall f :: f in was ==> was[f] == Field(c, f))
      && (forall f :: if f in becomes then NewPrice(r, f) == Some(becomes[f]) else NewPrice(r, f) == None)
  }

  lemma RepricedFields(c: Corridor, r: Request, isWritten: bool, isPushed: bool)
    requires r.GlobalPricing? && CastableMap(NewPrices(r.personal, r.business))
    ensures var c' := Repriced(c, NewPrices(r.personal, r.business), isWritten, isPushed);
            PricesSet(c, c', r, isWritten) && EntryLeft(c, c', r, isPushed)
  {
    var prices := NewPrices(r.personal, r.business);
    var c' := Repriced(c, prices, isWritten, isPushed);
    forall f ensures if f in prices then NewPrice(r, f) == Some(prices[f]) else NewPrice(r, f) == None {
      NewPricesAre(r, f);
    }
    if isPushed {
      assert c'.changeLog == c.changeLog + [Entry(Unknown("global_pricing_update"), JsonText(OldPrices(c)), JsonText(prices))];
    }
  }

  /** The answers to a global change: 400 without an entity or any prices, 404 when no corridor is chosen,
      500 when a price does not fit, which changes nothing, or a write fails. */
  lemma GlobalAnswers(s: Corridors, r: Request)
    requires r.GlobalPricing?
    ensures var (code, s') := Next(s, r);
            var asks := r.legalEntity != "" && (r.personal.Some? || r.business.Some?);
            var chosen := AllChosen(s, r);
            var fits := forall f :: NewPrice(r, f).Some? ==> Cast(f, NewPrice(r, f).value).Some?;
            && (code == 400 <==> !asks)
            && (code == 404 <==> asks && chosen == {})
            && (code == 500 <==> asks && chosen != {} && !(fits && chosen <= r.written && chosen <= r.pushed))
            && (code == 200 <==> asks && chosen != {} && fits && chosen <= r.written && chosen <= r.pushed)
            && (code in {400, 404} || !fits ==> s' == s)
  {
    assert Affected(s, r.legalEntity, r.group) == AllChosen(s, r);
    var prices := NewPrices(r.personal, r.business);
    forall f ensures if f in prices then NewPrice(r, f) == Some(prices[f]) else NewPrice(r, f) == None {
      NewPricesAre(r, f);
    }
    assert CastableMap(prices) <==> forall f :: NewPrice(r, f).Some? ==> Cast(f, NewPrice(r, f).value).Some?;
  }
}
