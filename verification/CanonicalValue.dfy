/** The signed text is a function of the abstract JSON value: arrays of present values and
    unordered fields, with nulls and absent entries not there at all. */
module CanonicalValue {
  import opened KeyOrder
  import opened CanonicalJson

  datatype Value =
    | Absent
    | VBool(b: bool)
    | VNum(text: string)
    | VStr(s: string)
    | VArr(items: seq<Value>)
    | VObj(fields: map<string, Value>)

  function Abstract(v: Json): Value
    decreases v
  {
    match v
    case Undefined => Absent
    case Null => Absent
    case Bool(b) => VBool(b)
    case Num(text) => VNum(text)
    case Str(s) => VStr(s)
    case Arr(items) => VArr(AbsItems(items))
    case Obj(entries) => VObj(AbsFields(entries))
  }

  function AbsItems(items: seq<Json>): seq<Value>
    decreases items
  {
    if items == [] then []
    else
      var a := Abstract(items[|items| - 1]);
      AbsItems(items[..|items| - 1]) + if a == Absent then [] else [a]
  }

  function AbsFields(entries: seq<Entry>): map<string, Value>
    decreases entries
  {
    if entries == [] then map[]
    else
      var e := entries[|entries| - 1];
      var a := Abstract(e.val);
      var rest := AbsFields(entries[..|entries| - 1]);
      if a == Absent then rest else rest[e.key := a]
  }

  /** No object repeats a key, which JavaScript objects cannot do. */
  ghost predicate WellFormed(v: Json)
    decreases v
  {
    match v
    case Arr(items) => forall i :: 0 <= i < |items| ==> WellFormed(items[i])
    case Obj(entries) =>
      Distinct(Keys(entries)) && forall i :: 0 <= i < |entries| ==> WellFormed(entries[i].val)
    case _ => true
  }

  /** No null and no undefined, at any depth. */
  ghost predicate Solid(v: Json)
    decreases v
  {
    match v
    case Undefined => false
    case Null => false
    case Arr(items) => forall i :: 0 <= i < |items| ==> Solid(items[i])
    case Obj(entries) => forall i :: 0 <= i < |entries| ==> Solid(entries[i].val)
    case _ => true
  }

  // ── deepClean ─────────────────────────────────────────────────────────────

  /** Cleaning keeps the abstract value, leaves no null behind, and keeps keys distinct. */
  lemma {:induction false} CleanMeaning(v: Json)
    requires WellFormed(v)
    ensures Abstract(DeepClean(v)) == Abstract(v)
    ensures WellFormed(DeepClean(v))
    ensures if Abstract(v) == Absent then DeepClean(v) == Undefined else Solid(DeepClean(v))
    decreases v, 1
  {
    match v {
      case Arr(items) => CleanItemsMeaning(items);
      case Obj(entries) =>
        CleanEntriesMeaning(entries);
        CleanEntriesSolid(entries);
        CleanEntriesKeys(entries);
      case _ =>
    }
  }

  lemma {:induction false} CleanItemsMeaning(items: seq<Json>)
    requires forall i :: 0 <= i < |items| ==> WellFormed(items[i])
    ensures AbsItems(CleanItems(items)) == AbsItems(items)
    ensures forall i :: 0 <= i < |CleanItems(items)| ==> WellFormed(CleanItems(items)[i]) && Solid(CleanItems(items)[i])
    decreases items, 0
  {
    if items != [] {
      var front, last := items[..|items| - 1], items[|items| - 1];
      CleanItemsMeaning(front);
      CleanMeaning(last);
      var out, c := CleanItems(front), DeepClean(last);
      if c == Undefined {
        assert CleanItems(items) == out;
      } else {
        assert CleanItems(items) == out + [c] && (out + [c])[..|out|] == out;
      }
    }
  }

  lemma {:induction false} CleanEntriesMeaning(entries: seq<Entry>)
    requires forall i :: 0 <= i < |entries| ==> WellFormed(entries[i].val)
    ensures AbsFields(CleanEntries(entries)) == AbsFields(entries)
    decreases entries, 0
  {
    if entries != [] {
      var front, last := entries[..|entries| - 1], entries[|entries| - 1];
      CleanEntriesMeaning(front);
      CleanMeaning(last.val);
      CleanEntriesLast(entries);
      AbsFieldsSnoc(CleanEntries(front), Entry(last.key, DeepClean(last.val)));
    }
  }

  lemma {:induction false} CleanEntriesSolid(entries: seq<Entry>)
    requires forall i :: 0 <= i < |entries| ==> WellFormed(entries[i].val)
    ensures var out := CleanEntries(entries);
            forall i :: 0 <= i < |out| ==> WellFormed(out[i].val) && Solid(out[i].val)
    decreases entries, 0
  {
    if entries != [] {
      CleanEntriesSolid(entries[..|entries| - 1]);
      CleanMeaning(entries[|entries| - 1].val);
      CleanEntriesLast(entries);
    }
  }

  lemma CleanEntriesLast(entries: seq<Entry>)
    requires entries != []
    ensures var front, e := CleanEntries(entries[..|entries| - 1]), entries[|entries| - 1];
            CleanEntries(entries) ==
              if DeepClean(e.val) == Undefined then front else front + [Entry(e.key, DeepClean(e.val))]
  {
  }

  lemma AbsFieldsSnoc(es: seq<Entry>, e: Entry)
    ensures AbsFields(es + [e]) ==
            if Abstract(e.val) == Absent then AbsFields(es) else AbsFields(es)[e.key := Abstract(e.val)]
  {
    assert (es + [e])[..|es|] == es;
  }

  lemma {:induction false} CleanEntriesKeys(entries: seq<Entry>)
    requires Distinct(Keys(entries))
    ensures var out := CleanEntries(entries);
            Distinct(Keys(out)) && forall i :: 0 <= i < |out| ==> out[i].key in Keys(entries)
  {
    if entries != [] {
      var n := |entries| - 1;
      var front, last := entries[..n], entries[n];
      KeysSnoc(entries);
      CleanEntriesKeys(front);
      CleanEntriesLast(entries);
      if DeepClean(last.val) != Undefined {
        AppendedEntry(CleanEntries(front), Entry(last.key, DeepClean(last.val)), front);
      }
    }
  }

  lemma KeysSnoc(entries: seq<Entry>)
    requires entries != []
    ensures var n := |entries| - 1;
            Keys(entries) == Keys(entries[..n]) + [entries[n].key] && Keys(entries[..n]) == Keys(entries)[..n]
  {
  }

  lemma AppendedEntry(out: seq<Entry>, e: Entry, front: seq<Entry>)
    requires Distinct(Keys(out)) && Distinct(Keys(front) + [e.key])
    requires forall i :: 0 <= i < |out| ==> out[i].key in Keys(front)
    ensures Distinct(Keys(out + [e]))
    ensures forall i :: 0 <= i <= |out| ==> (out + [e])[i].key in Keys(front) + [e.key]
  {
    assert Keys(out + [e]) == Keys(out) + [e.key];
    forall i | 0 <= i < |out| ensures Keys(out)[i] != e.key {
      var j :| 0 <= j < |front| && Keys(front)[j] == out[i].key;
      assert (Keys(front) + [e.key])[j] != (Keys(front) + [e.key])[|front|];
    }
  }

  /** A value without nulls is left exactly as it is. */
  lemma {:induction false} SolidUnchanged(v: Json)
    requires Solid(v)
    ensures DeepClean(v) == v
    decreases v, 1
  {
    match v {
      case Arr(items) => SolidItemsUnchanged(items);
      case Obj(entries) => SolidEntriesUnchanged(entries);
      case _ =>
    }
  }

  lemma {:induction false} SolidItemsUnchanged(items: seq<Json>)
    requires forall i :: 0 <= i < |items| ==> Solid(items[i])
    ensures CleanItems(items) == items
    decreases items, 0
  {
    if items != [] {
      SolidItemsUnchanged(items[..|items| - 1]);
      SolidUnchanged(items[|items| - 1]);
    }
  }

  lemma {:induction false} SolidEntriesUnchanged(entries: seq<Entry>)
    requires forall i :: 0 <= i < |entries| ==> Solid(entries[i].val)
    ensures CleanEntries(entries) == entries
    decreases entries, 0
  {
    if entries != [] {
      var n := |entries| - 1;
      SolidEntriesUnchanged(entries[..n]);
      SolidUnchanged(entries[n].val);
      assert entries == entries[..n] + [entries[n]];
    }
  }

  lemma CleanIdempotent(v: Json)
    requires WellFormed(v)
    ensures DeepClean(DeepClean(v)) == DeepClean(v)
  {
    CleanMeaning(v);
    if DeepClean(v) != Undefined {
      SolidUnchanged(DeepClean(v));
    }
  }

  // ── The text ──────────────────────────────────────────────────────────────

  lemma {:induction false} SolidItemValues(items: seq<Json>)
    requires forall i :: 0 <= i < |items| ==> Solid(items[i])
    ensures |AbsItems(items)| == |items|
    ensures forall i :: 0 <= i < |items| ==> AbsItems(items)[i] == Abstract(items[i])
  {
    if items != [] {
      SolidItemValues(items[..|items| - 1]);
    }
  }

  lemma {:induction false} SolidFieldValues(entries: seq<Entry>)
    requires Distinct(Keys(entries)) && forall i :: 0 <= i < |entries| ==> Solid(entries[i].val)
    ensures forall k :: k in AbsFields(entries) <==> k in Keys(entries)
    ensures forall k :: k in Keys(entries) ==> AbsFields(entries)[k] == Abstract(Get(entries, k))
  {
    if entries != [] {
      var n := |entries| - 1;
      var front, last := entries[..n], entries[n];
      assert Keys(front) == Keys(entries)[..n] && Keys(entries)[n] == last.key;
      SolidFieldValues(front);
      forall k | k in Keys(entries)
        ensures k in AbsFields(entries) && AbsFields(entries)[k] == Abstract(Get(entries, k))
      {
        var i := IndexOf(entries, k);
        if k != last.key {
          assert k in Keys(front) by { assert Keys(front)[i] == k; }
          var j := IndexOf(front, k);
          assert Keys(entries)[i] == Keys(entries)[j];
        } else {
          assert Keys(entries)[i] == Keys(entries)[n];
        }
      }
    }
  }

  /** Two clean values that mean the same are written the same. */
  lemma {:induction false} SameText(x: Json, y: Json)
    requires Solid(x) && Solid(y) && WellFormed(x) && WellFormed(y)
    requires Abstract(x) == Abstract(y)
    ensures StableStringify(x) == StableStringify(y)
    decreases x, 2
  {
    match x {
      case Arr(items) =>
        SolidItemValues(items);
        SolidItemValues(y.items);
        SameItems(items, y.items);
      case Obj(entries) =>
        SameKeys(entries, y.entries);
        SameEntries(Sort(Keys(entries)), entries, y.entries);
      case _ =>
    }
  }

  lemma {:induction false} SameItems(xs: seq<Json>, ys: seq<Json>)
    requires |xs| == |ys|
    requires forall i :: 0 <= i < |xs| ==>
               Solid(xs[i]) && Solid(ys[i]) && WellFormed(xs[i]) && WellFormed(ys[i]) && Abstract(xs[i]) == Abstract(ys[i])
    ensures JoinItems(xs) == JoinItems(ys)
    decreases xs, 0
  {
    if xs != [] {
      SameItems(xs[..|xs| - 1], ys[..|xs| - 1]);
      SameText(xs[|xs| - 1], ys[|xs| - 1]);
    }
  }

  ghost predicate CleanEntriesOk(es: seq<Entry>) {
    Distinct(Keys(es)) && forall i :: 0 <= i < |es| ==> Solid(es[i].val) && WellFormed(es[i].val)
  }

  lemma SameKeys(xs: seq<Entry>, ys: seq<Entry>)
    requires CleanEntriesOk(xs) && CleanEntriesOk(ys) && AbsFields(xs) == AbsFields(ys)
    ensures Sort(Keys(xs)) == Sort(Keys(ys))
    ensures forall k :: k in multiset(Sort(Keys(xs))) ==> k in Keys(xs) && k in Keys(ys)
  {
    SolidFieldValues(xs);
    SolidFieldValues(ys);
    SameKeysSameOrder(Keys(xs), Keys(ys));
  }

  lemma {:induction false} SameEntries(ks: seq<string>, xs: seq<Entry>, ys: seq<Entry>)
    requires CleanEntriesOk(xs) && CleanEntriesOk(ys) && AbsFields(xs) == AbsFields(ys)
    requires forall k :: k in multiset(ks) ==> k in Keys(xs) && k in Keys(ys)
    ensures JoinEntries(ks, xs) == JoinEntries(ks, ys)
    decreases xs, 1, |ks|
  {
    if ks != [] {
      var front, k := ks[..|ks| - 1], ks[|ks| - 1];
      assert ks == front + [k];
      SameEntries(front, xs, ys);
      SameEntry(k, xs, ys);
    }
  }

  lemma {:induction false} SameEntry(k: string, xs: seq<Entry>, ys: seq<Entry>)
    requires CleanEntriesOk(xs) && CleanEntriesOk(ys) && AbsFields(xs) == AbsFields(ys)
    requires k in Keys(xs) && k in Keys(ys)
    ensures EntryText(xs, k) == EntryText(ys, k)
    decreases xs, 0
  {
    SolidFieldValues(xs);
    SolidFieldValues(ys);
    var x, y := xs[IndexOf(xs, k)].val, ys[IndexOf(ys, k)].val;
    assert Abstract(x) == AbsFields(xs)[k] == Abstract(y);
    SameText(x, y);
  }

  lemma {:induction false} SameBodyText(ks: seq<string>, xs: seq<Entry>, ys: seq<Entry>)
    requires Keys(xs) == Keys(ys) || (forall k :: k in multiset(ks) ==> k in Keys(xs) && k in Keys(ys))
    requires forall k :: k in multiset(ks) ==>
               var x, y := Get(xs, k), Get(ys, k);
               Solid(x) && Solid(y) && WellFormed(x) && WellFormed(y) && Abstract(x) == Abstract(y)
    ensures BodyText(ks, xs) == BodyText(ks, ys)
  {
    if ks != [] {
      var front, k := ks[..|ks| - 1], ks[|ks| - 1];
      assert ks == front + [k];
      SameBodyText(front, xs, ys);
      SameText(Get(xs, k), Get(ys, k));
    }
  }

  lemma {:induction false} SameIndex(xs: seq<Entry>, ys: seq<Entry>, k: string)
    requires Keys(xs) == Keys(ys) && k in Keys(xs)
    ensures IndexOf(xs, k) == IndexOf(ys, k)
  {
    assert Keys(xs)[0] == Keys(ys)[0];
    if xs[0].key != k {
      assert Keys(xs[1..]) == Keys(xs)[1..] && Keys(ys[1..]) == Keys(ys)[1..];
      SameIndex(xs[1..], ys[1..], k);
    }
  }

  lemma SameArrayBody(xs: seq<Json>, ys: seq<Json>)
    requires Solid(Arr(xs)) && Solid(Arr(ys)) && WellFormed(Arr(xs)) && WellFormed(Arr(ys))
    requires Abstract(Arr(xs)) == Abstract(Arr(ys))
    ensures SortedBody(Arr(xs)) == SortedBody(Arr(ys))
  {
    SolidItemValues(xs);
    SolidItemValues(ys);
    var px, py := Properties(Arr(xs)), Properties(Arr(ys));
    assert Keys(px) == Keys(py);
    var ks := Sort(Keys(px));
    forall k | k in multiset(ks)
      ensures var a, b := Get(px, k), Get(py, k);
              Solid(a) && Solid(b) && WellFormed(a) && WellFormed(b) && Abstract(a) == Abstract(b)
    {
      assert k in Keys(px);
      SameIndex(px, py, k);
    }
    SameBodyText(ks, px, py);
  }

  lemma SameObjectBody(xs: seq<Entry>, ys: seq<Entry>)
    requires Solid(Obj(xs)) && Solid(Obj(ys)) && WellFormed(Obj(xs)) && WellFormed(Obj(ys))
    requires Abstract(Obj(xs)) == Abstract(Obj(ys))
    ensures SortedBody(Obj(xs)) == SortedBody(Obj(ys))
  {
    assert CleanEntriesOk(xs) && CleanEntriesOk(ys) && AbsFields(xs) == AbsFields(ys);
    SameFieldsBody(xs, ys);
  }

  lemma SameFieldsBody(xs: seq<Entry>, ys: seq<Entry>)
    requires CleanEntriesOk(xs) && CleanEntriesOk(ys) && AbsFields(xs) == AbsFields(ys)
    ensures BodyText(Sort(Keys(xs)), xs) == BodyText(Sort(Keys(ys)), ys)
  {
    SameKeys(xs, ys);
    var ks := Sort(Keys(xs));
    forall k | k in multiset(ks)
      ensures var x, y := Get(xs, k), Get(ys, k);
              Solid(x) && Solid(y) && WellFormed(x) && WellFormed(y) && Abstract(x) == Abstract(y)
    {
      SameField(xs, ys, k);
    }
    SameBodyText(ks, xs, ys);
  }

  lemma SameField(xs: seq<Entry>, ys: seq<Entry>, k: string)
    requires CleanEntriesOk(xs) && CleanEntriesOk(ys) && AbsFields(xs) == AbsFields(ys)
    requires k in Keys(xs) && k in Keys(ys)
    ensures var x, y := Get(xs, k), Get(ys, k);
            Solid(x) && Solid(y) && WellFormed(x) && WellFormed(y) && Abstract(x) == Abstract(y)
  {
    SolidFieldValues(xs);
    SolidFieldValues(ys);
    assert Abstract(Get(xs, k)) == AbsFields(xs)[k] == Abstract(Get(ys, k));
  }

  lemma SameBody(x: Json, y: Json)
    requires Solid(x) && Solid(y) && WellFormed(x) && WellFormed(y)
    requires Abstract(x) == Abstract(y)
    ensures SortedBody(x) == SortedBody(y)
  {
    match x {
      case Arr(items) => SameArrayBody(items, y.items);
      case Obj(entries) => SameObjectBody(entries, y.entries);
      case _ =>
    }
  }

  /** The main result: the signed message depends on the abstract value of the body only. */
  lemma MessageOfValue(login: string, xDate: string, x: Json, y: Json)
    requires WellFormed(x) && WellFormed(y) && Abstract(x) == Abstract(y)
    ensures SignedMessage(login, xDate, x) == SignedMessage(login, xDate, y)
  {
    CleanMeaning(x);
    CleanMeaning(y);
    if Abstract(x) != Absent {
      SameBody(DeepClean(x), DeepClean(y));
    }
  }

  // ── Edits that do not change the value, at any depth ──────────────────────

  lemma {:induction false} FieldOf(entries: seq<Entry>, i: nat)
    requires Distinct(Keys(entries)) && i < |entries|
    ensures var k, a := entries[i].key, Abstract(entries[i].val);
            if a == Absent then k !in AbsFields(entries) else k in AbsFields(entries) && AbsFields(entries)[k] == a
  {
    var n := |entries| - 1;
    var front := entries[..n];
    assert Keys(front) == Keys(entries)[..n];
    if i < n {
      FieldOf(front, i);
      assert Keys(entries)[i] != Keys(entries)[n];
    } else {
      DistinctLast(Keys(entries));
      if entries[n].key in AbsFields(front) {
        FieldsHaveKeys(front, entries[n].key);
      }
    }
  }

  lemma {:induction false} FieldsHaveKeys(entries: seq<Entry>, k: string)
    requires k in AbsFields(entries)
    ensures k in Keys(entries)
  {
    var n := |entries| - 1;
    if entries[n].key == k {
      assert Keys(entries)[n] == k;
    } else {
      FieldsHaveKeys(entries[..n], k);
      var j :| 0 <= j < n && Keys(entries[..n])[j] == k;
      assert Keys(entries)[j] == k;
    }
  }

  /** Reordering the keys of an object. */
  lemma KeyOrderIrrelevant(xs: seq<Entry>, ys: seq<Entry>)
    requires Distinct(Keys(xs)) && Distinct(Keys(ys)) && multiset(xs) == multiset(ys)
    ensures AbsFields(xs) == AbsFields(ys)
  {
    forall k ensures k in AbsFields(xs) ==> k in AbsFields(ys) && AbsFields(ys)[k] == AbsFields(xs)[k] {
      if k in AbsFields(xs) { SharedField(xs, ys, k); }
    }
    forall k ensures k in AbsFields(ys) ==> k in AbsFields(xs) {
      if k in AbsFields(ys) { SharedField(ys, xs, k); }
    }
  }

  lemma SharedField(xs: seq<Entry>, ys: seq<Entry>, k: string)
    requires Distinct(Keys(xs)) && Distinct(Keys(ys)) && multiset(xs) == multiset(ys)
    requires k in AbsFields(xs)
    ensures k in AbsFields(ys) && AbsFields(ys)[k] == AbsFields(xs)[k]
  {
    FieldsHaveKeys(xs, k);
    var i :| 0 <= i < |xs| && Keys(xs)[i] == k;
    FieldOf(xs, i);
    assert xs[i] in multiset(ys);
    var j :| 0 <= j < |ys| && ys[j] == xs[i];
    FieldOf(ys, j);
  }

  /** Inserting a null or undefined entry anywhere in an object. */
  lemma {:induction false} NullEntryIrrelevant(pre: seq<Entry>, k: string, v: Json, post: seq<Entry>)
    requires v.Null? || v.Undefined?
    ensures AbsFields(pre + [Entry(k, v)] + post) == AbsFields(pre + post)
    decreases |post|
  {
    if post == [] {
      assert (pre + [Entry(k, v)] + post)[..|pre|] == pre && pre + post == pre;
    } else {
      var n := |post| - 1;
      NullEntryIrrelevant(pre, k, v, post[..n]);
      assert (pre + [Entry(k, v)] + post)[..|pre| + 1 + n] == pre + [Entry(k, v)] + post[..n];
      assert (pre + post)[..|pre| + n] == pre + post[..n];
    }
  }

  /** Inserting a null or undefined element anywhere in an array. */
  lemma {:induction false} NullItemIrrelevant(pre: seq<Json>, v: Json, post: seq<Json>)
    requires v.Null? || v.Undefined?
    ensures AbsItems(pre + [v] + post) == AbsItems(pre + post)
    decreases |post|
  {
    if post == [] {
      assert (pre + [v] + post)[..|pre|] == pre && pre + post == pre;
    } else {
      var n := |post| - 1;
      NullItemIrrelevant(pre, v, post[..n]);
      assert (pre + [v] + post)[..|pre| + 1 + n] == pre + [v] + post[..n];
      assert (pre + post)[..|pre| + n] == pre + post[..n];
    }
  }

  /** A JSON value with one place left open. */
  datatype Context =
    | Hole
    | InArr(pre: seq<Json>, inner: Context, post: seq<Json>)
    | InObj(front: seq<Entry>, key: string, hole: Context, back: seq<Entry>)

  function Plug(c: Context, v: Json): Json {
    match c
    case Hole => v
    case InArr(pre, inner, post) => Arr(pre + [Plug(inner, v)] + post)
    case InObj(front, key, hole, back) => Obj(front + [Entry(key, Plug(hole, v))] + back)
  }

  lemma {:induction false} ItemCongruence(pre: seq<Json>, x: Json, y: Json, post: seq<Json>)
    requires Abstract(x) == Abstract(y)
    ensures AbsItems(pre + [x] + post) == AbsItems(pre + [y] + post)
    decreases |post|
  {
    if post == [] {
      assert (pre + [x] + post)[..|pre|] == pre == (pre + [y] + post)[..|pre|];
    } else {
      var n := |post| - 1;
      ItemCongruence(pre, x, y, post[..n]);
      assert (pre + [x] + post)[..|pre| + 1 + n] == pre + [x] + post[..n];
      assert (pre + [y] + post)[..|pre| + 1 + n] == pre + [y] + post[..n];
    }
  }

  lemma {:induction false} EntryCongruence(pre: seq<Entry>, k: string, x: Json, y: Json, post: seq<Entry>)
    requires Abstract(x) == Abstract(y)
    ensures AbsFields(pre + [Entry(k, x)] + post) == AbsFields(pre + [Entry(k, y)] + post)
    decreases |post|
  {
    if post == [] {
      assert (pre + [Entry(k, x)] + post)[..|pre|] == pre == (pre + [Entry(k, y)] + post)[..|pre|];
    } else {
      var n := |post| - 1;
      EntryCongruence(pre, k, x, y, post[..n]);
      assert (pre + [Entry(k, x)] + post)[..|pre| + 1 + n] == pre + [Entry(k, x)] + post[..n];
      assert (pre + [Entry(k, y)] + post)[..|pre| + 1 + n] == pre + [Entry(k, y)] + post[..n];
    }
  }

  lemma {:induction false} PlugCongruence(c: Context, x: Json, y: Json)
    requires Abstract(x) == Abstract(y)
    ensures Abstract(Plug(c, x)) == Abstract(Plug(c, y))
  {
    match c
    case Hole =>
    case InArr(pre, inner, post) =>
      PlugCongruence(inner, x, y);
      ItemCongruence(pre, Plug(inner, x), Plug(inner, y), post);
    case InObj(front, key, hole, back) =>
      PlugCongruence(hole, x, y);
      EntryCongruence(front, key, Plug(hole, x), Plug(hole, y), back);
  }

  /** What may be done to a body, at any depth, without changing the signature. */
  datatype Edit =
    | Reorder(xs: seq<Entry>, ys: seq<Entry>)
    | DropEntry(pre: seq<Entry>, key: string, val: Json, post: seq<Entry>)
    | DropItem(before: seq<Json>, item: Json, after: seq<Json>)

  ghost predicate Harmless(e: Edit) {
    match e
    case Reorder(xs, ys) => Distinct(Keys(xs)) && Distinct(Keys(ys)) && multiset(xs) == multiset(ys)
    case DropEntry(_, _, val, _) => val.Null? || val.Undefined?
    case DropItem(_, item, _) => item.Null? || item.Undefined?
  }

  function Before(e: Edit): Json {
    match e
    case Reorder(xs, _) => Obj(xs)
    case DropEntry(pre, key, val, post) => Obj(pre + [Entry(key, val)] + post)
    case DropItem(before, item, after) => Arr(before + [item] + after)
  }

  function After(e: Edit): Json {
    match e
    case Reorder(_, ys) => Obj(ys)
    case DropEntry(pre, _, _, post) => Obj(pre + post)
    case DropItem(before, _, after) => Arr(before + after)
  }

  lemma EditKeepsValue(e: Edit)
    requires Harmless(e)
    ensures Abstract(Before(e)) == Abstract(After(e))
  {
    match e
    case Reorder(xs, ys) => KeyOrderIrrelevant(xs, ys);
    case DropEntry(pre, key, val, post) => NullEntryIrrelevant(pre, key, val, post);
    case DropItem(before, item, after) => NullItemIrrelevant(before, item, after);
  }

  lemma MessageSurvivesEdit(login: string, xDate: string, c: Context, e: Edit)
    requires Harmless(e) && WellFormed(Plug(c, Before(e))) && WellFormed(Plug(c, After(e)))
    ensures SignedMessage(login, xDate, Plug(c, Before(e))) == SignedMessage(login, xDate, Plug(c, After(e)))
  {
    EditKeepsValue(e);
    PlugCongruence(c, Before(e), After(e));
    MessageOfValue(login, xDate, Plug(c, Before(e)), Plug(c, After(e)));
  }
}
