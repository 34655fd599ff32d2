/** Which text is signed: the text of a clean value, piece by piece, without reference to the order in
    which it is put together. */
module CanonicalText {
  import opened KeyOrder
  import opened CanonicalJson
  import opened CanonicalValue

  /** The entries whose key comes before `k`, and those whose key comes after it. */
  function Smaller(entries: seq<Entry>, k: string): seq<Entry> {
    if entries == [] then []
    else
      var n := |entries| - 1;
      Smaller(entries[..n], k) + if Le(entries[n].key, k) && entries[n].key != k then [entries[n]] else []
  }

  function Larger(entries: seq<Entry>, k: string): seq<Entry> {
    if entries == [] then []
    else
      var n := |entries| - 1;
      Larger(entries[..n], k) + if Le(entries[n].key, k) then [] else [entries[n]]
  }

  lemma {:induction false} SplitEntries(entries: seq<Entry>, k: string)
    ensures forall e :: e in Smaller(entries, k) <==> e in entries && Le(e.key, k) && e.key != k
    ensures forall e :: e in Larger(entries, k) <==> e in entries && !Le(e.key, k)
  {
    if entries != [] {
      var n := |entries| - 1;
      SplitEntries(entries[..n], k);
      assert entries == entries[..n] + [entries[n]];
    }
  }

  lemma {:induction false} SplitDistinct(entries: seq<Entry>, k: string)
    requires Distinct(Keys(entries))
    ensures Distinct(Keys(Smaller(entries, k))) && Distinct(Keys(Larger(entries, k)))
  {
    if entries != [] {
      var n := |entries| - 1;
      var front, e := entries[..n], entries[n];
      KeysSnoc(entries);
      SplitDistinct(front, k);
      SplitEntries(front, k);
      SnocDistinct(Smaller(front, k), front, e);
      SnocDistinct(Larger(front, k), front, e);
      assert Smaller(entries, k) == Smaller(front, k) || Smaller(entries, k) == Smaller(front, k) + [e];
      assert Larger(entries, k) == Larger(front, k) || Larger(entries, k) == Larger(front, k) + [e];
    }
  }

  lemma SnocDistinct(part: seq<Entry>, front: seq<Entry>, e: Entry)
    requires Distinct(Keys(part)) && Distinct(Keys(front) + [e.key])
    requires forall x :: x in part ==> x in front
    ensures Distinct(Keys(part + [e]))
  {
    assert Keys(part + [e]) == Keys(part) + [e.key];
    forall i | 0 <= i < |part| ensures Keys(part)[i] != e.key {
      assert part[i] in front;
      var j :| 0 <= j < |front| && front[j] == part[i];
      assert (Keys(front) + [e.key])[j] != (Keys(front) + [e.key])[|front|];
    }
  }

  lemma KeyIn(entries: seq<Entry>, k: string)
    ensures k in Keys(entries) <==> exists e :: e in entries && e.key == k
  {
    if k in Keys(entries) {
      var i :| 0 <= i < |entries| && Keys(entries)[i] == k;
      assert entries[i] in entries;
    }
    if e :| e in entries && e.key == k {
      var i :| 0 <= i < |entries| && entries[i] == e;
      assert Keys(entries)[i] == k;
    }
  }

  /** `v[k]` is the value of the one entry with that key. */
  lemma GetEntry(entries: seq<Entry>, e: Entry)
    requires Distinct(Keys(entries)) && e in entries
    ensures e.key in Keys(entries) && Get(entries, e.key) == e.val && entries[IndexOf(entries, e.key)] == e
  {
    KeyIn(entries, e.key);
    var i :| 0 <= i < |entries| && entries[i] == e;
    var j := IndexOf(entries, e.key);
    assert Keys(entries)[i] == Keys(entries)[j];
  }

  lemma SplitKeyIn(entries: seq<Entry>, k: string, x: string)
    ensures x in Keys(Smaller(entries, k)) <==> x in Keys(entries) && Le(x, k) && x != k
    ensures x in Keys(Larger(entries, k)) <==> x in Keys(entries) && !Le(x, k)
  {
    SplitEntries(entries, k);
    KeyIn(entries, x);
    KeyIn(Smaller(entries, k), x);
    KeyIn(Larger(entries, k), x);
  }

  /** Sorting puts the smaller keys first, then the key, then the larger ones. */
  lemma SortAround(entries: seq<Entry>, k: string)
    requires Distinct(Keys(entries)) && k in Keys(entries)
    ensures Sort(Keys(entries)) == Sort(Keys(Smaller(entries, k))) + [k] + Sort(Keys(Larger(entries, k)))
  {
    var low, high := Sort(Keys(Smaller(entries, k))), Sort(Keys(Larger(entries, k)));
    SameMultiset(entries, k, low, high);
    SortedAround(entries, k);
    SortedUnique(Sort(Keys(entries)), low + [k] + high);
  }

  lemma SameMultiset(entries: seq<Entry>, k: string, low: seq<string>, high: seq<string>)
    requires Distinct(Keys(entries)) && k in Keys(entries)
    requires multiset(low) == multiset(Keys(Smaller(entries, k))) && multiset(high) == multiset(Keys(Larger(entries, k)))
    ensures multiset(low + [k] + high) == multiset(Keys(entries))
  {
    assert multiset(low + [k] + high) == multiset(low) + multiset{k} + multiset(high);
    forall x ensures multiset(Keys(entries))[x] == (multiset(low) + multiset{k} + multiset(high))[x] {
      CountAround(entries, k, x);
    }
  }

  lemma CountAround(entries: seq<Entry>, k: string, x: string)
    requires Distinct(Keys(entries)) && k in Keys(entries)
    ensures multiset(Keys(entries))[x] ==
              multiset(Keys(Smaller(entries, k)))[x] + (if x == k then 1 else 0) + multiset(Keys(Larger(entries, k)))[x]
  {
    SplitDistinct(entries, k);
    SplitKeyIn(entries, k, x);
    DistinctCount(Keys(entries), x);
    DistinctCount(Keys(Smaller(entries, k)), x);
    DistinctCount(Keys(Larger(entries, k)), x);
    LeTotal(k, k);
  }

  lemma SortedAround(entries: seq<Entry>, k: string)
    ensures Sorted(Sort(Keys(Smaller(entries, k))) + [k] + Sort(Keys(Larger(entries, k))))
  {
    var low, high := Sort(Keys(Smaller(entries, k))), Sort(Keys(Larger(entries, k)));
    forall i | 0 <= i < |low| ensures Le(low[i], k) {
      assert low[i] in multiset(low);
      SplitKeyIn(entries, k, low[i]);
    }
    forall j | 0 <= j < |high| ensures Le(k, high[j]) {
      assert high[j] in multiset(high);
      SplitKeyIn(entries, k, high[j]);
      LeTotal(k, high[j]);
    }
    SortedThree(low, k, high);
  }

  lemma SortedThree(low: seq<string>, k: string, high: seq<string>)
    requires Sorted(low) && Sorted(high)
    requires forall i :: 0 <= i < |low| ==> Le(low[i], k)
    requires forall j :: 0 <= j < |high| ==> Le(k, high[j])
    ensures Sorted(low + [k] + high)
  {
    SortedConcat(low, [k]);
    forall i, j | 0 <= i < |low + [k]| && 0 <= j < |high| ensures Le((low + [k])[i], high[j]) {
      if i < |low| {
        LeTransitive(low[i], k, high[j]);
      }
    }
    SortedConcat(low + [k], high);
  }

  lemma SortedConcat(a: seq<string>, b: seq<string>)
    requires Sorted(a) && Sorted(b) && forall i, j :: 0 <= i < |a| && 0 <= j < |b| ==> Le(a[i], b[j])
    ensures Sorted(a + b)
  {
    var c := a + b;
    forall i, j | 0 <= i < j < |c| ensures Le(c[i], c[j]) {
      assert i < |a| ==> c[i] == a[i];
      assert i >= |a| ==> c[i] == b[i - |a|];
      assert j < |a| ==> c[j] == a[j];
      assert j >= |a| ==> c[j] == b[j - |a|];
    }
  }

  // ── The body ──────────────────────────────────────────────────────────────

  lemma {:induction false} BodySplit(a: seq<string>, b: seq<string>, entries: seq<Entry>)
    ensures BodyText(a + b, entries) == BodyText(a, entries) + BodyText(b, entries)
  {
    if b == [] {
      assert a + b == a && BodyText(b, entries) == "";
    } else {
      var front, k := b[..|b| - 1], b[|b| - 1];
      assert front + [k] == b;
      BodySplit(a, front, entries);
      BodySplitStep(a, front, k, entries);
    }
  }

  lemma BodySplitStep(a: seq<string>, front: seq<string>, k: string, entries: seq<Entry>)
    requires BodyText(a + front, entries) == BodyText(a, entries) + BodyText(front, entries)
    ensures BodyText(a + (front + [k]), entries) == BodyText(a, entries) + BodyText(front + [k], entries)
  {
    BodySnoc(a + front, k, entries);
    BodySnoc(front, k, entries);
    assert a + (front + [k]) == a + front + [k];
    Assoc(BodyText(a, entries), BodyText(front, entries), FieldText(entries, k));
  }

  lemma BodySnoc(ks: seq<string>, k: string, entries: seq<Entry>)
    ensures BodyText(ks + [k], entries) == BodyText(ks, entries) + FieldText(entries, k)
  {
    assert (ks + [k])[..|ks|] == ks;
  }

  lemma Assoc(a: string, b: string, c: string)
    ensures (a + b) + c == a + (b + c)
  {
  }

  lemma {:induction false} BodyOfPart(ks: seq<string>, entries: seq<Entry>, part: seq<Entry>)
    requires forall k :: k in multiset(ks) ==> Get(entries, k) == Get(part, k)
    ensures BodyText(ks, entries) == BodyText(ks, part)
  {
    if ks != [] {
      assert ks == ks[..|ks| - 1] + [ks[|ks| - 1]];
      BodyOfPart(ks[..|ks| - 1], entries, part);
    }
  }

  /** A part of the entries answers for its own keys as the whole does. */
  lemma GetOfPart(entries: seq<Entry>, part: seq<Entry>, k: string)
    requires Distinct(Keys(entries)) && Distinct(Keys(part)) && (forall e :: e in part ==> e in entries)
    requires k in Keys(part)
    ensures k in Keys(entries) && Get(entries, k) == Get(part, k)
    ensures entries[IndexOf(entries, k)] == part[IndexOf(part, k)]
  {
    KeyIn(part, k);
    var e :| e in part && e.key == k;
    GetEntry(part, e);
    GetEntry(entries, e);
  }

  /** A value of the body itself: strings bare, objects and arrays as nested text. */
  function InBody(v: Json): string {
    match v
    case Str(s) => s
    case Num(text) => text
    case Bool(b) => if b then "true" else "false"
    case _ => StableStringify(v)
  }

  /** A value inside a nested object: strings in quotes. */
  function InObject(v: Json): string {
    match v
    case Str(s) => "\"" + s + "\""
    case _ => InBody(v)
  }

  /** The main result on the body: around every key stand its own text, the text of the smaller keys
      alone before it, and that of the larger keys alone after it. */
  lemma BodyAround(entries: seq<Entry>, e: Entry)
    requires CleanEntriesOk(entries) && e in entries
    ensures SortedBody(Obj(entries)) ==
              SortedBody(Obj(Smaller(entries, e.key))) + (e.key + InBody(e.val)) + SortedBody(Obj(Larger(entries, e.key)))
  {
    BodyParts(entries, e.key, e);
    PartBodies(entries, e.key);
    EntrySolid(entries, e);
    OneField(e.key, entries, e);
  }

  lemma BodyParts(entries: seq<Entry>, k: string, e: Entry)
    requires Distinct(Keys(entries)) && e in entries && e.key == k
    ensures Get(entries, k) == e.val
    ensures SortedBody(Obj(entries)) ==
              BodyText(Sort(Keys(Smaller(entries, k))), entries) + BodyText([k], entries)
              + BodyText(Sort(Keys(Larger(entries, k))), entries)
  {
    GetEntry(entries, e);
    SortAround(entries, k);
    BodyOfSorted(entries, Sort(Keys(Smaller(entries, k))), k, Sort(Keys(Larger(entries, k))));
  }

  lemma BodyOfSorted(entries: seq<Entry>, a: seq<string>, k: string, b: seq<string>)
    requires Sort(Keys(entries)) == a + [k] + b
    ensures SortedBody(Obj(entries)) == BodyText(a, entries) + BodyText([k], entries) + BodyText(b, entries)
  {
    BodyThree(a, k, b, entries);
  }

  lemma EntrySolid(entries: seq<Entry>, e: Entry)
    requires CleanEntriesOk(entries) && e in entries
    ensures Solid(e.val)
  {
  }

  lemma PartBodies(entries: seq<Entry>, k: string)
    requires Distinct(Keys(entries))
    ensures BodyText(Sort(Keys(Smaller(entries, k))), entries) == SortedBody(Obj(Smaller(entries, k)))
    ensures BodyText(Sort(Keys(Larger(entries, k))), entries) == SortedBody(Obj(Larger(entries, k)))
  {
    SplitDistinct(entries, k);
    SplitEntries(entries, k);
    PartBody(entries, Smaller(entries, k));
    PartBody(entries, Larger(entries, k));
  }

  lemma BodyThree(a: seq<string>, k: string, b: seq<string>, entries: seq<Entry>)
    ensures BodyText(a + [k] + b, entries) == BodyText(a, entries) + BodyText([k], entries) + BodyText(b, entries)
  {
    BodySplit(a + [k], b, entries);
    BodySplit(a, [k], entries);
  }

  lemma OneField(k: string, entries: seq<Entry>, e: Entry)
    requires Get(entries, k) == e.val && Solid(e.val)
    ensures BodyText([k], entries) == k + InBody(e.val)
  {
    assert [k][..0] == [] && BodyText([], entries) == "";
  }

  lemma PartBody(entries: seq<Entry>, part: seq<Entry>)
    requires Distinct(Keys(entries)) && Distinct(Keys(part)) && (forall e :: e in part ==> e in entries)
    ensures BodyText(Sort(Keys(part)), entries) == SortedBody(Obj(part))
  {
    forall k | k in multiset(Sort(Keys(part))) ensures Get(entries, k) == Get(part, k) {
      GetOfPart(entries, part, k);
    }
    BodyOfPart(Sort(Keys(part)), entries, part);
  }

  /** The empty body, and a body of one field. */
  lemma SmallBodies(e: Entry)
    requires Solid(e.val)
    ensures SortedBody(Obj([])) == "" && SortedBody(Null) == ""
    ensures SortedBody(Obj([e])) == e.key + InBody(e.val)
  {
    assert Keys([e]) == [e.key];
    assert Sort([e.key]) == [e.key] by {
      assert |multiset(Sort([e.key]))| == 1;
      assert Sort([e.key])[0] in multiset([e.key]);
    }
    GetEntry([e], e);
    OneField(e.key, [e], e);
  }

  /** A body that is an array has its indices, in decimal, as keys. */
  lemma ArrayBody(items: seq<Json>, i: nat)
    requires i < |items|
    ensures var entries := Properties(Arr(items));
            SortedBody(Arr(items)) == SortedBody(Obj(entries)) && entries[i] == Entry(Decimal(i), items[i])
  {
  }

  lemma DecimalText(i: nat)
    ensures i < 10 ==> Decimal(i) == [('0' as int + i) as char]
    ensures i >= 10 ==> Decimal(i) == Decimal(i / 10) + Decimal(i % 10)
  {
  }

  // ── Nested values ─────────────────────────────────────────────────────────

  /** A text without its first and last character. */
  function Inner(text: string): string {
    if |text| < 2 then "" else text[1..|text| - 1]
  }

  ghost predicate Known(ks: seq<string>, entries: seq<Entry>) {
    forall k :: k in multiset(ks) ==> k in Keys(entries)
  }

  lemma JoinSnoc(ks: seq<string>, k: string, entries: seq<Entry>)
    requires Known(ks, entries) && Known(ks + [k], entries) && k in Keys(entries)
    ensures JoinEntries(ks + [k], entries) ==
              JoinEntries(ks, entries) + (if ks == [] then "" else ", ") + PairText(entries, k)
  {
    assert (ks + [k])[..|ks|] == ks;
  }

  lemma KnownParts(a: seq<string>, b: seq<string>, entries: seq<Entry>)
    ensures Known(a + b, entries) <==> Known(a, entries) && Known(b, entries)
  {
    assert multiset(a + b) == multiset(a) + multiset(b);
  }

  lemma {:induction false} JoinSplit(a: seq<string>, b: seq<string>, entries: seq<Entry>)
    requires Known(a + b, entries) && Known(a, entries) && Known(b, entries)
    ensures JoinEntries(a + b, entries) ==
              JoinEntries(a, entries) + (if a == [] || b == [] then "" else ", ") + JoinEntries(b, entries)
    decreases |b|
  {
    if b == [] {
      assert a + b == a;
    } else {
      var front, k := b[..|b| - 1], b[|b| - 1];
      assert b == front + [k] && a + b == a + front + [k];
      KnownParts(front, [k], entries);
      KnownParts(a, front, entries);
      assert k in multiset([k]);
      JoinSplit(a, front, entries);
      JoinSnoc(a + front, k, entries);
      JoinSnoc(front, k, entries);
      JoinStrings(a == [], front == [], JoinEntries(a, entries), JoinEntries(front, entries), PairText(entries, k));
    }
  }

  lemma JoinStrings(noA: bool, noB: bool, a: string, b: string, pair: string)
    requires (noA ==> a == "") && (noB ==> b == "")
    ensures a + (if noA || noB then "" else ", ") + b + (if noA && noB then "" else ", ") + pair
            == a + (if noA then "" else ", ") + (b + (if noB then "" else ", ") + pair)
  {
  }

  lemma {:induction false} JoinOfPart(ks: seq<string>, entries: seq<Entry>, part: seq<Entry>)
    requires forall k :: k in multiset(ks) ==>
               k in Keys(entries) && k in Keys(part) && entries[IndexOf(entries, k)] == part[IndexOf(part, k)]
    ensures JoinEntries(ks, entries) == JoinEntries(ks, part)
    decreases |ks|
  {
    if ks != [] {
      var front, k := ks[..|ks| - 1], ks[|ks| - 1];
      assert ks == front + [k];
      JoinOfPart(front, entries, part);
      assert EntryText(entries, k) == EntryText(part, k);
      JoinSnoc(front, k, entries);
      JoinSnoc(front, k, part);
    }
  }

  lemma PartJoin(entries: seq<Entry>, part: seq<Entry>)
    requires Distinct(Keys(entries)) && Distinct(Keys(part)) && (forall e :: e in part ==> e in entries)
    ensures Known(Sort(Keys(part)), part) && Known(Sort(Keys(part)), entries)
    ensures JoinEntries(Sort(Keys(part)), entries) == Inner(StableStringify(Obj(part)))
    ensures part == [] <==> Sort(Keys(part)) == []
  {
    var ks := Sort(Keys(part));
    forall k | k in multiset(ks)
      ensures k in Keys(entries) && k in Keys(part) && entries[IndexOf(entries, k)] == part[IndexOf(part, k)]
    {
      GetOfPart(entries, part, k);
    }
    JoinOfPart(ks, entries, part);
    assert StableStringify(Obj(part)) == "{" + JoinEntries(ks, part) + "}";
    assert |multiset(ks)| == |ks| && |multiset(Keys(part))| == |part|;
  }

  /** An object inside the body: braces, its entries separated by ", ", each as ":key=>value" with strings
      quoted as they are; again around every key. */
  lemma ObjectAround(entries: seq<Entry>, e: Entry)
    requires CleanEntriesOk(entries) && e in entries
    ensures var low, high := Smaller(entries, e.key), Larger(entries, e.key);
            StableStringify(Obj(entries)) ==
              "{" + ((if low == [] then "" else Inner(StableStringify(Obj(low))) + ", ")
                     + (":" + e.key + "=>" + InObject(e.val))
                     + (if high == [] then "" else ", " + Inner(StableStringify(Obj(high))))) + "}"
  {
    GetEntry(entries, e);
    PartJoins(entries, e.key);
    ObjectParts(entries, e.key);
    EntrySolid(entries, e);
    OneEntry(e.key, entries, e);
  }

  lemma ObjectParts(entries: seq<Entry>, k: string)
    requires Distinct(Keys(entries)) && k in Keys(entries)
    requires Known(Sort(Keys(Smaller(entries, k))), entries) && Known(Sort(Keys(Larger(entries, k))), entries)
    ensures var a, b := Sort(Keys(Smaller(entries, k))), Sort(Keys(Larger(entries, k)));
            StableStringify(Obj(entries)) ==
              "{" + ((if a == [] then "" else JoinEntries(a, entries) + ", ") + PairText(entries, k)
                     + (if b == [] then "" else ", " + JoinEntries(b, entries))) + "}"
  {
    SortAround(entries, k);
    ObjectOfSorted(entries, Sort(Keys(Smaller(entries, k))), k, Sort(Keys(Larger(entries, k))));
  }

  lemma ObjectOfSorted(entries: seq<Entry>, a: seq<string>, k: string, b: seq<string>)
    requires Sort(Keys(entries)) == a + [k] + b && Known(a, entries) && Known(b, entries) && k in Keys(entries)
    ensures StableStringify(Obj(entries)) ==
              "{" + ((if a == [] then "" else JoinEntries(a, entries) + ", ") + PairText(entries, k)
                     + (if b == [] then "" else ", " + JoinEntries(b, entries))) + "}"
  {
    JoinAround(a, k, b, entries);
  }

  lemma PartJoins(entries: seq<Entry>, k: string)
    requires Distinct(Keys(entries))
    ensures var low, high := Smaller(entries, k), Larger(entries, k);
            && Known(Sort(Keys(low)), entries) && Known(Sort(Keys(high)), entries)
            && JoinEntries(Sort(Keys(low)), entries) == Inner(StableStringify(Obj(low)))
            && JoinEntries(Sort(Keys(high)), entries) == Inner(StableStringify(Obj(high)))
            && (low == [] <==> Sort(Keys(low)) == []) && (high == [] <==> Sort(Keys(high)) == [])
  {
    SplitDistinct(entries, k);
    SplitEntries(entries, k);
    PartJoin(entries, Smaller(entries, k));
    PartJoin(entries, Larger(entries, k));
  }

  lemma JoinAround(a: seq<string>, k: string, b: seq<string>, entries: seq<Entry>)
    requires Known(a, entries) && Known(b, entries) && k in Keys(entries)
    ensures Known(a + [k] + b, entries)
    ensures JoinEntries(a + [k] + b, entries) ==
              (if a == [] then "" else JoinEntries(a, entries) + ", ") + PairText(entries, k)
              + (if b == [] then "" else ", " + JoinEntries(b, entries))
  {
    assert Known([k], entries);
    KnownParts(a, [k], entries);
    KnownParts(a + [k], b, entries);
    JoinSplit(a + [k], b, entries);
    JoinSnoc(a, k, entries);
  }

  lemma OneEntry(k: string, entries: seq<Entry>, e: Entry)
    requires k in Keys(entries) && entries[IndexOf(entries, k)] == e && Solid(e.val)
    ensures PairText(entries, k) == ":" + k + "=>" + InObject(e.val)
  {
  }

  /** An array inside the body: brackets, its elements separated by ",". */
  lemma ArrayText(items: seq<Json>, last: Json)
    ensures StableStringify(Arr([])) == "[]" && StableStringify(Obj([])) == "{}"
    ensures StableStringify(Arr(items + [last])) ==
              "[" + (if items == [] then "" else Inner(StableStringify(Arr(items))) + ",") + StableStringify(last) + "]"
  {
    assert (items + [last])[..|items|] == items;
    assert StableStringify(Arr(items)) == "[" + JoinItems(items) + "]";
  }

  /** Scalars in an array are written as JSON: a string in quotes, with quotes and backslashes escaped and
      other printable characters as they are. */
  lemma ScalarText(s: string, n: string)
    ensures StableStringify(Num(n)) == n
    ensures StableStringify(Bool(true)) == "true" && StableStringify(Bool(false)) == "false"
    ensures StableStringify(Str(s)) == "\"" + QuoteChars(s) + "\""
    ensures QuoteChars(s + "\"") == QuoteChars(s) + "\\\"" && QuoteChars(s + "\\") == QuoteChars(s) + "\\\\"
    ensures QuoteChars(s + "\n") == QuoteChars(s) + "\\n"
  {
    assert forall c: char :: (s + [c])[..|s|] == s;
  }

  lemma {:induction false} PrintableUnchanged(s: string)
    requires forall i :: 0 <= i < |s| ==> s[i] >= ' ' && s[i] != '"' && s[i] != '\\'
    ensures QuoteChars(s) == s
  {
    if s != "" {
      var front, c := s[..|s| - 1], s[|s| - 1];
      PrintableUnchanged(front);
      PrintableChar(c);
      assert s == front + [c];
    }
  }

  lemma PrintableChar(c: char)
    requires c >= ' ' && c != '"' && c != '\\'
    ensures QuoteChar(c) == [c]
  {
  }

  /** A control character becomes an escape: its letter for the five that have one, its two hex digits
      for the others. */
  lemma ControlText(c: char)
    requires c < ' '
    ensures c == '\r' ==> QuoteChar(c) == "\\r"
    ensures c == '\t' ==> QuoteChar(c) == "\\t"
    ensures c == '\U{8}' ==> QuoteChar(c) == "\\b"
    ensures c == '\U{C}' ==> QuoteChar(c) == "\\f"
    ensures c !in "\r\t\n\U{8}\U{C}" ==>
              && |QuoteChar(c)| == 6 && QuoteChar(c)[..4] == "\\u00"
              && QuoteChar(c)[4] == (if c < '\U{10}' then '0' else '1')
              && HexValue(QuoteChar(c)[5]) == c as int % 16
  {
  }

  function HexValue(d: char): int {
    if '0' <= d <= '9' then d as int - '0' as int
    else if 'a' <= d <= 'f' then d as int - 'a' as int + 10
    else -1
  }

  /** The message is the login, the date and the body of the cleaned object, in this order. */
  lemma MessageText(login: string, xDate: string, entries: seq<Entry>)
    ensures SignedMessage(login, xDate, Obj(entries)) == login + xDate + SortedBody(DeepClean(Obj(entries)))
    ensures SignedMessage(login, xDate, Null) == login + xDate && SignedMessage(login, xDate, Undefined) == login + xDate
  {
  }
}
