/** The middleware that renames Mongo operator keys of a request, in place and at every depth. */
module KeySanitizer {
  import opened Options

  /** One own property; objects list them in insertion order, arrays under their indices. */
  datatype Prop<V> = Prop(key: string, val: V)

  predicate Bad(k: string) {
    (k != "" && k[0] == '$') || '.' in k
  }

  /** `key.replace(/[$.]/g, '_')`. */
  function SafeKey(k: string): (r: string)
    ensures |r| == |k| && '$' !in r && '.' !in r
  {
    if k == "" then ""
    else SafeKey(k[..|k| - 1]) + [if k[|k| - 1] == '$' || k[|k| - 1] == '.' then '_' else k[|k| - 1]]
  }

  lemma SafeIsNotBad(k: string)
    ensures !Bad(SafeKey(k))
  {
    var r := SafeKey(k);
    assert r != "" ==> r[0] in r;
  }

  /** Which keys are renamed, and to what: every dollar sign and every dot becomes an underscore. */
  lemma {:induction false} SafeKeyChars(k: string, i: nat)
    requires i < |k|
    ensures SafeKey(k)[i] == if k[i] == '$' || k[i] == '.' then '_' else k[i]
  {
    if i < |k| - 1 {
      SafeKeyChars(k[..|k| - 1], i);
    }
  }

  lemma BadKeys(k: string)
    ensures Bad(k) <==> ['$'] <= k || exists i :: 0 <= i < |k| && k[i] == '.'
  {
  }

  function Keys<V>(ps: seq<Prop<V>>): seq<string> {
    seq(|ps|, i requires 0 <= i < |ps| => ps[i].key)
  }

  ghost predicate DistinctKeys<V>(ps: seq<Prop<V>>) {
    forall i, j :: 0 <= i < j < |ps| ==> ps[i].key != ps[j].key
  }

  function Find<V>(ps: seq<Prop<V>>, k: string): (r: Option<nat>)
    ensures match r
            case Some(i) => i < |ps| && ps[i].key == k
            case None => forall i :: 0 <= i < |ps| ==> ps[i].key != k
  {
    if ps == [] then None
    else if ps[|ps| - 1].key == k then Some(|ps| - 1)
    else Find(ps[..|ps| - 1], k)
  }

  function Delete<V>(ps: seq<Prop<V>>, i: nat): seq<Prop<V>>
    requires i < |ps|
  {
    ps[..i] + ps[i + 1..]
  }

  /** `obj[k] = v`: an existing property keeps its place, a new one goes last. */
  function Assign<V>(ps: seq<Prop<V>>, k: string, v: V): seq<Prop<V>> {
    match Find(ps, k)
    case Some(i) => ps[i := Prop(k, v)]
    case None => ps + [Prop(k, v)]
  }

  function RenameKey<V>(ps: seq<Prop<V>>, k: string): seq<Prop<V>> {
    match Find(ps, k)
    case Some(i) => if Bad(k) then Assign(Delete(ps, i), SafeKey(k), ps[i].val) else ps
    case None => ps
  }

  function RenameAll<V>(ps: seq<Prop<V>>, ks: seq<string>): seq<Prop<V>> {
    if ks == [] then ps else RenameKey(RenameAll(ps, ks[..|ks| - 1]), ks[|ks| - 1])
  }

  // ── The value the request carries ─────────────────────────────────────────

  datatype Tree = Leaf(text: string) | Node(props: seq<Prop<Tree>>)

  function Sanitized(t: Tree): Tree
    decreases t
  {
    match t
    case Leaf(_) => t
    case Node(props) => Node(RenameAll(SanitizedVals(props), Keys(props)))
  }

  function SanitizedVals(ps: seq<Prop<Tree>>): (r: seq<Prop<Tree>>)
    ensures |r| == |ps|
    ensures forall i :: 0 <= i < |ps| ==> r[i] == Prop(ps[i].key, Sanitized(ps[i].val))
    decreases ps
  {
    if ps == [] then []
    else SanitizedVals(ps[..|ps| - 1]) + [Prop(ps[|ps| - 1].key, Sanitized(ps[|ps| - 1].val))]
  }

  // ── One object ────────────────────────────────────────────────────────────

  lemma DeleteFacts<V>(ps: seq<Prop<V>>, i: nat)
    requires DistinctKeys(ps) && i < |ps|
    ensures DistinctKeys(Delete(ps, i))
    ensures forall k :: Has(Delete(ps, i), k) <==> Has(ps, k) && k != ps[i].key
    ensures forall k :: Has(Delete(ps, i), k) ==> At(Delete(ps, i), k) == At(ps, k)
  {
    var d := Delete(ps, i);
    forall j | 0 <= j < |d| ensures d[j] == if j < i then ps[j] else ps[j + 1] {
    }
    forall k ensures Has(d, k) <==> Has(ps, k) && k != ps[i].key {
      if Has(ps, k) && k != ps[i].key {
        var j :| 0 <= j < |ps| && ps[j].key == k;
        assert d[if j < i then j else j - 1] == ps[j];
      }
    }
    forall k | Has(d, k) ensures At(d, k) == At(ps, k) {
      var j := Find(d, k).value;
      assert d[j] == ps[if j < i then j else j + 1];
    }
  }

  predicate Has<V>(ps: seq<Prop<V>>, k: string) {
    exists i :: 0 <= i < |ps| && ps[i].key == k
  }

  function At<V>(ps: seq<Prop<V>>, k: string): V
    requires Has(ps, k)
  {
    ps[Find(ps, k).value].val
  }

  lemma AssignFacts<V>(ps: seq<Prop<V>>, k: string, v: V)
    requires DistinctKeys(ps)
    ensures var a := Assign(ps, k, v);
            && DistinctKeys(a)
            && (forall j :: Has(a, j) <==> Has(ps, j) || j == k)
            && (forall j :: Has(a, j) ==> At(a, j) == if j == k then v else At(ps, j))
  {
    var a := Assign(ps, k, v);
    match Find(ps, k) {
      case Some(i) =>
        forall j ensures Has(a, j) <==> Has(ps, j) || j == k {
          if Has(ps, j) { assert a[Find(ps, j).value].key == j; }
          if Has(a, j) { assert ps[Find(a, j).value].key == j; }
        }
      case None =>
        assert a[|ps|] == Prop(k, v);
        forall j ensures Has(a, j) <==> Has(ps, j) || j == k {
          if Has(ps, j) { assert a[Find(ps, j).value].key == j; }
        }
    }
  }

  lemma RenameKeyFacts<V>(ps: seq<Prop<V>>, k: string)
    requires DistinctKeys(ps) && Bad(k) && Has(ps, k)
    ensures var r := RenameKey(ps, k);
            && DistinctKeys(r)
            && (forall j :: Has(r, j) <==> (Has(ps, j) && j != k) || j == SafeKey(k))
            && (forall j :: Has(r, j) ==> At(r, j) == if j == SafeKey(k) then At(ps, k) else At(ps, j))
  {
    var i := Find(ps, k).value;
    SafeIsNotBad(k);
    DeleteFacts(ps, i);
    AssignFacts(Delete(ps, i), SafeKey(k), ps[i].val);
  }

  /** The last operator key, in the object's own order, that is renamed to `k`. */
  function LastRenamed<V>(ps: seq<Prop<V>>, k: string): Option<V> {
    if ps == [] then None
    else if Bad(ps[|ps| - 1].key) && SafeKey(ps[|ps| - 1].key) == k then Some(ps[|ps| - 1].val)
    else LastRenamed(ps[..|ps| - 1], k)
  }

  /** What the object holds after its first `n` keys have been visited: operator keys visited
      are gone, and a safe key holds the last value renamed to it or else its own. */
  ghost predicate Renamed<V>(ps: seq<Prop<V>>, n: nat, r: seq<Prop<V>>)
    requires n <= |ps|
  {
    DistinctKeys(r) && forall k :: RenamedAt(ps, n, r, k)
  }

  ghost predicate RenamedAt<V>(ps: seq<Prop<V>>, n: nat, r: seq<Prop<V>>, k: string)
    requires n <= |ps|
  {
    if Bad(k) then
      && (Has(r, k) <==> Has(ps[n..], k))
      && (Has(r, k) ==> Has(ps, k) && At(r, k) == At(ps, k))
    else
      var last := LastRenamed(ps[..n], k);
      && (Has(r, k) <==> last.Some? || Has(ps, k))
      && (Has(r, k) ==> At(r, k) == if last.Some? then last.value else At(ps, k))
  }

  lemma {:induction false} RenamePrefix<V>(ps: seq<Prop<V>>, n: nat)
    requires DistinctKeys(ps) && n <= |ps|
    ensures Renamed(ps, n, RenameAll(ps, Keys(ps)[..n]))
  {
    if n == 0 {
      assert ps[0..] == ps && Keys(ps)[..0] == [];
    } else {
      var ks := Keys(ps)[..n];
      var k := ps[n - 1].key;
      var before := RenameAll(ps, ks[..n - 1]);
      assert ks[..n - 1] == Keys(ps)[..n - 1] && ks[n - 1] == k;
      RenamePrefix(ps, n - 1);
      RenameStep(ps, n, before);
    }
  }

  lemma TailHas<V>(ps: seq<Prop<V>>, n: nat, k: string)
    requires DistinctKeys(ps) && 0 < n <= |ps|
    ensures Has(ps[n - 1..], k) <==> k == ps[n - 1].key || Has(ps[n..], k)
    ensures Has(ps[n..], ps[n - 1].key) ==> false
  {
    if Has(ps[n..], k) {
      var i :| 0 <= i < |ps| - n && ps[n..][i].key == k;
      assert ps[n - 1..][i + 1].key == k;
    }
    if k == ps[n - 1].key {
      assert ps[n - 1..][0].key == k;
    }
    if Has(ps[n - 1..], k) && k != ps[n - 1].key {
      var i :| 0 <= i < |ps| - n + 1 && ps[n - 1..][i].key == k;
      assert ps[n..][i - 1].key == k;
    }
  }

  lemma RenameStep<V>(ps: seq<Prop<V>>, n: nat, before: seq<Prop<V>>)
    requires DistinctKeys(ps) && 0 < n <= |ps| && Renamed(ps, n - 1, before)
    ensures Renamed(ps, n, RenameKey(before, ps[n - 1].key))
  {
    var k := ps[n - 1].key;
    var after := RenameKey(before, k);
    assert ps[..n][..n - 1] == ps[..n - 1] && ps[..n][n - 1] == ps[n - 1];
    TailHas(ps, n, k);
    assert RenamedAt(ps, n - 1, before, k);
    if Bad(k) {
      SafeIsNotBad(k);
      assert Has(ps, k) && At(ps, k) == ps[n - 1].val by {
        assert ps[Find(ps, k).value].key == ps[n - 1].key;
      }
      RenameKeyFacts(before, k);
    }
    forall j ensures RenamedAt(ps, n, after, j) {
      assert RenamedAt(ps, n - 1, before, j);
      TailHas(ps, n, j);
    }
  }

  // ── Whole values ──────────────────────────────────────────────────────────

  ghost predicate Proper(t: Tree)
    decreases t
  {
    t.Node? ==> DistinctKeys(t.props) && forall i :: 0 <= i < |t.props| ==> Proper(t.props[i].val)
  }

  /** No key at any depth starts with '$' or contains '.'. */
  ghost predicate Clean(t: Tree)
    decreases t
  {
    t.Node? ==> forall i :: 0 <= i < |t.props| ==> !Bad(t.props[i].key) && Clean(t.props[i].val)
  }

  function NewKey(k: string): string {
    if Bad(k) then SafeKey(k) else k
  }

  /** Property `i` is the one that ends up under `k`: the last operator key renamed to it, or the
      key that was there when none is. */
  ghost predicate Wins<V>(ps: seq<Prop<V>>, i: nat, k: string) {
    && i < |ps| && NewKey(ps[i].key) == k
    && (forall j :: 0 <= j < |ps| && j != i && NewKey(ps[j].key) == k ==>
          Bad(ps[i].key) && (Bad(ps[j].key) ==> j < i))
  }

  lemma {:induction false} LastRenamedFacts<V>(ps: seq<Prop<V>>, k: string) returns (i: int)
    ensures match LastRenamed(ps, k)
            case Some(v) =>
              && 0 <= i < |ps| && Bad(ps[i].key) && SafeKey(ps[i].key) == k && ps[i].val == v
              && (forall j :: i < j < |ps| ==> !(Bad(ps[j].key) && SafeKey(ps[j].key) == k))
            case None => forall j :: 0 <= j < |ps| ==> !(Bad(ps[j].key) && SafeKey(ps[j].key) == k)
  {
    var n := |ps| - 1;
    if ps == [] {
      i := 0;
    } else if Bad(ps[n].key) && SafeKey(ps[n].key) == k {
      i := n;
    } else {
      i := LastRenamedFacts(ps[..n], k);
      assert forall j :: 0 <= j < n ==> ps[..n][j] == ps[j];
    }
  }

  /** Which property ends up where, collisions included. */
  lemma RenamedWinner<V>(ps: seq<Prop<V>>, k: string) returns (i: int)
    requires DistinctKeys(ps)
    ensures var r := RenameAll(ps, Keys(ps));
            && DistinctKeys(r)
            && (Has(r, k) <==> exists j :: 0 <= j < |ps| && NewKey(ps[j].key) == k)
            && (Has(r, k) ==> 0 <= i < |ps| && Wins(ps, i, k) && At(r, k) == ps[i].val)
  {
    var r := RenameAll(ps, Keys(ps));
    assert Keys(ps)[..|ps|] == Keys(ps) && ps[..|ps|] == ps;
    RenamePrefix(ps, |ps|);
    assert RenamedAt(ps, |ps|, r, k);
    i := LastRenamedFacts(ps, k);
    if Bad(k) {
      NewKeyNotBad(ps);
    } else if LastRenamed(ps, k).None? && Has(ps, k) {
      i := Find(ps, k).value;
    }
    if Has(ps, k) && !Bad(k) {
      assert NewKey(ps[Find(ps, k).value].key) == k;
    }
  }

  lemma NewKeyNotBad<V>(ps: seq<Prop<V>>)
    ensures forall j :: 0 <= j < |ps| ==> !Bad(NewKey(ps[j].key))
  {
    forall j | 0 <= j < |ps| ensures !Bad(NewKey(ps[j].key)) {
      SafeIsNotBad(ps[j].key);
    }
  }

  /** Every property that survives carries the sanitized form of the original that won its key. */
  lemma Survivor(ps: seq<Prop<Tree>>, j: nat) returns (i: int)
    requires DistinctKeys(ps) && j < |Sanitized(Node(ps)).props|
    ensures var p := Sanitized(Node(ps)).props[j];
            0 <= i < |ps| && Wins(ps, i, p.key) && p.val == Sanitized(ps[i].val)
  {
    var vals := SanitizedVals(ps);
    var r := RenameAll(vals, Keys(ps));
    assert Keys(vals) == Keys(ps);
    i := RenamedWinner(vals, r[j].key);
    assert r[Find(r, r[j].key).value].key == r[j].key;
  }

  lemma {:induction false} SanitizedIsClean(t: Tree)
    requires Proper(t)
    ensures Clean(Sanitized(t)) && Proper(Sanitized(t))
    decreases t
  {
    if t.Node? {
      var r := Sanitized(t).props;
      assert Keys(SanitizedVals(t.props)) == Keys(t.props);
      var _ := RenamedWinner(SanitizedVals(t.props), "");
      forall j | 0 <= j < |r| ensures !Bad(r[j].key) && Clean(r[j].val) && Proper(r[j].val) {
        var i := Survivor(t.props, j);
        NewKeyNotBad(t.props);
        SanitizedIsClean(t.props[i].val);
      }
    }
  }

  lemma {:induction false} NoBadKeysNoChange<V>(ps: seq<Prop<V>>, ks: seq<string>)
    requires forall i :: 0 <= i < |ks| ==> !Bad(ks[i])
    ensures RenameAll(ps, ks) == ps
  {
    if ks != [] {
      NoBadKeysNoChange(ps, ks[..|ks| - 1]);
    }
  }

  lemma {:induction false} CleanUnchanged(t: Tree)
    requires Clean(t)
    ensures Sanitized(t) == t
    decreases t
  {
    if t.Node? {
      forall i | 0 <= i < |t.props| ensures SanitizedVals(t.props)[i] == t.props[i] {
        CleanUnchanged(t.props[i].val);
      }
      assert SanitizedVals(t.props) == t.props;
      NoBadKeysNoChange(t.props, Keys(t.props));
    }
  }

  lemma SanitizedIdempotent(t: Tree)
    requires Proper(t)
    ensures Sanitized(Sanitized(t)) == Sanitized(t)
  {
    SanitizedIsClean(t);
    CleanUnchanged(Sanitized(t));
  }
}
