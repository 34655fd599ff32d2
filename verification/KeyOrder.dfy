/** `Object.keys(v).sort()`: lexicographic order on strings, and why a sorted key sequence is
    determined by the keys alone. */
module KeyOrder {

  predicate Le(a: string, b: string) {
    || a == ""
    || (b != "" && (a[0] < b[0] || (a[0] == b[0] && Le(a[1..], b[1..]))))
  }

  lemma LeTotal(a: string, b: string)
    ensures Le(a, b) || Le(b, a)
  {
  }

  lemma {:induction false} LeAntisymmetric(a: string, b: string)
    requires Le(a, b) && Le(b, a)
    ensures a == b
  {
    if a != "" {
      LeAntisymmetric(a[1..], b[1..]);
      assert a == [a[0]] + a[1..] && b == [b[0]] + b[1..];
    }
  }

  lemma {:induction false} LeTransitive(a: string, b: string, c: string)
    requires Le(a, b) && Le(b, c)
    ensures Le(a, c)
  {
    if a != "" && a[0] == b[0] && b[0] == c[0] {
      LeTransitive(a[1..], b[1..], c[1..]);
    }
  }

  /** At the first difference the smaller character comes first; a proper prefix comes before the whole. */
  predicate Before(a: string, b: string, i: nat) {
    i < |a| && i < |b| && a[..i] == b[..i] && a[i] < b[i]
  }

  lemma {:induction false} LeExactly(a: string, b: string)
    ensures Le(a, b) <==> a <= b || exists i: nat :: Before(a, b, i)
  {
    if a != "" && b != "" && a[0] == b[0] {
      LeExactly(a[1..], b[1..]);
      BeforeTail(a, b);
      assert a == [a[0]] + a[1..] && b == [b[0]] + b[1..];
    } else if a != "" && b != "" && a[0] < b[0] {
      assert Before(a, b, 0);
    }
  }

  lemma BeforeTail(a: string, b: string)
    requires a != "" && b != "" && a[0] == b[0]
    ensures (exists i: nat :: Before(a, b, i)) <==> exists i: nat :: Before(a[1..], b[1..], i)
  {
    if i: nat :| Before(a[1..], b[1..], i) {
      assert a[..i + 1] == [a[0]] + a[1..][..i] && b[..i + 1] == [b[0]] + b[1..][..i];
      assert Before(a, b, i + 1);
    }
    if i: nat :| Before(a, b, i) {
      assert i > 0;
      assert a[1..][..i - 1] == a[..i][1..] && b[1..][..i - 1] == b[..i][1..];
      assert Before(a[1..], b[1..], i - 1);
    }
  }

  ghost predicate Sorted(ks: seq<string>) {
    forall i, j :: 0 <= i < j < |ks| ==> Le(ks[i], ks[j])
  }

  function Insert(k: string, ks: seq<string>): (r: seq<string>)
    requires Sorted(ks)
    ensures Sorted(r) && multiset(r) == multiset(ks) + multiset{k}
  {
    if ks == [] then [k]
    else if Le(k, ks[0]) then
      assert forall j :: 0 <= j < |ks| ==> Le(k, ks[j]) by {
        forall j | 0 <= j < |ks| ensures Le(k, ks[j]) {
          if j > 0 { LeTransitive(k, ks[0], ks[j]); }
        }
      }
      [k] + ks
    else
      var rest := Insert(k, ks[1..]);
      assert ks == [ks[0]] + ks[1..];
      assert forall j :: 0 <= j < |rest| ==> Le(ks[0], rest[j]) by {
        LeTotal(k, ks[0]);
        forall j | 0 <= j < |rest| ensures Le(ks[0], rest[j]) {
          assert rest[j] in multiset(rest);
          assert rest[j] == k || rest[j] in ks[1..];
        }
      }
      [ks[0]] + rest
  }

  function Sort(ks: seq<string>): (r: seq<string>)
    ensures Sorted(r) && multiset(r) == multiset(ks)
  {
    if ks == [] then []
    else
      assert ks == ks[..|ks| - 1] + [ks[|ks| - 1]];
      Insert(ks[|ks| - 1], Sort(ks[..|ks| - 1]))
  }

  lemma {:induction false} SortedUnique(a: seq<string>, b: seq<string>)
    requires Sorted(a) && Sorted(b) && multiset(a) == multiset(b)
    ensures a == b
  {
    if a == [] {
      assert |multiset(b)| == 0;
    } else {
      assert a[0] in multiset(b) && |multiset(b)| > 0;
      assert b[0] in multiset(a);
      var i :| 0 <= i < |a| && a[i] == b[0];
      var j :| 0 <= j < |b| && b[j] == a[0];
      if a[0] != b[0] {
        assert Le(a[0], a[i]) && Le(b[0], b[j]);
        LeAntisymmetric(a[0], b[0]);
      }
      assert a == [a[0]] + a[1..] && b == [b[0]] + b[1..];
      assert multiset(a[1..]) == multiset(a) - multiset{a[0]};
      SortedUnique(a[1..], b[1..]);
    }
  }

  ghost predicate Distinct(ks: seq<string>) {
    forall i, j :: 0 <= i < j < |ks| ==> ks[i] != ks[j]
  }

  lemma {:induction false} DistinctCount(ks: seq<string>, k: string)
    requires Distinct(ks)
    ensures multiset(ks)[k] == if k in ks then 1 else 0
  {
    if ks != [] {
      assert ks == ks[..|ks| - 1] + [ks[|ks| - 1]];
      DistinctCount(ks[..|ks| - 1], k);
    }
  }

  lemma DistinctLast(ks: seq<string>)
    requires Distinct(ks) && ks != []
    ensures ks[|ks| - 1] !in ks[..|ks| - 1]
  {
  }

  /** Objects with the same keys list them in the same sorted order. */
  lemma SameKeysSameOrder(a: seq<string>, b: seq<string>)
    requires Distinct(a) && Distinct(b) && forall k :: k in a <==> k in b
    ensures Sort(a) == Sort(b)
  {
    forall k ensures multiset(a)[k] == multiset(b)[k] {
      DistinctCount(a, k);
      DistinctCount(b, k);
    }
    assert multiset(a) == multiset(b);
    SortedUnique(Sort(a), Sort(b));
  }
}
