/** The sanitizer as it runs: objects on the heap, mutated without replacing the outer one. */
module SanitizeInPlace {
  import opened KeySanitizer

  datatype Value = Text(text: string) | Ref(obj: JsObject)

  class JsObject {
    var props: seq<Prop<Value>>
    ghost var Repr: set<JsObject>
    ghost var tree: Tree           // the value this object stands for

    /** The value under one property belongs to this object and stands for `t`. */
    ghost predicate Holds(v: Value, t: Tree)
      reads this`Repr, Repr - {this}
      decreases Repr, 0
    {
      match v
      case Text(text) => t == Leaf(text)
      case Ref(o) => this in Repr && o in Repr - {this} && o.Repr <= Repr - {this} && o.Valid() && o.tree == t
    }

    /** Two values share no object. */
    ghost predicate Apart(v: Value, w: Value)
      reads this`Repr, Repr - {this}
    {
      v.Ref? && w.Ref? ==> v.obj in Repr - {this} && w.obj in Repr - {this} && v.obj.Repr !! w.obj.Repr
    }

    ghost predicate Linked(ps: seq<Prop<Value>>, ts: seq<Prop<Tree>>)
      reads this`Repr, Repr - {this}
      decreases Repr, 1
    {
      && |ts| == |ps|
      && DistinctKeys(ps)
      && (forall i :: 0 <= i < |ps| ==> ts[i].key == ps[i].key && Holds(ps[i].val, ts[i].val))
      && (forall i, j :: 0 <= i < j < |ps| ==> Apart(ps[i].val, ps[j].val))
    }

    /** A finite tree of objects: no cycles, and no object reachable twice. */
    ghost predicate Valid()
      reads this, Repr
      ensures Valid() ==> this in Repr
      decreases Repr, 2
    {
      this in Repr && tree.Node? && Linked(props, tree.props)
    }

    lemma DeleteLinked(ps: seq<Prop<Value>>, ts: seq<Prop<Tree>>, i: nat)
      requires Linked(ps, ts) && i < |ps|
      ensures Linked(Delete(ps, i), Delete(ts, i))
      ensures forall j :: 0 <= j < |Delete(ps, i)| ==>
                Apart(Delete(ps, i)[j].val, ps[i].val) && Apart(ps[i].val, Delete(ps, i)[j].val)
    {
      var ps', ts' := Delete(ps, i), Delete(ts, i);
      forall j | 0 <= j < |ps'| ensures ps'[j] == ps[if j < i then j else j + 1] && ts'[j] == ts[if j < i then j else j + 1] {
      }
    }

    lemma AssignLinked(ps: seq<Prop<Value>>, ts: seq<Prop<Tree>>, k: string, v: Value, t: Tree)
      requires Linked(ps, ts) && Holds(v, t)
      requires forall j :: 0 <= j < |ps| ==> Apart(ps[j].val, v) && Apart(v, ps[j].val)
      ensures Linked(Assign(ps, k, v), Assign(ts, k, t))
    {
      SameFind(ps, ts, k);
      AssignFacts(ps, k, v);
    }

    lemma RenameKeyLinked(ps: seq<Prop<Value>>, ts: seq<Prop<Tree>>, key: string)
      requires Linked(ps, ts) && Bad(key)
      ensures Linked(RenameKey(ps, key), RenameKey(ts, key))
    {
      SameFind(ps, ts, key);
      if Find(ps, key).Some? {
        var i := Find(ps, key).value;
        DeleteLinked(ps, ts, i);
        AssignLinked(Delete(ps, i), Delete(ts, i), SafeKey(key), ps[i].val, ts[i].val);
      }
    }

    /** `delete obj[key]; obj[safeKey] = val;` for one operator key. */
    method RenameOwn(key: string)
      requires this in Repr && tree.Node? && Linked(props, tree.props) && Bad(key)
      modifies this`props, this`tree
      ensures tree == Node(RenameKey(old(tree).props, key))
      ensures Linked(props, tree.props)
    {
      RenameKeyLinked(props, tree.props, key);
      ghost var after := RenameKey(props, key);
      match Find(props, key) {
        case None =>
        case Some(i) =>
          var safeKey := SafeKey(key);
          var val := props[i].val;
          props := Delete(props, i);
          props := Assign(props, safeKey, val);
      }
      assert props == after;
      tree := Node(RenameKey(tree.props, key));
    }

    /** The first loop: every operator key is renamed. */
    method RenameKeys()
      requires Valid()
      modifies this`props, this`tree
      ensures Valid()
      ensures tree == Node(RenameAll(old(tree).props, Keys(old(tree).props)))
    {
      var keys := Keys(props);
      assert keys == Keys(tree.props);
      for n := 0 to |keys|
        invariant this in Repr && tree.Node? && Linked(props, tree.props)
        invariant tree.props == RenameAll(old(tree).props, keys[..n])
      {
        assert keys[..n + 1][..n] == keys[..n];
        if Bad(keys[n]) {
          RenameOwn(keys[n]);
        }
      }
      assert keys[..|keys|] == keys;
    }

    /** Sanitizes the object under property `n`, if there is one. */
    method SanitizeChild(n: nat, ghost ts: seq<Prop<Tree>>)
      requires this in Repr && Linked(props, ts) && n < |props|
      modifies Repr - {this}
      ensures Repr == old(Repr) && props == old(props) && tree == old(tree)
      ensures Linked(props, ts[n := Prop(ts[n].key, Sanitized(ts[n].val))])
      decreases Repr, 0
    {
      assert Holds(props[n].val, ts[n].val);
      if props[n].val.Ref? {
        var o := props[n].val.obj;
        forall i | 0 <= i < |props| && i != n
          ensures Holds(props[i].val, ts[i].val)
          ensures props[i].val.Ref? ==> props[i].val.obj in props[i].val.obj.Repr && props[i].val.obj.Repr !! o.Repr
        {
          assert if i < n then Apart(props[i].val, props[n].val) else Apart(props[n].val, props[i].val);
        }
        o.Sanitize();
        forall i | 0 <= i < |props| ensures Holds(props[i].val, if i == n then Sanitized(ts[n].val) else ts[i].val) {
        }
        forall i, j | 0 <= i < j < |props| ensures Apart(props[i].val, props[j].val) {
        }
      }
    }

    /** The second loop: every object below is sanitized in turn. */
    method SanitizeChildren()
      requires Valid()
      modifies Repr
      ensures Valid() && Repr == old(Repr)
      ensures tree == Node(SanitizedVals(old(tree).props))
      decreases Repr, 1
    {
      ghost var ts := tree.props;
      for n := 0 to |props|
        invariant this in Repr && Repr == old(Repr) && props == old(props) && tree == old(tree)
        invariant Linked(props, ts)
        invariant forall i :: 0 <= i < |ts| ==>
                    ts[i].val == if i < n then Sanitized(old(tree).props[i].val) else old(tree).props[i].val
      {
        SanitizeChild(n, ts);
        ts := ts[n := Prop(ts[n].key, Sanitized(ts[n].val))];
      }
      tree := Node(ts);
      assert ts == SanitizedVals(old(tree).props);
    }

    method Sanitize()
      requires Valid()
      modifies Repr
      ensures Valid() && Repr == old(Repr)
      ensures tree == Sanitized(old(tree))
      decreases Repr, 2
    {
      RenameKeys();
      SanitizeChildren();
      RenameCommutes(old(tree).props, Keys(old(tree).props));
    }
  }

  /** Looking a key up depends on the keys only. */
  lemma {:induction false} SameFind<V, W>(ps: seq<Prop<V>>, qs: seq<Prop<W>>, k: string)
    requires |ps| == |qs| && forall i :: 0 <= i < |ps| ==> ps[i].key == qs[i].key
    ensures Find(ps, k) == Find(qs, k)
  {
    if ps != [] {
      SameFind(ps[..|ps| - 1], qs[..|qs| - 1], k);
    }
  }

  /** Renaming an object's keys first or sanitizing its values first gives the same object. */
  lemma {:induction false} RenameCommutes(ps: seq<Prop<Tree>>, ks: seq<string>)
    ensures SanitizedVals(RenameAll(ps, ks)) == RenameAll(SanitizedVals(ps), ks)
  {
    if ks != [] {
      var front, k := ks[..|ks| - 1], ks[|ks| - 1];
      RenameCommutes(ps, front);
      RenameKeyCommutes(RenameAll(ps, front), k);
    }
  }

  lemma RenameKeyCommutes(ps: seq<Prop<Tree>>, k: string)
    ensures SanitizedVals(RenameKey(ps, k)) == RenameKey(SanitizedVals(ps), k)
  {
    SameFind(ps, SanitizedVals(ps), k);
    if Bad(k) && Find(ps, k).Some? {
      var i := Find(ps, k).value;
      assert Delete(SanitizedVals(ps), i) == SanitizedVals(Delete(ps, i));
      SameFind(Delete(ps, i), SanitizedVals(Delete(ps, i)), SafeKey(k));
    }
  }
}
