/**
 * The diff the reconciler computes between the desired image properties
 * and the observed image: a JSON-patch list (RFC 6902) of `add` and
 * `replace` operations, one per desired key that is missing or different,
 * in the iteration order of the desired properties.
 */
module JsonPatch {
  import opened Values
  import opened JsonPointer

  datatype OpKind = Add | Replace | Remove

  /** `{'op': ..., 'path': ..., 'value': ...}` */
  datatype PatchOp = PatchOp(op: OpKind, path: string, value: Value)

  /** `'/{}'.format(path)` with the escaped key. */
  function PathOf(key: string): string
  {
    "/" + Escape(key)
  }

  /** What one desired key contributes to the patch. */
  function KeyOps(key: string, desired: Dict, observed: Dict): seq<PatchOp>
    requires key in desired.vals
  {
    if key in observed.vals then
      if !Eq(observed.vals[key], desired.vals[key]) then [PatchOp(Replace, PathOf(key), desired.vals[key])]
      else []
    else [PatchOp(Add, PathOf(key), desired.vals[key])]
  }

  ghost predicate AllDesired(keys: seq<string>, desired: Dict)
  {
    forall i :: 0 <= i < |keys| ==> keys[i] in desired.vals
  }

  /** The operations for `keys`, taken in order. */
  function Diff(keys: seq<string>, desired: Dict, observed: Dict): seq<PatchOp>
    requires AllDesired(keys, desired)
  {
    if keys == [] then []
    else Diff(keys[..|keys| - 1], desired, observed) + KeyOps(keys[|keys| - 1], desired, observed)
  }

  /** The `to_change` list of the update path. */
  function Patch(desired: Dict, observed: Dict): seq<PatchOp>
  {
    Diff(desired.keys, desired, observed)
  }

  /**
   * `op` is the operation the reconciler emits for key `k`: `add` when the
   * observed image lacks `k`, `replace` when it holds a value not `==` to
   * the desired one; in both cases at the escaped path of `k` with the
   * desired value.
   */
  ghost predicate Justified(op: PatchOp, k: string, desired: Dict, observed: Dict)
    requires k in desired.vals
  {
    && op.path == PathOf(k)
    && op.value == desired.vals[k]
    && if k in observed.vals then op.op == Replace && !Eq(observed.vals[k], desired.vals[k])
       else op.op == Add
  }

  ghost predicate Agrees(desired: Dict, observed: Dict)
  {
    forall k :: k in desired.vals ==> k in observed.vals && Eq(observed.vals[k], desired.vals[k])
  }

  /**
   * The loop of image_present that fills `to_change`, one desired key at a
   * time.
   */
  method BuildPatch(desired: Dict, observed: Dict) returns (toChange: seq<PatchOp>)
    ensures toChange == Patch(desired, observed)
  {
    toChange := [];
    for i := 0 to |desired.keys|
      invariant toChange == Diff(desired.keys[..i], desired, observed)
    {
      var prop := desired.keys[i];
      var path := Escape(prop);
      if prop in observed.vals {
        if !Eq(observed.vals[prop], desired.vals[prop]) {
          toChange := toChange + [PatchOp(Replace, "/" + path, desired.vals[prop])];
        }
      } else {
        toChange := toChange + [PatchOp(Add, "/" + path, desired.vals[prop])];
      }
      assert desired.keys[..i + 1][..i] == desired.keys[..i];
    }
    assert desired.keys[..|desired.keys|] == desired.keys;
  }

  /** The diff of a split key list is the concatenation of the diffs: ops follow key order. */
  lemma {:induction false} DiffAppend(a: seq<string>, b: seq<string>, desired: Dict, observed: Dict)
    requires AllDesired(a, desired) && AllDesired(b, desired)
    ensures AllDesired(a + b, desired)
    ensures Diff(a + b, desired, observed) == Diff(a, desired, observed) + Diff(b, desired, observed)
  {
    assert AllDesired(a + b, desired) by {
      forall i | 0 <= i < |a + b| ensures (a + b)[i] in desired.vals {
        if i >= |a| { assert (a + b)[i] == b[i - |a|]; }
      }
    }
    if b == [] {
      assert a + b == a;
    } else {
      var b' := b[..|b| - 1];
      assert (a + b)[..|a + b| - 1] == a + b';
      assert (a + b)[|a + b| - 1] == b[|b| - 1];
      DiffAppend(a, b', desired, observed);
    }
  }

  /** Every operation answers one desired key: never `remove`, never an observed-only key. */
  lemma {:induction false} DiffSound(keys: seq<string>, desired: Dict, observed: Dict)
    requires AllDesired(keys, desired)
    ensures forall op :: op in Diff(keys, desired, observed) ==>
              exists j :: 0 <= j < |keys| && Justified(op, keys[j], desired, observed)
  {
    if keys != [] {
      var init := keys[..|keys| - 1];
      DiffSound(init, desired, observed);
      forall op | op in Diff(keys, desired, observed)
        ensures exists j :: 0 <= j < |keys| && Justified(op, keys[j], desired, observed)
      {
        if op in Diff(init, desired, observed) {
          var j :| 0 <= j < |init| && Justified(op, init[j], desired, observed);
          assert keys[j] == init[j];
        } else {
          assert Justified(op, keys[|keys| - 1], desired, observed);
        }
      }
    }
  }

  /** Every desired key that is missing or different gets its operation. */
  lemma {:induction false} DiffComplete(keys: seq<string>, desired: Dict, observed: Dict, j: nat)
    requires AllDesired(keys, desired)
    requires j < |keys|
    requires keys[j] !in observed.vals || !Eq(observed.vals[keys[j]], desired.vals[keys[j]])
    ensures exists op :: op in Diff(keys, desired, observed) && Justified(op, keys[j], desired, observed)
  {
    var init := keys[..|keys| - 1];
    if j < |keys| - 1 {
      assert init[j] == keys[j];
      DiffComplete(init, desired, observed, j);
    } else {
      var op := KeyOps(keys[j], desired, observed)[0];
      assert op in Diff(keys, desired, observed);
      assert Justified(op, keys[j], desired, observed);
    }
  }

  lemma {:induction false} DiffEmptyWhenAgree(keys: seq<string>, desired: Dict, observed: Dict)
    requires AllDesired(keys, desired)
    requires forall i :: 0 <= i < |keys| ==>
               keys[i] in observed.vals && Eq(observed.vals[keys[i]], desired.vals[keys[i]])
    ensures Diff(keys, desired, observed) == []
  {
    if keys != [] {
      DiffEmptyWhenAgree(keys[..|keys| - 1], desired, observed);
    }
  }

  /**
   * The patch holds only `add`/`replace` operations, each at the escaped
   * path of a desired key; a key that only the observed image has is
   * never addressed.
   */
  lemma PatchTouchesOnlyDesired(desired: Dict, observed: Dict, k: string)
    requires k !in desired.vals
    ensures forall op :: op in Patch(desired, observed) ==> op.op != Remove && op.path != PathOf(k)
  {
    DiffSound(desired.keys, desired, observed);
    forall op | op in Patch(desired, observed) ensures op.op != Remove && op.path != PathOf(k) {
      var j :| 0 <= j < |desired.keys| && Justified(op, desired.keys[j], desired, observed);
      if op.path == PathOf(k) {
        assert "/" + Escape(k) == "/" + Escape(desired.keys[j]);
        assert Escape(k) == ("/" + Escape(k))[1..];
        assert Escape(desired.keys[j]) == ("/" + Escape(desired.keys[j]))[1..];
        EscapeInjective(k, desired.keys[j]);
      }
    }
  }

  /** The patch is empty exactly when the observed image agrees on every desired key. */
  lemma PatchEmptyIffAgrees(desired: Dict, observed: Dict)
    ensures Patch(desired, observed) == [] <==> Agrees(desired, observed)
  {
    if Agrees(desired, observed) {
      DiffEmptyWhenAgree(desired.keys, desired, observed);
    } else {
      var k :| k in desired.vals && !(k in observed.vals && Eq(observed.vals[k], desired.vals[k]));
      var j :| 0 <= j < |desired.keys| && desired.keys[j] == k;
      DiffComplete(desired.keys, desired, observed, j);
    }
  }

  lemma DiffOfTwo(k1: string, k2: string, desired: Dict, observed: Dict)
    requires k1 in desired.vals && k2 in desired.vals
    ensures AllDesired([k1, k2], desired)
    ensures Diff([k1, k2], desired, observed) == KeyOps(k1, desired, observed) + KeyOps(k2, desired, observed)
  {
    var ks := [k1, k2];
    assert ks[..1] == [k1] && [k1][..0] == [];
    assert Diff([k1], desired, observed) == KeyOps(k1, desired, observed);
    assert Diff(ks, desired, observed) == Diff([k1], desired, observed) + KeyOps(k2, desired, observed);
  }

  /** The path of a key without `~` or `/` is the key behind a slash. */
  lemma PlainPath(key: string, path: string)
    requires forall i :: 0 <= i < |key| ==> key[i] != '~' && key[i] != '/'
    requires path == "/" + key
    ensures PathOf(key) == path
  {
    EscapePlain(key);
  }

  lemma PlainPaths()
    ensures PathOf("tags") == "/tags" && PathOf("owner") == "/owner"
  {
    PlainPath("tags", "/tags");
    PlainPath("owner", "/owner");
  }

  /** The worked example: observed tags/visibility, desired tags/owner. */
  lemma PatchExample(desired: Dict, observed: Dict)
    requires desired.keys == ["tags", "owner"]
    requires desired.vals["tags"] == VList([VStr("a"), VStr("b")]) && desired.vals["owner"] == VStr("x")
    requires observed.keys == ["tags", "visibility"]
    requires observed.vals["tags"] == VList([VStr("a")]) && observed.vals["visibility"] == VStr("public")
    ensures Patch(desired, observed)
            == [PatchOp(Replace, "/tags", VList([VStr("a"), VStr("b")])), PatchOp(Add, "/owner", VStr("x"))]
  {
    assert "tags" in desired.vals && "owner" in desired.vals by {
      assert desired.keys[0] == "tags" && desired.keys[1] == "owner";
    }
    DiffOfTwo("tags", "owner", desired, observed);
    ExampleTagsDiffer(observed.vals["tags"], desired.vals["tags"]);
    ExampleOwnerMissing(observed);
    PlainPaths();
    assert KeyOps("tags", desired, observed) == [PatchOp(Replace, "/tags", desired.vals["tags"])];
    assert KeyOps("owner", desired, observed) == [PatchOp(Add, "/owner", desired.vals["owner"])];
  }

  lemma ExampleTagsDiffer(observed: Value, desired: Value)
    requires observed == VList([VStr("a")]) && desired == VList([VStr("a"), VStr("b")])
    ensures !Eq(observed, desired)
  {
    assert |observed.items| != |desired.items|;
  }

  lemma ExampleOwnerMissing(observed: Dict)
    requires observed.keys == ["tags", "visibility"]
    ensures "owner" !in observed.vals
  {
    assert "owner" != observed.keys[0] && "owner" != observed.keys[1];
  }

  // ---------------------------------------------------------------------
  // What the image service does with the patch: sections 4.1 (add) and
  // 4.3 (replace) of RFC 6902 on the members of the image object.

  /** One `add` or `replace` at a single-level path `/<token>`. */
  function ApplyOp(o: Dict, op: PatchOp): Option<Dict>
    requires op.op != Remove
  {
    if |op.path| == 0 || op.path[0] != '/' || '/' in op.path[1..] then None
    else
      var key := Unescape(op.path[1..]);
      if op.op == Replace && key !in o.vals then None
      else Some(Put(o, key, op.value))
  }

  function ApplyAll(o: Dict, ops: seq<PatchOp>): Option<Dict>
    requires forall i :: 0 <= i < |ops| ==> ops[i].op != Remove
    decreases ops
  {
    if ops == [] then Some(o)
    else match ApplyOp(o, ops[0])
      case None => None
      case Some(o') => ApplyAll(o', ops[1..])
  }

  lemma {:induction false} ApplyAllAppend(o: Dict, a: seq<PatchOp>, b: seq<PatchOp>)
    requires forall i :: 0 <= i < |a| ==> a[i].op != Remove
    requires forall i :: 0 <= i < |b| ==> b[i].op != Remove
    requires ApplyAll(o, a).Some?
    ensures forall i :: 0 <= i < |a + b| ==> (a + b)[i].op != Remove
    ensures ApplyAll(o, a + b) == ApplyAll(ApplyAll(o, a).value, b)
    decreases a
  {
    assert forall i :: 0 <= i < |a + b| ==> (a + b)[i].op != Remove by {
      forall i | 0 <= i < |a + b| ensures (a + b)[i].op != Remove {
        if i >= |a| { assert (a + b)[i] == b[i - |a|]; }
      }
    }
    if a == [] {
      assert a + b == b;
    } else {
      assert (a + b)[0] == a[0] && (a + b)[1..] == a[1..] + b;
      ApplyAllAppend(ApplyOp(o, a[0]).value, a[1..], b);
    }
  }

  /**
   * The value key `k` holds once the patch is applied: the observed value
   * when it already equals the desired one, the desired value otherwise.
   */
  function Reconciled(k: string, desired: Dict, observed: Dict): Value
    requires k in desired.vals
  {
    if k in observed.vals && Eq(observed.vals[k], desired.vals[k]) then observed.vals[k] else desired.vals[k]
  }

  lemma KeyOpsApply(k: string, desired: Dict, observed: Dict, r: Dict)
    requires k in desired.vals
    requires k in r.vals <==> k in observed.vals
    requires k in observed.vals ==> r.vals[k] == observed.vals[k]
    ensures forall i :: 0 <= i < |KeyOps(k, desired, observed)| ==> KeyOps(k, desired, observed)[i].op != Remove
    ensures ApplyAll(r, KeyOps(k, desired, observed)).Some?
    ensures ApplyAll(r, KeyOps(k, desired, observed)).value.vals == r.vals[k := Reconciled(k, desired, observed)]
  {
    var ops := KeyOps(k, desired, observed);
    if ops != [] {
      var path := PathOf(k);
      EscapeWellEscaped(k);
      UnescapeEscape(k);
      assert path[1..] == Escape(k);
      assert '/' !in path[1..];
      assert ApplyOp(r, ops[0]) == Some(Put(r, k, desired.vals[k]));
      assert ops[1..] == [];
    } else {
      assert r.vals[k := observed.vals[k]] == r.vals;
    }
  }

  /** Applying the diff of distinct keys sets exactly those keys to their desired values. */
  lemma {:induction false} ApplyDiff(keys: seq<string>, desired: Dict, observed: Dict)
    requires AllDesired(keys, desired) && Distinct(keys)
    ensures forall i :: 0 <= i < |Diff(keys, desired, observed)| ==> Diff(keys, desired, observed)[i].op != Remove
    ensures ApplyAll(observed, Diff(keys, desired, observed)).Some?
    ensures var r := ApplyAll(observed, Diff(keys, desired, observed)).value;
            && (forall k :: k in r.vals <==> k in observed.vals || k in keys)
            && (forall k :: k in keys ==> r.vals[k] == Reconciled(k, desired, observed))
            && (forall k :: k in observed.vals && k !in keys ==> r.vals[k] == observed.vals[k])
  {
    DiffSound(keys, desired, observed);
    if keys != [] {
      var init, k := keys[..|keys| - 1], keys[|keys| - 1];
      assert keys == init + [k];
      assert k !in init;
      ApplyDiff(init, desired, observed);
      var r := ApplyAll(observed, Diff(init, desired, observed)).value;
      KeyOpsApply(k, desired, observed, r);
      ApplyAllAppend(observed, Diff(init, desired, observed), KeyOps(k, desired, observed));
    }
  }

  /**
   * Reconciliation converges: after the service applies the patch, the
   * image holds every desired value, keeps every observed-only property,
   * and the diff against it is empty.
   */
  lemma PatchConverges(desired: Dict, observed: Dict)
    ensures forall i :: 0 <= i < |Patch(desired, observed)| ==> Patch(desired, observed)[i].op != Remove
    ensures ApplyAll(observed, Patch(desired, observed)).Some?
    ensures var r := ApplyAll(observed, Patch(desired, observed)).value;
            && (forall k :: k in desired.vals ==> k in r.vals && r.vals[k] == Reconciled(k, desired, observed))
            && Agrees(desired, r)
            && (forall k :: k in observed.vals && k !in desired.vals ==> k in r.vals && r.vals[k] == observed.vals[k])
            && Patch(desired, r) == []
  {
    ApplyDiff(desired.keys, desired, observed);
    var r := ApplyAll(observed, Patch(desired, observed)).value;
    forall k | k in desired.vals ensures k in r.vals && Eq(r.vals[k], desired.vals[k]) {
      if r.vals[k] == desired.vals[k] {
        EqRefl(desired.vals[k]);
      }
    }
    PatchEmptyIffAgrees(desired, r);
  }
}
