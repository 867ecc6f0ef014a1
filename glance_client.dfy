/**
 * What the Glance execution module shares between its functions: the
 * replies of the image service client, the exceptions that escape a
 * function, the `{'result': False, 'comment': ...}` record, and the
 * projection of a record onto the property names of a schema.
 */
module GlanceClient {
  import opened Values

  /** What an execution-module function returns, or the exception that escapes it. */
  datatype Answer<T> = Returned(value: T) | Raised(fault: Exception)

  /** The reply of a client call on one image or task. */
  datatype ClientReply =
    | Done(value: Dict)           // the returned record
    | NotFound                    // exc.HTTPNotFound
    | Forbidden(message: string)  // exc.HTTPForbidden, with `str(e)`
    | Failed                      // any other client exception

  /** `{'result': False, 'comment': comment}` */
  function Failure(comment: string): (d: Dict)
    ensures d.keys == ["result", "comment"]
    ensures d.vals == map["result" := VBool(false), "comment" := VStr(comment)]
  {
    RawDict(["result", "comment"], map["result" := VBool(false), "comment" := VStr(comment)])
  }

  /** `{'result': True, 'comment': comment}` */
  function Success(comment: string): (d: Dict)
    ensures d.keys == ["result", "comment"]
    ensures d.vals == map["result" := VBool(true), "comment" := VStr(comment)]
  {
    RawDict(["result", "comment"], map["result" := VBool(true), "comment" := VStr(comment)])
  }

  /** `'{0}'.format(x)` for a value that is a string or `None`. */
  function Text(x: Option<string>): string
  {
    if x.None? then "None" else x.value
  }

  // ---------------------------------------------------------------------
  // Copying the present keys of a record

  /**
   * `into` with every key of `keys` that `from` holds copied over, key by
   * key in the order of `keys`: `for key in keys: if key in from: into[key] = from[key]`.
   */
  function WithPresent(into: Dict, keys: seq<string>, from: Dict): Dict
  {
    if keys == [] then into
    else
      var prev := WithPresent(into, keys[..|keys| - 1], from);
      var k := keys[|keys| - 1];
      if k in from.vals then Put(prev, k, from.vals[k]) else prev
  }

  /** The keys of `keys` that the record holds, in order. */
  function Kept(keys: seq<string>, record: Dict): seq<string>
  {
    if keys == [] then []
    else Kept(keys[..|keys| - 1], record) + (if keys[|keys| - 1] in record.vals then [keys[|keys| - 1]] else [])
  }

  lemma {:induction false} KeptMembers(keys: seq<string>, record: Dict)
    ensures forall k :: k in Kept(keys, record) <==> k in keys && k in record.vals
  {
    if keys != [] {
      KeptMembers(keys[..|keys| - 1], record);
      assert keys == keys[..|keys| - 1] + [keys[|keys| - 1]];
    }
  }

  lemma DistinctInit(keys: seq<string>)
    requires keys != [] && Distinct(keys)
    ensures Distinct(keys[..|keys| - 1]) && keys[|keys| - 1] !in keys[..|keys| - 1]
  {
    var init := keys[..|keys| - 1];
    forall i, j | 0 <= i < j < |init| ensures init[i] != init[j] {
      assert init[i] == keys[i] && init[j] == keys[j];
    }
    forall i | 0 <= i < |init| ensures init[i] != keys[|keys| - 1] {
      assert init[i] == keys[i];
    }
  }

  /**
   * The copy holds the keys of `into` and the keys of `keys` present in
   * `from`; a copied key carries the value of `from`, any other the value
   * of `into`. When `keys` lists fresh keys once each, they are appended
   * in order.
   */
  lemma WithPresentExact(into: Dict, keys: seq<string>, from: Dict)
    ensures var r := WithPresent(into, keys, from);
            && (forall k :: k in r.vals <==> k in into.vals || (k in keys && k in from.vals))
            && (forall k :: k in r.vals ==>
                  r.vals[k] == if k in keys && k in from.vals then from.vals[k] else into.vals[k])
            && (Distinct(keys) && (forall k :: k in keys ==> k !in into.vals) ==>
                  r.keys == into.keys + Kept(keys, from))
  {
    WithPresentVals(into, keys, from);
    if Distinct(keys) && (forall k :: k in keys ==> k !in into.vals) {
      WithPresentOrder(into, keys, from);
    }
  }

  /** The mapping of the copy. */
  lemma {:induction false} WithPresentVals(into: Dict, keys: seq<string>, from: Dict)
    ensures WithPresent(into, keys, from).vals
            == map k | k in into.vals.Keys + (set k | k in keys && k in from.vals) ::
                 if k in keys && k in from.vals then from.vals[k] else into.vals[k]
  {
    if keys != [] {
      var init := keys[..|keys| - 1];
      WithPresentVals(into, init, from);
      assert keys == init + [keys[|keys| - 1]];
    }
  }

  /** Fresh keys listed once each are appended in order. */
  lemma {:induction false} WithPresentOrder(into: Dict, keys: seq<string>, from: Dict)
    requires Distinct(keys) && (forall k :: k in keys ==> k !in into.vals)
    ensures WithPresent(into, keys, from).keys == into.keys + Kept(keys, from)
  {
    if keys != [] {
      var init := keys[..|keys| - 1];
      var k := keys[|keys| - 1];
      DistinctInit(keys);
      assert keys == init + [k];
      WithPresentOrder(into, init, from);
      WithPresentVals(into, init, from);
    }
  }

  /** The schema projection of task_show, task_list and image_show. */
  function Projected(keys: seq<string>, record: Dict): Dict
  {
    WithPresent(Empty(), keys, record)
  }

  /**
   * The projection holds exactly the schema keys present in the record,
   * each with the record's value, and when the schema lists each key once
   * they come in schema order.
   */
  lemma ProjectedExact(keys: seq<string>, record: Dict)
    ensures var r := Projected(keys, record);
            && (forall k :: k in r.vals <==> k in keys && k in record.vals)
            && (forall k :: k in r.vals ==> r.vals[k] == record.vals[k])
            && (Distinct(keys) ==> r.keys == Kept(keys, record))
  {
    WithPresentExact(Empty(), keys, record);
  }

  /** The loop that copies the present keys. */
  method CopyPresent(into: Dict, keys: seq<string>, from: Dict) returns (ret: Dict)
    ensures ret == WithPresent(into, keys, from)
  {
    ret := into;
    for i := 0 to |keys|
      invariant ret == WithPresent(into, keys[..i], from)
    {
      var key := keys[i];
      assert keys[..i + 1][..i] == keys[..i];
      if key in from.vals {
        ret := Put(ret, key, from.vals[key]);
      }
    }
    assert keys[..|keys|] == keys;
  }
}
