/**
 * The image functions of the execution module: the record `_add_image`
 * builds, the filters of image_list, the name-to-id resolution of
 * image_delete and image_show, the `to_update` diff of image_update and
 * the `kwargs` image_create hands to the client.
 *
 * The client is an input: `images` is what `images.list()` yields, a
 * `ClientReply` what the one `get`, `delete` or `update` call answers.
 * Only the list-shaped and unwrapped returns of Salt 2016.3 (Boron) and
 * later are modelled.
 */
module GlanceImages {
  import opened Values
  import opened GlanceClient
  import GlanceValidate

  /** An image as `images.list()` yields it; `extra` holds the properties beyond the twelve fixed ones. */
  datatype Image = Image(
    id: string, name: Option<string>, createdAt: Value, file: Value, minDisk: Value, minRam: Value,
    owner: Value, protected: Value, status: Value, tags: Value, updatedAt: Value, visibility: Value,
    extra: Dict)

  const FIXED_FIELDS: seq<string> :=
    ["id", "name", "created_at", "file", "min_disk", "min_ram",
     "owner", "protected", "status", "tags", "updated_at", "visibility"]

  /** The fields older clients may lack. */
  const OPTIONAL_FIELDS: seq<string> := ["container_format", "disk_format", "size"]

  // ---------------------------------------------------------------------
  // _add_image

  /** `image_prep` before the optional fields. */
  function Prep(image: Image): (d: Dict)
    ensures d.keys == FIXED_FIELDS
  {
    PrepWellFormed(image);
    RawDict(FIXED_FIELDS, PrepVals(image))
  }

  function PrepVals(image: Image): map<string, Value>
  {
    map["id" := VStr(image.id), "name" := OfOption(image.name), "created_at" := image.createdAt,
        "file" := image.file, "min_disk" := image.minDisk, "min_ram" := image.minRam,
        "owner" := image.owner, "protected" := image.protected, "status" := image.status,
        "tags" := image.tags, "updated_at" := image.updatedAt, "visibility" := image.visibility]
  }

  lemma PrepWellFormed(image: Image)
    ensures Distinct(FIXED_FIELDS)
    ensures forall k :: k in PrepVals(image) <==> k in FIXED_FIELDS
  {
  }

  /** The record `_add_image` appends for `image`. */
  function Record(image: Image): Dict
  {
    WithPresent(Prep(image), OPTIONAL_FIELDS, image.extra)
  }

  lemma OptionalFieldsAreNew()
    ensures Distinct(OPTIONAL_FIELDS)
    ensures forall k :: k in OPTIONAL_FIELDS ==> k !in FIXED_FIELDS
  {
  }

  /**
   * A record lists the twelve fixed fields, then each optional field
   * exactly when the image has it, with its value; nothing else.
   */
  lemma RecordShape(image: Image)
    ensures var r := Record(image);
            && r.keys == FIXED_FIELDS + Kept(OPTIONAL_FIELDS, image.extra)
            && (forall a :: a in OPTIONAL_FIELDS ==>
                  (a in r.vals <==> a in image.extra.vals)
                  && (a in image.extra.vals ==> r.vals[a] == image.extra.vals[a]))
            && (forall k :: k in r.vals ==> k in FIXED_FIELDS || k in OPTIONAL_FIELDS)
  {
    OptionalFieldsAreNew();
    WithPresentExact(Prep(image), OPTIONAL_FIELDS, image.extra);
  }

  /** The optional fields leave the fixed ones as `image_prep` set them. */
  lemma RecordFixedValues(image: Image)
    ensures forall f :: f in FIXED_FIELDS ==> f in Record(image).vals && Record(image).vals[f] == Prep(image).vals[f]
  {
    OptionalFieldsAreNew();
    WithPresentExact(Prep(image), OPTIONAL_FIELDS, image.extra);
  }

  /** A record carries the id and the name (`None` when unnamed) of its image. */
  lemma RecordIdentity(image: Image)
    ensures "id" in Record(image).vals && Record(image).vals["id"] == VStr(image.id)
    ensures "name" in Record(image).vals && Record(image).vals["name"] == OfOption(image.name)
  {
    RecordFixedValues(image);
    assert FIXED_FIELDS[0] == "id" && FIXED_FIELDS[1] == "name";
  }

  /** `_add_image(collection, image)` on a list: the record is appended. */
  method AddImage(collection: seq<Dict>, image: Image) returns (c: seq<Dict>)
    ensures c == collection + [Record(image)]
  {
    var imagePrep := Prep(image);
    imagePrep := CopyPresent(imagePrep, OPTIONAL_FIELDS, image.extra);
    c := collection + [imagePrep];
  }

  function Records(images: seq<Image>): (r: seq<Dict>)
    ensures |r| == |images| && forall i :: 0 <= i < |images| ==> r[i] == Record(images[i])
  {
    seq(|images|, i requires 0 <= i < |images| => Record(images[i]))
  }

  // ---------------------------------------------------------------------
  // image_list

  /**
   * image_list as written: with a filter, an image is added when its id
   * matches (and the listing stops) or when `name == image.name` - which
   * also holds for a nameless image when no name was asked for.
   */
  function ListedAsWritten(images: seq<Image>, id: Option<string>, name: Option<string>): seq<Dict>
    decreases |images|
  {
    if images == [] then []
    else
      var image := images[0];
      if id.None? && name.None? then [Record(image)] + ListedAsWritten(images[1..], id, name)
      else if id.Some? && id.value == image.id then [Record(image)]
      else if name == image.name then [Record(image)] + ListedAsWritten(images[1..], id, name)
      else ListedAsWritten(images[1..], id, name)
  }

  /** image_list with the name test applied only when a name is asked for. */
  function Listed(images: seq<Image>, id: Option<string>, name: Option<string>): seq<Dict>
    decreases |images|
  {
    if images == [] then []
    else
      var image := images[0];
      if id.None? && name.None? then [Record(image)] + Listed(images[1..], id, name)
      else if id.Some? && id.value == image.id then [Record(image)]
      else if name.Some? && name == image.name then [Record(image)] + Listed(images[1..], id, name)
      else Listed(images[1..], id, name)
  }

  /** The loop of image_list over `images.list()`. */
  method ImageList(images: seq<Image>, id: Option<string>, name: Option<string>) returns (ret: seq<Dict>)
    ensures ret == Listed(images, id, name)
  {
    ret := [];
    for i := 0 to |images|
      invariant Listed(images, id, name) == ret + Listed(images[i..], id, name)
    {
      var image := images[i];
      ListedStep(images, i, id, name);
      ghost var before, rest := ret, Listed(images[i + 1..], id, name);
      if id.None? && name.None? {
        ret := AddImage(ret, image);
        AppendAssoc(before, Record(image), rest);
      } else {
        if id.Some? && id.value == image.id {
          ret := AddImage(ret, image);
          return;
        }
        if name.Some? && name == image.name {
          ret := AddImage(ret, image);
          AppendAssoc(before, Record(image), rest);
        }
      }
    }
  }

  lemma AppendAssoc(a: seq<Dict>, r: Dict, rest: seq<Dict>)
    ensures a + ([r] + rest) == (a + [r]) + rest
  {
  }

  /** One image of the listing. */
  lemma ListedStep(images: seq<Image>, i: nat, id: Option<string>, name: Option<string>)
    requires i < |images|
    ensures var image, rest := images[i], Listed(images[i + 1..], id, name);
            Listed(images[i..], id, name)
            == if id.None? && name.None? then [Record(image)] + rest
               else if id.Some? && id.value == image.id then [Record(image)]
               else if name.Some? && name == image.name then [Record(image)] + rest
               else rest
  {
    assert images[i..][1..] == images[i + 1..];
  }

  /** The two agree whenever a name is asked for or no id is. */
  lemma {:induction false} AsWrittenAgrees(images: seq<Image>, id: Option<string>, name: Option<string>)
    requires name.Some? || id.None?
    ensures ListedAsWritten(images, id, name) == Listed(images, id, name)
    decreases |images|
  {
    if images != [] {
      AsWrittenAgrees(images[1..], id, name);
    }
  }

  /**
   * The discrepancy: asked for the id of the second image, the listing as
   * written also reports a nameless image before it.
   */
  lemma IdFilterAddsNamelessImage(a: Image, b: Image, x: string)
    requires a.name.None? && a.id != x && b.id == x
    ensures ListedAsWritten([a, b], Some(x), None) == [Record(a), Record(b)]
    ensures Listed([a, b], Some(x), None) == [Record(b)]
  {
    assert [a, b][1..] == [b];
    assert [b][1..] == [];
  }

  /** Without a filter every image is listed, in client order. */
  lemma {:induction false} ListAllInOrder(images: seq<Image>)
    ensures Listed(images, None, None) == Records(images)
    decreases |images|
  {
    if images != [] {
      ListAllInOrder(images[1..]);
      assert Records(images) == [Record(images[0])] + Records(images[1..]);
    }
  }

  lemma RecordsAppend(a: seq<Image>, b: seq<Image>)
    ensures Records(a + b) == Records(a) + Records(b)
  {
    assert forall i :: 0 <= i < |a + b| ==> Records(a + b)[i] == (Records(a) + Records(b))[i];
  }

  /** The images named `n`, in order. */
  function Named(images: seq<Image>, n: string): seq<Image>
    decreases |images|
  {
    if images == [] then []
    else (if images[0].name == Some(n) then [images[0]] else []) + Named(images[1..], n)
  }

  lemma {:induction false} NamedMembers(images: seq<Image>, n: string)
    ensures forall img :: img in Named(images, n) <==> img in images && img.name == Some(n)
    decreases |images|
  {
    if images != [] {
      NamedMembers(images[1..], n);
      assert images == [images[0]] + images[1..];
    }
  }

  /**
   * With only a name filter, every image of that name is listed, in order,
   * and no other image.
   */
  lemma ListByNameCollects(images: seq<Image>, n: string)
    ensures Listed(images, None, Some(n)) == Records(Named(images, n))
    ensures forall img :: img in Named(images, n) <==> img in images && img.name == Some(n)
  {
    ListByName(images, n);
    NamedMembers(images, n);
  }

  lemma {:induction false} ListByName(images: seq<Image>, n: string)
    ensures Listed(images, None, Some(n)) == Records(Named(images, n))
    decreases |images|
  {
    if images != [] {
      ListByName(images[1..], n);
      var head := if images[0].name == Some(n) then [images[0]] else [];
      RecordsAppend(head, Named(images[1..], n));
    }
  }

  /** Before any image with the id, only the name filter adds records. */
  lemma {:induction false} ListWithoutIdMatch(images: seq<Image>, x: string, name: Option<string>)
    requires forall k :: 0 <= k < |images| ==> images[k].id != x
    ensures Listed(images, Some(x), name) == if name.Some? then Records(Named(images, name.value)) else []
    decreases |images|
  {
    if images != [] {
      ListWithoutIdMatch(images[1..], x, name);
      if name.Some? {
        var head := if images[0].name == name then [images[0]] else [];
        RecordsAppend(head, Named(images[1..], name.value));
      }
    }
  }

  lemma {:induction false} ListStopsAtFirstId(images: seq<Image>, x: string, name: Option<string>, j: nat)
    requires j < |images| && images[j].id == x
    requires forall k :: 0 <= k < j ==> images[k].id != x
    ensures Listed(images, Some(x), name) == Listed(images[..j], Some(x), name) + [Record(images[j])]
    decreases j
  {
    if j > 0 {
      ListStopsAtFirstId(images[1..], x, name, j - 1);
      assert images[1..][..j - 1] == images[..j][1..];
    }
  }

  /**
   * With an id filter the listing ends at the first image with that id;
   * before it only images of the asked name are listed, and with no name
   * asked for the result is that one image, or nothing.
   */
  lemma ListById(images: seq<Image>, x: string, name: Option<string>)
    ensures (forall k :: 0 <= k < |images| ==> images[k].id != x) ==>
              Listed(images, Some(x), name) == if name.Some? then Records(Named(images, name.value)) else []
    ensures forall j :: 0 <= j < |images| && images[j].id == x && (forall k :: 0 <= k < j ==> images[k].id != x) ==>
              Listed(images, Some(x), name)
              == (if name.Some? then Records(Named(images[..j], name.value)) else []) + [Record(images[j])]
  {
    if forall k :: 0 <= k < |images| ==> images[k].id != x {
      ListWithoutIdMatch(images, x, name);
    }
    forall j | 0 <= j < |images| && images[j].id == x && (forall k :: 0 <= k < j ==> images[k].id != x)
      ensures Listed(images, Some(x), name)
              == (if name.Some? then Records(Named(images[..j], name.value)) else []) + [Record(images[j])]
    {
      ListStopsAtFirstId(images, x, name, j);
      ListWithoutIdMatch(images[..j], x, name);
    }
  }

  // ---------------------------------------------------------------------
  // Name resolution in image_delete and image_show


  /** The id left after the loop that reassigns `id` on every image named `name`. */
  function LastMatch(images: seq<Image>, name: string, id: Option<string>): Option<string>
  {
    if images == [] then id
    else if images[|images| - 1].name == Some(name) then Some(images[|images| - 1].id)
    else LastMatch(images[..|images| - 1], name, id)
  }

  method ResolveId(images: seq<Image>, id: Option<string>, name: string) returns (resolved: Option<string>)
    ensures resolved == LastMatch(images, name, id)
  {
    resolved := id;
    for i := 0 to |images|
      invariant resolved == LastMatch(images[..i], name, id)
    {
      assert images[..i + 1][..i] == images[..i];
      if images[i].name == Some(name) {
        resolved := Some(images[i].id);
      }
    }
    assert images[..|images|] == images;
  }

  /**
   * The id of the last image with the name wins; with no image of that
   * name the given id is kept.
   */
  lemma {:induction false} LastMatchWins(images: seq<Image>, name: string, id: Option<string>)
    ensures (forall k :: 0 <= k < |images| ==> images[k].name != Some(name)) ==> LastMatch(images, name, id) == id
    ensures forall j :: 0 <= j < |images| && images[j].name == Some(name)
                        && (forall k :: j < k < |images| ==> images[k].name != Some(name)) ==>
              LastMatch(images, name, id) == Some(images[j].id)
  {
    if images != [] {
      var init := images[..|images| - 1];
      LastMatchWins(init, name, id);
      forall j | 0 <= j < |init| && init[j].name == Some(name) && (forall k :: j < k < |init| ==> init[k].name != Some(name))
        ensures init[j] == images[j]
      {
      }
      if images[|images| - 1].name != Some(name) {
        forall j | 0 <= j < |images| && images[j].name == Some(name)
                   && (forall k :: j < k < |images| ==> images[k].name != Some(name))
          ensures LastMatch(images, name, id) == Some(images[j].id)
        {
          assert init[j] == images[j];
          assert forall k :: j < k < |init| ==> init[k] == images[k];
        }
        if forall k :: 0 <= k < |images| ==> images[k].name != Some(name) {
          assert forall k :: 0 <= k < |init| ==> init[k] == images[k];
        }
      }
    }
  }

  /** The id image_delete and image_show act on. */
  function Target(images: seq<Image>, id: Option<string>, name: Option<string>): Option<string>
  {
    if Given(name) then LastMatch(images, name.value, id) else id
  }

  /** The answer and the ids passed to the client's `delete` or `get`. */
  datatype Exchange = Exchange(answer: Answer<Dict>, calls: seq<Option<string>>)

  /** image_delete, branch by branch. */
  function DeleteSpec(images: seq<Image>, id: Option<string>, name: Option<string>, reply: ClientReply): Exchange
  {
    var target := Target(images, id, name);
    if !Given(target) then
      Exchange(Returned(Failure("Unable to resolve image id for name " + Text(name))), [])
    else
      // Without a name, the placeholder image's `None` is reported.
      var shownName := if Given(name) then name else None;
      var answer := match reply
        case NotFound => Returned(Failure("No image with ID " + Text(target)))
        case Forbidden(message) => Returned(Failure(message))
        case Failed => Raised(ClientError)
        case Done(_) => Returned(Success("Deleted image '" + Text(shownName) + "' (" + Text(target) + ")."));
      Exchange(answer, [target])
  }

  method ImageDelete(images: seq<Image>, id: Option<string>, name: Option<string>, reply: ClientReply)
    returns (answer: Answer<Dict>, calls: seq<Option<string>>)
    ensures Exchange(answer, calls) == DeleteSpec(images, id, name, reply)
  {
    var target := id;
    var shownName := name;
    if Given(name) {
      target := ResolveId(images, id, name.value);
    } else {
      shownName := None;
    }
    if !Given(target) {
      return Returned(Failure("Unable to resolve image id for name " + Text(name))), [];
    }
    calls := [target];
    match reply {
      case NotFound =>
        answer := Returned(Failure("No image with ID " + Text(target)));
      case Forbidden(message) =>
        answer := Returned(Failure(message));
      case Failed =>
        answer := Raised(ClientError);
      case Done(_) =>
        answer := Returned(Success("Deleted image '" + Text(shownName) + "' (" + Text(target) + ")."));
    }
  }

  /** image_show, branch by branch. */
  function ShowSpec(images: seq<Image>, id: Option<string>, name: Option<string>, schema: Dict, reply: ClientReply): Exchange
  {
    var target := Target(images, id, name);
    if !Given(target) then
      Exchange(Returned(Failure("Unable to resolve image ID for name '" + Text(name) + "'")), [])
    else
      var answer := match reply
        case NotFound => Returned(Failure("No image with ID " + Text(target)))
        case Done(image) => Returned(Projected(schema.keys, image))
        case _ => Raised(ClientError);
      Exchange(answer, [target])
  }

  method ImageShow(images: seq<Image>, id: Option<string>, name: Option<string>, schema: Dict, reply: ClientReply)
    returns (answer: Answer<Dict>, calls: seq<Option<string>>)
    ensures Exchange(answer, calls) == ShowSpec(images, id, name, schema, reply)
  {
    var target := id;
    if Given(name) {
      target := ResolveId(images, id, name.value);
    }
    if !Given(target) {
      return Returned(Failure("Unable to resolve image ID for name '" + Text(name) + "'")), [];
    }
    calls := [target];
    match reply {
      case NotFound =>
        answer := Returned(Failure("No image with ID " + Text(target)));
      case Done(image) =>
        var details := CopyPresent(Empty(), schema.keys, image);
        answer := Returned(details);
      case _ =>
        answer := Raised(ClientError);
    }
  }

  /** `{'result': ...}` of a returned record. */
  function ResultFlag(d: Dict): Value
  {
    if "result" in d.vals then d.vals["result"] else VNone
  }

  /**
   * Resolution in image_delete and image_show: when no id is left after
   * resolution (no id given and no image carries the name, or neither an
   * id nor a name given) the call is refused with "Unable to resolve…"
   * without calling the client; otherwise the client is called once, with
   * the resolved id, and the delete reports success exactly when the
   * client's delete returned.
   */
  lemma ResolutionTable(images: seq<Image>, id: Option<string>, name: Option<string>, schema: Dict, reply: ClientReply)
    ensures !Given(id) && (!Given(name) || forall k :: 0 <= k < |images| ==> images[k].name != name) ==>
              !Given(Target(images, id, name))
    ensures !Given(Target(images, id, name)) ==>
              && DeleteSpec(images, id, name, reply)
                 == Exchange(Returned(Failure("Unable to resolve image id for name " + Text(name))), [])
              && ShowSpec(images, id, name, schema, reply)
                 == Exchange(Returned(Failure("Unable to resolve image ID for name '" + Text(name) + "'")), [])
    ensures Given(Target(images, id, name)) ==>
              && DeleteSpec(images, id, name, reply).calls == [Target(images, id, name)]
              && ShowSpec(images, id, name, schema, reply).calls == [Target(images, id, name)]
    ensures var d := DeleteSpec(images, id, name, reply);
            d.answer.Returned? ==> (ResultFlag(d.answer.value) == VBool(true) <==> d.calls != [] && reply.Done?)
    ensures var d := DeleteSpec(images, id, name, reply);
            d.answer.Returned? && ResultFlag(d.answer.value) == VBool(false) ==> "comment" in d.answer.value.vals
  {
    if Given(name) {
      LastMatchWins(images, name.value, id);
    }
  }

  // ---------------------------------------------------------------------
  // image_update

  /** The `to_update` entries for the first `n` keyword arguments, in order. */
  function Changes(kwargs: Dict, image: Dict, n: nat): Dict
    requires n <= |kwargs.keys|
  {
    if n == 0 then Empty()
    else
      var prev := Changes(kwargs, image, n - 1);
      var key := kwargs.keys[n - 1];
      var value := kwargs.vals[key];
      if Private(key) then prev
      else if key !in image.vals || !Eq(image.vals[key], value) then Put(prev, key, value)
      else prev
  }

  function ToUpdate(kwargs: Dict, image: Dict): Dict
  {
    Changes(kwargs, image, |kwargs.keys|)
  }

  /** `key.startswith('_')`: Salt's own keyword arguments, never sent. */
  predicate Private(key: string)
  {
    |key| > 0 && key[0] == '_'
  }

  /** A keyword argument image_update sends. */
  predicate Sends(key: string, kwargs: Dict, image: Dict)
  {
    key in kwargs.vals && !Private(key) && (key !in image.vals || !Eq(image.vals[key], kwargs.vals[key]))
  }

  /** Key by key: `k` is among the first `n` entries exactly when it is sent. */
  lemma {:induction false} ChangesMember(kwargs: Dict, image: Dict, n: nat, k: string)
    requires n <= |kwargs.keys|
    ensures k in Changes(kwargs, image, n).vals <==> k in kwargs.keys[..n] && Sends(k, kwargs, image)
  {
    if n == 0 {
      assert kwargs.keys[..0] == [];
    } else {
      ChangesMember(kwargs, image, n - 1, k);
      ChangesStep(kwargs, image, n, k);
      PrefixMember(kwargs.keys, n, k);
      StepCombines(k in Changes(kwargs, image, n).vals, k in Changes(kwargs, image, n - 1).vals,
                   k in kwargs.keys[..n], k in kwargs.keys[..n - 1], k == kwargs.keys[n - 1],
                   Sends(k, kwargs, image));
    }
  }

  /** The induction step of ChangesMember, as a fact about truth values. */
  lemma StepCombines(now: bool, before: bool, among: bool, amongBefore: bool, isLast: bool, sent: bool)
    requires now <==> before || (isLast && sent)
    requires before <==> amongBefore && sent
    requires among <==> amongBefore || isLast
    ensures now <==> among && sent
  {
  }

  lemma PrefixMember(keys: seq<string>, n: nat, k: string)
    requires 0 < n <= |keys|
    ensures k in keys[..n] <==> k in keys[..n - 1] || k == keys[n - 1]
  {
    assert keys[..n] == keys[..n - 1] + [keys[n - 1]];
  }

  /** The `n`-th argument adds its own key, when it is sent, and no other. */
  lemma ChangesStep(kwargs: Dict, image: Dict, n: nat, k: string)
    requires 0 < n <= |kwargs.keys|
    ensures k in Changes(kwargs, image, n).vals
            <==> k in Changes(kwargs, image, n - 1).vals || (k == kwargs.keys[n - 1] && Sends(k, kwargs, image))
  {
    assert kwargs.keys[n - 1] in kwargs.vals;
  }

  /** An entry carries its argument's value. */
  lemma {:induction false} ChangesValue(kwargs: Dict, image: Dict, n: nat, k: string)
    requires n <= |kwargs.keys| && k in kwargs.vals
    ensures k in Changes(kwargs, image, n).vals ==> Changes(kwargs, image, n).vals[k] == kwargs.vals[k]
  {
    if n > 0 {
      ChangesValue(kwargs, image, n - 1, k);
    }
  }

  /**
   * image_update sends exactly the arguments that do not start with `_`
   * and that the image lacks or holds with a value not `==` to it, with the
   * argument's value: a key the image already agrees on is never sent.
   */
  lemma ToUpdateExact(kwargs: Dict, image: Dict)
    ensures forall k :: k in ToUpdate(kwargs, image).vals <==> Sends(k, kwargs, image)
    ensures forall k :: k in ToUpdate(kwargs, image).vals ==> k in kwargs.vals && ToUpdate(kwargs, image).vals[k] == kwargs.vals[k]
    ensures forall k :: k in kwargs.vals && k in image.vals && Eq(image.vals[k], kwargs.vals[k]) ==>
              k !in ToUpdate(kwargs, image).vals
  {
    assert kwargs.keys[..|kwargs.keys|] == kwargs.keys;
    forall k
      ensures k in ToUpdate(kwargs, image).vals <==> Sends(k, kwargs, image)
      ensures k in ToUpdate(kwargs, image).vals ==> k in kwargs.vals && ToUpdate(kwargs, image).vals[k] == kwargs.vals[k]
    {
      ChangesMember(kwargs, image, |kwargs.keys|, k);
      if k in kwargs.vals {
        ChangesValue(kwargs, image, |kwargs.keys|, k);
      }
    }
  }

  /** The loop that fills `to_update`. */
  method BuildToUpdate(kwargs: Dict, image: Dict) returns (toUpdate: Dict)
    ensures toUpdate == ToUpdate(kwargs, image)
  {
    toUpdate := Empty();
    for i := 0 to |kwargs.keys|
      invariant toUpdate == Changes(kwargs, image, i)
    {
      var key := kwargs.keys[i];
      var value := kwargs.vals[key];
      if Private(key) {
        continue;
      }
      if key !in image.vals || !Eq(image.vals[key], value) {
        toUpdate := Put(toUpdate, key, value);
      }
    }
  }

  /** The image image_update works on, or what it returns or raises before the update. */
  datatype Located = Use(image: Dict) | Stop(answer: Answer<Dict>)

  function Locate(images: seq<Image>, id: Option<string>, name: Option<string>, schema: Dict, getReply: ClientReply): Located
  {
    if Given(id) then
      match ShowSpec(images, id, None, schema, getReply).answer
      case Raised(f) => Stop(Raised(f))
      case Returned(image) =>
        if "result" in image.vals && !Truthy(image.vals["result"]) then Stop(Returned(image))
        // `image.values()[0]` raises, since a values view is not subscriptable.
        else if |image.keys| == 1 then Stop(Raised(TypeError))
        else Use(image)
    else if Given(name) then
      var found := Listed(images, None, name);
      if |found| == 0 then Stop(Returned(Failure("No image with name '" + name.value + "' found.")))
      else if |found| == 1 then Use(found[0])
      // Several matches leave `image` unbound.
      else Stop(Raised(UnboundLocalError))
    // Neither an id nor a name: SaltInvocationError.
    else Stop(Raised(InvocationError))
  }

  /** The answer and the `(image id, to_update)` passed to the client's `update`. */
  datatype UpdateExchange = UpdateExchange(answer: Answer<Dict>, sent: seq<(Value, Dict)>)

  function UpdateSpec(images: seq<Image>, id: Option<string>, name: Option<string>, kwargs: Dict,
                      schema: Dict, getReply: ClientReply, updateReply: ClientReply): UpdateExchange
  {
    match Locate(images, id, name, schema, getReply)
    case Stop(answer) => UpdateExchange(answer, [])
    case Use(image) =>
      if "id" !in image.vals then UpdateExchange(Raised(KeyError), [])
      else
        var answer := if updateReply.Done? then Returned(updateReply.value) else Raised(ClientError);
        UpdateExchange(answer, [(image.vals["id"], ToUpdate(kwargs, image))])
  }

  method ImageUpdate(images: seq<Image>, id: Option<string>, name: Option<string>, kwargs: Dict,
                     schema: Dict, getReply: ClientReply, updateReply: ClientReply)
    returns (answer: Answer<Dict>, sent: seq<(Value, Dict)>)
    ensures UpdateExchange(answer, sent) == UpdateSpec(images, id, name, kwargs, schema, getReply, updateReply)
  {
    var image: Dict;
    if Given(id) {
      var shown, _ := ImageShow(images, id, None, schema, getReply);
      if shown.Raised? {
        return shown, [];
      }
      image := shown.value;
      if "result" in image.vals && !Truthy(image.vals["result"]) {
        return shown, [];
      }
      if |image.keys| == 1 {
        return Raised(TypeError), [];
      }
    } else if Given(name) {
      var imgList := ImageList(images, None, name);
      if |imgList| == 0 {
        return Returned(Failure("No image with name '" + name.value + "' found.")), [];
      } else if |imgList| == 1 {
        image := imgList[0];
      } else {
        return Raised(UnboundLocalError), [];
      }
    } else {
      return Raised(InvocationError), [];
    }
    var toUpdate := BuildToUpdate(kwargs, image);
    if "id" !in image.vals {
      return Raised(KeyError), [];
    }
    sent := [(image.vals["id"], toUpdate)];
    answer := if updateReply.Done? then Returned(updateReply.value) else Raised(ClientError);
  }

  /**
   * image_update calls the client's update at most once, with exactly the
   * changed arguments; a name that no image carries, or that several
   * carry, sends nothing.
   */
  lemma UpdateSendsOnlyChanges(images: seq<Image>, id: Option<string>, name: Option<string>, kwargs: Dict,
                               schema: Dict, getReply: ClientReply, updateReply: ClientReply)
    ensures var u := UpdateSpec(images, id, name, kwargs, schema, getReply, updateReply);
            && |u.sent| <= 1
            && (u.sent != [] ==>
                  var image := Locate(images, id, name, schema, getReply).image;
                  && u.sent[0] == (image.vals["id"], ToUpdate(kwargs, image))
                  && (forall k :: k in u.sent[0].1.vals <==> Sends(k, kwargs, image)))
    ensures !Given(id) && Given(name) && |Named(images, name.value)| != 1 ==>
              UpdateSpec(images, id, name, kwargs, schema, getReply, updateReply).sent == []
  {
    if !Given(id) && Given(name) {
      ListByNameCollects(images, name.value);
    }
    var l := Locate(images, id, name, schema, getReply);
    if l.Use? {
      ToUpdateExact(kwargs, l.image);
    }
  }

  // ---------------------------------------------------------------------
  // image_create

  datatype CreateError =
    | PublicAndVisibility
    | CopyFromAndLocation
    | VisibilityNotAllowed
    | ContainerFormatNotAllowed
    | DiskFormatNotAllowed

  datatype Kwargs = Built(kwargs: Dict) | Refused(why: CreateError)

  /** The visibilities image_create accepts. */
  const CREATE_VISIBILITIES: seq<Value> := [VStr("public"), VStr("private")]

  /** `is_public` as image_create derives it. */
  function IsPublic(visibility: Value, isPublic: Value): Value
  {
    if isPublic != VNone then isPublic
    else if visibility != VNone then VBool(visibility == VStr("public"))
    else VBool(true)
  }

  /**
   * The `kwargs` image_create passes to the client, or the
   * SaltInvocationError it raises first. `None` is `VNone`.
   */
  function CreateArgs(location: Value, visibility: Value, containerFormat: Value, diskFormat: Value,
                      protected: Value, copyFrom: Value, isPublic: Value): (r: Kwargs)
    ensures r.Built? ==> r.kwargs.keys == ["copy_from", "is_public", "container_format", "disk_format"]
                                         + (if protected != VNone then ["protected"] else [])
  {
    if isPublic != VNone && visibility != VNone then Refused(PublicAndVisibility)
    else if copyFrom != VNone && location != VNone then Refused(CopyFromAndLocation)
    else if isPublic == VNone && visibility != VNone && visibility !in CREATE_VISIBILITIES then Refused(VisibilityNotAllowed)
    else if containerFormat !in GlanceValidate.CONTAINER_FORMATS then Refused(ContainerFormatNotAllowed)
    else if diskFormat !in GlanceValidate.DISK_FORMATS then Refused(DiskFormatNotAllowed)
    else
      var kwargs := RawDict(["copy_from", "is_public", "container_format", "disk_format"],
                            map["copy_from" := if copyFrom != VNone then copyFrom else location,
                                "is_public" := IsPublic(visibility, isPublic),
                                "container_format" := containerFormat,
                                "disk_format" := diskFormat]);
      Built(if protected != VNone then Put(kwargs, "protected", protected) else kwargs)
  }

  /**
   * When image_create refuses: `is_public` with `visibility`, or
   * `copy_from` with `location`, then a visibility other than public or
   * private, then an unlisted container or disk format.
   */
  lemma CreateArgsRefusals(location: Value, visibility: Value, containerFormat: Value, diskFormat: Value,
                           protected: Value, copyFrom: Value, isPublic: Value)
    ensures var r := CreateArgs(location, visibility, containerFormat, diskFormat, protected, copyFrom, isPublic);
            && (isPublic != VNone && visibility != VNone ==> r == Refused(PublicAndVisibility))
            && (!(isPublic != VNone && visibility != VNone) && copyFrom != VNone && location != VNone ==>
                  r == Refused(CopyFromAndLocation))
            && (r.Built? <==>
                  && (isPublic == VNone || visibility == VNone)
                  && (copyFrom == VNone || location == VNone)
                  && (visibility == VNone || visibility in CREATE_VISIBILITIES)
                  && containerFormat in GlanceValidate.CONTAINER_FORMATS
                  && diskFormat in GlanceValidate.DISK_FORMATS)
  {
  }

  /**
   * What image_create passes: `copy_from` wins over `location`;
   * `is_public` as given, else false for a private visibility and true
   * otherwise; the formats as given; `protected` only when given.
   */
  lemma CreateArgsBuilt(location: Value, visibility: Value, containerFormat: Value, diskFormat: Value,
                        protected: Value, copyFrom: Value, isPublic: Value)
    requires CreateArgs(location, visibility, containerFormat, diskFormat, protected, copyFrom, isPublic).Built?
    ensures var k := CreateArgs(location, visibility, containerFormat, diskFormat, protected, copyFrom, isPublic).kwargs;
            && k.vals["copy_from"] == (if copyFrom != VNone then copyFrom else location)
            && k.vals["is_public"]
               == (if isPublic != VNone then isPublic
                   else if visibility == VStr("private") then VBool(false)
                   else VBool(true))
            && k.vals["container_format"] == containerFormat
            && k.vals["disk_format"] == diskFormat
            && ("protected" in k.vals <==> protected != VNone)
            && (protected != VNone ==> k.vals["protected"] == protected)
  {
    if isPublic == VNone && visibility != VNone {
      assert visibility == VStr("public") || visibility == VStr("private");
    }
  }

  /** With every argument left at its default, the image is public, `bare` and `raw`. */
  lemma CreateArgsDefaults()
    ensures CreateArgs(VNone, VNone, VStr("bare"), VStr("raw"), VNone, VNone, VNone)
            == Built(RawDict(["copy_from", "is_public", "container_format", "disk_format"],
                             map["copy_from" := VNone, "is_public" := VBool(true),
                                 "container_format" := VStr("bare"), "disk_format" := VStr("raw")]))
  {
    assert VStr("bare") == GlanceValidate.CONTAINER_FORMATS[3];
    assert VStr("raw") == GlanceValidate.DISK_FORMATS[5];
  }
}
