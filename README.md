# salt-formula-glance, modelled in Dafny

This project models the two self-contained cores of the Salt formula that manages
OpenStack Glance images:

- **The image states** (`_states/glancev2.py`):
  - `image_present` looks the image up by name.
    - When it is missing, it submits an import task and polls the task's status against
      a timeout budget. It then re-reads the image and checks the optional checksum.
    - When the image exists, it computes a JSON-patch (RFC 6902, sections 4.1 and 4.3)
      of `add`/`replace` operations. Paths are escaped as section 3 of RFC 6901 says.
  - `image_absent` is the idempotent delete.
  - The `_created` … `_find_failed` helpers build the `{name, changes, result, comment}`
    record of every outcome.
- **The execution module helpers** (`_modules/glanceng.py`):
  - the validators of image and import-task parameters;
  - the `kwargs` that `image_create` builds;
  - the record `_add_image` builds, and the id and name filters of `image_list`;
  - the last-match-wins name resolution of `image_delete` and `image_show`;
  - the `to_update` diff of `image_update`;
  - the schema projection of `task_show` and `task_list`.

Python values are the `Values.Value` datatype, and Python `==` on them is `Values.Eq`.
Dictionaries are `Values.Dict`: an insertion-ordered key sequence plus a map. The order
matters because patch operations and projected records follow dictionary order. It is
the dictionary order of Python 3.7 and later. Under Python 2, which the source also
supports (`image.values()[0]` at `_modules/glanceng.py:585`), dictionaries iterate in
hash order. There the order claims fail: desired-key order of patch operations, schema
order of projections, list order of appended keys, first-occurrence order of task ids.
The claims about contents still hold.

The REST client is an input, not code:

- For the states, `GlanceState.Cloud` gives the reply of each call (`Ok` or an error
  kind). The n-th `task_show` reply is a function of n.
- For the execution module, `images` is the image list and a `ClientReply` is the answer
  of the one `get`, `delete` or `update` call.

The operations that call the client more than once, or not at all on some paths, return
the calls they made: the states `ImagePresent` and `ImageAbsent`, `PollTask`, and
`ImageDelete`, `ImageShow` and `ImageUpdate`. So "no delete", "no update" and "no
polling" can be stated. The other operations (`TaskShow`, `TaskList`, `ImageList`,
`AddImage`, `CreateArgs`) work on the one reply or list they are given, or make no call
at all, so they return no trace. A Python exception that escapes is an explicit outcome (`Crashed`,
`Raised`), never an invented result.

The functions that loop in the source are methods with loop invariants. Each is proved
equal to a specification function:

| method | specification function |
|---|---|
| `PollTask` | `Poll` |
| `BuildPatch` | `Patch` |
| `CreateByImport` | `CreatePath` |
| `ImagePresent` | `Present` |
| `ImageList` | `Listed` |
| `ResolveId` | `LastMatch` |
| `BuildToUpdate` | `ToUpdate` |
| `CopyPresent` | `WithPresent` |
| `TaskList` | `Listing` |

The properties are proved about those functions.

The comments of the result records are exactly as the source builds them.
`_created`, `_updated`, `_no_changes` and `_deleted` put no space between the resource
and the name, so the comment reads `imagefoo created`.

## Model

| member | source | states |
|---|---|---|
| JsonPointer.EscapeWellEscaped | _states/glancev2.py:142 | The escaped key holds no `/`, and every `~` in it is followed by `0` or `1` (RFC 6901 section 3). |
| JsonPointer.EscapeIsEscapeEach | _states/glancev2.py:142 | Replacing `~` by `~0` first and `/` by `~1` second equals escaping each character separately. Doing it the other way round is the classic error this order avoids. |
| JsonPointer.UnescapeEscape | _states/glancev2.py:142 | Decoding as RFC 6901 section 4 says (`~1`→`/`, then `~0`→`~`) recovers the key. |
| JsonPointer.EscapeInjective | _states/glancev2.py:142 | Distinct keys get distinct escaped tokens, so two properties never share a patch path. |
| JsonPointer.EscapePlain | _states/glancev2.py:142 | A key without `~` or `/` is its own path token. |
| JsonPatch.BuildPatch | _states/glancev2.py:140-155 | The `for prop` loop produces exactly `Patch(desired, observed)`. |
| JsonPatch.DiffSound | _states/glancev2.py:141-155 | Every operation is justified by a desired key `k`. Its path is `"/" + escape(k)` and its value is the desired value. It is `add` when the image lacks `k`, and `replace` when the image holds a different value. |
| JsonPatch.DiffComplete | _states/glancev2.py:141-155 | Every desired key that is missing or different gets an operation. |
| JsonPatch.DiffAppend | _states/glancev2.py:141 | Operations come in desired-key order: the diff of `a + b` is the diff of `a` followed by the diff of `b`. |
| JsonPatch.DiffEmptyWhenAgree | _states/glancev2.py:143-144 | Keys the image already holds with a value `==` to the desired one contribute nothing. |
| JsonPatch.PatchTouchesOnlyDesired | _states/glancev2.py:140-155 | No operation is `remove`. No path names a key that is not desired, such as an observed-only key. |
| JsonPatch.PatchEmptyIffAgrees | _states/glancev2.py:140-156 | The patch is empty exactly when the image agrees with every desired property. |
| JsonPatch.PatchExample | _states/glancev2.py:140-155 | Observed `{tags: [a], visibility: public}` and desired `{tags: [a, b], owner: x}` give `[replace /tags [a, b], add /owner x]`. |
| JsonPatch.PatchConverges | _states/glancev2.py:140-165 | Applying the patch with RFC 6902 add/replace semantics always succeeds. Each desired key then holds the desired value, or the observed value when that was already `==` to it. The result agrees with the desired properties and keeps every observed-only key. Diffing again gives an empty patch. |
| Values.EqRefl | _states/glancev2.py:144 | Python `==` is reflexive on every value, nested lists and dicts included. |
| Values.DictEqIgnoresOrder | _modules/glanceng.py:609 | Two dicts with the same mapping are `==` whatever their key order. |
| StateResults.HelperOutcomes | _states/glancev2.py:189-271 | Each `*_failed` helper has `result` false, empty `changes` and its suffix. The others have `result` true and carry the given definition or `{}`. |
| GlanceState.PollTask | _states/glancev2.py:77-97 | The `while timeout > 0` loop ends as `Poll` says: `success` (break), `failure`, a raising `task_show`, or a spent budget. `task_show` gets the ids in order. |
| GlanceState.MaxShowsIsCeiling | _states/glancev2.py:77-85 | The call bound `MaxShows(timeout, sleep)` is ceil(timeout / sleep): `(n-1)*sleep < timeout <= n*sleep`. |
| GlanceState.DefaultBudget | _states/glancev2.py:23-25 | The defaults `timeout=30` and `sleep_time=5` allow 6 status calls. |
| GlanceState.PollShowsAtMost | _states/glancev2.py:77-97 | Whatever the service answers, at most ceil(timeout / sleep) `task_show` calls are made. |
| GlanceState.PollExitInvariant | _states/glancev2.py:77-98 | When the loop ends normally, the status is `success` or `timeout <= 0`. |
| GlanceState.PollPendingForever | _states/glancev2.py:77-91 | A task that stays pending is polled exactly ceil(timeout / sleep) times, and the loop ends with the budget spent. |
| GlanceState.VerifyChecksum | _states/glancev2.py:114-137 | The checksum table: <br>- With a checksum, an `active` image whose checksum is missing or different gives `result=False`. <br>- `saving`/`queued` keep `result=True` and append the advisory. <br>- Another status, or no checksum, gives the `_created` record. <br>- A missing `status` raises KeyError. |
| GlanceState.CreateByImport | _states/glancev2.py:59-137 | The create path, step by step, equals `CreatePath`: name injection, the task, polling, the re-list and the checksum. |
| GlanceState.ImagePresent | _states/glancev2.py:54-166 | `image_present` equals `Present`, on every branch of the lookup. |
| GlanceState.ImageAbsent | _states/glancev2.py:169-186 | - Not found: `result=True`, "not present", no delete. <br>- Multiple matches: `_find_failed`, no delete. <br>- Otherwise exactly one delete call, then `_deleted`, or `_delete_failed` when it raises. <br>- A failure has no changes. |
| GlanceStateProps.CreateClassification | _states/glancev2.py:59-112 | `name` is injected into the task's image properties. <br>- `task_create` raising is an `image_task` failure with no polling. <br>- `task_show` raising is an `image_task` failure. <br>- A `failure` status, or a spent budget without `success`, is an `image` failure and no re-list is made. <br>- Only `success` re-lists the image. |
| GlanceStateProps.PresentPollsAtMost | _states/glancev2.py:77-97 | A whole `image_present` run makes at most ceil(timeout / sleep) `task_show` calls. |
| GlanceStateProps.CreatePathShowsAtMost | _states/glancev2.py:59-112 | The create path makes at most ceil(timeout / sleep) `task_show` calls. |
| GlanceStateProps.UpdatePathShowsNothing | _states/glancev2.py:140-166 | The update path makes no `task_show` call. |
| GlanceStateProps.PendingTaskTimesOut | _states/glancev2.py:77-103 | A task that never finishes gives the `image` create failure after exactly ceil(timeout / sleep) polls. |
| GlanceStateProps.DefaultTimeoutPollsSixTimes | _states/glancev2.py:23-103 | With the defaults 30/5, a task that never finishes is polled 6 times, then the create fails. |
| GlanceStateProps.UpdatePathTable | _states/glancev2.py:140-166 | An image agreeing on every desired key gets no update call and the "is in desired state" record with `result=True` and `{}`. Otherwise exactly the patch is sent, and the result is `_updated` or `_update_failed`. |
| GlanceStateProps.SecondRunFindsDesiredState | _states/glancev2.py:140-166 | Run again after the service applied the patch, `image_present` reports no changes and sends nothing. |
| GlanceStateProps.AmbiguousNameChangesNothing | _states/glancev2.py:138-139 | Several images of the name give `_find_failed`, and nothing but the lookup is called. |
| GlanceStateProps.NoPartialSuccess | _states/glancev2.py:54-166 | Every failure record has empty changes. A "created" record means the task reached `success` and the first listed image is reported. If a checksum was asked for and the image is `active`, the checksum matches. |
| GlanceValidate.ValidateImageParams | _modules/glanceng.py:109-137 | Accepts exactly when four conditions hold: <br>- visibility is `None` or public/private/shared/community; <br>- container format is one of 5 (default `bare`); <br>- disk format is one of 9 (default `raw`); <br>- tags are falsy or a list. <br>The first failing check names the reason. |
| GlanceValidate.ImageParamsIgnoreOthers | _modules/glanceng.py:109-110 | Any other keyword argument leaves the verdict unchanged. |
| GlanceValidate.ImageParamsDefaultsPass | _modules/glanceng.py:109-110 | With no arguments, the defaults are accepted. |
| GlanceValidate.ValidateTaskParams | _modules/glanceng.py:140-159 | A task type other than `import` is rejected first. Then the set of missing required parameters is reported. |
| GlanceValidate.TaskParamsAcceptedIff | _modules/glanceng.py:161-171 | With the three parameters present, the task is accepted exactly when: <br>- `import_from` starts with `http://` or `https://`; <br>- the format is one of the 9; <br>- `image_properties` is a dict that passes the image validator. |
| GlanceValidate.LocalSourceRefused | _modules/glanceng.py:164-166 | A local path as the source is refused. |
| GlanceClient.WithPresentExact | _modules/glanceng.py:217-219 | Copying the present keys adds exactly the listed keys the source record holds, with its values. Fresh keys are appended in list order. |
| GlanceClient.ProjectedExact | _modules/glanceng.py:214-220 | The projection holds exactly the schema keys present in the record, with the values unchanged, in schema order. |
| GlanceClient.CopyPresent | _modules/glanceng.py:217-219 | The key loop computes `WithPresent`. |
| GlanceTasks.TaskShow | _modules/glanceng.py:193-220 | An unknown id gives `{'result': False, 'comment': 'No task with ID …'}`. A found task gives its schema projection. Any other client error propagates. |
| GlanceTasks.TaskList | _modules/glanceng.py:223-242 | The loop computes `Listing`. |
| GlanceTasks.ListingRaisedIff | _modules/glanceng.py:236-241 | `task_list` raises KeyError exactly when some task has no `id`. |
| GlanceTasks.ListingKeys | _modules/glanceng.py:236-241 | The result is keyed by exactly the ids of the listed tasks. |
| GlanceTasks.ListingIdsOnce | _modules/glanceng.py:241 | Each id appears once, exactly the stored ids appear, and they come in order of first occurrence (`FirstIds`: the ids of the tasks whose id no earlier task has, in list order). |
| GlanceTasks.ListingLastWins | _modules/glanceng.py:241 | Each entry is the projection of the last task with that id. |
| GlanceImages.RecordShape | _modules/glanceng.py:350-371 | A record lists the 12 fixed fields. Then `container_format`, `disk_format` and `size` each follow exactly when the image has them, with their values. Nothing else is in it. |
| GlanceImages.RecordFixedValues | _modules/glanceng.py:354-371 | The optional fields leave the fixed fields as `image_prep` set them. |
| GlanceImages.RecordIdentity | _modules/glanceng.py:354-356 | A record carries the image's id and its name (`None` when unnamed). |
| GlanceImages.AddImage | _modules/glanceng.py:350-375 | On a list collection, the image's record is appended. |
| GlanceImages.ImageList | _modules/glanceng.py:330-348 | The loop over `images.list()` computes `Listed`. This is `image_list` with the name test applied only when a name is asked for (see Findings). |
| GlanceImages.ListAllInOrder | _modules/glanceng.py:331-332 | With no filter, there is one record per image, in client order. |
| GlanceImages.ListByNameCollects | _modules/glanceng.py:337-346 | With only a name filter, every image of that name is listed, in order, and no other image. |
| GlanceImages.ListById | _modules/glanceng.py:333-336 | With an id filter, the listing returns right after the first id match. Before it, only images of the asked name are listed. With no name, the result is that one image, or nothing. |
| GlanceImages.AsWrittenAgrees | _modules/glanceng.py:330-346 | The listing as written and the corrected one agree whenever a name is asked for or no id is. |
| GlanceImages.IdFilterAddsNamelessImage | _modules/glanceng.py:337 | As written, `image_list(id=x)` also reports a nameless image met before the image with id `x`. |
| GlanceImages.ResolveId | _modules/glanceng.py:480-484 | The loop that reassigns `id` computes `LastMatch`. |
| GlanceImages.LastMatchWins | _modules/glanceng.py:480-484 | The id of the last image with the name wins. With no such image, the given id is kept. |
| GlanceImages.ImageDelete | _modules/glanceng.py:466-510 | `image_delete` equals `DeleteSpec`: resolution, the refusal when no id is left (with or without a name), the one delete call, and the NotFound, Forbidden and success records. |
| GlanceImages.ImageShow | _modules/glanceng.py:512-563 | `image_show` equals `ShowSpec`: resolution, the refusal when no id is left (with or without a name), the one get call, and the NotFound record or the schema projection. |
| GlanceImages.ResolutionTable | _modules/glanceng.py:480-499 | No id left after resolution (no id and no image of the name, or neither an id nor a name) gives "Unable to resolve…" with the name formatted as Python does (`None` when absent), and no client call. Otherwise the client is called once, with the resolved id. A delete reports `result` true exactly when the client's delete returned. |
| GlanceImages.BuildToUpdate | _modules/glanceng.py:605-611 | The `to_update` loop computes `ToUpdate`. |
| GlanceImages.ToUpdateExact | _modules/glanceng.py:605-611 | `to_update` holds exactly the arguments that do not start with `_` and that the image lacks or holds with a value not `==` to them, each with the argument's value. A key already `==` is never sent. |
| GlanceImages.ImageUpdate | _modules/glanceng.py:565-622 | `image_update` equals `UpdateSpec`: lookup by id or by name, the early returns and raises, the diff, and then the one update call. Several images of the name raise UnboundLocalError (`image` is never bound). Neither an id nor a name raises SaltInvocationError. |
| GlanceImages.UpdateSendsOnlyChanges | _modules/glanceng.py:586-613 | At most one update is sent, with the image's id and exactly the changed arguments. A name carried by no image, or by several, sends nothing. |
| GlanceImages.CreateArgs | _modules/glanceng.py:410-458 | The built `kwargs` have exactly the keys `copy_from`, `is_public`, `container_format`, `disk_format`, plus `protected` when it is given. |
| GlanceImages.CreateArgsRefusals | _modules/glanceng.py:425-456 | `image_create` refuses when `is_public` comes with `visibility`, or `copy_from` with `location`, in that order. It builds `kwargs` exactly when there is no conflict, the visibility is public or private, and both formats are listed. |
| GlanceImages.CreateArgsBuilt | _modules/glanceng.py:431-458 | `copy_from` wins over `location`. `is_public` is taken as given; otherwise it is false for `private` and true for `public` or no visibility. The formats are passed through. `protected` is included only when it is not `None`. |
| GlanceImages.CreateArgsDefaults | _modules/glanceng.py:383-385 | With every argument at its default, the image is public, `bare` and `raw`, with no source. |

## Left out

- Authentication and client construction (`_auth`, the `keystoneng` calls, `client.Client`, profiles, `cloud_name`) are foreign calls. The client is an input.
- The REST wrappers of `_modules/glancev2/` (`image_get_details`, `task_create`, `task_show`, `image_list`, `image_update`, `image_delete`) are URL builders around a `send` helper that is not part of this model. Their replies are the fields of `GlanceState.Cloud`.
- `time.sleep`, logging, `pprint` and `warn_until` are side effects. Sleeping is not modelled.
- The `CUR_VER < BORON` return shapes: the dict collection of `image_list`, its "More than one image" record, and the wrapped returns of `image_show` and `image_update`. Only the 2016.3-and-later shapes are modelled, and with them the `TypeError` branch of `_add_image`.
- Error classification by `repr(e)` substrings is the `ErrorKind` enumeration.
- Values.Eq: Python `==` without floats. `1 == 1.0` and other float comparisons are not modelled.
- Values.RawDict: a dict nested inside a value is not required to be well formed. Only its mapping takes part in `Eq`, so its key order never matters.
- GlanceState.ImportParams: a new dictionary replaces the in-place `image_properties['name'] = name`. The aliasing with the caller's dictionary is not captured.
- GlanceState.Task: task records are typed (`id` and `status` strings). A task without `status` is not modelled.
- GlanceState.Poll: requires `sleep_time > 0`. With `sleep_time <= 0` and a pending task, the source loop never ends. `image_present` needs this only on the create path, when the lookup reports the image missing.
- GlanceState.Poll: `timeout` and `sleep_time` are integers. Fractional values such as `sleep_time=0.5` are not modelled.
- GlanceImages.CreateArgs: only the argument logic of `image_create` is modelled. The client's `images.create` call and the `image_show` that follows are the client's.
- GlanceImages.Image: the 12 fixed attributes are always present; an AttributeError for a missing attribute is not modelled. `attr in image` looks only at the extra properties.
- GlanceImages.Locate: when the image found by id has a single key, `image.values()[0]` raises TypeError under Python 3, as the model says. Only under Python 2 would the source carry on with that key's value (the pre-2016.3 unwrap), and for a dict value go on and update. That Python 2 path is not modelled.
- GlanceImages.ImageUpdate: `img_list is dict` is always false in the source, so that branch is absent.
- GlanceValidate.ValidateTaskParams: of a SaltInvocationError, only the reason is modelled, not the message text (nor the set order of the missing names).
- GlanceTasks.TaskTable: task ids key the table by structural `Value` equality. A Python dict would merge `True` and `1` into one key and raise TypeError on a list or dict id. Glance task ids are strings, for which the two agree.
- GlanceTasks.TaskShow: the schema is the property dictionary that `schema_get` wraps under one key. So the `len(schema.keys()) == 1` unwrap always applies. `schema_get` and `image_schema` are the client's.
- `get_image_owner_id`, `_item_list` and the `task_create` of the execution module are client glue with no logic of their own. They are not modelled.

## Findings

| source | as written | input that shows it | evidently intended | confidence | as-written member | corrected member |
|---|---|---|---|---|---|---|
| _modules/glanceng.py:337 | The name test `name == image.name` also runs when only `id` is given. With `name=None` it matches every nameless image before the id match. | `image_list(id='b')` over `[{id: 'a', name: None}, {id: 'b', name: 'web'}]` lists both images | Only the image with id `'b'` | not executed; medium (Glance allows images without a name) | GlanceImages.IdFilterAddsNamelessImage | GlanceImages.ListById |
