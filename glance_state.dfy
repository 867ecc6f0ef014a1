/**
 * The declarative image states: `image_present` (create through an import
 * task and poll it, or patch an existing image) and `image_absent`.
 *
 * The glancev2 REST module is a collaborator whose replies are an input
 * (`Cloud`); every state returns the list of calls it made to it, so that
 * "no task is polled", "nothing is deleted", "no update is sent" are
 * statable. Python exceptions that escape a state are `Crashed` outcomes.
 */
module GlanceState {
  import opened Values
  import opened JsonPatch
  import opened StateResults

  /** How a collaborator error is classified (`'ResourceNotFound' in repr(e)`, ...). */
  datatype ErrorKind = ResourceNotFound | MultipleResourcesFound | OtherError

  datatype Reply<T> = Ok(value: T) | Raise(kind: ErrorKind)

  /** The task record: `task['id']`, `task['status']`. */
  datatype Task = Task(id: string, status: string)

  /** `task_params` of the import task. */
  datatype TaskParams = TaskParams(importFrom: string, importFromFormat: string, imageProperties: Dict)

  /** What the glancev2 module answers, call by call. */
  datatype Cloud = Cloud(
    details: Reply<Dict>,          // image_get_details(name)
    taskCreate: Reply<Task>,       // task_create(...)
    taskShow: nat -> Reply<Task>,  // the n-th task_show call, counting from 0
    listed: Reply<seq<Dict>>,      // image_list(name)['images']
    update: Reply<Dict>,           // image_update(name, properties)
    delete: Reply<Dict>)           // image_delete(name)

  datatype Call =
    | GetDetails(name: string)
    | CreateTask(taskType: string, input: TaskParams)
    | ShowTask(taskId: string)
    | ListImages(name: string)
    | UpdateImage(name: string, ops: seq<PatchOp>)
    | DeleteImage(name: string)

  /** A Python exception that escapes the state function. */
  datatype Crash = Threw(exception: Exception) | Uncaught(kind: ErrorKind)

  datatype Outcome = Returned(result: StateResult) | Crashed(crash: Crash)

  datatype Run = Run(outcome: Outcome, calls: seq<Call>)

  const ADVISORY := " checksum couldn't be verified, since status is not active"

  // ---------------------------------------------------------------------
  // Task poller

  /** How the polling loop ends. */
  datatype PollExit =
    | Completed(task: Task, budget: int)  // the loop ran out or broke on 'success'
    | TaskFailed                          // a 'failure' status was seen
    | ShowFailed                          // task_show raised

  /** The exit and the ids passed to task_show, in order. */
  datatype PollEnd = PollEnd(exit: PollExit, shown: seq<string>)

  /**
   * The `while timeout > 0` loop from task `task` with `budget` left, when
   * `n` task_show calls have been made before.
   */
  function Poll(cloud: Cloud, task: Task, budget: int, sleep: int, n: nat): PollEnd
    requires sleep > 0
    decreases if budget > 0 then budget else 0
  {
    if budget <= 0 || task.status == "success" then PollEnd(Completed(task, budget), [])
    else if task.status == "failure" then PollEnd(TaskFailed, [])
    else
      match cloud.taskShow(n)
      case Raise(_) => PollEnd(ShowFailed, [task.id])
      case Ok(next) =>
        var rest := Poll(cloud, next, budget - sleep, sleep, n + 1);
        PollEnd(rest.exit, [task.id] + rest.shown)
  }

  /** The status loop; `time.sleep` between two task_show calls is not modelled. */
  method PollTask(cloud: Cloud, task: Task, timeout: int, sleep: int) returns (exit: PollExit, shown: seq<string>)
    requires sleep > 0
    ensures PollEnd(exit, shown) == Poll(cloud, task, timeout, sleep, 0)
  {
    var current, budget, n := task, timeout, 0;
    shown := [];
    while budget > 0
      invariant n == |shown|
      invariant Poll(cloud, task, timeout, sleep, 0)
                == var e := Poll(cloud, current, budget, sleep, n); PollEnd(e.exit, shown + e.shown)
      decreases if budget > 0 then budget else 0
    {
      if current.status == "success" {
        break;
      } else if current.status == "failure" {
        return TaskFailed, shown;
      } else {
        PollStep(cloud, current, budget, sleep, n);
        budget := budget - sleep;
        var reply := cloud.taskShow(n);
        ghost var before := shown;
        shown, n := shown + [current.id], n + 1;
        match reply
        case Raise(_) =>
          return ShowFailed, shown;
        case Ok(next) =>
          assert before + ([current.id] + Poll(cloud, next, budget, sleep, n).shown)
              == shown + Poll(cloud, next, budget, sleep, n).shown;
          current := next;
      }
    }
    exit := Completed(current, budget);
  }

  /** One task_show call of the status loop. */
  lemma PollStep(cloud: Cloud, task: Task, budget: int, sleep: int, n: nat)
    requires sleep > 0 && budget > 0 && task.status != "success" && task.status != "failure"
    ensures cloud.taskShow(n).Raise? ==> Poll(cloud, task, budget, sleep, n) == PollEnd(ShowFailed, [task.id])
    ensures cloud.taskShow(n).Ok? ==>
              var rest := Poll(cloud, cloud.taskShow(n).value, budget - sleep, sleep, n + 1);
              Poll(cloud, task, budget, sleep, n) == PollEnd(rest.exit, [task.id] + rest.shown)
  {
  }

  /**
   * How many times `sleep` can be taken from `budget` while it stays
   * positive: ceil(budget / sleep) for a positive budget, 0 otherwise.
   */
  function MaxShows(budget: int, sleep: int): nat
    requires sleep > 0
    decreases if budget > 0 then budget else 0
  {
    if budget <= 0 then 0 else 1 + MaxShows(budget - sleep, sleep)
  }

  /** MaxShows is the ceiling of budget / sleep: (n - 1) * sleep < budget <= n * sleep. */
  lemma {:induction false} MaxShowsIsCeiling(budget: int, sleep: int)
    requires sleep > 0 && budget > 0
    ensures var n := MaxShows(budget, sleep); (n - 1) * sleep < budget <= n * sleep
    decreases budget
  {
    if budget - sleep > 0 {
      MaxShowsIsCeiling(budget - sleep, sleep);
      var n := MaxShows(budget - sleep, sleep);
      assert (n + 1) * sleep == n * sleep + sleep;
    }
  }

  /** The default budget of 30 with a 5 second interval allows 6 status calls. */
  lemma DefaultBudget()
    ensures MaxShows(30, 5) == 6
  {
  }

  /** Each task_show costs `sleep` of the budget: at most ceil(timeout/sleep) calls. */
  lemma {:induction false} PollShowsAtMost(cloud: Cloud, task: Task, budget: int, sleep: int, n: nat)
    requires sleep > 0
    ensures |Poll(cloud, task, budget, sleep, n).shown| <= MaxShows(budget, sleep)
    decreases if budget > 0 then budget else 0
  {
    if budget > 0 && task.status != "success" && task.status != "failure" {
      match cloud.taskShow(n)
      case Raise(_) =>
      case Ok(next) => PollShowsAtMost(cloud, next, budget - sleep, sleep, n + 1);
    }
  }

  /** On a normal exit the task succeeded or the budget is spent. */
  lemma {:induction false} PollExitInvariant(cloud: Cloud, task: Task, budget: int, sleep: int, n: nat)
    requires sleep > 0
    ensures var e := Poll(cloud, task, budget, sleep, n).exit;
            e.Completed? ==> e.task.status == "success" || e.budget <= 0
    decreases if budget > 0 then budget else 0
  {
    if budget > 0 && task.status != "success" && task.status != "failure" {
      match cloud.taskShow(n)
      case Raise(_) =>
      case Ok(next) => PollExitInvariant(cloud, next, budget - sleep, sleep, n + 1);
    }
  }

  predicate Pending(status: string)
  {
    status != "success" && status != "failure"
  }

  /** The service answers every poll with a task that is neither done nor failed. */
  ghost predicate AlwaysPending(cloud: Cloud)
  {
    forall n :: cloud.taskShow(n).Ok? && Pending(cloud.taskShow(n).value.status)
  }

  /** A task that never finishes is polled exactly ceil(timeout/sleep) times, then the budget is spent. */
  lemma {:induction false} PollPendingForever(cloud: Cloud, task: Task, budget: int, sleep: int, n: nat)
    requires sleep > 0 && AlwaysPending(cloud) && Pending(task.status)
    ensures var p := Poll(cloud, task, budget, sleep, n);
            && p.exit.Completed? && p.exit.budget <= 0 && Pending(p.exit.task.status)
            && |p.shown| == MaxShows(budget, sleep)
    decreases if budget > 0 then budget else 0
  {
    if budget > 0 {
      assert cloud.taskShow(n).Ok? && Pending(cloud.taskShow(n).value.status);
      PollPendingForever(cloud, cloud.taskShow(n).value, budget - sleep, sleep, n + 1);
    }
  }

  // ---------------------------------------------------------------------
  // Reconciler

  function ShowCalls(ids: seq<string>): (calls: seq<Call>)
    ensures |calls| == |ids|
    ensures forall i :: 0 <= i < |ids| ==> calls[i] == ShowTask(ids[i])
  {
    seq(|ids|, i requires 0 <= i < |ids| => ShowTask(ids[i]))
  }

  /** The check of the optional checksum on the imported image. */
  function VerifyChecksum(name: string, image: Dict, checksum: Option<string>): (out: Outcome)
    ensures !Given(checksum) ==> out == Returned(Created(name, "image", image))
    ensures Given(checksum) && "status" !in image.vals ==> out == Crashed(Threw(KeyError))
    ensures Given(checksum) && "status" in image.vals && image.vals["status"] == VStr("active") ==>
              out == if "checksum" in image.vals && image.vals["checksum"] == VStr(checksum.value)
                     then Returned(Created(name, "image", image))
                     else Returned(CreateFailed(name, "image"))
    ensures Given(checksum) && "status" in image.vals
            && (image.vals["status"] == VStr("saving") || image.vals["status"] == VStr("queued")) ==>
              out.Returned? && out.result.result && out.result.changes == image
              && out.result.comment == Created(name, "image", image).comment + ADVISORY
    ensures Given(checksum) && "status" in image.vals
            && image.vals["status"] !in {VStr("active"), VStr("saving"), VStr("queued")} ==>
              out == Returned(Created(name, "image", image))
  {
    var resp := Created(name, "image", image);
    if !Given(checksum) then Returned(resp)
    else if "status" !in image.vals then Crashed(Threw(KeyError))
    else
      var status := image.vals["status"];
      if status == VStr("active") then
        if "checksum" !in image.vals then Returned(CreateFailed(name, "image"))
        else if image.vals["checksum"] != VStr(checksum.value) then Returned(CreateFailed(name, "image"))
        else Returned(resp)
      else if status == VStr("saving") || status == VStr("queued") then
        Returned(resp.(comment := resp.comment + ADVISORY))
      else Returned(resp)
  }

  /** After a successful task: `image_list(name)['images'][0]`, then the checksum. */
  function AfterImport(name: string, listed: Reply<seq<Dict>>, checksum: Option<string>): Outcome
  {
    match listed
    case Raise(kind) => Crashed(Uncaught(kind))
    case Ok(images) =>
      if images == [] then Crashed(Threw(IndexError))
      else if images[0].keys == [] then Returned(CreateFailed(name, "image"))
      else VerifyChecksum(name, images[0], checksum)
  }

  /** The import task image_present submits: the properties with `name` set. */
  function ImportParams(name: string, location: string, props: Dict, importFromFormat: string): TaskParams
  {
    TaskParams(location, importFromFormat, Put(props, "name", VStr(name)))
  }

  /** The create path, taken when the lookup raised ResourceNotFound. */
  function CreatePath(name: string, cloud: Cloud, location: string, props: Dict, importFromFormat: string,
                      timeout: int, sleep: int, checksum: Option<string>): Run
    requires sleep > 0
  {
    var submitted := [GetDetails(name), CreateTask("import", ImportParams(name, location, props, importFromFormat))];
    match cloud.taskCreate
    case Raise(_) => Run(Returned(CreateFailed(name, "image_task")), submitted)
    case Ok(task) =>
      var p := Poll(cloud, task, timeout, sleep, 0);
      var polled := submitted + ShowCalls(p.shown);
      match p.exit
      case TaskFailed => Run(Returned(CreateFailed(name, "image")), polled)
      case ShowFailed => Run(Returned(CreateFailed(name, "image_task")), polled)
      case Completed(last, budget) =>
        if budget <= 0 && last.status != "success" then Run(Returned(CreateFailed(name, "image")), polled)
        else Run(AfterImport(name, cloud.listed, checksum), polled + [ListImages(name)])
  }

  /** The update path from the observed image `observed`. */
  function UpdatePath(name: string, cloud: Cloud, observed: Dict, props: Dict): Run
  {
    var ops := Patch(props, observed);
    if ops == [] then Run(Returned(NoChanges(name, "image")), [GetDetails(name)])
    else
      var calls := [GetDetails(name), UpdateImage(name, ops)];
      match cloud.update
      case Raise(_) => Run(Returned(UpdateFailed(name, "image")), calls)
      case Ok(resp) => Run(Returned(Updated(name, "image", resp)), calls)
  }

  /** image_present, branch by branch. */
  function Present(name: string, cloud: Cloud, location: string, props: Dict, importFromFormat: string,
                   timeout: int, sleep: int, checksum: Option<string>): Run
    requires cloud.details == Raise(ResourceNotFound) ==> sleep > 0
  {
    match cloud.details
    case Ok(observed) => UpdatePath(name, cloud, observed, props)
    case Raise(ResourceNotFound) => CreatePath(name, cloud, location, props, importFromFormat, timeout, sleep, checksum)
    case Raise(MultipleResourcesFound) => Run(Returned(FindFailed(name, "image")), [GetDetails(name)])
    case Raise(OtherError) =>
      // `exact_image` is unbound; the loop reads it on its first property.
      if props.keys == [] then Run(Returned(NoChanges(name, "image")), [GetDetails(name)])
      else Run(Crashed(Threw(UnboundLocalError)), [GetDetails(name)])
  }

  /** The create path of image_present (the ResourceNotFound branch). */
  method CreateByImport(name: string, cloud: Cloud, location: string, props: Dict,
                        importFromFormat: string, timeout: int, sleep: int, checksum: Option<string>)
    returns (outcome: Outcome, calls: seq<Call>)
    requires sleep > 0
    ensures Run(outcome, calls) == CreatePath(name, cloud, location, props, importFromFormat, timeout, sleep, checksum)
  {
    var imageProperties := Put(props, "name", VStr(name));
    var params := TaskParams(location, importFromFormat, imageProperties);
    calls := [GetDetails(name), CreateTask("import", params)];
    if cloud.taskCreate.Raise? {
      return Returned(CreateFailed(name, "image_task")), calls;
    }
    var exit, shown := PollTask(cloud, cloud.taskCreate.value, timeout, sleep);
    calls := calls + ShowCalls(shown);
    match exit {
      case TaskFailed =>
        return Returned(CreateFailed(name, "image")), calls;
      case ShowFailed =>
        return Returned(CreateFailed(name, "image_task")), calls;
      case Completed(task, budget) =>
        if budget <= 0 && task.status != "success" {
          return Returned(CreateFailed(name, "image")), calls;
        }
    }
    calls := calls + [ListImages(name)];
    if cloud.listed.Raise? {
      return Crashed(Uncaught(cloud.listed.kind)), calls;
    }
    if cloud.listed.value == [] {
      return Crashed(Threw(IndexError)), calls;
    }
    var image := cloud.listed.value[0];
    if image.keys == [] {
      return Returned(CreateFailed(name, "image")), calls;
    }
    outcome := VerifyChecksum(name, image, checksum);
  }

  method ImagePresent(name: string, cloud: Cloud, location: string, props: Dict,
                      importFromFormat: string, timeout: int, sleep: int, checksum: Option<string>)
    returns (outcome: Outcome, calls: seq<Call>)
    requires cloud.details == Raise(ResourceNotFound) ==> sleep > 0
    ensures Run(outcome, calls) == Present(name, cloud, location, props, importFromFormat, timeout, sleep, checksum)
  {
    var observed: Dict;
    match cloud.details {
      case Ok(image) =>
        observed := image;
      case Raise(kind) =>
        if kind == ResourceNotFound {
          outcome, calls := CreateByImport(name, cloud, location, props, importFromFormat, timeout, sleep, checksum);
          return;
        }
        if kind == MultipleResourcesFound {
          return Returned(FindFailed(name, "image")), [GetDetails(name)];
        }
        if props.keys != [] {
          return Crashed(Threw(UnboundLocalError)), [GetDetails(name)];
        }
        observed := Empty();
    }
    calls := [GetDetails(name)];
    var toChange := BuildPatch(props, observed);
    if toChange != [] {
      calls := calls + [UpdateImage(name, toChange)];
      match cloud.update {
        case Raise(_) =>
          return Returned(UpdateFailed(name, "image")), calls;
        case Ok(resp) =>
          return Returned(Updated(name, "image", resp)), calls;
      }
    }
    outcome := Returned(NoChanges(name, "image"));
  }

  /**
   * image_absent: the idempotent delete. A lookup error other than the two
   * classified ones falls through to the delete, as in the source.
   */
  function ImageAbsent(name: string, cloud: Cloud): (r: Run)
    ensures r.outcome.Returned? && r.outcome.result.name == name
    ensures |r.calls| > 0 && r.calls[0] == GetDetails(name)
    ensures cloud.details == Raise(ResourceNotFound) ==>
              r.outcome.result == Absent(name, "image") && r.outcome.result.result && DeleteImage(name) !in r.calls
    ensures cloud.details == Raise(MultipleResourcesFound) ==>
              r.outcome.result == FindFailed(name, "image") && !r.outcome.result.result && DeleteImage(name) !in r.calls
    ensures cloud.details !in {Raise(ResourceNotFound), Raise(MultipleResourcesFound)} ==>
              && r.calls == [GetDetails(name), DeleteImage(name)]
              && r.outcome.result == (if cloud.delete.Ok? then Deleted(name, "image") else DeleteFailed(name, "image"))
    ensures !r.outcome.result.result ==> r.outcome.result.changes == Empty()
  {
    match cloud.details
    case Raise(ResourceNotFound) => Run(Returned(Absent(name, "image")), [GetDetails(name)])
    case Raise(MultipleResourcesFound) => Run(Returned(FindFailed(name, "image")), [GetDetails(name)])
    case _ =>
      var calls := [GetDetails(name), DeleteImage(name)];
      match cloud.delete
      case Raise(_) => Run(Returned(DeleteFailed(name, "image")), calls)
      case Ok(_) => Run(Returned(Deleted(name, "image")), calls)
  }
}
