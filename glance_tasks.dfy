/**
 * task_show and task_list of the execution module: a task, or every task,
 * projected onto the property names of the `task` schema. The schema is
 * the property dictionary `schema_get('task')` wraps under its one key,
 * so the `len(schema.keys()) == 1` unwrap always applies.
 */
module GlanceTasks {
  import opened Values
  import opened GlanceClient

  /** task_show: the projected task, or a failure record when the id is unknown. */
  method TaskShow(taskId: string, reply: ClientReply, schema: Dict) returns (answer: Answer<Dict>)
    ensures reply.NotFound? ==> answer == Returned(Failure("No task with ID " + taskId))
    ensures reply.Done? ==> answer == Returned(Projected(schema.keys, reply.value))
    ensures (reply.Forbidden? || reply.Failed?) ==> answer == Raised(ClientError)
  {
    match reply {
      case NotFound =>
        return Returned(Failure("No task with ID " + taskId));
      case Done(task) =>
        var ret := CopyPresent(Empty(), schema.keys, task);
        return Returned(ret);
      case _ =>
        return Raised(ClientError);
    }
  }

  /** The dictionary task_list returns, keyed by task id in insertion order. */
  datatype TaskTable = TaskTable(ids: seq<Value>, projected: map<Value, Dict>)

  function EmptyTable(): TaskTable
  {
    TaskTable([], map[])
  }

  /** `ret[task['id']] = task_dict` */
  function Store(t: TaskTable, id: Value, row: Dict): TaskTable
  {
    TaskTable(if id in t.projected then t.ids else t.ids + [id], t.projected[id := row])
  }

  /** The tasks listed so far, or KeyError at the first task without an `id`. */
  function Listing(tasks: seq<Dict>, schema: Dict): Answer<TaskTable>
  {
    if tasks == [] then Returned(EmptyTable())
    else
      match Listing(tasks[..|tasks| - 1], schema)
      case Raised(f) => Raised(f)
      case Returned(t) =>
        var task := tasks[|tasks| - 1];
        if "id" !in task.vals then Raised(KeyError)
        else Returned(Store(t, task.vals["id"], Projected(schema.keys, task)))
  }

  /** task_list: the loop over the listed tasks. */
  method TaskList(tasks: seq<Dict>, schema: Dict) returns (answer: Answer<TaskTable>)
    ensures answer == Listing(tasks, schema)
  {
    var ret := EmptyTable();
    for i := 0 to |tasks|
      invariant Listing(tasks[..i], schema) == Returned(ret)
    {
      var task := tasks[i];
      var taskDict := CopyPresent(Empty(), schema.keys, task);
      assert tasks[..i + 1][..i] == tasks[..i];
      if "id" !in task.vals {
        ListingStaysRaised(tasks, schema, i + 1);
        return Raised(KeyError);
      }
      ret := Store(ret, task.vals["id"], taskDict);
    }
    assert tasks[..|tasks|] == tasks;
    return Returned(ret);
  }

  /** Every listed task has an `id`. */
  ghost predicate AllHaveIds(tasks: seq<Dict>)
  {
    forall i :: 0 <= i < |tasks| ==> "id" in tasks[i].vals
  }

  /** Once a task without `id` is met, the listing stays failed. */
  lemma {:induction false} ListingStaysRaised(tasks: seq<Dict>, schema: Dict, i: nat)
    requires i <= |tasks| && Listing(tasks[..i], schema).Raised?
    ensures Listing(tasks, schema) == Listing(tasks[..i], schema)
    decreases |tasks| - i
  {
    if i < |tasks| {
      assert tasks[..i + 1][..i] == tasks[..i];
      ListingStaysRaised(tasks, schema, i + 1);
    } else {
      assert tasks[..i] == tasks;
    }
  }

  /** task_list fails, with KeyError, exactly when some task has no `id`. */
  lemma {:induction false} ListingRaisedIff(tasks: seq<Dict>, schema: Dict)
    ensures Listing(tasks, schema).Raised? <==> !AllHaveIds(tasks)
    ensures Listing(tasks, schema).Raised? ==> Listing(tasks, schema).fault == KeyError
  {
    if tasks != [] {
      var init := tasks[..|tasks| - 1];
      var task := tasks[|tasks| - 1];
      ListingRaisedIff(init, schema);
      if AllHaveIds(tasks) {
        AllHaveIdsInit(tasks);
        assert "id" in task.vals;
      } else if AllHaveIds(init) {
        AllHaveIdsSnoc(tasks);
      } else {
        var i :| 0 <= i < |init| && "id" !in init[i].vals;
        assert tasks[i] == init[i];
      }
    }
  }

  lemma AllHaveIdsInit(tasks: seq<Dict>)
    requires tasks != [] && AllHaveIds(tasks)
    ensures AllHaveIds(tasks[..|tasks| - 1])
  {
    var init := tasks[..|tasks| - 1];
    forall i | 0 <= i < |init| ensures "id" in init[i].vals { assert init[i] == tasks[i]; }
  }

  lemma AllHaveIdsSnoc(tasks: seq<Dict>)
    requires tasks != []
    ensures AllHaveIds(tasks[..|tasks| - 1]) && "id" in tasks[|tasks| - 1].vals ==> AllHaveIds(tasks)
  {
    var init := tasks[..|tasks| - 1];
    if AllHaveIds(init) && "id" in tasks[|tasks| - 1].vals {
      forall i | 0 <= i < |tasks| ensures "id" in tasks[i].vals {
        if i < |init| { assert tasks[i] == init[i]; }
      }
    }
  }

  /** Storing under an id keeps the ids listed once each, and exactly the stored ones. */
  lemma StoreKeepsIds(t: TaskTable, id: Value, row: Dict)
    requires DistinctIds(t.ids) && (forall v :: v in t.projected <==> v in t.ids)
    ensures var t' := Store(t, id, row);
            DistinctIds(t'.ids) && (forall v :: v in t'.projected <==> v in t'.ids)
  {
  }

  /**
   * The table task_list builds is keyed by the task ids, each listed once
   * in order of first occurrence.
   */
  lemma {:induction false} ListingIdsOnce(tasks: seq<Dict>, schema: Dict)
    requires AllHaveIds(tasks)
    ensures Listing(tasks, schema).Returned?
    ensures var t := Listing(tasks, schema).value;
            && DistinctIds(t.ids) && (forall v :: v in t.projected <==> v in t.ids)
            && t.ids == FirstIds(tasks)
  {
    ListingRaisedIff(tasks, schema);
    if tasks != [] {
      var init := tasks[..|tasks| - 1];
      var task := tasks[|tasks| - 1];
      AllHaveIdsInit(tasks);
      ListingIdsOnce(init, schema);
      StoreKeepsIds(Listing(init, schema).value, task.vals["id"], Projected(schema.keys, task));
      ListingKeys(init, schema);
      IdsMembers(init, task.vals["id"]);
      assert FirstAt(tasks, |tasks| - 1) <==> task.vals["id"] !in Ids(init) by {
        assert forall j :: 0 <= j < |init| ==> tasks[j] == init[j];
      }
    }
  }

  /** Task `i` has an id that no earlier task has. */
  predicate FirstAt(tasks: seq<Dict>, i: int)
    requires 0 <= i < |tasks|
  {
    "id" in tasks[i].vals
    && forall j :: 0 <= j < i && "id" in tasks[j].vals ==> tasks[j].vals["id"] != tasks[i].vals["id"]
  }

  /** The ids of the tasks at which an id first occurs, in list order. */
  function FirstIds(tasks: seq<Dict>): seq<Value>
  {
    if tasks == [] then []
    else FirstIds(tasks[..|tasks| - 1])
         + (if FirstAt(tasks, |tasks| - 1) then [tasks[|tasks| - 1].vals["id"]] else [])
  }

  /** The ids of the listed tasks. */
  function Ids(tasks: seq<Dict>): set<Value>
  {
    if tasks == [] then {}
    else Ids(tasks[..|tasks| - 1])
         + (if "id" in tasks[|tasks| - 1].vals then {tasks[|tasks| - 1].vals["id"]} else {})
  }

  lemma {:induction false} IdsMembers(tasks: seq<Dict>, v: Value)
    ensures v in Ids(tasks) <==> exists i :: 0 <= i < |tasks| && "id" in tasks[i].vals && tasks[i].vals["id"] == v
  {
    if tasks != [] {
      var init := tasks[..|tasks| - 1];
      IdsMembers(init, v);
      if v in Ids(init) {
        var i :| 0 <= i < |init| && "id" in init[i].vals && init[i].vals["id"] == v;
        assert tasks[i] == init[i];
      } else if exists i :: 0 <= i < |tasks| && "id" in tasks[i].vals && tasks[i].vals["id"] == v {
        var i :| 0 <= i < |tasks| && "id" in tasks[i].vals && tasks[i].vals["id"] == v;
        if i < |init| { assert tasks[i] == init[i]; }
      }
    }
  }

  /** The table holds an entry for exactly the ids of the listed tasks. */
  lemma {:induction false} ListingKeys(tasks: seq<Dict>, schema: Dict)
    requires AllHaveIds(tasks)
    ensures Listing(tasks, schema).Returned?
    ensures Listing(tasks, schema).value.projected.Keys == Ids(tasks)
  {
    ListingRaisedIff(tasks, schema);
    if tasks != [] {
      AllHaveIdsInit(tasks);
      ListingKeys(tasks[..|tasks| - 1], schema);
    }
  }

  /** Each entry is the projection of the last task with that id, as `ret[task['id']] = ...` overwrites. */
  lemma {:induction false} ListingLastWins(tasks: seq<Dict>, schema: Dict, i: nat)
    requires AllHaveIds(tasks) && i < |tasks| && LastWithId(tasks, i)
    ensures Listing(tasks, schema).Returned?
    ensures tasks[i].vals["id"] in Listing(tasks, schema).value.projected
    ensures Listing(tasks, schema).value.projected[tasks[i].vals["id"]] == Projected(schema.keys, tasks[i])
  {
    var init := tasks[..|tasks| - 1];
    var last := tasks[|tasks| - 1];
    ListingSnoc(tasks, schema);
    var t := Listing(init, schema).value;
    StoreLookup(t, last.vals["id"], Projected(schema.keys, last), tasks[i].vals["id"]);
    if i < |init| {
      AllHaveIdsInit(tasks);
      assert tasks[i] == init[i];
      assert tasks[i].vals["id"] != last.vals["id"];
      assert LastWithId(init, i) by {
        forall j | i < j < |init| ensures init[j].vals["id"] != init[i].vals["id"] {
          assert init[j] == tasks[j];
        }
      }
      ListingLastWins(init, schema, i);
    }
  }

  /** The last task is stored on the table of the ones before it. */
  lemma ListingSnoc(tasks: seq<Dict>, schema: Dict)
    requires AllHaveIds(tasks) && tasks != []
    ensures Listing(tasks[..|tasks| - 1], schema).Returned?
    ensures var last := tasks[|tasks| - 1];
            Listing(tasks, schema)
            == Returned(Store(Listing(tasks[..|tasks| - 1], schema).value, last.vals["id"], Projected(schema.keys, last)))
  {
    AllHaveIdsInit(tasks);
    ListingRaisedIff(tasks[..|tasks| - 1], schema);
  }

  /** Storing under `id` sets `id` and keeps every other entry. */
  lemma StoreLookup(t: TaskTable, id: Value, row: Dict, x: Value)
    ensures x in Store(t, id, row).projected <==> x == id || x in t.projected
    ensures x == id ==> Store(t, id, row).projected[x] == row
    ensures x != id && x in t.projected ==> Store(t, id, row).projected[x] == t.projected[x]
  {
  }

  /** No task after `i` has the id of task `i`. */
  ghost predicate LastWithId(tasks: seq<Dict>, i: int)
    requires 0 <= i < |tasks| && AllHaveIds(tasks)
  {
    forall j :: i < j < |tasks| ==> tasks[j].vals["id"] != tasks[i].vals["id"]
  }

  predicate DistinctIds(ids: seq<Value>)
  {
    forall i, j :: 0 <= i < j < |ids| ==> ids[i] != ids[j]
  }
}
