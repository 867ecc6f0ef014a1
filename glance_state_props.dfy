/**
 * What image_present promises, proved about its model: how the create
 * path classifies failures, how many status calls polling may make,
 * when nothing is changed, and that no failure reports changes.
 */
module GlanceStateProps {
  import opened Values
  import opened JsonPatch
  import opened StateResults
  import opened GlanceState

  /** The number of task_show calls in a trace. */
  function Shows(calls: seq<Call>): nat
  {
    if calls == [] then 0
    else Shows(calls[..|calls| - 1]) + (if calls[|calls| - 1].ShowTask? then 1 else 0)
  }

  lemma {:induction false} ShowsAppend(a: seq<Call>, b: seq<Call>)
    ensures Shows(a + b) == Shows(a) + Shows(b)
  {
    if b != [] {
      assert (a + b)[..|a + b| - 1] == a + b[..|b| - 1];
      ShowsAppend(a, b[..|b| - 1]);
    } else {
      assert a + b == a;
    }
  }

  lemma {:induction false} ShowsOfShowCalls(ids: seq<string>)
    ensures Shows(ShowCalls(ids)) == |ids|
  {
    if ids != [] {
      var init := ids[..|ids| - 1];
      assert ShowCalls(ids)[..|ids| - 1] == ShowCalls(init);
      ShowsOfShowCalls(init);
    }
  }

  /**
   * The create path, case by case: the name is injected before the task
   * is built; a raising task_create or task_show is an `image_task`
   * failure, a `failure` status or a spent budget an `image` failure; only
   * a `success` status goes on to list the image.
   */
  lemma CreateClassification(name: string, cloud: Cloud, location: string, props: Dict,
                             importFromFormat: string, timeout: int, sleep: int, checksum: Option<string>)
    requires sleep > 0 && cloud.details == Raise(ResourceNotFound)
    ensures var r := Present(name, cloud, location, props, importFromFormat, timeout, sleep, checksum);
            && |r.calls| >= 2
            && r.calls[1] == CreateTask("import", ImportParams(name, location, props, importFromFormat))
            && r.calls[1].input.imageProperties.vals["name"] == VStr(name)
            && (cloud.taskCreate.Raise? ==>
                  r.outcome == Returned(CreateFailed(name, "image_task")) && |r.calls| == 2)
            && (cloud.taskCreate.Ok? ==>
                  var p := Poll(cloud, cloud.taskCreate.value, timeout, sleep, 0);
                  && (p.exit.ShowFailed? ==> r.outcome == Returned(CreateFailed(name, "image_task")))
                  && (p.exit.TaskFailed? ==> r.outcome == Returned(CreateFailed(name, "image")))
                  && (p.exit.Completed? && p.exit.task.status != "success" ==>
                        r.outcome == Returned(CreateFailed(name, "image")) && ListImages(name) !in r.calls)
                  && (p.exit.Completed? && p.exit.task.status == "success" ==>
                        r.calls[|r.calls| - 1] == ListImages(name)
                        && r.outcome == AfterImport(name, cloud.listed, checksum)))
  {
    if cloud.taskCreate.Ok? {
      var p := Poll(cloud, cloud.taskCreate.value, timeout, sleep, 0);
      PollExitInvariant(cloud, cloud.taskCreate.value, timeout, sleep, 0);
      var r := Present(name, cloud, location, props, importFromFormat, timeout, sleep, checksum);
      if p.exit.Completed? && p.exit.task.status != "success" {
        var pre := [GetDetails(name), CreateTask("import", ImportParams(name, location, props, importFromFormat))];
        assert r.calls == pre + ShowCalls(p.shown);
        forall i | 0 <= i < |r.calls| ensures r.calls[i] != ListImages(name) {
          if i >= 2 { assert r.calls[i] == ShowCalls(p.shown)[i - 2]; }
        }
      }
    }
  }

  /** However the service answers, image_present makes at most ceil(timeout/sleep) status calls. */
  lemma PresentPollsAtMost(name: string, cloud: Cloud, location: string, props: Dict,
                           importFromFormat: string, timeout: int, sleep: int, checksum: Option<string>)
    requires sleep > 0
    ensures Shows(Present(name, cloud, location, props, importFromFormat, timeout, sleep, checksum).calls)
            <= MaxShows(timeout, sleep)
  {
    assert Shows([GetDetails(name)]) == 0 by { assert [GetDetails(name)][..0] == []; }
    match cloud.details {
      case Ok(observed) => UpdatePathShowsNothing(name, cloud, observed, props);
      case Raise(kind) =>
        if kind == ResourceNotFound {
          CreatePathShowsAtMost(name, cloud, location, props, importFromFormat, timeout, sleep, checksum);
        }
    }
  }

  /** The create path polls at most ceil(timeout/sleep) times. */
  lemma CreatePathShowsAtMost(name: string, cloud: Cloud, location: string, props: Dict,
                              importFromFormat: string, timeout: int, sleep: int, checksum: Option<string>)
    requires sleep > 0
    ensures Shows(CreatePath(name, cloud, location, props, importFromFormat, timeout, sleep, checksum).calls)
            <= MaxShows(timeout, sleep)
  {
    var pre := [GetDetails(name), CreateTask("import", ImportParams(name, location, props, importFromFormat))];
    assert Shows([GetDetails(name)]) == 0 by { assert [GetDetails(name)][..0] == []; }
    assert Shows(pre) == 0 by { assert pre[..1] == [GetDetails(name)]; }
    if cloud.taskCreate.Ok? {
      var p := Poll(cloud, cloud.taskCreate.value, timeout, sleep, 0);
      PollShowsAtMost(cloud, cloud.taskCreate.value, timeout, sleep, 0);
      ShowsOfShowCalls(p.shown);
      ShowsAppend(pre, ShowCalls(p.shown));
      ShowsAppend(pre + ShowCalls(p.shown), [ListImages(name)]);
      assert Shows([ListImages(name)]) == 0 by { assert [ListImages(name)][..0] == []; }
    }
  }

  /** The update path never polls. */
  lemma UpdatePathShowsNothing(name: string, cloud: Cloud, observed: Dict, props: Dict)
    ensures Shows(UpdatePath(name, cloud, observed, props).calls) == 0
  {
    var ops := Patch(props, observed);
    assert Shows([GetDetails(name)]) == 0 by { assert [GetDetails(name)][..0] == []; }
    if ops != [] {
      var calls := [GetDetails(name), UpdateImage(name, ops)];
      assert calls[..|calls| - 1] == [GetDetails(name)];
    }
  }

  /**
   * A task that stays pending exhausts the budget: exactly
   * ceil(timeout/sleep) status calls, then an `image` failure.
   */
  lemma PendingTaskTimesOut(name: string, cloud: Cloud, location: string, props: Dict,
                            importFromFormat: string, timeout: int, sleep: int, checksum: Option<string>)
    requires sleep > 0 && cloud.details == Raise(ResourceNotFound)
    requires cloud.taskCreate.Ok? && Pending(cloud.taskCreate.value.status) && AlwaysPending(cloud)
    ensures var r := Present(name, cloud, location, props, importFromFormat, timeout, sleep, checksum);
            && r.outcome == Returned(CreateFailed(name, "image"))
            && Shows(r.calls) == MaxShows(timeout, sleep)
  {
    var p := Poll(cloud, cloud.taskCreate.value, timeout, sleep, 0);
    PollPendingForever(cloud, cloud.taskCreate.value, timeout, sleep, 0);
    var pre := [GetDetails(name), CreateTask("import", ImportParams(name, location, props, importFromFormat))];
    assert Shows([GetDetails(name)]) == 0 by { assert [GetDetails(name)][..0] == []; }
    assert Shows(pre) == 0 by { assert pre[..1] == [GetDetails(name)]; }
    ShowsOfShowCalls(p.shown);
    ShowsAppend(pre, ShowCalls(p.shown));
  }

  /** With the defaults (timeout 30, sleep 5) a task that never finishes is polled 6 times. */
  lemma DefaultTimeoutPollsSixTimes(name: string, cloud: Cloud, location: string, props: Dict, checksum: Option<string>)
    requires cloud.details == Raise(ResourceNotFound)
    requires cloud.taskCreate.Ok? && Pending(cloud.taskCreate.value.status) && AlwaysPending(cloud)
    ensures var r := Present(name, cloud, location, props, "raw", 30, 5, checksum);
            r.outcome == Returned(CreateFailed(name, "image")) && Shows(r.calls) == 6
  {
    PendingTaskTimesOut(name, cloud, location, props, "raw", 30, 5, checksum);
    DefaultBudget();
  }

  /**
   * An image that already agrees with every desired property is left
   * alone: no update is sent and the result is the "is in desired state"
   * record; otherwise exactly the patch is sent.
   */
  lemma UpdatePathTable(name: string, cloud: Cloud, location: string, props: Dict,
                        importFromFormat: string, timeout: int, sleep: int, checksum: Option<string>)
    requires cloud.details.Ok?
    ensures var r := Present(name, cloud, location, props, importFromFormat, timeout, sleep, checksum);
            && (Agrees(props, cloud.details.value) ==>
                  && r == Run(Returned(NoChanges(name, "image")), [GetDetails(name)])
                  && r.outcome.result.result && r.outcome.result.changes == Empty()
                  && EndsWith(r.outcome.result.comment, " is in desired state"))
            && (!Agrees(props, cloud.details.value) ==>
                  && r.calls == [GetDetails(name), UpdateImage(name, Patch(props, cloud.details.value))]
                  && r.outcome == Returned(if cloud.update.Ok? then Updated(name, "image", cloud.update.value)
                                           else UpdateFailed(name, "image")))
  {
    PatchEmptyIffAgrees(props, cloud.details.value);
    HelperOutcomes(name, "image", Empty());
  }

  /**
   * Running image_present again after the service applied its patch finds
   * nothing to change.
   */
  lemma SecondRunFindsDesiredState(name: string, first: Cloud, second: Cloud, location: string, props: Dict,
                                   importFromFormat: string, timeout: int, sleep: int, checksum: Option<string>)
    requires first.details.Ok?
    requires forall i :: 0 <= i < |Patch(props, first.details.value)| ==> Patch(props, first.details.value)[i].op != Remove
    requires ApplyAll(first.details.value, Patch(props, first.details.value)).Some?
    requires second.details == Ok(ApplyAll(first.details.value, Patch(props, first.details.value)).value)
    ensures Present(name, second, location, props, importFromFormat, timeout, sleep, checksum)
            == Run(Returned(NoChanges(name, "image")), [GetDetails(name)])
  {
    PatchConverges(props, first.details.value);
  }

  /** An ambiguous name is a failure and nothing but the lookup is called. */
  lemma AmbiguousNameChangesNothing(name: string, cloud: Cloud, location: string, props: Dict,
                                    importFromFormat: string, timeout: int, sleep: int, checksum: Option<string>)
    requires cloud.details == Raise(MultipleResourcesFound)
    ensures var r := Present(name, cloud, location, props, importFromFormat, timeout, sleep, checksum);
            r.calls == [GetDetails(name)] && r.outcome.Returned? && IsFailure(r.outcome.result, name)
  {
  }

  /**
   * No partial success: every failure record has empty changes, and a
   * created record means the task reached `success` and the first listed
   * image is reported (with a matching checksum when one was asked for on
   * an active image).
   */
  lemma NoPartialSuccess(name: string, cloud: Cloud, location: string, props: Dict,
                         importFromFormat: string, timeout: int, sleep: int, checksum: Option<string>)
    requires cloud.details == Raise(ResourceNotFound) ==> sleep > 0
    ensures var r := Present(name, cloud, location, props, importFromFormat, timeout, sleep, checksum);
            && (r.outcome.Returned? ==> r.outcome.result.name == name)
            && (r.outcome.Returned? && !r.outcome.result.result ==> r.outcome.result.changes == Empty())
            && (cloud.details == Raise(ResourceNotFound) && r.outcome.Returned? && r.outcome.result.result ==>
                  && cloud.taskCreate.Ok?
                  && Poll(cloud, cloud.taskCreate.value, timeout, sleep, 0).exit.Completed?
                  && Poll(cloud, cloud.taskCreate.value, timeout, sleep, 0).exit.task.status == "success"
                  && cloud.listed.Ok? && cloud.listed.value != []
                  && r.outcome.result.changes == cloud.listed.value[0]
                  && (Given(checksum) && cloud.listed.value[0].vals["status"] == VStr("active") ==>
                        cloud.listed.value[0].vals["checksum"] == VStr(checksum.value)))
  {
    if cloud.details == Raise(ResourceNotFound) && cloud.taskCreate.Ok? {
      PollExitInvariant(cloud, cloud.taskCreate.value, timeout, sleep, 0);
    }
  }
}
