/**
 * The result records of the Glance image state module: every outcome of
 * image_present and image_absent is a record `{name, changes, result,
 * comment}` built by one of these constructors.
 */
module StateResults {
  import opened Values

  datatype StateResult = StateResult(name: string, changes: Dict, result: bool, comment: string)

  /** `'{}{} created'.format(resource, name)`: no space between resource and name. */
  function Created(name: string, resource: string, definition: Dict): StateResult
  {
    StateResult(name, definition, true, resource + name + " created")
  }

  function Updated(name: string, resource: string, definition: Dict): StateResult
  {
    StateResult(name, definition, true, resource + name + " updated")
  }

  function NoChanges(name: string, resource: string): StateResult
  {
    StateResult(name, Empty(), true, resource + name + " is in desired state")
  }

  function Deleted(name: string, resource: string): StateResult
  {
    StateResult(name, Empty(), true, resource + name + " removed")
  }

  function Absent(name: string, resource: string): StateResult
  {
    StateResult(name, Empty(), true, resource + " " + name + " not present")
  }

  function DeleteFailed(name: string, resource: string): StateResult
  {
    StateResult(name, Empty(), false, resource + " " + name + " failed to delete")
  }

  function CreateFailed(name: string, resource: string): StateResult
  {
    StateResult(name, Empty(), false, resource + " " + name + " failed to create")
  }

  function UpdateFailed(name: string, resource: string): StateResult
  {
    StateResult(name, Empty(), false, resource + " " + name + " failed to update")
  }

  /** `'{0} {1} found multiple {0}'.format(resource, name)` */
  function FindFailed(name: string, resource: string): StateResult
  {
    StateResult(name, Empty(), false, resource + " " + name + " found multiple " + resource)
  }

  /** The record a failure helper builds. */
  predicate IsFailure(r: StateResult, name: string)
  {
    r.name == name && !r.result && r.changes == Empty()
  }

  /** The suffix that names the outcome of a record. */
  predicate EndsWith(s: string, suffix: string)
  {
    |suffix| <= |s| && s[|s| - |suffix|..] == suffix
  }

  lemma EndsWithAppend(a: string, suffix: string)
    ensures EndsWith(a + suffix, suffix)
  {
    assert (a + suffix)[|a + suffix| - |suffix|..] == suffix;
  }

  /**
   * Every `*_failed` helper reports failure with no changes, every other
   * helper success; each comment ends with the words that name its outcome.
   */
  lemma HelperOutcomes(name: string, resource: string, definition: Dict)
    ensures IsFailure(DeleteFailed(name, resource), name)
            && EndsWith(DeleteFailed(name, resource).comment, " failed to delete")
    ensures IsFailure(CreateFailed(name, resource), name)
            && EndsWith(CreateFailed(name, resource).comment, " failed to create")
    ensures IsFailure(UpdateFailed(name, resource), name)
            && EndsWith(UpdateFailed(name, resource).comment, " failed to update")
    ensures IsFailure(FindFailed(name, resource), name)
            && EndsWith(FindFailed(name, resource).comment, " found multiple " + resource)
    ensures Created(name, resource, definition).result && Created(name, resource, definition).changes == definition
            && EndsWith(Created(name, resource, definition).comment, " created")
    ensures Updated(name, resource, definition).result && Updated(name, resource, definition).changes == definition
            && EndsWith(Updated(name, resource, definition).comment, " updated")
    ensures NoChanges(name, resource).result && NoChanges(name, resource).changes == Empty()
            && EndsWith(NoChanges(name, resource).comment, " is in desired state")
    ensures Deleted(name, resource).result && Deleted(name, resource).changes == Empty()
            && EndsWith(Deleted(name, resource).comment, " removed")
    ensures Absent(name, resource).result && Absent(name, resource).changes == Empty()
            && EndsWith(Absent(name, resource).comment, " not present")
  {
    EndsWithAppend(resource + " " + name, " failed to delete");
    EndsWithAppend(resource + " " + name, " failed to create");
    EndsWithAppend(resource + " " + name, " failed to update");
    EndsWithAppend(resource + " " + name, " found multiple " + resource);
    EndsWithAppend(resource + name, " created");
    EndsWithAppend(resource + name, " updated");
    EndsWithAppend(resource + name, " is in desired state");
    EndsWithAppend(resource + name, " removed");
    EndsWithAppend(resource + " " + name, " not present");
  }
}
