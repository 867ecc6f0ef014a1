/**
 * The argument validators of the execution module: the image parameters
 * (visibility, container and disk format, tags) and the parameters of an
 * import task. A rejection is a SaltInvocationError; its reason is kept,
 * its message text is not.
 */
module GlanceValidate {
  import opened Values

  const VISIBILITIES: seq<Value> := [VStr("public"), VStr("private"), VStr("shared"), VStr("community")]
  const CONTAINER_FORMATS: seq<Value> := [VStr("ami"), VStr("ari"), VStr("aki"), VStr("bare"), VStr("ovf")]
  /** The disk formats; the import formats are the same nine. */
  const DISK_FORMATS: seq<Value> :=
    [VStr("ami"), VStr("ari"), VStr("aki"), VStr("vhd"), VStr("vmdk"),
     VStr("raw"), VStr("qcow2"), VStr("vdi"), VStr("iso")]
  const IMPORT_REQUIRED: set<string> := {"import_from", "import_from_format", "image_properties"}

  datatype Reason =
    | BadVisibility
    | BadContainerFormat
    | BadDiskFormat
    | TagsNotList
    | BadTaskType
    | MissingParams(missing: set<string>)
    | LocalSource
    | BadImportFromFormat

  datatype Verdict =
    | Valid
    | Invalid(reason: Reason)  // SaltInvocationError
    | Crashes                  // AttributeError or TypeError on a value of the wrong type

  /** A keyword argument with its default. */
  function Arg(kwargs: map<string, Value>, key: string, default: Value): Value
  {
    if key in kwargs then kwargs[key] else default
  }

  predicate VisibilityOk(kwargs: map<string, Value>)
  {
    Arg(kwargs, "visibility", VNone) == VNone || Arg(kwargs, "visibility", VNone) in VISIBILITIES
  }

  predicate ContainerFormatOk(kwargs: map<string, Value>)
  {
    Arg(kwargs, "container_format", VStr("bare")) in CONTAINER_FORMATS
  }

  predicate DiskFormatOk(kwargs: map<string, Value>)
  {
    Arg(kwargs, "disk_format", VStr("raw")) in DISK_FORMATS
  }

  predicate TagsOk(kwargs: map<string, Value>)
  {
    !Truthy(Arg(kwargs, "tags", VNone)) || Arg(kwargs, "tags", VNone).VList?
  }

  /**
   * `_validate_image_params(**kwargs)`: the four checks in order, the
   * first that fails names the reason.
   */
  function ValidateImageParams(kwargs: map<string, Value>): (r: Verdict)
    ensures r.Valid? <==> VisibilityOk(kwargs) && ContainerFormatOk(kwargs) && DiskFormatOk(kwargs) && TagsOk(kwargs)
    ensures !r.Crashes?
    ensures !VisibilityOk(kwargs) ==> r == Invalid(BadVisibility)
    ensures VisibilityOk(kwargs) && !ContainerFormatOk(kwargs) ==> r == Invalid(BadContainerFormat)
    ensures VisibilityOk(kwargs) && ContainerFormatOk(kwargs) && !DiskFormatOk(kwargs) ==> r == Invalid(BadDiskFormat)
    ensures VisibilityOk(kwargs) && ContainerFormatOk(kwargs) && DiskFormatOk(kwargs) && !TagsOk(kwargs) ==>
              r == Invalid(TagsNotList)
  {
    var visibility := Arg(kwargs, "visibility", VNone);
    var tags := Arg(kwargs, "tags", VNone);
    if visibility != VNone && visibility !in VISIBILITIES then Invalid(BadVisibility)
    else if Arg(kwargs, "container_format", VStr("bare")) !in CONTAINER_FORMATS then Invalid(BadContainerFormat)
    else if Arg(kwargs, "disk_format", VStr("raw")) !in DISK_FORMATS then Invalid(BadDiskFormat)
    else if Truthy(tags) && !tags.VList? then Invalid(TagsNotList)
    else Valid
  }

  /** Keyword arguments other than the four checked ones do not change the verdict. */
  lemma ImageParamsIgnoreOthers(kwargs: map<string, Value>, key: string, v: Value)
    requires key !in {"visibility", "container_format", "disk_format", "tags"}
    ensures ValidateImageParams(kwargs[key := v]) == ValidateImageParams(kwargs)
  {
    var k2 := kwargs[key := v];
    assert Arg(k2, "visibility", VNone) == Arg(kwargs, "visibility", VNone);
    assert Arg(k2, "container_format", VStr("bare")) == Arg(kwargs, "container_format", VStr("bare"));
    assert Arg(k2, "disk_format", VStr("raw")) == Arg(kwargs, "disk_format", VStr("raw"));
    assert Arg(k2, "tags", VNone) == Arg(kwargs, "tags", VNone);
  }

  /** With no arguments the defaults (`bare`, `raw`, no visibility, no tags) pass. */
  lemma ImageParamsDefaultsPass()
    ensures ValidateImageParams(map[]) == Valid
  {
    assert VStr("bare") == CONTAINER_FORMATS[3];
    assert VStr("raw") == DISK_FORMATS[5];
  }

  /** `import_from.startswith(('http://', 'https://'))` */
  predicate RemoteSource(url: string)
  {
    StartsWith(url, "http://") || StartsWith(url, "https://")
  }

  /**
   * `_validate_task_params(task_type, input_params)`: the task type
   * first, then the missing parameters, then the source URL, the import
   * format and the image properties.
   */
  function ValidateTaskParams(taskType: string, input: map<string, Value>): (r: Verdict)
    ensures taskType != "import" ==> r == Invalid(BadTaskType)
    ensures taskType == "import" && !(IMPORT_REQUIRED <= input.Keys) ==>
              r == Invalid(MissingParams(IMPORT_REQUIRED - input.Keys))
  {
    if taskType != "import" then Invalid(BadTaskType)
    else
      var missing := IMPORT_REQUIRED - input.Keys;
      if missing != {} then Invalid(MissingParams(missing))
      else
        assert "import_from" !in missing && "import_from_format" !in missing && "image_properties" !in missing;
        var importFrom := input["import_from"];
        var imageProperties := input["image_properties"];
        if !importFrom.VStr? then Crashes
        else if !RemoteSource(importFrom.s) then Invalid(LocalSource)
        else if input["import_from_format"] !in DISK_FORMATS then Invalid(BadImportFromFormat)
        else if !imageProperties.VDict? then Crashes
        else ValidateImageParams(imageProperties.d.vals)
  }

  /**
   * Once all three parameters are given (the case the function's own
   * contract leaves open), an import task is accepted exactly when the source is an http or https URL, the format is one of the
   * nine, and the image properties pass the image validator.
   */
  lemma TaskParamsAcceptedIff(taskType: string, input: map<string, Value>)
    requires IMPORT_REQUIRED <= input.Keys
    ensures ValidateTaskParams(taskType, input).Valid? <==>
              && taskType == "import"
              && input["import_from"].VStr? && RemoteSource(input["import_from"].s)
              && input["import_from_format"] in DISK_FORMATS
              && input["image_properties"].VDict?
              && ValidateImageParams(input["image_properties"].d.vals).Valid?
  {
    assert IMPORT_REQUIRED - input.Keys == {};
  }

  /** A local path as the source is refused, whatever the other parameters. */
  lemma LocalSourceRefused(input: map<string, Value>, path: string)
    requires IMPORT_REQUIRED <= input.Keys && input["import_from"] == VStr(path)
    requires StartsWith(path, "/")
    ensures ValidateTaskParams("import", input) == Invalid(LocalSource)
  {
    assert IMPORT_REQUIRED - input.Keys == {};
    assert path[0] == '/';
  }
}
