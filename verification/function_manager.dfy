/** `FunctionManager.collect_cloud_service`: every listed Cloud Functions record becomes either a
    resource response or an error response, in listing order. The schema model constructors,
    the region-code bookkeeping and the error-response factory of the base manager are outside
    this model; they appear as the `Models` parameters, the `regions` log and `ErrorResponse`. */
module FunctionManager {
  import opened Results
  import opened Values
  import opened Identity
  import opened Environment
  import opened LastDeployed
  import opened Calendar

  /** The `display` dict of a function. */
  datatype DisplayInfo = DisplayInfo(environment: string, functionId: string, lastDeployed: string, region: string)

  function DisplayJson(d: DisplayInfo): Json {
    JObject(map[
      "environment" := JString(d.environment),
      "function_id" := JString(d.functionId),
      "last_deployed" := JString(d.lastDeployed),
      "region" := JString(d.region)])
  }

  /** The fields given to `FunctionResource`. */
  datatype Resource = Resource(
    name: string,
    account: string,
    tags: Json,
    regionCode: string,
    instanceType: string,
    instanceSize: int,
    data: Record,
    reference: Json)

  /** `FunctionResponse({'resource': resource})`. */
  datatype Response = Response(resource: Resource)

  /** What `generate_resource_error_response(e, group, type, function_id)` is given. */
  datatype ErrorResponse = ErrorResponse(fault: Fault, group: string, serviceType: string, resourceId: string)

  /** The schema model constructors: each accepts its input or raises. */
  datatype Models = Models(
    checkFunction: Record -> Option<Fault>,    // Function(function, strict=False)
    reference: Record -> Json,                 // function_data.reference()
    checkResource: Resource -> Option<Fault>,  // ReferenceModel(...) and FunctionResource({...})
    checkResponse: Response -> Option<Fault>)  // FunctionResponse({'resource': ...})

  /** What `__init__` sets: the cloud service group and type of the function type. */
  datatype Manager = Manager(group: string, serviceType: string, models: Models)

  /** `params['secret_data']['project_id']`: a missing key raises KeyError, subscripting a
      value that is not a dict raises TypeError. */
  function ProjectIdOf(params: Record): (r: Result<string, Fault>)
    ensures r.Success? <==>
      "secret_data" in params && params["secret_data"].JObject?
      && "project_id" in params["secret_data"].fields && params["secret_data"].fields["project_id"].JString?
    ensures "secret_data" !in params ==> r == Failure(KeyError(JString("secret_data")))
    ensures "secret_data" in params && !params["secret_data"].JObject? ==> r == Failure(TypeError)
    ensures "secret_data" in params && params["secret_data"].JObject? && "project_id" !in params["secret_data"].fields ==>
      r == Failure(KeyError(JString("project_id")))
    ensures r.Success? ==> r.value == params["secret_data"].fields["project_id"].s
  {
    var secret :- Subscript(params, "secret_data");
    if !secret.JObject? then Failure(TypeError)
    else
      var projectId :- Subscript(secret.fields, "project_id");
      if projectId.JString? then Success(projectId.s) else Failure(TypeError)
  }

  // ---------------------------------------------------------------------------------------
  // One listed item

  /** `function.get('name')` used as a str: anything but a string has no `split`. */
  function NameOf(item: Record): (r: Result<string, Fault>)
    ensures r.Success? <==> "name" in item && item["name"].JString?
    ensures r.Success? ==> r.value == item["name"].s
    ensures r.Failure? ==> r.error == AttributeError("split")
  {
    match Get(item, "name")
    case JString(s) => Success(s)
    case _ => Failure(AttributeError("split"))
  }

  /** Lines 63-64: the name and the `(location, function_id)` parsed from it. */
  function Identify(item: Record, projectId: string): (r: Result<(string, string), Fault>)
    ensures ("name" !in item || !item["name"].JString?) ==> r == Failure(AttributeError("split"))
    ensures "name" in item && item["name"].JString? ==> r == MakeLocationAndId(item["name"].s, projectId)
  {
    var name :- NameOf(item);
    MakeLocationAndId(name, projectId)
  }

  /** `_make_readable_environment(function['environment'])`. */
  function EnvironmentOf(item: Record): (r: Result<string, Fault>)
    ensures "environment" !in item ==> r == Failure(KeyError(JString("environment")))
    ensures "environment" in item ==> r == ReadableEnvironment(item["environment"])
    ensures r.Success? <==> "environment" in item && item["environment"].JString? && item["environment"].s in Labels
  {
    var environment :- Subscript(item, "environment");
    ReadableEnvironment(environment)
  }

  /** `_make_last_deployed(function['updateTime'])`. */
  function LastDeployedOf(item: Record): (r: Result<string, Fault>)
    ensures "updateTime" !in item ==> r == Failure(KeyError(JString("updateTime")))
    ensures "updateTime" in item && !item["updateTime"].JString? ==> r == Failure(AttributeError("split"))
    ensures "updateTime" in item && item["updateTime"].JString? ==> r == MakeLastDeployed(item["updateTime"].s)
  {
    var updateTime :- Subscript(item, "updateTime");
    if updateTime.JString? then MakeLastDeployed(updateTime.s) else Failure(AttributeError("split"))
  }

  /** `function.update({'project': ..., 'display': ...})`. */
  function FunctionData(item: Record, projectId: string, display: DisplayInfo): (data: Record)
    ensures data.Keys == item.Keys + {"project", "display"}
    ensures forall k :: k in item && k != "project" && k != "display" ==> data[k] == item[k]
    ensures data["project"] == JString(projectId) && data["display"] == DisplayJson(display)
  {
    item["project" := JString(projectId)]["display" := DisplayJson(display)]
  }

  /** Lines 65-99: display fields, function data and the resource, in the order the source
      evaluates them; the first exception raised is the result. */
  function BuildResource(item: Record, name: string, projectId: string, location: string,
                         functionId: string, models: Models): (r: Result<Resource, Fault>)
    ensures EnvironmentOf(item).Failure? ==> r == Failure(EnvironmentOf(item).error)
    ensures EnvironmentOf(item).Success? && LastDeployedOf(item).Failure? ==> r == Failure(LastDeployedOf(item).error)
    ensures EnvironmentOf(item).Success? && LastDeployedOf(item).Success? ==>
      r == CheckedResource(item, name, projectId, DisplayInfo(EnvironmentOf(item).value, functionId, LastDeployedOf(item).value, location), models)
    ensures r.Success? ==>
      && EnvironmentOf(item).Success? && LastDeployedOf(item).Success?
      && r.value.name == name && r.value.account == projectId && r.value.tags == Get(item, "labels")
      && r.value.regionCode == location && r.value.instanceType == "" && r.value.instanceSize == 0
      && r.value.data == FunctionData(item, projectId, DisplayInfo(EnvironmentOf(item).value, functionId, LastDeployedOf(item).value, location))
      && r.value.reference == models.reference(r.value.data)
  {
    match EnvironmentOf(item)
    case Failure(e) => Failure(e)
    case Success(environment) =>
      match LastDeployedOf(item)
      case Failure(e) => Failure(e)
      case Success(lastDeployed) =>
        CheckedResource(item, name, projectId, DisplayInfo(environment, functionId, lastDeployed, location), models)
  }

  /** The `CloudServiceResource` lines 92-99 build from the function data, before validation. */
  function Built(item: Record, name: string, projectId: string, display: DisplayInfo, models: Models): Resource {
    var data := FunctionData(item, projectId, display);
    Resource(name, projectId, Get(item, "labels"), display.region, "", 0, data, models.reference(data))
  }

  /** Lines 80-99: the function data validated by the schema models, then the resource. */
  function CheckedResource(item: Record, name: string, projectId: string, display: DisplayInfo,
                           models: Models): (r: Result<Resource, Fault>)
    ensures models.checkFunction(FunctionData(item, projectId, display)).Some? ==>
      r == Failure(models.checkFunction(FunctionData(item, projectId, display)).value)
    ensures models.checkFunction(FunctionData(item, projectId, display)).None? ==>
      (r.Success? <==> models.checkResource(Built(item, name, projectId, display, models)).None?)
    ensures models.checkFunction(FunctionData(item, projectId, display)).None? &&
            models.checkResource(Built(item, name, projectId, display, models)).Some? ==>
      r == Failure(models.checkResource(Built(item, name, projectId, display, models)).value)
    ensures r.Success? ==>
      && "project" in r.value.data && r.value.data["project"] == JString(projectId)
      && "display" in r.value.data && r.value.data["display"] == DisplayJson(display)
      && r.value.name == name && r.value.account == projectId && r.value.tags == Get(item, "labels")
      && r.value.regionCode == display.region && r.value.instanceType == "" && r.value.instanceSize == 0
      && r.value.reference == models.reference(r.value.data)
      && models.checkResource(r.value).None?
  {
    var data := FunctionData(item, projectId, display);
    match models.checkFunction(data)
    case Some(e) => Failure(e)
    case None =>
      var resource := Built(item, name, projectId, display, models);
      match models.checkResource(resource)
      case Some(e) => Failure(e)
      case None => Success(resource)
  }

  /** What one pass of the loop body produced: its outcome, the id it assigned to the loop's
      `function_id` (only when the name parsed), and the location it gave `set_region_code`. */
  datatype ItemStep = ItemStep(outcome: Result<Response, Fault>, parsedId: Option<string>, region: Option<string>)

  /** The envelope the source builds for a listed item whose every step succeeds. */
  ghost predicate IsEnvelope(item: Record, projectId: string, models: Models, r: Resource) {
    && Identify(item, projectId).Success?
    && EnvironmentOf(item).Success?
    && LastDeployedOf(item).Success?
    && var (location, functionId) := Identify(item, projectId).value;
    && "name" in item && item["name"] == JString(r.name)
    && r.account == projectId
    && r.tags == Get(item, "labels")
    && r.regionCode == location
    && r.instanceType == "" && r.instanceSize == 0
    && r.data.Keys == item.Keys + {"project", "display"}
    && (forall k :: k in item && k != "project" && k != "display" ==> r.data[k] == item[k])
    && r.data["project"] == JString(projectId)
    && r.data["display"] == DisplayJson(DisplayInfo(EnvironmentOf(item).value, functionId, LastDeployedOf(item).value, location))
    && r.reference == models.reference(r.data)
  }

  /** The body of the `try` for one item (lines 63-104). */
  function ProcessItem(item: Record, projectId: string, models: Models): (step: ItemStep)
    ensures step.parsedId == (if Identify(item, projectId).Success? then Some(Identify(item, projectId).value.1) else None)
    ensures Identify(item, projectId).Failure? ==> step.outcome == Failure(Identify(item, projectId).error)
    ensures step.region.Some? ==> Identify(item, projectId).Success? && step.region == Some(Identify(item, projectId).value.0)
    ensures step.outcome.Success? ==> step.region.Some?
  {
    match Identify(item, projectId)
    case Failure(e) => ItemStep(Failure(e), None, None)
    case Success((location, functionId)) =>
      match BuildResource(item, NameOf(item).value, projectId, location, functionId, models)
      case Failure(e) => ItemStep(Failure(e), Some(functionId), None)
      case Success(resource) =>
        // set_region_code(location) runs before FunctionResponse is built
        var response := Response(resource);
        match models.checkResponse(response)
        case Some(e) => ItemStep(Failure(e), Some(functionId), Some(location))
        case None => ItemStep(Success(response), Some(functionId), Some(location))
  }

  /** A succeeding item's resource is the envelope: name, account, tags and region as parsed,
      the source record kept unchanged apart from the added `project` and `display` keys. */
  lemma SuccessIsEnvelope(item: Record, projectId: string, models: Models)
    ensures ProcessItem(item, projectId, models).outcome.Success? ==>
      IsEnvelope(item, projectId, models, ProcessItem(item, projectId, models).outcome.value.resource)
  {
    var step := ProcessItem(item, projectId, models);
    if step.outcome.Success? {
      var (location, functionId) := Identify(item, projectId).value;
      var built := BuildResource(item, NameOf(item).value, projectId, location, functionId, models);
      assert built == Success(step.outcome.value.resource);
      BuiltIsEnvelope(item, projectId, models, location, functionId, built.value);
    }
  }

  /** A resource built for a parsed name is the envelope of its item. */
  lemma BuiltIsEnvelope(item: Record, projectId: string, models: Models, location: string, functionId: string,
                        r: Resource)
    requires Identify(item, projectId) == Success((location, functionId))
    requires BuildResource(item, NameOf(item).value, projectId, location, functionId, models) == Success(r)
    ensures IsEnvelope(item, projectId, models, r)
  {
    var display := DisplayInfo(EnvironmentOf(item).value, functionId, LastDeployedOf(item).value, location);
    assert r.data == FunctionData(item, projectId, display);
  }

  /** Once the name has parsed, the display fields are translated environment first, and the
      first translation to raise is the item's fault; the region is registered only after the
      function data and the resource have been accepted. */
  lemma ItemFaultOrder(item: Record, projectId: string, models: Models)
    requires Identify(item, projectId).Success?
    ensures var id := Identify(item, projectId).value.1;
      var step := ProcessItem(item, projectId, models);
      && (EnvironmentOf(item).Failure? ==> step == ItemStep(Failure(EnvironmentOf(item).error), Some(id), None))
      && (EnvironmentOf(item).Success? && LastDeployedOf(item).Failure? ==>
            step == ItemStep(Failure(LastDeployedOf(item).error), Some(id), None))
      && (step.region.Some? ==> EnvironmentOf(item).Success? && LastDeployedOf(item).Success?)
  {
  }

  /** Once both display fields are translated, the schema models validate in source order:
      the function data (line 85), then the resource (lines 90-99), both before the region is
      registered; then the response (line 104), after `set_region_code` (line 100), so its
      fault leaves the region registered. */
  lemma ItemSchemaFaultOrder(item: Record, projectId: string, models: Models)
    requires Identify(item, projectId).Success?
    requires EnvironmentOf(item).Success? && LastDeployedOf(item).Success?
    ensures var (location, id) := Identify(item, projectId).value;
      var display := DisplayInfo(EnvironmentOf(item).value, id, LastDeployedOf(item).value, location);
      var data := FunctionData(item, projectId, display);
      var resource := Built(item, item["name"].s, projectId, display, models);
      var step := ProcessItem(item, projectId, models);
      && (models.checkFunction(data).Some? ==>
            step == ItemStep(Failure(models.checkFunction(data).value), Some(id), None))
      && (models.checkFunction(data).None? && models.checkResource(resource).Some? ==>
            step == ItemStep(Failure(models.checkResource(resource).value), Some(id), None))
      && (models.checkFunction(data).None? && models.checkResource(resource).None? &&
          models.checkResponse(Response(resource)).Some? ==>
            step == ItemStep(Failure(models.checkResponse(Response(resource)).value), Some(id), Some(location)))
      && (models.checkFunction(data).None? && models.checkResource(resource).None? &&
          models.checkResponse(Response(resource)).None? ==>
            step == ItemStep(Success(Response(resource)), Some(id), Some(location)))
  {
  }

  // ---------------------------------------------------------------------------------------
  // The loop, specified over the sequence of per-item steps

  function Steps(items: seq<Record>, projectId: string, models: Models): (steps: seq<ItemStep>)
    ensures |steps| == |items|
    ensures forall k :: 0 <= k < |items| ==> steps[k] == ProcessItem(items[k], projectId, models)
  {
    seq(|items|, k requires 0 <= k < |items| => ProcessItem(items[k], projectId, models))
  }

  /** The value of `function_id` after the given steps: the id parsed by the latest item whose
      name parsed, or "" if none has. */
  function LastParsedId(steps: seq<ItemStep>): (id: string)
    ensures id == "" || exists k :: 0 <= k < |steps| && steps[k].parsedId == Some(id)
  {
    if |steps| == 0 then ""
    else
      match steps[|steps| - 1].parsedId
      case Some(id) => id
      case None => LastParsedId(steps[..|steps| - 1])
  }

  /** The responses of the succeeding steps, in order. */
  function Successes(steps: seq<ItemStep>): (responses: seq<Response>)
    ensures |responses| <= |steps|
    ensures forall response :: response in responses <==>
      exists k :: 0 <= k < |steps| && steps[k].outcome == Success(response)
  {
    if |steps| == 0 then []
    else
      Successes(steps[..|steps| - 1])
        + (match steps[|steps| - 1].outcome case Success(response) => [response] case Failure(_) => [])
  }

  /** One error response per failing step, in order, each carrying `function_id` as it stood
      when that step failed. */
  function Errors(steps: seq<ItemStep>, group: string, serviceType: string): (errors: seq<ErrorResponse>)
    ensures |errors| <= |steps|
    ensures forall e :: e in errors ==> e.group == group && e.serviceType == serviceType
    ensures forall e :: e in errors ==> exists k :: 0 <= k < |steps| && steps[k].outcome == Failure(e.fault)
  {
    if |steps| == 0 then []
    else
      Errors(steps[..|steps| - 1], group, serviceType)
        + (match steps[|steps| - 1].outcome
           case Success(_) => []
           case Failure(e) => [ErrorResponse(e, group, serviceType, LastParsedId(steps))])
  }

  /** The locations given to `set_region_code`, in order. */
  function Regions(steps: seq<ItemStep>): (regions: seq<string>)
    ensures forall location :: location in regions <==>
      exists k :: 0 <= k < |steps| && steps[k].region == Some(location)
  {
    if |steps| == 0 then []
    else
      Regions(steps[..|steps| - 1])
        + (match steps[|steps| - 1].region case Some(location) => [location] case None => [])
  }

  /** What the call returns, with the region codes it registered. */
  datatype Collection = Collection(responses: seq<Response>, errors: seq<ErrorResponse>, regions: seq<string>)

  /** `collect_cloud_service(params)`, with the result of `list_functions()` supplied. The
      project id lookup and the listing are outside the `try`, so their faults escape. */
  method CollectCloudService(manager: Manager, params: Record, listing: Result<seq<Record>, Fault>)
    returns (r: Result<Collection, Fault>)
    ensures ProjectIdOf(params).Failure? ==> r == Failure(ProjectIdOf(params).error)
    ensures ProjectIdOf(params).Success? && listing.Failure? ==> r == Failure(listing.error)
    ensures ProjectIdOf(params).Success? && listing.Success? ==>
      var steps := Steps(listing.value, ProjectIdOf(params).value, manager.models);
      && r.Success?
      && r.value.responses == Successes(steps)
      && r.value.errors == Errors(steps, manager.group, manager.serviceType)
      && r.value.regions == Regions(steps)
      && |r.value.responses| + |r.value.errors| == |listing.value|
  {
    var projectIdResult := ProjectIdOf(params);
    if projectIdResult.Failure? {
      return Failure(projectIdResult.error);
    }
    var projectId := projectIdResult.value;
    if listing.Failure? {
      return Failure(listing.error);
    }
    var items := listing.value;
    ghost var steps := Steps(items, projectId, manager.models);
    var responses: seq<Response> := [];
    var errors: seq<ErrorResponse> := [];
    var regions: seq<string> := [];
    var functionId := "";
    var i := 0;
    while i < |items|
      invariant 0 <= i <= |items|
      invariant functionId == LastParsedId(steps[..i])
      invariant responses == Successes(steps[..i])
      invariant errors == Errors(steps[..i], manager.group, manager.serviceType)
      invariant regions == Regions(steps[..i])
    {
      var step := ProcessItem(items[i], projectId, manager.models);
      assert step == steps[i];
      StepsExtend(steps, i, manager.group, manager.serviceType);
      if step.parsedId.Some? {
        functionId := step.parsedId.value;
      }
      if step.region.Some? {
        regions := regions + [step.region.value];
      }
      match step.outcome {
        case Success(response) =>
          responses := responses + [response];
        case Failure(e) =>
          errors := errors + [ErrorResponse(e, manager.group, manager.serviceType, functionId)];
      }
      i := i + 1;
    }
    assert steps[..|items|] == steps;
    EveryStepAnswered(steps, manager.group, manager.serviceType);
    return Success(Collection(responses, errors, regions));
  }

  /** How each reference function grows by one step. */
  lemma StepsExtend(steps: seq<ItemStep>, i: nat, group: string, serviceType: string)
    requires i < |steps|
    ensures LastParsedId(steps[..i + 1]) == (if steps[i].parsedId.Some? then steps[i].parsedId.value else LastParsedId(steps[..i]))
    ensures Regions(steps[..i + 1]) == Regions(steps[..i]) + (if steps[i].region.Some? then [steps[i].region.value] else [])
    ensures Successes(steps[..i + 1]) == Successes(steps[..i]) + (if steps[i].outcome.Success? then [steps[i].outcome.value] else [])
    ensures Errors(steps[..i + 1], group, serviceType) == Errors(steps[..i], group, serviceType)
      + (if steps[i].outcome.Failure? then [ErrorResponse(steps[i].outcome.error, group, serviceType, LastParsedId(steps[..i + 1]))] else [])
  {
    assert steps[..i + 1][..i] == steps[..i];
  }

  // ---------------------------------------------------------------------------------------
  // Properties of the loop

  /** Every item yields exactly one response or one error response. */
  lemma {:induction false} EveryStepAnswered(steps: seq<ItemStep>, group: string, serviceType: string)
    ensures |Successes(steps)| + |Errors(steps, group, serviceType)| == |steps|
  {
    if |steps| > 0 {
      EveryStepAnswered(steps[..|steps| - 1], group, serviceType);
    }
  }

  lemma StepsSnoc(items: seq<Record>, item: Record, projectId: string, models: Models)
    ensures Steps(items + [item], projectId, models) == Steps(items, projectId, models) + [ProcessItem(item, projectId, models)]
  {
  }

  /** The id that `function_id` holds is the one parsed by the latest item whose name parsed. */
  lemma {:induction false} LastParsedIdIsLatest(steps: seq<ItemStep>, j: nat)
    requires j < |steps| && steps[j].parsedId.Some?
    requires forall k :: j < k < |steps| ==> steps[k].parsedId.None?
    ensures LastParsedId(steps) == steps[j].parsedId.value
  {
    if j < |steps| - 1 {
      LastParsedIdIsLatest(steps[..|steps| - 1], j);
    }
  }

  /** Before any name has parsed, `function_id` still holds its initial "". */
  lemma {:induction false} LastParsedIdInitial(steps: seq<ItemStep>)
    requires forall k :: 0 <= k < |steps| ==> steps[k].parsedId.None?
    ensures LastParsedId(steps) == ""
  {
    if |steps| > 0 {
      LastParsedIdInitial(steps[..|steps| - 1]);
    }
  }

  /** Appending an item: a success adds its response; a failure adds one error response that
      carries the item's own id when its name parsed, and otherwise the id left by the items
      before it. */
  lemma ErrorCarriesLatestId(items: seq<Record>, item: Record, projectId: string, models: Models,
                             group: string, serviceType: string)
    ensures var step := ProcessItem(item, projectId, models);
      var before := Steps(items, projectId, models);
      var after := Steps(items + [item], projectId, models);
      && Successes(after) == Successes(before) + (if step.outcome.Success? then [step.outcome.value] else [])
      && Errors(after, group, serviceType) == Errors(before, group, serviceType)
           + (if step.outcome.Success? then []
              else [ErrorResponse(step.outcome.error, group, serviceType,
                      if Identify(item, projectId).Success? then Identify(item, projectId).value.1
                      else LastParsedId(before))])
  {
    var after := Steps(items + [item], projectId, models);
    StepsSnoc(items, item, projectId, models);
    assert after[..|after| - 1] == Steps(items, projectId, models);
  }

  /** An item whose name does not parse, right after one whose name did, is reported under the
      earlier item's id. */
  lemma MalformedNameReportsPreviousId(first: Record, second: Record, projectId: string, models: Models,
                                       group: string, serviceType: string)
    requires Identify(first, projectId).Success? && Identify(second, projectId).Failure?
    ensures Errors(Steps([first, second], projectId, models), group, serviceType)
      == Errors(Steps([first], projectId, models), group, serviceType)
         + [ErrorResponse(Identify(second, projectId).error, group, serviceType, Identify(first, projectId).value.1)]
  {
    ErrorCarriesLatestId([first], second, projectId, models, group, serviceType);
    assert [first] + [second] == [first, second];
    var before := Steps([first], projectId, models);
    assert before[|before| - 1].parsedId == Some(Identify(first, projectId).value.1);
  }

  /** `set_region_code` has been given the region of every response collected, and at least
      once per response. */
  lemma {:induction false} RegionsRegistered(items: seq<Record>, projectId: string, models: Models)
    ensures var steps := Steps(items, projectId, models);
      && (forall response :: response in Successes(steps) ==> response.resource.regionCode in Regions(steps))
      && |Successes(steps)| <= |Regions(steps)|
  {
    var steps := Steps(items, projectId, models);
    if |items| > 0 {
      var i := |items| - 1;
      var init := items[..i];
      RegionsRegistered(init, projectId, models);
      assert steps[..i] == Steps(init, projectId, models);
      assert steps[..i + 1] == steps;
      StepsExtend(steps, i, "", "");
      var step := steps[i];
      if step.outcome.Success? {
        SuccessIsEnvelope(items[i], projectId, models);
        assert step.region == Some(step.outcome.value.resource.regionCode);
      }
    }
  }

  /** The items whose names parse, in listing order. */
  function WellNamed(items: seq<Record>, projectId: string): seq<Record> {
    if |items| == 0 then []
    else
      WellNamed(items[..|items| - 1], projectId)
        + (if Identify(items[|items| - 1], projectId).Success? then [items[|items| - 1]] else [])
  }

  /** When every item whose name parses goes on to succeed, the K items with a malformed name
      are exactly the K errors, and the responses are those of the well-named items in their
      listing order. */
  lemma {:induction false} BatchIsolation(items: seq<Record>, projectId: string, models: Models,
                                          group: string, serviceType: string)
    requires forall k :: 0 <= k < |items| && Identify(items[k], projectId).Success? ==>
      ProcessItem(items[k], projectId, models).outcome.Success?
    ensures var steps := Steps(items, projectId, models);
      && Successes(steps) == Successes(Steps(WellNamed(items, projectId), projectId, models))
      && |Successes(steps)| == |WellNamed(items, projectId)|
      && |Errors(steps, group, serviceType)| == |items| - |WellNamed(items, projectId)|
  {
    var steps := Steps(items, projectId, models);
    if |items| > 0 {
      var init := items[..|items| - 1];
      var last := items[|items| - 1];
      var good := WellNamed(init, projectId);
      assert items == init + [last];
      assert WellNamed(items, projectId) == good + (if Identify(last, projectId).Success? then [last] else []);
      assert forall k :: 0 <= k < |init| ==> init[k] == items[k];
      BatchIsolation(init, projectId, models, group, serviceType);
      ErrorCarriesLatestId(init, last, projectId, models, group, serviceType);
      var step := ProcessItem(last, projectId, models);
      if Identify(last, projectId).Success? {
        assert step.outcome.Success?;
        ErrorCarriesLatestId(good, last, projectId, models, group, serviceType);
        calc {
          Successes(steps);
          Successes(Steps(init, projectId, models)) + [step.outcome.value];
          Successes(Steps(good, projectId, models)) + [step.outcome.value];
          Successes(Steps(good + [last], projectId, models));
          { assert WellNamed(items, projectId) == good + [last]; }
          Successes(Steps(WellNamed(items, projectId), projectId, models));
        }
      } else {
        assert step.outcome.Failure?;
        assert Successes(steps) == Successes(Steps(init, projectId, models));
        assert WellNamed(items, projectId) == good;
      }
      EveryStepAnswered(steps, group, serviceType);
    } else {
      assert steps == [] && WellNamed(items, projectId) == [];
    }
  }

  /** An item whose name parses and whose fields translate, under schema models that accept
      everything, becomes a response carrying the parsed location and id and the translated
      fields. */
  lemma AcceptedItem(item: Record, projectId: string, models: Models, location: string, functionId: string,
                     environment: string, lastDeployed: string)
    requires Identify(item, projectId) == Success((location, functionId))
    requires EnvironmentOf(item) == Success(environment)
    requires LastDeployedOf(item) == Success(lastDeployed)
    requires forall data :: models.checkFunction(data).None?
    requires forall resource :: models.checkResource(resource).None?
    requires forall response :: models.checkResponse(response).None?
    ensures ProcessItem(item, projectId, models).outcome.Success?
    ensures var r := ProcessItem(item, projectId, models).outcome.value.resource;
      && r.regionCode == location
      && r.tags == Get(item, "labels")
      && "display" in r.data
      && r.data["display"] == DisplayJson(DisplayInfo(environment, functionId, lastDeployed, location))
  {
    var name := NameOf(item).value;
    var display := DisplayInfo(environment, functionId, lastDeployed, location);
    var resource := AcceptedResource(item, name, projectId, display, models);
    assert BuildResource(item, name, projectId, location, functionId, models) == Success(resource);
    assert models.checkResponse(Response(resource)).None?;
  }

  /** Under accepting schema models the function data and the resource are built as given. */
  lemma AcceptedResource(item: Record, name: string, projectId: string, display: DisplayInfo, models: Models)
    returns (resource: Resource)
    requires forall data :: models.checkFunction(data).None?
    requires forall resource :: models.checkResource(resource).None?
    ensures resource.regionCode == display.region && resource.tags == Get(item, "labels")
    ensures "display" in resource.data && resource.data["display"] == DisplayJson(display)
    ensures CheckedResource(item, name, projectId, display, models) == Success(resource)
  {
    var data := FunctionData(item, projectId, display);
    resource := Resource(name, projectId, Get(item, "labels"), display.region, "", 0, data, models.reference(data));
    assert models.checkFunction(data).None? && models.checkResource(resource).None?;
  }

  /** A typical listed record: its name, environment and update time all translate. */
  lemma ScenarioTranslations(item: Record, projectId: string, name: string, date: string, clock: string,
                              fraction: string)
    requires projectId == "p1" && name == "projects/p1/locations/us-central1/functions/f1"
    requires date == "2023-01-01" && clock == "00:00:00" && fraction == "000000"
    requires "name" in item && item["name"] == JString(name)
    requires "environment" in item && item["environment"] == JString("GEN_2")
    requires "updateTime" in item && item["updateTime"] == JString(date + "T" + clock + "." + fraction)
    ensures Identify(item, projectId) == Success(("us-central1", "f1"))
    ensures EnvironmentOf(item) == Success("2nd gen")
    ensures LastDeployedOf(item).Success?
  {
    ScenarioName(name, projectId, "us-central1", "functions", "f1");
    ScenarioUpdateTime(date, clock, fraction, DateTime(Date(2023, 1, 1), 9, 0, 0));
    assert NameOf(item) == Success(name);
  }

  /** The `display` dict names the environment label, the function id and the region. */
  predicate DisplayShows(display: Json, environment: string, functionId: string, region: string) {
    && display.JObject?
    && "environment" in display.fields && display.fields["environment"] == JString(environment)
    && "function_id" in display.fields && display.fields["function_id"] == JString(functionId)
    && "region" in display.fields && display.fields["region"] == JString(region)
  }

  lemma DisplayJsonShows(d: DisplayInfo)
    ensures DisplayShows(DisplayJson(d), d.environment, d.functionId, d.region)
  {
  }

  /** A typical listed record (with any further fields): a GEN_2 function in
      us-central1, with schema models that accept it, becomes a response in us-central1 with
      the record's labels as tags and "2nd gen" and "f1" on display. */
  lemma TypicalRecord(item: Record, projectId: string, name: string, date: string, clock: string,
                      fraction: string, models: Models)
    requires projectId == "p1" && name == "projects/p1/locations/us-central1/functions/f1"
    requires date == "2023-01-01" && clock == "00:00:00" && fraction == "000000"
    requires "name" in item && item["name"] == JString(name)
    requires "labels" in item && item["labels"] == JObject(map["env" := JString("prod")])
    requires "environment" in item && item["environment"] == JString("GEN_2")
    requires "updateTime" in item && item["updateTime"] == JString(date + "T" + clock + "." + fraction)
    requires forall data :: models.checkFunction(data).None?
    requires forall resource :: models.checkResource(resource).None?
    requires forall response :: models.checkResponse(response).None?
    ensures ProcessItem(item, projectId, models).outcome.Success?
    ensures var r := ProcessItem(item, projectId, models).outcome.value.resource;
      && r.regionCode == "us-central1"
      && r.tags == JObject(map["env" := JString("prod")])
      && "display" in r.data
      && DisplayShows(r.data["display"], "2nd gen", "f1", "us-central1")
  {
    ScenarioTranslations(item, projectId, name, date, clock, fraction);
    assert Get(item, "labels") == JObject(map["env" := JString("prod")]);
    AcceptedItem(item, projectId, models, "us-central1", "f1", "2nd gen", LastDeployedOf(item).value);
    DisplayJsonShows(DisplayInfo("2nd gen", "f1", LastDeployedOf(item).value, "us-central1"));
  }
}
