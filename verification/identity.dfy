/** `_make_location_and_id`: the location and the short function id taken from a fully
    qualified function name `projects/{project_id}/locations/{location}/functions/{id}`. */
module Identity {
  import opened Results
  import opened Values
  import opened Strings

  /** The text the name is split on. */
  function Marker(projectId: string): (m: string)
    ensures |m| == |projectId| + 20
    ensures m[..9] == "projects/"
  {
    "projects/" + projectId + "/locations/"
  }

  /** Everything the two `split` calls produce: the discarded text before the marker and the
      three `/`-separated segments after it (the middle one is never inspected). */
  datatype NameParts = NameParts(prefix: string, location: string, middle: string, functionId: string)

  function Tail(p: NameParts): string {
    p.location + "/" + p.middle + "/" + p.functionId
  }

  /** Both unpackings of the source: exactly two pieces around the marker, then exactly three
      `/`-separated segments. Either mismatch raises ValueError. */
  function ParseName(name: string, projectId: string): (r: Result<NameParts, Fault>)
    ensures r.Success? ==>
      && name == r.value.prefix + Marker(projectId) + Tail(r.value)
      && '/' !in r.value.location && '/' !in r.value.middle && '/' !in r.value.functionId
      && (forall i: nat :: i < |r.value.prefix| ==> !OccursAt(name, Marker(projectId), i))
      && Free(Tail(r.value), Marker(projectId))
    ensures r.Failure? ==> r.error.ValueError? && r.error.kind.UnpackMismatch?
  {
    var halves := Split(name, Marker(projectId));
    if |halves| != 2 then Failure(ValueError(UnpackMismatch(2, |halves|)))
    else
      var segments := Split(halves[1], "/");
      if |segments| != 3 then Failure(ValueError(UnpackMismatch(3, |segments|)))
      else
        JoinTwo(halves, Marker(projectId));
        JoinThree(segments, "/");
        FreeChar(segments[0], '/');
        FreeChar(segments[1], '/');
        FreeChar(segments[2], '/');
        Success(NameParts(halves[0], segments[0], segments[1], segments[2]))
  }

  /** `_make_location_and_id(name, project_id)`, returning `(location, function_id)`. */
  function MakeLocationAndId(name: string, projectId: string): (r: Result<(string, string), Fault>)
    ensures r.Success? <==> ParseName(name, projectId).Success?
    ensures r.Success? ==> '/' !in r.value.0 && '/' !in r.value.1
    ensures r.Success? ==> |r.value.1| < |name| && name[|name| - |r.value.1| - 1..] == "/" + r.value.1
  {
    match ParseName(name, projectId)
    case Failure(e) => Failure(e)
    case Success(parts) =>
      EndsWithId(name, parts.prefix + Marker(projectId), parts);
      Success((parts.location, parts.functionId))
  }

  lemma EndsWithId(name: string, head: string, p: NameParts)
    requires name == head + Tail(p)
    ensures |p.functionId| < |name| && name[|name| - |p.functionId| - 1..] == "/" + p.functionId
  {
    var t := Tail(p);
    var k := |p.functionId| + 1;
    assert t[|t| - k..] == "/" + p.functionId;
    assert name[|name| - k..] == t[|t| - k..];
  }

  /** A name with the marker exactly once, followed by three `/`-free segments, yields the
      first and third segment, whatever the text before the marker and the middle segment. */
  lemma {:induction false} LocationAndIdAccepted(name: string, projectId: string, prefix: string,
                                                 location: string, middle: string, functionId: string)
    requires name == prefix + Marker(projectId) + location + "/" + middle + "/" + functionId
    requires '/' !in location && '/' !in middle && '/' !in functionId
    requires forall i: nat :: OccursAt(name, Marker(projectId), i) ==> i == |prefix|
    ensures ParseName(name, projectId) == Success(NameParts(prefix, location, middle, functionId))
    ensures MakeLocationAndId(name, projectId) == Success((location, functionId))
  {
    var m := Marker(projectId);
    var tail := location + "/" + middle + "/" + functionId;
    assert name == prefix + m + tail;
    SplitOnce(name, m, prefix, tail);
    assert tail == location + ['/'] + middle + ['/'] + functionId;
    SplitCharThree(location, middle, functionId, '/');
  }

  /** Without the marker the first unpacking gets a single piece. */
  lemma LocationAndIdRejectsMissingMarker(name: string, projectId: string)
    requires Free(name, Marker(projectId))
    ensures ParseName(name, projectId) == Failure(ValueError(UnpackMismatch(2, 1)))
    ensures MakeLocationAndId(name, projectId).Failure?
  {
    SplitFree(name, Marker(projectId));
  }

  /** Two non-overlapping copies of the marker give three or more pieces. */
  lemma LocationAndIdRejectsRepeatedMarker(name: string, projectId: string, i: nat, j: nat)
    requires OccursAt(name, Marker(projectId), i) && OccursAt(name, Marker(projectId), j)
    requires i + |Marker(projectId)| <= j
    ensures ParseName(name, projectId).Failure?
    ensures MakeLocationAndId(name, projectId).Failure?
  {
    SplitDisjointOccurrences(name, Marker(projectId), i, j);
  }

  /** With the marker once, the text after it must hold exactly two `/`. */
  lemma LocationAndIdRejectsSegmentCount(name: string, projectId: string, prefix: string, suffix: string)
    requires name == prefix + Marker(projectId) + suffix
    requires forall i: nat :: OccursAt(name, Marker(projectId), i) ==> i == |prefix|
    requires multiset(suffix)['/'] != 2
    ensures ParseName(name, projectId) == Failure(ValueError(UnpackMismatch(3, multiset(suffix)['/'] + 1)))
    ensures MakeLocationAndId(name, projectId).Failure?
  {
    SplitOnce(name, Marker(projectId), prefix, suffix);
    SplitCharCount(suffix, '/');
  }

  /** Success means the marker occurs, and the text after its leftmost copy has exactly two `/`. */
  lemma LocationAndIdSuccessShape(name: string, projectId: string)
    requires ParseName(name, projectId).Success?
    ensures var p := ParseName(name, projectId).value;
      && OccursAt(name, Marker(projectId), |p.prefix|)
      && multiset(Tail(p))['/'] == 2
  {
    var p := ParseName(name, projectId).value;
    var m := Marker(projectId);
    assert name[|p.prefix|..|p.prefix| + |m|] == m;
    SplitCharThree(p.location, p.middle, p.functionId, '/');
    assert Tail(p) == p.location + ['/'] + p.middle + ['/'] + p.functionId;
    SplitCharCount(Tail(p), '/');
  }

  // A worked name. Each literal fact about it is a lemma of its own, with the literals passed
  // as parameters fixed by `requires`: a literal string is then unfolded only in the one small
  // proof that needs it, which keeps every proof obligation small.

  /** In a typical function name the marker occurs only at its start: `pr` appears
      nowhere else. */
  lemma ScenarioMarkerOnce(name: string, m: string)
    requires name == "projects/p1/locations/us-central1/functions/f1"
    requires m == "projects/p1/locations/"
    ensures forall i: nat :: OccursAt(name, m, i) ==> i == 0
  {
    assert m[0] == 'p' && m[1] == 'r';
    forall i: nat | OccursAt(name, m, i)
      ensures i == 0
    {
      var window := name[i..i + |m|];
      assert window == m && window[0] == name[i] && window[1] == name[i + 1];
      assert name[i] == 'p' && name[i + 1] == 'r';
    }
  }

  lemma ScenarioNameSplit(name: string, m: string, tail: string)
    requires name == "projects/p1/locations/us-central1/functions/f1" && m == "projects/p1/locations/"
    requires tail == "us-central1/functions/f1"
    ensures name == m + tail
  {
  }

  lemma ScenarioTailSplit(tail: string, location: string, middle: string, functionId: string)
    requires tail == "us-central1/functions/f1"
    requires location == "us-central1" && middle == "functions" && functionId == "f1"
    ensures tail == location + "/" + middle + "/" + functionId
    ensures '/' !in location && '/' !in middle && '/' !in functionId
  {
  }

  /** A name assembled from the marker and a tail of three segments. */
  lemma NameOfSegments(name: string, m: string, tail: string, location: string, middle: string,
                       functionId: string)
    requires name == m + tail && tail == location + "/" + middle + "/" + functionId
    ensures name == "" + m + location + "/" + middle + "/" + functionId
  {
    assert m + (location + "/" + middle + "/" + functionId) == "" + m + location + "/" + middle + "/" + functionId;
  }

  /** A typical function name parses to its location and id. */
  lemma ScenarioName(name: string, projectId: string, location: string, middle: string, functionId: string)
    requires name == "projects/p1/locations/us-central1/functions/f1" && projectId == "p1"
    requires location == "us-central1" && middle == "functions" && functionId == "f1"
    ensures MakeLocationAndId(name, projectId) == Success((location, functionId))
  {
    var m := Marker(projectId);
    assert m == "projects/p1/locations/";
    var tail := "us-central1/functions/f1";
    ScenarioMarkerOnce(name, m);
    ScenarioNameSplit(name, m, tail);
    ScenarioTailSplit(tail, location, middle, functionId);
    NameOfSegments(name, m, tail, location, middle, functionId);
    LocationAndIdAccepted(name, projectId, "", location, middle, functionId);
  }
}
