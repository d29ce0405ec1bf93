/** `_make_readable_environment`: the display label of a function's hosting generation. */
module Environment {
  import opened Results
  import opened Values

  /** The lookup table of the source; there is no default entry. */
  const Labels: map<string, string> :=
    map["GEN_1" := "1st gen", "GEN_2" := "2nd gen", "ENVIRONMENT_UNSPECIFIED" := "unspecified"]

  /** `environment_map[environment]`: a list or dict key raises TypeError (unhashable), any
      other key outside the table raises KeyError carrying that key. */
  function ReadableEnvironment(environment: Json): (r: Result<string, Fault>)
    ensures environment == JString("GEN_1") <==> r == Success("1st gen")
    ensures environment == JString("GEN_2") <==> r == Success("2nd gen")
    ensures environment == JString("ENVIRONMENT_UNSPECIFIED") <==> r == Success("unspecified")
    ensures r.Success? <==> environment.JString? && environment.s in Labels
    ensures r.Success? || r.error == (if Hashable(environment) then KeyError(environment) else TypeError)
  {
    if !Hashable(environment) then Failure(TypeError)
    else if environment.JString? && environment.s in Labels then Success(Labels[environment.s])
    else Failure(KeyError(environment))
  }
}
