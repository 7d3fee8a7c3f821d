/**
 * The naming helpers and the parameter lists the evaluators read their
 * configuration from.  `Keys::getKey` and `Keys::getDomain` are not part of
 * this model: they are oracles, supplied as function values.
 */
module Keys {
  import opened Results

  /** The two key helpers every evaluator calls. */
  datatype KeyOps = KeyOps(getDomain: string -> string, getKey: (string, string) -> string)

  /** A parameter-list entry: the evaluators read strings and booleans. */
  datatype Param = PString(s: string) | PBool(b: bool)

  type ParameterList = map<string, Param>

  datatype ParamError = MissingParameter(name: string) | WrongParameterType(name: string)

  /** `plist.get<std::string>(name)`: raises when the entry is absent or not a string. */
  function GetString(plist: ParameterList, name: string): (r: Result<string, ParamError>)
    ensures r.Ok? <==> name in plist && plist[name].PString?
    ensures r.Ok? ==> plist[name] == PString(r.value)
    ensures r.Err? && name !in plist ==> r.error == MissingParameter(name)
  {
    if name !in plist then Err(MissingParameter(name))
    else match plist[name]
      case PString(s) => Ok(s)
      case PBool(_) => Err(WrongParameterType(name))
  }

  /** `plist.get<bool>(name, default)`: the default when absent, a raise when not a boolean. */
  function GetBoolOr(plist: ParameterList, name: string, default: bool): (r: Result<bool, ParamError>)
    ensures name !in plist ==> r == Ok(default)
    ensures name in plist ==> (r.Ok? <==> plist[name].PBool?)
    ensures name in plist && r.Ok? ==> plist[name] == PBool(r.value)
  {
    if name !in plist then Ok(default)
    else match plist[name]
      case PBool(b) => Ok(b)
      case PString(_) => Err(WrongParameterType(name))
  }
}
