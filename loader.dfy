/**
 * Input acceptance of the converter: the JSON file named by the input identifier
 * must exist, must parse, and the parsed value must be truthy in Python's sense.
 * Checking the file system and running the parser are I/O; they reach this model
 * as the two parameters `found` and `read`.
 */
module Loader {
  import opened Wrappers

  /** A parsed JSON document, as json.load returns it. */
  datatype Json =
    | JNull
    | JBool(b: bool)
    | JNumber(x: real)
    | JString(s: string)
    | JArray(items: seq<Json>)
    | JObject(fields: map<string, Json>)

  /** Python's truth value of a parsed document (`if not data`). */
  predicate Truthy(j: Json)
    ensures !Truthy(j) <==>
      j == JNull || j == JBool(false) || j == JNumber(0.0) ||
      j == JString("") || j == JArray([]) || j == JObject(map[])
  {
    match j
    case JNull => false
    case JBool(b) => b
    case JNumber(x) => x != 0.0
    case JString(s) => s != ""
    case JArray(items) => items != []
    case JObject(fields) => fields != map[]
  }

  /** What opening the file and running json.load on it produced. */
  datatype ReadOutcome =
    | Decoded(value: Json)
    | DecodeError(message: string)   // json.JSONDecodeError
    | ReadFailure(message: string)   // any other exception while reading

  /** The reasons the converter gives up before building a table; each ends the run with status 1. */
  datatype LoadError =
    | FileNotFound(path: string)
    | InvalidJson(path: string, message: string)
    | UnreadableFile(path: string, message: string)
    | NoData

  /** The input file of an identifier. */
  function JsonPath(id: string): (path: string)
    ensures |path| == |id| + 5 && path[..|id|] == id && path[|id|..] == ".json"
  {
    id + ".json"
  }

  /** Different identifiers name different input files. */
  lemma JsonPathInjective(a: string, b: string)
    requires JsonPath(a) == JsonPath(b)
    ensures a == b
  {
    assert a == JsonPath(a)[..|a|];
  }

  /**
   * The three checks, in the order the converter makes them: existence, then
   * parsing, then emptiness. Only truthy parsed data is passed on.
   */
  function Load(id: string, found: bool, read: ReadOutcome): (r: Result<Json, LoadError>)
    ensures r.Ok? <==> found && read.Decoded? && Truthy(read.value)
    ensures r.Ok? ==> r.value == read.value && Truthy(r.value)
    ensures !found ==> r == Err(FileNotFound(JsonPath(id)))
    ensures found && read.DecodeError? ==> r == Err(InvalidJson(JsonPath(id), read.message))
    ensures found && read.ReadFailure? ==> r == Err(UnreadableFile(JsonPath(id), read.message))
    ensures found && read.Decoded? && !Truthy(read.value) ==> r == Err(NoData)
  {
    if !found then
      Err(FileNotFound(JsonPath(id)))
    else
      match read
      case DecodeError(message) => Err(InvalidJson(JsonPath(id), message))
      case ReadFailure(message) => Err(UnreadableFile(JsonPath(id), message))
      case Decoded(data) => if Truthy(data) then Ok(data) else Err(NoData)
  }
}
