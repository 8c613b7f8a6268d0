/**
 * Documents as the YAML loader and the cluster API hand them to the daemon (nested
 * mappings, lists and scalars), the failures the daemon's code can raise, and the
 * dictionary operations it performs on documents.
 */
module Documents {
  import opened Wrappers
  import Strings

  /** A parsed document or a value inside one. */
  datatype Value =
    | Null
    | Bool(b: bool)
    | Int(i: int)
    | Str(s: string)
    | List(items: seq<Value>)
    | Dict(entries: map<string, Value>)
      /** The string `yaml.safe_dump` makes of `doc`; its characters are not modelled. */
    | YamlText(doc: Value)

  /** The exceptions the reconcilers raise, one per cause. */
  datatype Err =
    | MissingKey(key: string)                  // KeyError
    | WrongType(what: string)                  // TypeError, or an attribute missing on a value of the wrong shape
    | MissingRepo(site: string)                // "missing source.repo for ..."
    | UnsupportedSource(source: map<string, Value>)   // "cannot parse ..." / "cannot preview ..."
    | FetchFailed(url: string, code: int)      // a response other than 200
    | MalformedApp                             // "source ... has malformed App ..."
    | NotOneDocument                           // `yaml.safe_load` of a stream holding several documents
    | NotFound(kind: string, namespace: string, name: string)  // the API has no such object
    | AlreadyExists(name: string)              // creating an App whose name is taken
    | UnknownKind(kind: string)                // the client library has no class for the kind
    | UndefinedJson                            // `json` is used but never imported
    | BadNumber(text: string)                  // ValueError from int()
    | BadLabel(part: string)                   // IDNA conversion or chr() of a label length failed
    | ShortLine(line: string)                  // IndexError from indexing the pieces of a split line

  /** `key in v` for a mapping; other values hold no keys. */
  predicate Has(v: Value, key: string) {
    v.Dict? && key in v.entries
  }

  /** `v[key]`: a KeyError when the mapping lacks the key, a TypeError when `v` is no mapping. */
  function Get(v: Value, key: string): (r: Result<Value, Err>)
    ensures r.Success? <==> Has(v, key)
    ensures r.Success? ==> r.value == v.entries[key]
  {
    if !v.Dict? then Failure(WrongType(key))
    else if key !in v.entries then Failure(MissingKey(key))
    else Success(v.entries[key])
  }

  /** `v[key]` where the value must be a string. */
  function GetStr(v: Value, key: string): (r: Result<string, Err>)
    ensures r.Success? <==> Has(v, key) && v.entries[key].Str?
    ensures r.Success? ==> v.entries[key] == Str(r.value)
  {
    var x :- Get(v, key);
    if x.Str? then Success(x.s) else Failure(WrongType(key))
  }

  /**
   * The fields `for field in v` visits when the loop goes on to read `v[field]`, and what
   * `dict.update(v)` adds: a mapping's own entries, while an empty list or string adds and
   * visits nothing, so it acts as an empty mapping. Any other value is refused: None and
   * numbers are not iterable, and a non-empty list or string fails once it is read by a
   * field name.
   */
  function Fields(v: Value, what: string): (r: Result<map<string, Value>, Err>)
    ensures r.Success? <==> v.Dict? || v == List([]) || v == Str("")
    ensures r.Success? ==> r.value == if v.Dict? then v.entries else map[]
  {
    if v.Dict? then Success(v.entries)
    else if v == List([]) || v == Str("") then Success(map[])
    else Failure(WrongType(what))
  }

  /** Python truthiness. */
  predicate Truthy(v: Value) {
    match v
    case Null => false
    case Bool(b) => b
    case Int(i) => i != 0
    case Str(s) => s != []
    case List(items) => items != []
    case Dict(entries) => entries != map[]
    case YamlText(_) => true
  }

  /** `"%s" % v`. Strings and numbers are rendered as Python renders them; lists and mappings by a placeholder. */
  function Format(v: Value): string {
    match v
    case Null => "None"
    case Bool(b) => if b then "True" else "False"
    case Int(i) => Strings.IntToString(i)
    case Str(s) => s
    case List(_) => "[...]"
    case Dict(_) => "{...}"
    case YamlText(_) => "..."
  }
}
