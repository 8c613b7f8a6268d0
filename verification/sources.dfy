/**
 * Source descriptors (lib/config.py `resources` and `app`): merging a manifest entry over
 * the App's default source, turning a source into the URL to fetch, and the subset match
 * that finds an App by part of its source.
 */
module Sources {
  import opened Wrappers
  import opened Documents
  import Strings

  /** A source descriptor: `url`, or `site`, `repo`, `version`, `path`, as the App's document holds them. */
  type Source = map<string, Value>

  const GITHUB := "github.com"
  const RAW_HOST := "https://raw.githubusercontent.com/"
  const DEFAULT_VERSION := "master"
  const DESCRIPTOR_PATH := "klot-io-app.yaml"

  /** `copy.deepcopy(v)` that is then updated: only a mapping has `update`. */
  function AsSource(v: Value, field: string): (r: Result<Source, Err>)
    ensures r.Success? <==> v.Dict?
    ensures r.Success? ==> r.value == v.entries
  {
    if v.Dict? then Success(v.entries) else Failure(WrongType(field))
  }

  /** `copy.deepcopy(base).update(manifest)`: the manifest's keys win, `base` itself is a value and stays as it is. */
  function Merge(base: Source, manifest: Source): (r: Source)
    ensures r.Keys == base.Keys + manifest.Keys
    ensures forall k :: k in manifest ==> r[k] == manifest[k]
    ensures forall k :: k in base && k !in manifest ==> r[k] == base[k]
  {
    base + manifest
  }

  /**
   * The URL a source resolves to (lines 387-404 and 445-462). A `url` that is no string is
   * refused, as `requests.get` refuses it.
   */
  function Resolve(source: Source): Result<string, Err> {
    if "url" in source then
      if source["url"].Str? then Success(source["url"].s) else Failure(WrongType("url"))
    else if "site" in source && source["site"] == Str(GITHUB) then
      if "repo" !in source then Failure(MissingRepo(GITHUB))
      else
        var version := if "version" in source then Format(source["version"]) else DEFAULT_VERSION;
        var path := if "path" in source then Format(source["path"]) else DESCRIPTOR_PATH;
        Success(RAW_HOST + Format(source["repo"]) + "/" + version + "/" + path)
    else Failure(UnsupportedSource(source))
  }

  /** Which sources resolve, and to what. */
  lemma ResolveCases(source: Source)
    ensures "url" in source && source["url"].Str? ==> Resolve(source) == Success(source["url"].s)
    ensures "url" !in source && "site" in source && source["site"] == Str(GITHUB) && "repo" !in source
            ==> Resolve(source) == Failure(MissingRepo(GITHUB))
    ensures "url" !in source && !("site" in source && source["site"] == Str(GITHUB))
            ==> Resolve(source) == Failure(UnsupportedSource(source))
    ensures Resolve(source).Success? <==>
            ("url" in source && source["url"].Str?) ||
            ("url" !in source && "site" in source && source["site"] == Str(GITHUB) && "repo" in source)
  {
  }

  /** A GitHub source names the raw file of the repository at the version (default master) and path (default the descriptor). */
  lemma ResolveGithub(repo: string, version: Option<string>, path: Option<string>)
    ensures var source := map["site" := Str(GITHUB), "repo" := Str(repo)]
                          + (if version.Some? then map["version" := Str(version.value)] else map[])
                          + (if path.Some? then map["path" := Str(path.value)] else map[]);
            Resolve(source) == Success(RAW_HOST + repo + "/" + version.GetOr(DEFAULT_VERSION) + "/" + path.GetOr(DESCRIPTOR_PATH))
  {
  }

  /**
   * A manifest entry that names only a `path` is fetched from the App's own repository and
   * version; one that names a string `url` is fetched from there whatever the App's source says.
   */
  lemma ResolveMerged(base: Source, manifest: Source)
    requires "url" !in base && "site" in base && base["site"] == Str(GITHUB) && "repo" in base
    ensures manifest.Keys == {"path"} ==>
      Resolve(Merge(base, manifest)) == Success(RAW_HOST + Format(base["repo"]) + "/" +
        (if "version" in base then Format(base["version"]) else DEFAULT_VERSION) + "/" + Format(manifest["path"]))
    ensures "url" in manifest && manifest["url"].Str? ==> Resolve(Merge(base, manifest)) == Success(manifest["url"].s)
  {
    var merged := Merge(base, manifest);
    if manifest.Keys == {"path"} {
      assert "url" !in merged && merged["site"] == Str(GITHUB) && merged["repo"] == base["repo"];
      assert ("version" in merged) == ("version" in base);
    }
  }

  /** Every key of `filter` is in `source` with an equal value (lines 434-437). */
  predicate Matches(filter: Source, source: Source) {
    forall k :: k in filter ==> k in source && source[k] == filter[k]
  }

  /**
   * `field in v` for a list or a string, the values on which `in` does not raise: an element
   * equal to the string, or a substring.
   */
  predicate Within(field: string, v: Value)
    requires v.List? || v.Str?
  {
    if v.List? then Str(field) in v.items else Strings.Contains(v.s, field)
  }

  /**
   * The match of lines 434-437 on an App whose `spec.source` is `source`. Every filter key
   * is looked at, and only once the filter has a key is the source read: a missing source
   * raises. A mapping matches when it holds every key with an equal value. A list or a string
   * holding none of the keys (as an element, or as a substring) does not match; holding one
   * makes `source[field]` raise. Any other value raises at `in`.
   */
  function MatchApp(filter: Source, source: Option<Value>): (r: Result<bool, Err>)
    ensures filter == map[] ==> r == Success(true)
    ensures filter != map[] && source.None? ==> r == Failure(MissingKey("source"))
    ensures source.Some? && source.value.Dict? ==> r == Success(Matches(filter, source.value.entries))
    ensures filter != map[] && source.Some? && (source.value.List? || source.value.Str?) ==>
              (r.Failure? <==> exists k :: k in filter && Within(k, source.value)) && r != Success(true)
    ensures filter != map[] && source.Some? && !(source.value.Dict? || source.value.List? || source.value.Str?) ==>
              r == Failure(WrongType("source"))
  {
    if filter == map[] then Success(true)
    else if source.None? then Failure(MissingKey("source"))
    else match source.value
      case Dict(entries) => Success(Matches(filter, entries))
      case List(_) => if exists k :: k in filter && Within(k, source.value) then Failure(WrongType("source")) else Success(false)
      case Str(_) => if exists k :: k in filter && Within(k, source.value) then Failure(WrongType("source")) else Success(false)
      case _ => Failure(WrongType("source"))
  }

  /** Only the empty filter or a mapping source can match. */
  lemma OnlyMappingsMatch(filter: Source, source: Option<Value>)
    requires MatchApp(filter, source) == Success(true)
    ensures filter == map[] || (source.Some? && source.value.Dict? && Matches(filter, source.value.entries))
  {
  }

  /** `{repo: "x/y"}` does not match a list source without the element "repo", and raises on a string source containing "repo". */
  lemma MatchListAndString()
    ensures MatchApp(map["repo" := Str("x/y")], Some(List([Str("x/y")]))) == Success(false)
    ensures MatchApp(map["repo" := Str("x/y")], Some(Str("a-repo"))).Failure?
  {
    assert Strings.OccursAt("a-repo", "repo", 2);
  }

  /** Keys of the App's source that the filter does not name are ignored. */
  lemma MatchIgnoresExtraKeys(filter: Source, source: Source, extra: Source)
    requires Matches(filter, source) && extra.Keys !! filter.Keys
    ensures Matches(filter, source + extra)
  {
  }

  /** Fewer filter keys match at least as many Apps; every source matches itself. */
  lemma MatchMonotone(filter: Source, smaller: Source, source: Source)
    requires Matches(filter, source)
    requires forall k :: k in smaller ==> k in filter && smaller[k] == filter[k]
    ensures Matches(smaller, source) && Matches(source, source)
  {
  }

  /** A filter key with a different value, or one the source lacks, rules the App out. */
  lemma MatchNeedsEveryKey(filter: Source, source: Source, k: string)
    requires k in filter && (k !in source || source[k] != filter[k])
    ensures !Matches(filter, source)
  {
  }

  /** `{repo: "x/y"}` finds an App with source `{repo: "x/y", version: "v2"}` but not one with `{repo: "x/z"}`. */
  lemma MatchExample()
    ensures Matches(map["repo" := Str("x/y")], map["repo" := Str("x/y"), "version" := Str("v2")])
    ensures !Matches(map["repo" := Str("x/y")], map["repo" := Str("x/z")])
  {
    MatchNeedsEveryKey(map["repo" := Str("x/y")], map["repo" := Str("x/z")], "repo");
  }
}
