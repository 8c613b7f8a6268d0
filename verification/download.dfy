/**
 * Downloading an App's resources (lib/config.py:373-415): every manifest entry is merged
 * over `spec.source`, resolved, fetched and parsed, the documents are appended in manifest
 * order, and the whole list is then sorted into apply order.
 */
module Downloads {
  import opened Wrappers
  import opened Documents
  import opened Sources
  import opened Ordering
  import opened Apps

  /** What an HTTP GET returns: the status code and the YAML documents of the body. */
  datatype Response = Response(code: int, documents: seq<Value>)

  /** The URL of one manifest entry: the entry merged over a copy of `spec.source`, then resolved. */
  function ManifestUrl(spec: Value, manifest: Value): (r: Result<string, Err>)
    ensures r.Success? ==> Has(spec, "source") && spec.entries["source"].Dict? && Fields(manifest, "manifest").Success? &&
                           r == Resolve(Merge(spec.entries["source"].entries, Fields(manifest, "manifest").value))
  {
    var base :- Get(spec, "source");
    var defaults :- AsSource(base, "source");
    var entry :- Fields(manifest, "manifest");
    Resolve(Merge(defaults, entry))
  }

  /** The documents of one manifest entry (lines 380-411); any status but 200 raises. */
  function FetchManifest(spec: Value, manifest: Value, fetch: string -> Response): (r: Result<seq<Value>, Err>)
    ensures r.Success? <==> ManifestUrl(spec, manifest).Success? && fetch(ManifestUrl(spec, manifest).value).code == 200
    ensures r.Success? ==> r.value == fetch(ManifestUrl(spec, manifest).value).documents
  {
    var url :- ManifestUrl(spec, manifest);
    var response := fetch(url);
    if response.code != 200 then Failure(FetchFailed(url, response.code)) else Success(response.documents)
  }

  /**
   * The manifest loop from the front: `acc` holds what was extended so far; the first
   * failure stops it with the list as it stood.
   */
  function FetchAll(spec: Value, manifests: seq<Value>, fetch: string -> Response, acc: seq<Value>): (seq<Value>, Result<(), Err>)
    decreases |manifests|
  {
    if manifests == [] then (acc, Success(()))
    else match FetchManifest(spec, manifests[0], fetch)
      case Failure(e) => (acc, Failure(e))
      case Success(documents) => FetchAll(spec, manifests[1..], fetch, acc + documents)
  }

  /** Every manifest entry fetches. */
  predicate AllFetch(spec: Value, manifests: seq<Value>, fetch: string -> Response) {
    forall i :: 0 <= i < |manifests| ==> FetchManifest(spec, manifests[i], fetch).Success?
  }

  /** The documents of all manifest entries, in manifest order. */
  function Concat(spec: Value, manifests: seq<Value>, fetch: string -> Response): seq<Value>
    requires AllFetch(spec, manifests, fetch)
  {
    if manifests == [] then []
    else FetchManifest(spec, manifests[0], fetch).value + Concat(spec, manifests[1..], fetch)
  }

  /** The sort key exists for every document, or the first that lacks it raises. */
  function SortKeys(documents: seq<Value>): (r: Result<(), Err>)
    ensures r.Success? <==> Keyed(documents)
  {
    if documents == [] then Success(())
    else if !HasKind(documents[0]) then
      if documents[0].Dict? then Failure(MissingKey("kind")) else Failure(WrongType("kind"))
    else
      assert forall i :: 1 <= i < |documents| ==> documents[1..][i - 1] == documents[i];
      SortKeys(documents[1..])
  }

  /**
   * `resources(obj)`: nothing when the App already has resources; otherwise the list is set
   * to empty and filled, so a failure leaves what was fetched so far, unsorted. A list whose
   * sort key fails for some document is left as fetched (`list.sort` restores it).
   */
  function Download(obj: App, fetch: string -> Response): (App, Result<(), Err>) {
    if obj.resources.Some? then (obj, Success(()))
    else
      match obj.SpecGet("manifests")
      case Failure(e) => (obj.(resources := Some([])), Failure(e))
      case Success(manifests) =>
        if !manifests.List? then (obj.(resources := Some([])), Failure(WrongType("manifests")))
        else
          var (documents, fetched) := FetchAll(obj.spec, manifests.items, fetch, []);
          if fetched.Failure? then (obj.(resources := Some(documents)), fetched)
          else if SortKeys(documents).Failure? then (obj.(resources := Some(documents)), SortKeys(documents))
          else (obj.(resources := Some(SortByPriority(documents))), Success(()))
  }

  // ---------------------------------------------------------------------------
  // what the download promises

  lemma {:induction false} FetchAllConcat(spec: Value, manifests: seq<Value>, fetch: string -> Response, acc: seq<Value>)
    ensures FetchAll(spec, manifests, fetch, acc).1.Success? <==> AllFetch(spec, manifests, fetch)
    ensures AllFetch(spec, manifests, fetch) ==> FetchAll(spec, manifests, fetch, acc).0 == acc + Concat(spec, manifests, fetch)
    decreases |manifests|
  {
    if manifests != [] {
      AllFetchCons(spec, manifests, fetch);
      var first := FetchManifest(spec, manifests[0], fetch);
      if first.Success? {
        FetchAllConcat(spec, manifests[1..], fetch, acc + first.value);
        if AllFetch(spec, manifests, fetch) {
          assert acc + first.value + Concat(spec, manifests[1..], fetch) == acc + (first.value + Concat(spec, manifests[1..], fetch));
        }
      }
    }
  }

  /** Every entry of a nonempty list fetches when its first does and every later one does. */
  lemma AllFetchCons(spec: Value, manifests: seq<Value>, fetch: string -> Response)
    requires manifests != []
    ensures AllFetch(spec, manifests, fetch) <==>
            FetchManifest(spec, manifests[0], fetch).Success? && AllFetch(spec, manifests[1..], fetch)
  {
    var rest := manifests[1..];
    assert forall i :: 0 <= i < |rest| ==> rest[i] == manifests[i + 1];
    if FetchManifest(spec, manifests[0], fetch).Success? && AllFetch(spec, rest, fetch) {
      forall i | 0 <= i < |manifests|
        ensures FetchManifest(spec, manifests[i], fetch).Success?
      {
        if i > 0 {
          assert manifests[i] == rest[i - 1];
        }
      }
    }
  }

  /** An App that already has resources is left as it is: they are downloaded once. */
  lemma DownloadOnce(obj: App, fetch: string -> Response)
    requires obj.resources.Some?
    ensures Download(obj, fetch) == (obj, Success(()))
  {
  }

  /** Downloading touches the resources and nothing else, and always leaves a list there. */
  lemma DownloadFrame(obj: App, fetch: string -> Response)
    ensures var (o, _) := Download(obj, fetch);
            o.resources.Some? && o == obj.(resources := o.resources)
  {
  }

  /**
   * A download succeeds exactly when the manifests are a list whose entries all fetch and
   * whose documents all have a kind.
   */
  lemma DownloadSucceeds(obj: App, fetch: string -> Response)
    requires obj.resources.None?
    ensures Download(obj, fetch).1.Success? <==>
            obj.SpecHas("manifests") && obj.spec.entries["manifests"].List? &&
            AllFetch(obj.spec, obj.spec.entries["manifests"].items, fetch) &&
            Keyed(Concat(obj.spec, obj.spec.entries["manifests"].items, fetch))
  {
    if obj.SpecHas("manifests") && obj.spec.entries["manifests"].List? {
      var manifests := obj.spec.entries["manifests"].items;
      FetchAllConcat(obj.spec, manifests, fetch, []);
      if AllFetch(obj.spec, manifests, fetch) {
        assert [] + Concat(obj.spec, manifests, fetch) == Concat(obj.spec, manifests, fetch);
      }
    }
  }

  /**
   * A download that succeeds leaves the documents of all manifest entries in apply order:
   * a permutation of them in which each kind keeps its fetch order.
   */
  lemma DownloadSorted(obj: App, fetch: string -> Response)
    requires obj.resources.None?
    ensures var (o, r) := Download(obj, fetch);
            r.Success? ==>
              obj.SpecHas("manifests") && obj.spec.entries["manifests"].List? &&
              AllFetch(obj.spec, obj.spec.entries["manifests"].items, fetch) &&
              var documents := Concat(obj.spec, obj.spec.entries["manifests"].items, fetch);
              o.resources == Some(ApplyOrder(documents)) &&
              multiset(o.resources.value) == multiset(documents) &&
              forall q: nat :: OfRank(o.resources.value, Rank, q) == OfRank(documents, Rank, q)
  {
    DownloadSucceeds(obj, fetch);
    if Download(obj, fetch).1.Success? {
      var manifests := obj.spec.entries["manifests"].items;
      FetchAllConcat(obj.spec, manifests, fetch, []);
      var documents := Concat(obj.spec, manifests, fetch);
      assert [] + documents == documents;
      SortIsApplyOrder(documents);
      SortByPriorityCorrect(documents);
    }
  }

  /** A manifest that fails to fetch leaves the App with the documents of the entries before it, unsorted. */
  lemma DownloadPartial(obj: App, fetch: string -> Response, k: nat)
    requires obj.resources.None? && obj.SpecHas("manifests") && obj.spec.entries["manifests"].List?
    requires var manifests := obj.spec.entries["manifests"].items;
             k < |manifests| && AllFetch(obj.spec, manifests[..k], fetch) &&
             FetchManifest(obj.spec, manifests[k], fetch).Failure?
    ensures var (o, r) := Download(obj, fetch);
            var manifests := obj.spec.entries["manifests"].items;
            r == Failure(FetchManifest(obj.spec, manifests[k], fetch).error) &&
            o.resources == Some(Concat(obj.spec, manifests[..k], fetch))
  {
    var manifests := obj.spec.entries["manifests"].items;
    FetchAllStops(obj.spec, manifests, fetch, [], k);
    assert [] + Concat(obj.spec, manifests[..k], fetch) == Concat(obj.spec, manifests[..k], fetch);
  }

  lemma {:induction false} FetchAllStops(spec: Value, manifests: seq<Value>, fetch: string -> Response, acc: seq<Value>, k: nat)
    requires k < |manifests| && AllFetch(spec, manifests[..k], fetch) && FetchManifest(spec, manifests[k], fetch).Failure?
    ensures FetchAll(spec, manifests, fetch, acc) ==
            (acc + Concat(spec, manifests[..k], fetch), Failure(FetchManifest(spec, manifests[k], fetch).error))
    decreases k
  {
    if k == 0 {
      assert manifests[..0] == [];
      assert acc + [] == acc;
    } else {
      var rest := manifests[1..];
      assert manifests[..k][0] == manifests[0];
      var first := FetchManifest(spec, manifests[0], fetch).value;
      assert rest[..k - 1] == manifests[..k][1..];
      assert rest[k - 1] == manifests[k];
      var before := rest[..k - 1];
      assert AllFetch(spec, before, fetch) by {
        forall i | 0 <= i < |before|
          ensures FetchManifest(spec, before[i], fetch).Success?
        {
          assert before[i] == manifests[..k][i + 1];
        }
      }
      FetchAllStops(spec, rest, fetch, acc + first, k - 1);
      assert acc + first + Concat(spec, rest[..k - 1], fetch) == acc + (first + Concat(spec, rest[..k - 1], fetch));
    }
  }
}
