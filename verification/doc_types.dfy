/** The values every provider adapter works with: the match context, the
    network oracle's answers, the trace of requests made, the package
    descriptor and the outcome of one resolution. */
module DocTypes {
  import opened Text

  /** The match context: placeholder name to value, as captured from the
      import path and extended as the resolution learns more. A missing key
      reads as the empty string, as a Go map lookup does. */
  type Context = map<string, string>

  function Lookup(ctx: Context, key: string): string {
    if key in ctx then ctx[key] else ""
  }

  datatype Option<+T> = None | Some(value: T)

  /** The answer to one network step: the decoded value, or a transport or
      decoding error. */
  datatype Response<+T> = Ok(value: T) | Err

  /** The network steps an adapter can take. */
  datatype Step =
    | CheckoutPage      // Google Code project checkout page (VCS detection)
    | RepoBrowser       // Google Code repository browser page (revision and files)
    | RepositoryInfo    // Bitbucket repository metadata (Scm)
    | Followers         // Bitbucket followers count
    | Branches          // Bitbucket branch listing
    | Tags              // Bitbucket tag listing
    | DirectoryListing  // Bitbucket source directory listing
    | FileFetch         // raw content of one source file
    | UserInfo          // Bitbucket user profile

  datatype Request = Request(step: Step, url: string)

  /** One documentation source file; its content is fetched elsewhere. */
  datatype Source = Source(name: string, browseURL: string, rawURL: string)

  /** The package descriptor handed to the documentation builder. */
  datatype Package = Package(
    importPath: string,
    projectRoot: string,
    projectName: string,
    projectURL: string,
    browseURL: string,
    lineFmt: string,
    etag: string,
    vcs: string,
    starCount: int)

  datatype DocError =
    | Upstream(step: Step)          // the response of that step was an error
    | NotFound(message: string)     // a required marker is absent (NotFoundError)
    | NoRevision(message: string)   // the revision marker is absent (plain error)
    | TagSelection                  // the tag selector reported an error

  datatype Outcome =
    | NotModified
    | Failed(error: DocError)
    | Built(pkg: Package, sources: seq<Source>)

  /** What a resolution returns, with every request it made, in order. */
  datatype Resolution = Resolution(outcome: Outcome, trace: seq<Request>)

  datatype Result<+T> = Success(value: T) | Failure(error: DocError)

  /** The result of one step together with the requests that step made. */
  datatype Stage<+T> = Stage(result: Result<T>, trace: seq<Request>)

  /** Collaborators whose bodies are not part of this model: the
      documentation-file predicate, the tag selector and its per-VCS list of
      preferred tag names. */
  datatype Collaborators = Collaborators(
    isDocFile: string -> bool,
    bestTag: (map<string, string>, seq<string>) -> Option<(string, string)>,
    defaultTags: map<string, seq<string>>)

  /** `defaultTags[vcs]`: a missing VCS kind reads as no preferred tags. */
  function DefaultTagsFor(env: Collaborators, vcs: string): seq<string> {
    if vcs in env.defaultTags then env.defaultTags[vcs] else []
  }

  /** No request in the trace is of the given step. */
  predicate Avoids(trace: seq<Request>, step: Step) {
    forall i :: 0 <= i < |trace| ==> trace[i].step != step
  }

  /** Neither a directory listing nor a file fetch was requested. */
  predicate NoCatalogWork(trace: seq<Request>) {
    Avoids(trace, DirectoryListing) && Avoids(trace, FileFetch)
  }

  lemma AvoidsConcat(a: seq<Request>, b: seq<Request>, step: Step)
    ensures Avoids(a + b, step) <==> Avoids(a, step) && Avoids(b, step)
  {
    if Avoids(a, step) && Avoids(b, step) {
      forall i | 0 <= i < |a + b| ensures (a + b)[i].step != step {
        if i >= |a| { assert (a + b)[i] == b[i - |a|]; }
      }
    }
    if Avoids(a + b, step) {
      forall i | 0 <= i < |a| ensures a[i].step != step {
        assert (a + b)[i] == a[i];
      }
      forall i | 0 <= i < |b| ensures b[i].step != step {
        assert (a + b)[|a| + i] == b[i];
      }
    }
  }

  /** The names of the sources, in order. */
  function Names(files: seq<Source>): (r: seq<string>)
    ensures |r| == |files|
    ensures forall i :: 0 <= i < |r| ==> r[i] == files[i].name
  {
    if |files| == 0 then [] else [files[0].name] + Names(files[1..])
  }

  /** Whether the catalog's content arrived: an empty catalog needs no
      request and so cannot fail; otherwise the all-or-nothing fetch must
      succeed. */
  predicate Fetched(files: seq<Source>, fetch: Response<()>) {
    |files| == 0 || fetch.Ok?
  }

  /** The concurrent fetch of the catalog: one raw-content request per source,
      in catalog order. */
  function FetchRequests(files: seq<Source>): (r: seq<Request>)
    ensures |r| == |files|
    ensures forall i :: 0 <= i < |r| ==> r[i] == Request(FileFetch, files[i].rawURL)
  {
    if |files| == 0 then []
    else [Request(FileFetch, files[0].rawURL)] + FetchRequests(files[1..])
  }

  /** The VCS kind a saved change token names: the first kind `k` of `kinds`
      such that the token starts with `k + "-"` (the `^(k1|k2|...)-` etag
      patterns). */
  function EtagVcs(savedEtag: string, kinds: seq<string>): (r: Option<string>)
    ensures r.Some? ==> r.value in kinds && StartsWith(savedEtag, r.value + "-")
    ensures r.None? ==> forall k :: k in kinds ==> !StartsWith(savedEtag, k + "-")
  {
    if |kinds| == 0 then None
    else if StartsWith(savedEtag, kinds[0] + "-") then Some(kinds[0])
    else EtagVcs(savedEtag, kinds[1..])
  }
}
