/** The Google Code adapter: the import-path shape, the match-context set-up,
    VCS detection from the saved change token or the checkout page, revision
    scraping with the not-modified short-circuit, the file catalog and the
    package descriptor; and the standard-library variant that reads the Go
    project's release history. */
module Google {
  import opened Text
  import opened DocTypes
  import opened Template

  // ---------------------------------------------------------------------
  // Import-path shape
  //   code.google.com/p/<repo>[(:.|.)<subrepo>][<dir>]
  // ---------------------------------------------------------------------

  const ProjectPrefix := "code.google.com/p/"

  /** `[a-z0-9\-]`: the characters of a project or subrepository name. */
  predicate IsProjectChar(c: char) {
    'a' <= c <= 'z' || '0' <= c <= '9' || c == '-'
  }

  /** The optional directory group: a `/` followed by at least one more
      path character. */
  predicate IsGoogleDir(d: string) {
    d == "" || (|d| >= 2 && d[0] == '/' && AllChars(d, IsPathChar))
  }

  /** Captures the pattern can produce; an absent subrepository or directory
      is captured as the empty string. */
  predicate GoogleShape(repo: string, subrepo: string, dir: string) {
    && |repo| > 0 && AllChars(repo, IsProjectChar)
    && AllChars(subrepo, IsProjectChar)
    && IsGoogleDir(dir)
  }

  /** The import path with the given captures; `colon` chooses the `:.`
      spelling of the subrepository separator over the plain `.`. */
  function GooglePath(repo: string, subrepo: string, dir: string, colon: bool): string {
    ProjectPrefix + (repo + TailText(subrepo, dir, colon))
  }

  function Captures(repo: string, subrepo: string, dir: string): Context {
    map["repo" := repo, "subrepo" := subrepo, "dir" := dir]
  }

  lemma CapturesFields(repo: string, subrepo: string, dir: string)
    ensures var c := Captures(repo, subrepo, dir);
      && c.Keys == {"repo", "subrepo", "dir"}
      && c["repo"] == repo && c["subrepo"] == subrepo && c["dir"] == dir
  {
  }

  /** What follows the repository: an optional `.` or `:.` with a
      non-empty subrepository, then an optional directory, then the end. */
  function MatchGoogleTail(after: string): (r: Option<(string, string)>)
  {
    if StartsWith(after, ":.") then MatchSubrepo(after[2..])
    else if StartsWith(after, ".") then MatchSubrepo(after[1..])
    else if IsGoogleDir(after) then Some(("", after))
    else None
  }

  /** A non-empty greedy subrepository followed by an optional directory. */
  function MatchSubrepo(tail: string): (r: Option<(string, string)>)
  {
    var n := Span(tail, IsProjectChar);
    if n == 0 || !IsGoogleDir(tail[n..]) then None
    else Some((tail[..n], tail[n..]))
  }

  /** The pattern as a parser: the fixed prefix, a greedy run of project
      characters for the repository, then the tail. */
  function MatchGooglePath(path: string): (r: Option<Context>)
  {
    if StartsWith(path, ProjectPrefix) then MatchGoogleRest(path[|ProjectPrefix|..]) else None
  }

  function MatchGoogleRest(rest: string): (r: Option<Context>)
  {
    var n := Span(rest, IsProjectChar);
    if n == 0 then None
    else
      match MatchGoogleTail(rest[n..])
      case None => None
      case Some((subrepo, dir)) => Some(Captures(rest[..n], subrepo, dir))
  }

  /** The separator text in front of a subrepository. */
  function Separator(subrepo: string, colon: bool): string {
    if subrepo == "" then "" else if colon then ":." else "."
  }

  /** What follows the repository in a path with the given captures. */
  function TailText(subrepo: string, dir: string, colon: bool): string {
    Separator(subrepo, colon) + subrepo + dir
  }

  lemma MatchSubrepoComplete(subrepo: string, dir: string)
    requires |subrepo| > 0 && AllChars(subrepo, IsProjectChar) && IsGoogleDir(dir)
    ensures MatchSubrepo(subrepo + dir) == Some((subrepo, dir))
  {
    var tail := subrepo + dir;
    SpanOfConcat(subrepo, dir, IsProjectChar);
    assert tail[..|subrepo|] == subrepo && tail[|subrepo|..] == dir;
  }

  lemma MatchGoogleTailNoSubrepo(dir: string)
    requires IsGoogleDir(dir)
    ensures MatchGoogleTail(dir) == Some(("", dir))
  {
    if |dir| > 0 {
      assert dir[0] == '/';
    }
  }

  lemma MatchGoogleTailColon(subrepo: string, dir: string)
    requires |subrepo| > 0 && AllChars(subrepo, IsProjectChar) && IsGoogleDir(dir)
    ensures MatchGoogleTail(":." + subrepo + dir) == Some((subrepo, dir))
  {
    MatchSubrepoComplete(subrepo, dir);
    var after := ":." + subrepo + dir;
    assert after[..2] == ":.";
    assert after[2..] == subrepo + dir;
  }

  lemma MatchGoogleTailDot(subrepo: string, dir: string)
    requires |subrepo| > 0 && AllChars(subrepo, IsProjectChar) && IsGoogleDir(dir)
    ensures MatchGoogleTail("." + subrepo + dir) == Some((subrepo, dir))
  {
    MatchSubrepoComplete(subrepo, dir);
    var after := "." + subrepo + dir;
    assert after[0] == '.';
    assert after[1..] == subrepo + dir;
  }

  lemma MatchGoogleTailComplete(subrepo: string, dir: string, colon: bool)
    requires AllChars(subrepo, IsProjectChar) && IsGoogleDir(dir)
    ensures MatchGoogleTail(TailText(subrepo, dir, colon)) == Some((subrepo, dir))
  {
    if subrepo == "" {
      assert TailText(subrepo, dir, colon) == dir;
      MatchGoogleTailNoSubrepo(dir);
    } else if colon {
      MatchGoogleTailColon(subrepo, dir);
    } else {
      MatchGoogleTailDot(subrepo, dir);
    }
  }

  lemma MatchSubrepoSound(tail: string)
    requires MatchSubrepo(tail).Some?
    ensures var (subrepo, dir) := MatchSubrepo(tail).value;
      |subrepo| > 0 && AllChars(subrepo, IsProjectChar) && IsGoogleDir(dir) && tail == subrepo + dir
  {
    var n := Span(tail, IsProjectChar);
    assert tail == tail[..n] + tail[n..];
  }

  lemma MatchGoogleTailSound(after: string)
    requires MatchGoogleTail(after).Some?
    ensures var (subrepo, dir) := MatchGoogleTail(after).value;
      && AllChars(subrepo, IsProjectChar) && IsGoogleDir(dir)
      && (after == TailText(subrepo, dir, false) || after == TailText(subrepo, dir, true))
  {
    if StartsWith(after, ":.") {
      MatchSubrepoSound(after[2..]);
      assert after == after[..2] + after[2..];
    } else if StartsWith(after, ".") {
      MatchSubrepoSound(after[1..]);
      assert after == after[..1] + after[1..];
    }
  }

  lemma MatchGoogleRestComplete(repo: string, after: string, subrepo: string, dir: string)
    requires |repo| > 0 && AllChars(repo, IsProjectChar)
    requires MatchGoogleTail(after) == Some((subrepo, dir))
    requires |after| == 0 || !IsProjectChar(after[0])
    ensures MatchGoogleRest(repo + after) == Some(Captures(repo, subrepo, dir))
  {
    SpanOfConcat(repo, after, IsProjectChar);
    assert (repo + after)[..|repo|] == repo && (repo + after)[|repo|..] == after;
  }

  /** Every path of the pattern's shape is accepted, with its captures. */
  lemma MatchGoogleComplete(repo: string, subrepo: string, dir: string, colon: bool)
    requires GoogleShape(repo, subrepo, dir)
    ensures MatchGooglePath(GooglePath(repo, subrepo, dir, colon)) == Some(Captures(repo, subrepo, dir))
  {
    var after := TailText(subrepo, dir, colon);
    MatchGoogleTailComplete(subrepo, dir, colon);
    if |after| > 0 {
      assert after[0] in ":./" by {
        if subrepo == "" { assert after == dir; }
      }
    }
    MatchGoogleRestComplete(repo, after, subrepo, dir);
    var path := GooglePath(repo, subrepo, dir, colon);
    assert path[|ProjectPrefix|..] == repo + after;
  }

  lemma MatchGoogleRestSound(rest: string)
    requires MatchGoogleRest(rest).Some?
    ensures var c := MatchGoogleRest(rest).value;
      && c.Keys == {"repo", "subrepo", "dir"}
      && GoogleShape(c["repo"], c["subrepo"], c["dir"])
      && (rest == c["repo"] + TailText(c["subrepo"], c["dir"], false)
          || rest == c["repo"] + TailText(c["subrepo"], c["dir"], true))
  {
    var n := Span(rest, IsProjectChar);
    var repo, after := rest[..n], rest[n..];
    MatchGoogleTailSound(after);
    var (subrepo, dir) := MatchGoogleTail(after).value;
    assert MatchGoogleRest(rest).value == Captures(repo, subrepo, dir);
    CapturesFields(repo, subrepo, dir);
    assert rest == repo + after;
  }

  /** Every accepted path has the pattern's shape and is rebuilt from its
      captures (up to the spelling of the separator), so nothing else is
      accepted. */
  lemma MatchGoogleSound(path: string)
    requires MatchGooglePath(path).Some?
    ensures var c := MatchGooglePath(path).value;
      && c.Keys == {"repo", "subrepo", "dir"}
      && GoogleShape(c["repo"], c["subrepo"], c["dir"])
      && (path == GooglePath(c["repo"], c["subrepo"], c["dir"], false)
          || path == GooglePath(c["repo"], c["subrepo"], c["dir"], true))
  {
    var rest := path[|ProjectPrefix|..];
    MatchGoogleRestSound(rest);
    assert path == ProjectPrefix + rest;
  }

  /** The repository capture never contains a `.`: the subrepository
      separator always ends it. */
  lemma GoogleRepoHasNoDot(path: string)
    requires MatchGooglePath(path).Some?
    ensures "repo" in MatchGooglePath(path).value
    ensures '.' !in MatchGooglePath(path).value["repo"]
  {
    MatchGoogleSound(path);
  }

  // ---------------------------------------------------------------------
  // Match-context set-up
  // ---------------------------------------------------------------------

  /** The `dot` and `query` placeholders derived from the subrepository. */
  function SetupGoogleMatch(m: Context): (r: Context)
    ensures "dot" in r && "query" in r
    ensures Lookup(m, "subrepo") != "" ==>
      r["dot"] == "." && r["query"] == "?repo=" + Lookup(m, "subrepo")
    ensures Lookup(m, "subrepo") == "" ==> r["dot"] == "" && r["query"] == ""
    ensures r.Keys == m.Keys + {"dot", "query"}
    ensures forall k :: k in m && k != "dot" && k != "query" ==> r[k] == m[k]
  {
    var s := Lookup(m, "subrepo");
    if s != "" then m["dot" := "."]["query" := "?repo=" + s]
    else m["dot" := ""]["query" := ""]
  }

  // ---------------------------------------------------------------------
  // Pages and the values scraped from them
  // ---------------------------------------------------------------------

  const GoogleVcsKinds: seq<string> := ["hg", "git", "svn"]

  /** The VCS marker of the checkout page: one of `hg`, `git`, `svn`. */
  type VcsKind = s: string | s == "hg" || s == "git" || s == "svn" witness "hg"

  /** A scraped revision: one or more characters, none of them `:`. */
  type Revision = s: string | |s| > 0 && ':' !in s witness "1"

  /** A scraped file anchor: one or more characters, no `/` and no `"`. */
  type AnchorName = s: string | |s| > 0 && '/' !in s && '"' !in s witness "a"

  /** What the revision and file-anchor extraction finds on a browser page. */
  datatype BrowsePage = BrowsePage(revision: Option<Revision>, anchors: seq<AnchorName>)

  /** The network's answers for one Google Code resolution: the checkout
      page's VCS marker (if present), the repository browser page, and the
      all-or-nothing content fetch of the catalog. */
  datatype GooglePages = GooglePages(
    checkout: Response<Option<VcsKind>>,
    browser: Response<BrowsePage>,
    fetch: Response<()>)

  const VcsNotFoundMessage := "Could not VCS on Google Code project page."
  const RevisionNotFoundMessage := "Could not find revision for "

  /** `http://code.google.com/p/{repo}/source/checkout` */
  const CheckoutUrl := Empty.Text("http://code.google.com/p/").Key("repo").Text("/source/checkout")

  /** `http://{subrepo}{dot}{repo}.googlecode.com/{vcs}{dir}/` */
  const BrowserUrl := Empty.Text("http://").Key("subrepo").Key("dot").Key("repo")
                        .Text(".googlecode.com/").Key("vcs").Key("dir").Text("/")

  /** `http://code.google.com/p/{repo}/source/browse{dir}/{0}{query}` */
  const SourceBrowseUrl := Empty.Text("http://code.google.com/p/").Key("repo").Text("/source/browse")
                             .Key("dir").Text("/").Pos().Key("query")

  /** `http://code.google.com/p/{repo}/source/browse{dir}/{query}` */
  const PackageBrowseTemplate := Empty.Text("http://code.google.com/p/").Key("repo").Text("/source/browse")
                              .Key("dir").Text("/").Key("query")

  /** `{repo}{dot}{subrepo}` */
  const ProjectNameTemplate := Empty.Key("repo").Key("dot").Key("subrepo")

  /** The VCS kind from the checkout page. */
  function GetGoogleVcs(ctx: Context, checkout: Response<Option<VcsKind>>): (r: Stage<string>)
    ensures |r.trace| == 1 && r.trace[0].step == CheckoutPage
    ensures r.result.Success? <==> checkout.Ok? && checkout.value.Some?
    ensures r.result.Success? ==> r.result.value in GoogleVcsKinds
    ensures checkout.Ok? && checkout.value.Some? ==> r.result == Success(checkout.value.value)
    ensures checkout.Ok? && checkout.value.None? ==> r.result == Failure(NotFound(VcsNotFoundMessage))
  {
    var trace := [Request(CheckoutPage, Expand(CheckoutUrl, ctx, ""))];
    match checkout
    case Err => Stage(Failure(Upstream(CheckoutPage)), trace)
    case Ok(None) => Stage(Failure(NotFound(VcsNotFoundMessage)), trace)
    case Ok(Some(v)) => Stage(Success(v), trace)
  }

  /** `{vcs}-{0}` with the revision as the positional argument. */
  function GoogleEtag(ctx: Context, revision: string): (etag: string)
    ensures etag == Lookup(ctx, "vcs") + "-" + revision
  {
    var t1 := Empty.Key("vcs");
    var t2 := t1.Text("-");
    assert Expand(t1, ctx, revision) == Lookup(ctx, "vcs");
    assert Expand(t2, ctx, revision) == Expand(t1, ctx, revision) + "-";
    Expand(t2.Pos(), ctx, revision)
  }

  /** `http://{subrepo}{dot}{repo}.googlecode.com/{vcs}{dir}/{0}` */
  function RawFileUrl(ctx: Context, name: string): (u: string)
    ensures u == "http://" + Lookup(ctx, "subrepo") + Lookup(ctx, "dot") + Lookup(ctx, "repo")
                 + ".googlecode.com/" + Lookup(ctx, "vcs") + Lookup(ctx, "dir") + "/" + name
  {
    var t1 := Empty.Text("http://");
    var t2 := t1.Key("subrepo");
    var t3 := t2.Key("dot");
    var t4 := t3.Key("repo");
    var t5 := t4.Text(".googlecode.com/");
    var t6 := t5.Key("vcs");
    var t7 := t6.Key("dir");
    var t8 := t7.Text("/");
    assert Expand(t1, ctx, name) == "http://";
    assert Expand(t2, ctx, name) == Expand(t1, ctx, name) + Lookup(ctx, "subrepo");
    assert Expand(t3, ctx, name) == Expand(t2, ctx, name) + Lookup(ctx, "dot");
    assert Expand(t4, ctx, name) == Expand(t3, ctx, name) + Lookup(ctx, "repo");
    assert Expand(t5, ctx, name) == Expand(t4, ctx, name) + ".googlecode.com/";
    assert Expand(t6, ctx, name) == Expand(t5, ctx, name) + Lookup(ctx, "vcs");
    assert Expand(t7, ctx, name) == Expand(t6, ctx, name) + Lookup(ctx, "dir");
    assert Expand(t8, ctx, name) == Expand(t7, ctx, name) + "/";
    Expand(t8.Pos(), ctx, name)
  }

  /** `code.google.com/p/{repo}{dot}{subrepo}` */
  function ProjectRoot(ctx: Context): (root: string)
    ensures root == "code.google.com/p/" + Lookup(ctx, "repo") + Lookup(ctx, "dot") + Lookup(ctx, "subrepo")
  {
    var t1 := Empty.Text("code.google.com/p/");
    var t2 := t1.Key("repo");
    var t3 := t2.Key("dot");
    assert Expand(t1, ctx, "") == "code.google.com/p/";
    assert Expand(t2, ctx, "") == Expand(t1, ctx, "") + Lookup(ctx, "repo");
    assert Expand(t3, ctx, "") == Expand(t2, ctx, "") + Lookup(ctx, "dot");
    Expand(t3.Key("subrepo"), ctx, "")
  }

  /** `{repo}{dot}{subrepo}` */
  function ProjectName(ctx: Context): (name: string)
    ensures name == Lookup(ctx, "repo") + Lookup(ctx, "dot") + Lookup(ctx, "subrepo")
  {
    var t1 := Empty.Key("repo");
    var t2 := t1.Key("dot");
    assert Expand(t1, ctx, "") == Lookup(ctx, "repo");
    assert Expand(t2, ctx, "") == Expand(t1, ctx, "") + Lookup(ctx, "dot");
    Expand(ProjectNameTemplate, ctx, "")
  }

  /** `http://code.google.com/p/{repo}/source/browse{dir}/{query}` */
  function PackageBrowseUrl(ctx: Context): (u: string)
    ensures u == "http://code.google.com/p/" + Lookup(ctx, "repo") + "/source/browse"
                 + Lookup(ctx, "dir") + "/" + Lookup(ctx, "query")
  {
    var t1 := Empty.Text("http://code.google.com/p/");
    var t2 := t1.Key("repo");
    var t3 := t2.Text("/source/browse");
    var t4 := t3.Key("dir");
    assert Expand(t1, ctx, "") == "http://code.google.com/p/";
    assert Expand(t2, ctx, "") == Expand(t1, ctx, "") + Lookup(ctx, "repo");
    assert Expand(t3, ctx, "") == Expand(t2, ctx, "") + "/source/browse";
    var t5 := t4.Text("/");
    assert Expand(t4, ctx, "") == Expand(t3, ctx, "") + Lookup(ctx, "dir");
    assert Expand(t5, ctx, "") == Expand(t4, ctx, "") + "/";
    Expand(PackageBrowseTemplate, ctx, "")
  }

  /** The project page: `https://code.google.com/p/{repo}/` without a
      subrepository, `https://code.google.com/p/{repo}/source/browse?repo={subrepo}`
      with one. */
  function ProjectUrl(ctx: Context): (u: string)
    ensures Lookup(ctx, "subrepo") == "" ==> u == "https://code.google.com/p/" + Lookup(ctx, "repo") + "/"
    ensures Lookup(ctx, "subrepo") != "" ==>
      u == "https://code.google.com/p/" + Lookup(ctx, "repo") + "/source/browse?repo=" + Lookup(ctx, "subrepo")
  {
    var t1 := Empty.Text("https://code.google.com/p/");
    var t2 := t1.Key("repo");
    assert Expand(t1, ctx, "") == "https://code.google.com/p/";
    assert Expand(t2, ctx, "") == Expand(t1, ctx, "") + Lookup(ctx, "repo");
    if Lookup(ctx, "subrepo") == "" then
      Expand(t2.Text("/"), ctx, "")
    else
      var t3 := t2.Text("/source/browse?repo=");
      assert Expand(t3, ctx, "") == Expand(t2, ctx, "") + "/source/browse?repo=";
      Expand(t3.Key("subrepo"), ctx, "")
  }

  // ---------------------------------------------------------------------
  // File catalog
  // ---------------------------------------------------------------------

  function GoogleSource(ctx: Context, name: string): Source {
    Source(name, Expand(SourceBrowseUrl, ctx, name), RawFileUrl(ctx, name))
  }

  /** The catalog: one source per anchor the documentation predicate
      accepts, in page order. */
  function GoogleSources(isDocFile: string -> bool, ctx: Context, anchors: seq<AnchorName>): (r: seq<Source>)
    ensures Names(r) == Filter<string>(isDocFile, anchors)
    ensures |r| == |Filter<string>(isDocFile, anchors)|
    ensures forall i :: 0 <= i < |r| ==>
      && isDocFile(r[i].name) && '/' !in r[i].name
      && r[i] == GoogleSource(ctx, r[i].name)
  {
    if |anchors| == 0 then []
    else
      FilterStep<string>(isDocFile, anchors);
      if isDocFile(anchors[0]) then [GoogleSource(ctx, anchors[0])] + GoogleSources(isDocFile, ctx, anchors[1..])
      else GoogleSources(isDocFile, ctx, anchors[1..])
  }

  function GooglePackage(ctx: Context, etag: string): Package {
    Package(
      importPath := Lookup(ctx, "originalImportPath"),
      projectRoot := ProjectRoot(ctx),
      projectName := ProjectName(ctx),
      projectURL := ProjectUrl(ctx),
      browseURL := PackageBrowseUrl(ctx),
      lineFmt := "%s#%d",
      etag := etag,
      vcs := Lookup(ctx, "vcs"),
      starCount := -1)
  }

  // ---------------------------------------------------------------------
  // Resolution
  // ---------------------------------------------------------------------

  /** The VCS kind: taken from a saved change token with a known prefix
      without any request, otherwise from the checkout page. */
  function ResolveGoogleVcs(ctx: Context, savedEtag: string, checkout: Response<Option<VcsKind>>): (r: Stage<string>)
    ensures EtagVcs(savedEtag, GoogleVcsKinds).Some? ==>
      r.trace == [] && r.result == Success(EtagVcs(savedEtag, GoogleVcsKinds).value)
    ensures EtagVcs(savedEtag, GoogleVcsKinds).None? ==>
      && |r.trace| == 1 && r.trace[0].step == CheckoutPage
      && (r.result.Success? <==> checkout.Ok? && checkout.value.Some?)
      && (r.result.Success? ==> r.result.value == checkout.value.value)
    ensures r.result.Success? ==> r.result.value in GoogleVcsKinds
  {
    match EtagVcs(savedEtag, GoogleVcsKinds)
    case Some(v) => Stage(Success(v), [])
    case None => GetGoogleVcs(ctx, checkout)
  }

  /** The context after set-up and VCS resolution. */
  function GoogleContext(m: Context, vcs: string): (ctx: Context)
  {
    SetupGoogleMatch(m)["vcs" := vcs]
  }

  /** The resolution context reads the resolved kind, the separator the
      sub-repository calls for, and every captured group as matched. */
  lemma GoogleContextLookups(m: Context, vcs: string)
    ensures var ctx := GoogleContext(m, vcs);
      && Lookup(ctx, "vcs") == vcs
      && Lookup(ctx, "dot") == (if Lookup(m, "subrepo") == "" then "" else ".")
      && Lookup(ctx, "query") == (if Lookup(m, "subrepo") == "" then "" else "?repo=" + Lookup(m, "subrepo"))
      && Lookup(ctx, "repo") == Lookup(m, "repo") && Lookup(ctx, "subrepo") == Lookup(m, "subrepo")
      && Lookup(ctx, "dir") == Lookup(m, "dir")
      && Lookup(ctx, "importPath") == Lookup(m, "importPath")
      && Lookup(ctx, "originalImportPath") == Lookup(m, "originalImportPath")
  {
  }

  /** Every source is a plain file name fetched from `base` + name. */
  predicate FetchedFrom(files: seq<Source>, base: string) {
    forall i :: 0 <= i < |files| ==> '/' !in files[i].name && files[i].rawURL == base + files[i].name
  }

  /** From the repository browser page on: the revision, the change token,
      the not-modified short-circuit, the catalog and its fetch. */
  function GoogleFromPage(env: Collaborators, ctx: Context, savedEtag: string, page: BrowsePage, fetch: Response<()>)
    : (res: Resolution)
    ensures Avoids(res.trace, CheckoutPage)
    ensures res.outcome.NotModified? <==>
      page.revision.Some? && Lookup(ctx, "vcs") + "-" + page.revision.value == savedEtag
    ensures res.outcome.NotModified? ==> res.trace == []
    ensures page.revision.None? ==>
      res == Resolution(Failed(NoRevision(RevisionNotFoundMessage + Lookup(ctx, "importPath"))), [])
    ensures page.revision.Some? && Lookup(ctx, "vcs") + "-" + page.revision.value != savedEtag ==>
      && (res.outcome.Built? <==> fetch.Ok? || Filter<string>(env.isDocFile, page.anchors) == [])
      && (res.outcome.Failed? ==> res.outcome.error == Upstream(FileFetch))
    ensures fetch.Err? && res.outcome.Built? ==> res.outcome.sources == []
    ensures res.outcome.Built? ==>
      && page.revision.Some? && Fetched(res.outcome.sources, fetch)
      && res.outcome.sources == GoogleSources(env.isDocFile, ctx, page.anchors)
      && res.trace == FetchRequests(res.outcome.sources)
      && res.outcome.pkg == GooglePackage(ctx, res.outcome.pkg.etag)
      && res.outcome.pkg.vcs == Lookup(ctx, "vcs")
      && res.outcome.pkg.etag == Lookup(ctx, "vcs") + "-" + page.revision.value
      && res.outcome.pkg.etag != savedEtag
  {
    match page.revision
    case None => Resolution(Failed(NoRevision(RevisionNotFoundMessage + Lookup(ctx, "importPath"))), [])
    case Some(rev) =>
      var etag := GoogleEtag(ctx, rev);
      if etag == savedEtag then Resolution(NotModified, [])
      else
        var files := GoogleSources(env.isDocFile, ctx, page.anchors);
        if Fetched(files, fetch) then Resolution(Built(GooglePackage(ctx, etag), files), FetchRequests(files))
        else Resolution(Failed(Upstream(FileFetch)), FetchRequests(files))
  }

  function BrowserRequest(ctx: Context): Request {
    Request(RepoBrowser, Expand(BrowserUrl, ctx, ""))
  }

  /** One Google Code resolution: the context set-up, the VCS kind, the
      repository browser page, then the build from that page. */
  function GoogleDoc(env: Collaborators, m: Context, savedEtag: string, pages: GooglePages): (res: Resolution)
    ensures res.outcome.Built? ==>
      && pages.browser.Ok? && pages.browser.value.revision.Some?
      && Fetched(res.outcome.sources, pages.fetch)
      && res.outcome.pkg.vcs in GoogleVcsKinds
      && res.outcome.pkg.etag == res.outcome.pkg.vcs + "-" + pages.browser.value.revision.value
      && res.outcome.pkg.etag != savedEtag
    ensures res.outcome.Built? && EtagVcs(savedEtag, GoogleVcsKinds).Some? ==>
      res.outcome.pkg.vcs == EtagVcs(savedEtag, GoogleVcsKinds).value
    ensures res.outcome.Built? && EtagVcs(savedEtag, GoogleVcsKinds).None? ==>
      pages.checkout.Ok? && pages.checkout.value.Some? && res.outcome.pkg.vcs == pages.checkout.value.value
    ensures pages.browser.Err? ==> !res.outcome.Built?
    ensures pages.fetch.Err? && res.outcome.Built? ==> res.outcome.sources == []
    ensures pages.browser.Ok? && pages.browser.value.revision.None? ==> res.outcome.Failed?
    ensures res.outcome.NotModified? <==>
      && ResolveGoogleVcs(SetupGoogleMatch(m), savedEtag, pages.checkout).result.Success?
      && pages.browser.Ok? && pages.browser.value.revision.Some?
      && ResolveGoogleVcs(SetupGoogleMatch(m), savedEtag, pages.checkout).result.value
         + "-" + pages.browser.value.revision.value == savedEtag
  {
    var vcs := ResolveGoogleVcs(SetupGoogleMatch(m), savedEtag, pages.checkout);
    match vcs.result
    case Failure(e) => Resolution(Failed(e), vcs.trace)
    case Success(v) =>
      var ctx := GoogleContext(m, v);
      assert Lookup(ctx, "vcs") == v;
      var trace := vcs.trace + [BrowserRequest(ctx)];
      match pages.browser
      case Err => Resolution(Failed(Upstream(RepoBrowser)), trace)
      case Ok(page) =>
        var rest := GoogleFromPage(env, ctx, savedEtag, page, pages.fetch);
        Resolution(rest.outcome, trace + rest.trace)
  }

  // ---------------------------------------------------------------------
  // Properties of a resolution
  // ---------------------------------------------------------------------

  /** The checkout page is scraped exactly when the saved token names no
      VCS kind, and then it is the first request. */
  lemma GoogleCheckoutOnlyWithoutToken(env: Collaborators, m: Context, savedEtag: string, pages: GooglePages)
    ensures var res := GoogleDoc(env, m, savedEtag, pages);
      && (EtagVcs(savedEtag, GoogleVcsKinds).Some? ==> Avoids(res.trace, CheckoutPage))
      && (EtagVcs(savedEtag, GoogleVcsKinds).None? ==> |res.trace| > 0 && res.trace[0].step == CheckoutPage)
  {
    var vcs := ResolveGoogleVcs(SetupGoogleMatch(m), savedEtag, pages.checkout);
    if vcs.result.Success? {
      var ctx := GoogleContext(m, vcs.result.value);
      var trace := vcs.trace + [BrowserRequest(ctx)];
      AvoidsConcat(vcs.trace, [BrowserRequest(ctx)], CheckoutPage);
      if pages.browser.Ok? {
        var rest := GoogleFromPage(env, ctx, savedEtag, pages.browser.value, pages.fetch);
        AvoidsConcat(trace, rest.trace, CheckoutPage);
        assert (trace + rest.trace)[0] == trace[0];
      }
    }
  }

  /** A not-modified resolution lists and fetches nothing: its requests
      are at most the checkout scrape and the browser page. */
  lemma GoogleNotModifiedSkipsCatalog(env: Collaborators, m: Context, savedEtag: string, pages: GooglePages)
    requires GoogleDoc(env, m, savedEtag, pages).outcome.NotModified?
    ensures NoCatalogWork(GoogleDoc(env, m, savedEtag, pages).trace)
  {
    var vcs := ResolveGoogleVcs(SetupGoogleMatch(m), savedEtag, pages.checkout);
    var ctx := GoogleContext(m, vcs.result.value);
    AvoidsConcat(vcs.trace, [BrowserRequest(ctx)], DirectoryListing);
    AvoidsConcat(vcs.trace, [BrowserRequest(ctx)], FileFetch);
  }

  /** A built resolution is the VCS step, the browser request and the build
      from the page, one after the other. */
  lemma GoogleBuiltSteps(env: Collaborators, m: Context, savedEtag: string, pages: GooglePages)
    requires GoogleDoc(env, m, savedEtag, pages).outcome.Built?
    ensures var vcs := ResolveGoogleVcs(SetupGoogleMatch(m), savedEtag, pages.checkout);
      && vcs.result.Success? && pages.browser.Ok?
      && var ctx := GoogleContext(m, vcs.result.value);
      && var rest := GoogleFromPage(env, ctx, savedEtag, pages.browser.value, pages.fetch);
      GoogleDoc(env, m, savedEtag, pages) == Resolution(rest.outcome, vcs.trace + [BrowserRequest(ctx)] + rest.trace)
  {
  }

  /** A package is built exactly when the VCS kind is resolved, the browser
      page is read and carries a revision, `vcs-revision` is not the saved
      token, and the catalog's content arrives. */
  lemma GoogleBuiltExactly(env: Collaborators, m: Context, savedEtag: string, pages: GooglePages)
    ensures var vcs := ResolveGoogleVcs(SetupGoogleMatch(m), savedEtag, pages.checkout).result;
      GoogleDoc(env, m, savedEtag, pages).outcome.Built? <==>
        && vcs.Success?
        && pages.browser.Ok? && pages.browser.value.revision.Some?
        && vcs.value + "-" + pages.browser.value.revision.value != savedEtag
        && (pages.fetch.Ok? || Filter<string>(env.isDocFile, pages.browser.value.anchors) == [])
  {
    var vcs := ResolveGoogleVcs(SetupGoogleMatch(m), savedEtag, pages.checkout).result;
    if vcs.Success? {
      GoogleContextLookups(m, vcs.value);
    }
  }

  /** A token `vcs-revision` names its own VCS kind. */
  lemma GoogleEtagNamesVcs(vcs: string, revision: string)
    requires vcs in GoogleVcsKinds
    ensures EtagVcs(vcs + "-" + revision, GoogleVcsKinds) == Some(vcs)
  {
    var etag := vcs + "-" + revision;
    assert etag[..|vcs| + 1] == vcs + "-";
    if vcs == "git" {
      assert etag[0] == 'g';
    } else if vcs == "svn" {
      assert etag[0] == 's';
    }
  }

  /** A failed checkout scrape ends the resolution after that one request;
      a page without the VCS marker is a not-found error. */
  lemma GoogleVcsFailure(env: Collaborators, m: Context, savedEtag: string, pages: GooglePages)
    requires EtagVcs(savedEtag, GoogleVcsKinds).None?
    requires pages.checkout.Err? || pages.checkout == Ok(None)
    ensures var res := GoogleDoc(env, m, savedEtag, pages);
      && res.outcome.Failed?
      && |res.trace| == 1 && res.trace[0].step == CheckoutPage
      && (pages.checkout.Ok? ==> res.outcome.error == NotFound(VcsNotFoundMessage))
  {
  }

  /** A browser page without a revision marker fails the resolution with
      the not-found-revision error, never with a package. */
  lemma GoogleMissingRevision(env: Collaborators, m: Context, savedEtag: string, pages: GooglePages)
    requires pages.browser.Ok? && pages.browser.value.revision.None?
    requires EtagVcs(savedEtag, GoogleVcsKinds).Some? || (pages.checkout.Ok? && pages.checkout.value.Some?)
    ensures GoogleDoc(env, m, savedEtag, pages).outcome
         == Failed(NoRevision(RevisionNotFoundMessage + Lookup(m, "importPath")))
  {
  }

  /** The descriptor fields of a built package. */
  lemma GoogleDescriptor(env: Collaborators, m: Context, savedEtag: string, pages: GooglePages)
    requires GoogleDoc(env, m, savedEtag, pages).outcome.Built?
    ensures var p := GoogleDoc(env, m, savedEtag, pages).outcome.pkg;
      var repo, subrepo := Lookup(m, "repo"), Lookup(m, "subrepo");
      && p.lineFmt == "%s#%d"
      && p.starCount == -1
      && p.importPath == Lookup(m, "originalImportPath")
      && p.projectRoot == "code.google.com/p/" + repo + (if subrepo == "" then "" else ".") + subrepo
      && (subrepo == "" ==> p.projectURL == "https://code.google.com/p/" + repo + "/")
      && (subrepo != "" ==> p.projectURL == "https://code.google.com/p/" + repo + "/source/browse?repo=" + subrepo)
      && p.projectName == repo + (if subrepo == "" then "" else ".") + subrepo
      && p.browseURL == "http://code.google.com/p/" + repo + "/source/browse" + Lookup(m, "dir") + "/"
                        + (if subrepo == "" then "" else "?repo=" + subrepo)
  {
    GoogleBuiltSteps(env, m, savedEtag, pages);
    var vcs := ResolveGoogleVcs(SetupGoogleMatch(m), savedEtag, pages.checkout).result.value;
    GoogleContextLookups(m, vcs);
  }

  /** The raw location of each catalog source, for a given context. */
  lemma GoogleSourcesFetchedFrom(isDocFile: string -> bool, ctx: Context, anchors: seq<AnchorName>)
    ensures FetchedFrom(GoogleSources(isDocFile, ctx, anchors),
                        "http://" + Lookup(ctx, "subrepo") + Lookup(ctx, "dot") + Lookup(ctx, "repo")
                        + ".googlecode.com/" + Lookup(ctx, "vcs") + Lookup(ctx, "dir") + "/")
  {
    var files := GoogleSources(isDocFile, ctx, anchors);
    forall i | 0 <= i < |files|
      ensures files[i].rawURL == "http://" + Lookup(ctx, "subrepo") + Lookup(ctx, "dot") + Lookup(ctx, "repo")
                                 + ".googlecode.com/" + Lookup(ctx, "vcs") + Lookup(ctx, "dir") + "/" + files[i].name
    {
      assert files[i] == GoogleSource(ctx, files[i].name);
    }
  }

  /** The catalog of a built package: exactly the anchors the documentation
      predicate accepts, in page order, each fetched from the repository
      browser's raw location; the fetch requests are those raw URLs. */
  lemma GoogleCatalog(env: Collaborators, m: Context, savedEtag: string, pages: GooglePages)
    requires GoogleDoc(env, m, savedEtag, pages).outcome.Built?
    ensures var res := GoogleDoc(env, m, savedEtag, pages);
      var subrepo := Lookup(m, "subrepo");
      && Names(res.outcome.sources) == Filter<string>(env.isDocFile, pages.browser.value.anchors)
      && FetchedFrom(res.outcome.sources,
                     "http://" + subrepo + (if subrepo == "" then "" else ".") + Lookup(m, "repo")
                     + ".googlecode.com/" + res.outcome.pkg.vcs + Lookup(m, "dir") + "/")
      && res.trace[|res.trace| - |res.outcome.sources|..] == FetchRequests(res.outcome.sources)
  {
    GoogleBuiltSteps(env, m, savedEtag, pages);
    var vcs := ResolveGoogleVcs(SetupGoogleMatch(m), savedEtag, pages.checkout);
    var ctx := GoogleContext(m, vcs.result.value);
    GoogleContextLookups(m, vcs.result.value);
    var rest := GoogleFromPage(env, ctx, savedEtag, pages.browser.value, pages.fetch);
    GoogleSourcesFetchedFrom(env.isDocFile, ctx, pages.browser.value.anchors);
    var prefix := vcs.trace + [BrowserRequest(ctx)];
    assert (prefix + rest.trace)[|prefix + rest.trace| - |rest.trace|..] == rest.trace;
  }

  /** Re-running with the token a build returned, against the same pages,
      reports not-modified after a single request to the repository
      browser: no checkout scrape, no catalog, no fetch. */
  lemma GoogleRerunNotModified(env: Collaborators, m: Context, savedEtag: string, pages: GooglePages)
    requires GoogleDoc(env, m, savedEtag, pages).outcome.Built?
    ensures var etag := GoogleDoc(env, m, savedEtag, pages).outcome.pkg.etag;
      var again := GoogleDoc(env, m, etag, pages);
      && again.outcome == NotModified
      && |again.trace| == 1 && again.trace[0].step == RepoBrowser
  {
    var p := GoogleDoc(env, m, savedEtag, pages).outcome.pkg;
    GoogleEtagNamesVcs(p.vcs, pages.browser.value.revision.value);
  }

  // ---------------------------------------------------------------------
  // The standard library, read from the Go project's release history
  // ---------------------------------------------------------------------

  const StandardRawPrefix := "http://go.googlecode.com/hg-history/release/src/pkg/"
  const StandardBrowsePrefix := "http://code.google.com/p/go/source/browse/src/pkg/"

  /** An anchor with any query string removed. */
  function StandardFileName(anchor: string): (name: string)
    ensures '?' !in name && StartsWith(anchor, name)
    ensures |name| < |anchor| ==> anchor[|name|] == '?'
  {
    BeforeFirst(anchor, '?')
  }

  function StandardSource(importPath: string, name: string): Source {
    Source(name,
           StandardBrowsePrefix + importPath + "/" + name + "?name=release",
           StandardRawPrefix + importPath + "/" + name)
  }

  /** The anchors truncated at their first `?`, in page order. */
  function StandardFileNames(anchors: seq<string>): (names: seq<string>)
    ensures |names| == |anchors|
    ensures forall i :: 0 <= i < |anchors| ==> names[i] == StandardFileName(anchors[i])
  {
    if |anchors| == 0 then [] else [StandardFileName(anchors[0])] + StandardFileNames(anchors[1..])
  }

  /** The standard-library catalog: the truncated anchor names the
      documentation predicate accepts, in page order. */
  function StandardSources(isDocFile: string -> bool, importPath: string, anchors: seq<string>): (r: seq<Source>)
    ensures Names(r) == Filter(isDocFile, StandardFileNames(anchors))
    ensures |r| == |Filter(isDocFile, StandardFileNames(anchors))|
    ensures forall i :: 0 <= i < |r| ==>
      && isDocFile(r[i].name) && '?' !in r[i].name
      && r[i] == StandardSource(importPath, r[i].name)
  {
    if |anchors| == 0 then []
    else
      var name := StandardFileName(anchors[0]);
      assert StandardFileNames(anchors)[1..] == StandardFileNames(anchors[1..]);
      if isDocFile(name) then [StandardSource(importPath, name)] + StandardSources(isDocFile, importPath, anchors[1..])
      else StandardSources(isDocFile, importPath, anchors[1..])
  }

  function StandardPackage(importPath: string, etag: string): Package {
    Package(
      importPath := importPath,
      projectRoot := "",
      projectName := "Go",
      projectURL := "https://code.google.com/p/go/",
      browseURL := StandardBrowsePrefix + importPath + "?name=release",
      lineFmt := "%s#%d",
      etag := etag,
      vcs := "hg",
      starCount := 0)
  }

  /** The standard-library resolution: the change token is the bare
      revision of the release history's browser page. */
  function StandardDoc(env: Collaborators, importPath: string, savedEtag: string,
                       browser: Response<BrowsePage>, fetch: Response<()>): (res: Resolution)
    ensures |res.trace| > 0 && res.trace[0] == Request(RepoBrowser, StandardRawPrefix + importPath + "/")
    ensures res.outcome.NotModified? <==>
      browser.Ok? && browser.value.revision.Some? && browser.value.revision.value == savedEtag
    ensures res.outcome.NotModified? ==> NoCatalogWork(res.trace) && |res.trace| == 1
    ensures res.outcome.Built? ==>
      && browser.Ok? && browser.value.revision.Some? && Fetched(res.outcome.sources, fetch)
      && res.outcome.pkg.etag == browser.value.revision.value
      && res.outcome.pkg.etag != savedEtag
    ensures browser.Ok? && browser.value.revision.Some? && browser.value.revision.value != savedEtag ==>
      && (res.outcome.Built? <==> fetch.Ok? || Filter(env.isDocFile, StandardFileNames(browser.value.anchors)) == [])
      && (res.outcome.Failed? ==> res.outcome.error == Upstream(FileFetch))
    ensures browser.Ok? && browser.value.revision.None? ==>
      res.outcome == Failed(NoRevision(RevisionNotFoundMessage + importPath))
    ensures browser.Err? ==> !res.outcome.Built?
    ensures fetch.Err? && res.outcome.Built? ==> res.outcome.sources == []
  {
    var trace := [Request(RepoBrowser, StandardRawPrefix + importPath + "/")];
    match browser
    case Err => Resolution(Failed(Upstream(RepoBrowser)), trace)
    case Ok(page) =>
      match page.revision
      case None => Resolution(Failed(NoRevision(RevisionNotFoundMessage + importPath)), trace)
      case Some(rev) =>
        if rev == savedEtag then Resolution(NotModified, trace)
        else
          var files := StandardSources(env.isDocFile, importPath, page.anchors);
          var trace := trace + FetchRequests(files);
          if Fetched(files, fetch) then Resolution(Built(StandardPackage(importPath, rev), files), trace)
          else Resolution(Failed(Upstream(FileFetch)), trace)
  }

  /** The standard-library descriptor: Mercurial, project "Go", an empty
      project root and a star count left at zero. */
  lemma StandardDescriptor(env: Collaborators, importPath: string, savedEtag: string,
                           browser: Response<BrowsePage>, fetch: Response<()>)
    requires StandardDoc(env, importPath, savedEtag, browser, fetch).outcome.Built?
    ensures var res := StandardDoc(env, importPath, savedEtag, browser, fetch);
      var p := res.outcome.pkg;
      && p.vcs == "hg" && p.projectName == "Go" && p.projectRoot == "" && p.starCount == 0
      && p.lineFmt == "%s#%d" && p.importPath == importPath
      && p.projectURL == "https://code.google.com/p/go/"
      && p.browseURL == "http://code.google.com/p/go/source/browse/src/pkg/" + importPath + "?name=release"
      && res.outcome.sources == StandardSources(env.isDocFile, importPath, browser.value.anchors)
      && Names(res.outcome.sources) == Filter(env.isDocFile, StandardFileNames(browser.value.anchors))
      && res.trace == [Request(RepoBrowser, StandardRawPrefix + importPath + "/")] + FetchRequests(res.outcome.sources)
  {
  }

  /** Re-running the standard-library resolution with the token it returned
      reports not-modified. */
  lemma StandardRerunNotModified(env: Collaborators, importPath: string, savedEtag: string,
                                 browser: Response<BrowsePage>, fetch: Response<()>)
    requires StandardDoc(env, importPath, savedEtag, browser, fetch).outcome.Built?
    ensures var etag := StandardDoc(env, importPath, savedEtag, browser, fetch).outcome.pkg.etag;
      StandardDoc(env, importPath, etag, browser, fetch).outcome == NotModified
  {
  }
}
