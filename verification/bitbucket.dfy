/** The Bitbucket adapter: the import-path shape, VCS resolution from the
    saved change token or the repository metadata, the optional follower
    count, the merged branch and tag map, the not-modified short-circuit,
    the directory catalog and the package descriptor; and the user profile's
    list of Go projects. */
module Bitbucket {
  import opened Text
  import opened DocTypes
  import opened Template

  // ---------------------------------------------------------------------
  // Import-path shape
  //   bitbucket.org/<owner>/<repo>[<dir>]
  // ---------------------------------------------------------------------

  const HostPrefix := "bitbucket.org/"

  /** `[a-z0-9A-Z_.\-]`: the characters of an owner or repository name. */
  predicate IsNameChar(c: char) {
    'a' <= c <= 'z' || '0' <= c <= '9' || 'A' <= c <= 'Z' || c == '_' || c == '.' || c == '-'
  }

  /** The optional directory group: a `/` followed by any number of path
      characters, so `/` alone is a directory. */
  predicate IsBitbucketDir(d: string) {
    d == "" || (d[0] == '/' && AllChars(d, IsPathChar))
  }

  predicate BitbucketShape(owner: string, repo: string, dir: string) {
    && |owner| > 0 && AllChars(owner, IsNameChar)
    && |repo| > 0 && AllChars(repo, IsNameChar)
    && IsBitbucketDir(dir)
  }

  function BitbucketPath(owner: string, repo: string, dir: string): string {
    HostPrefix + (owner + ("/" + (repo + dir)))
  }

  function BitbucketCaptures(owner: string, repo: string, dir: string): Context {
    map["owner" := owner, "repo" := repo, "dir" := dir]
  }

  /** The pattern as a parser: the host, a greedy owner, `/`, a greedy
      repository, an optional directory, and nothing else. */
  function MatchBitbucketPath(path: string): (r: Option<Context>)
  {
    if StartsWith(path, HostPrefix) then MatchOwner(path[|HostPrefix|..]) else None
  }

  function MatchOwner(rest: string): (r: Option<Context>)
  {
    var n := Span(rest, IsNameChar);
    if n == 0 || n == |rest| || rest[n] != '/' then None
    else MatchRepo(rest[..n], rest[n + 1..])
  }

  function MatchRepo(owner: string, rest: string): (r: Option<Context>)
  {
    var n := Span(rest, IsNameChar);
    if n == 0 || !IsBitbucketDir(rest[n..]) then None
    else Some(BitbucketCaptures(owner, rest[..n], rest[n..]))
  }

  lemma MatchRepoComplete(owner: string, repo: string, dir: string)
    requires |repo| > 0 && AllChars(repo, IsNameChar) && IsBitbucketDir(dir)
    ensures MatchRepo(owner, repo + dir) == Some(BitbucketCaptures(owner, repo, dir))
  {
    SpanOfConcat(repo, dir, IsNameChar);
    assert (repo + dir)[..|repo|] == repo && (repo + dir)[|repo|..] == dir;
  }

  lemma MatchOwnerComplete(owner: string, repo: string, dir: string)
    requires BitbucketShape(owner, repo, dir)
    ensures MatchOwner(owner + ("/" + (repo + dir))) == Some(BitbucketCaptures(owner, repo, dir))
  {
    var rest := owner + ("/" + (repo + dir));
    SpanOfConcat(owner, "/" + (repo + dir), IsNameChar);
    assert rest[|owner|] == '/';
    assert rest[..|owner|] == owner && rest[|owner| + 1..] == repo + dir;
    MatchRepoComplete(owner, repo, dir);
  }

  /** Every path of the pattern's shape is accepted, with its captures. */
  lemma MatchBitbucketComplete(owner: string, repo: string, dir: string)
    requires BitbucketShape(owner, repo, dir)
    ensures MatchBitbucketPath(BitbucketPath(owner, repo, dir)) == Some(BitbucketCaptures(owner, repo, dir))
  {
    MatchOwnerComplete(owner, repo, dir);
    assert BitbucketPath(owner, repo, dir)[|HostPrefix|..] == owner + ("/" + (repo + dir));
  }

  lemma MatchRepoSound(owner: string, rest: string)
    requires MatchRepo(owner, rest).Some?
    ensures var c := MatchRepo(owner, rest).value;
      && c == BitbucketCaptures(owner, c["repo"], c["dir"])
      && |c["repo"]| > 0 && AllChars(c["repo"], IsNameChar) && IsBitbucketDir(c["dir"])
      && rest == c["repo"] + c["dir"]
  {
    var n := Span(rest, IsNameChar);
    assert rest == rest[..n] + rest[n..];
  }

  lemma MatchOwnerSound(rest: string)
    requires MatchOwner(rest).Some?
    ensures var c := MatchOwner(rest).value;
      && c == BitbucketCaptures(c["owner"], c["repo"], c["dir"])
      && BitbucketShape(c["owner"], c["repo"], c["dir"])
      && rest == c["owner"] + ("/" + (c["repo"] + c["dir"]))
  {
    var n := Span(rest, IsNameChar);
    MatchRepoSound(rest[..n], rest[n + 1..]);
    assert rest == rest[..n] + ("/" + rest[n + 1..]);
  }

  /** Every accepted path has the pattern's shape and is rebuilt from its
      captures, so nothing else is accepted. */
  lemma MatchBitbucketSound(path: string)
    requires MatchBitbucketPath(path).Some?
    ensures var c := MatchBitbucketPath(path).value;
      && c.Keys == {"owner", "repo", "dir"}
      && BitbucketShape(c["owner"], c["repo"], c["dir"])
      && path == BitbucketPath(c["owner"], c["repo"], c["dir"])
  {
    MatchOwnerSound(path[|HostPrefix|..]);
    assert path == HostPrefix + path[|HostPrefix|..];
  }

  /** Neither the owner nor the repository capture contains a `/`. */
  lemma BitbucketNamesHaveNoSlash(path: string)
    requires MatchBitbucketPath(path).Some?
    ensures var c := MatchBitbucketPath(path).value;
      '/' !in c["owner"] && '/' !in c["repo"]
  {
    MatchBitbucketSound(path);
  }

  /** `bitbucket.org/u/r` captures owner `u`, repository `r` and no directory. */
  lemma MatchBitbucketExample()
    ensures MatchBitbucketPath("bitbucket.org/u/r") == Some(BitbucketCaptures("u", "r", ""))
  {
    MatchBitbucketComplete("u", "r", "");
    assert BitbucketPath("u", "r", "") == "bitbucket.org/u/r";
  }

  // ---------------------------------------------------------------------
  // API answers and URLs
  // ---------------------------------------------------------------------

  const BitbucketVcsKinds: seq<string> := ["hg", "git"]

  /** The network's answers for one Bitbucket resolution: the repository's
      `Scm`, the follower count, the branch and tag listings (name to node),
      the directory listing (file paths), and the all-or-nothing content
      fetch of the catalog. */
  datatype BitbucketApi = BitbucketApi(
    repository: Response<string>,
    followers: Response<int>,
    branches: Response<map<string, string>>,
    tags: Response<map<string, string>>,
    directory: Response<seq<string>>,
    fetch: Response<()>)

  const ApiPrefix := "https://api.bitbucket.org/1.0/repositories/"

  /** `https://api.bitbucket.org/1.0/repositories/{owner}/{repo}` */
  const RepositoryUrl := Empty.Text(ApiPrefix).Key("owner").Text("/").Key("repo")

  /** `.../repositories/{owner}/{repo}/followers` */
  const FollowersUrl := RepositoryUrl.Text("/followers")

  /** `.../repositories/{owner}/{repo}/{0}` with `branches` or `tags` */
  const NodesUrl := RepositoryUrl.Text("/").Pos()

  /** `.../repositories/{owner}/{repo}/src/{tag}{dir}/` */
  const DirectoryUrl := RepositoryUrl.Text("/src/").Key("tag").Key("dir").Text("/")

  /** `https://bitbucket.org/{owner}/{repo}/` */
  const ProjectUrlTemplate := Empty.Text("https://bitbucket.org/").Key("owner").Text("/").Key("repo").Text("/")

  /** `https://api.bitbucket.org/1.0/users/{owner}` */
  const UserUrl := Empty.Text("https://api.bitbucket.org/1.0/users/").Key("owner")

  /** `{vcs}-{commit}` */
  function BitbucketEtag(ctx: Context): (etag: string)
    ensures etag == Lookup(ctx, "vcs") + "-" + Lookup(ctx, "commit")
  {
    var t1 := Empty.Key("vcs");
    var t2 := t1.Text("-");
    assert Expand(t1, ctx, "") == Lookup(ctx, "vcs");
    assert Expand(t2, ctx, "") == Expand(t1, ctx, "") + "-";
    Expand(t2.Key("commit"), ctx, "")
  }

  /** The `https://bitbucket.org/{owner}/{repo}` stem with the given
      continuation. */
  lemma SiteStem(ctx: Context, arg: string)
    ensures var t := Empty.Text("https://bitbucket.org/").Key("owner").Text("/").Key("repo");
      Expand(t, ctx, arg) == "https://bitbucket.org/" + Lookup(ctx, "owner") + "/" + Lookup(ctx, "repo")
  {
    var t1 := Empty.Text("https://bitbucket.org/");
    var t2 := t1.Key("owner");
    var t3 := t2.Text("/");
    assert Expand(t1, ctx, arg) == "https://bitbucket.org/";
    assert Expand(t2, ctx, arg) == Expand(t1, ctx, arg) + Lookup(ctx, "owner");
    assert Expand(t3, ctx, arg) == Expand(t2, ctx, arg) + "/";
  }

  /** `https://bitbucket.org/{owner}/{repo}/src/{tag}/{0}` */
  const SourceBrowseUrl := Empty.Text("https://bitbucket.org/").Key("owner").Text("/").Key("repo")
                                .Text("/src/").Key("tag").Text("/").Pos()

  /** The browse location of a source, spelled out. */
  lemma SourceBrowseUrlSpelled(ctx: Context, path: string)
    ensures Expand(SourceBrowseUrl, ctx, path)
         == "https://bitbucket.org/" + Lookup(ctx, "owner") + "/" + Lookup(ctx, "repo")
            + "/src/" + Lookup(ctx, "tag") + "/" + path
  {
    SiteStem(ctx, path);
    var t4 := Empty.Text("https://bitbucket.org/").Key("owner").Text("/").Key("repo");
    var t5 := t4.Text("/src/");
    var t6 := t5.Key("tag");
    var t7 := t6.Text("/");
    assert Expand(t5, ctx, path) == Expand(t4, ctx, path) + "/src/";
    assert Expand(t6, ctx, path) == Expand(t5, ctx, path) + Lookup(ctx, "tag");
    assert Expand(t7, ctx, path) == Expand(t6, ctx, path) + "/";
  }

  /** `https://bitbucket.org/{owner}/{repo}/src/{tag}{dir}` */
  function PackageBrowseUrl(ctx: Context): (u: string)
    ensures u == "https://bitbucket.org/" + Lookup(ctx, "owner") + "/" + Lookup(ctx, "repo")
                 + "/src/" + Lookup(ctx, "tag") + Lookup(ctx, "dir")
  {
    SiteStem(ctx, "");
    var t4 := Empty.Text("https://bitbucket.org/").Key("owner").Text("/").Key("repo");
    var t5 := t4.Text("/src/");
    var t6 := t5.Key("tag");
    assert Expand(t5, ctx, "") == Expand(t4, ctx, "") + "/src/";
    assert Expand(t6, ctx, "") == Expand(t5, ctx, "") + Lookup(ctx, "tag");
    Expand(t6.Key("dir"), ctx, "")
  }

  /** `https://api.bitbucket.org/1.0/repositories/{owner}/{repo}/raw/{tag}/{0}` */
  const RawFileUrl := RepositoryUrl.Text("/raw/").Key("tag").Text("/").Pos()

  /** The raw-content location of a source, spelled out. */
  lemma RawFileUrlSpelled(ctx: Context, path: string)
    ensures Expand(RawFileUrl, ctx, path)
         == ApiPrefix + Lookup(ctx, "owner") + "/" + Lookup(ctx, "repo")
            + "/raw/" + Lookup(ctx, "tag") + "/" + path
  {
    var t1 := Empty.Text(ApiPrefix);
    var t2 := t1.Key("owner");
    var t3 := t2.Text("/");
    var t4 := t3.Key("repo");
    var t5 := t4.Text("/raw/");
    var t6 := t5.Key("tag");
    var t7 := t6.Text("/");
    assert Expand(t1, ctx, path) == ApiPrefix;
    assert Expand(t2, ctx, path) == Expand(t1, ctx, path) + Lookup(ctx, "owner");
    assert Expand(t3, ctx, path) == Expand(t2, ctx, path) + "/";
    assert Expand(t4, ctx, path) == Expand(t3, ctx, path) + Lookup(ctx, "repo");
    assert Expand(t5, ctx, path) == Expand(t4, ctx, path) + "/raw/";
    assert Expand(t6, ctx, path) == Expand(t5, ctx, path) + Lookup(ctx, "tag");
    assert Expand(t7, ctx, path) == Expand(t6, ctx, path) + "/";
  }

  /** `bitbucket.org/{owner}/{repo}` */
  function ProjectRoot(ctx: Context): (root: string)
    ensures root == "bitbucket.org/" + Lookup(ctx, "owner") + "/" + Lookup(ctx, "repo")
  {
    var t1 := Empty.Text("bitbucket.org/");
    var t2 := t1.Key("owner");
    var t3 := t2.Text("/");
    assert Expand(t1, ctx, "") == "bitbucket.org/";
    assert Expand(t2, ctx, "") == Expand(t1, ctx, "") + Lookup(ctx, "owner");
    assert Expand(t3, ctx, "") == Expand(t2, ctx, "") + "/";
    Expand(t3.Key("repo"), ctx, "")
  }

  // ---------------------------------------------------------------------
  // Tags
  // ---------------------------------------------------------------------

  /** The tag map built from the listings in order, each entry of a later
      listing replacing an earlier entry of the same name. */
  function MergeNodes(listings: seq<map<string, string>>): map<string, string>
  {
    if |listings| == 0 then map[]
    else MergeNodes(listings[..|listings| - 1]) + listings[|listings| - 1]
  }

  /** The merged map names exactly the names some listing names. */
  lemma {:induction false} MergeNodesKeys(listings: seq<map<string, string>>, k: string)
    ensures k in MergeNodes(listings) <==> exists i :: 0 <= i < |listings| && k in listings[i]
  {
    if |listings| > 0 {
      var init := listings[..|listings| - 1];
      MergeNodesKeys(init, k);
      if k in MergeNodes(init) {
        var i :| 0 <= i < |init| && k in init[i];
        assert k in listings[i];
      }
      if exists i :: 0 <= i < |listings| && k in listings[i] {
        var i :| 0 <= i < |listings| && k in listings[i];
        if i < |init| { assert k in init[i]; }
      }
    }
  }

  /** A name takes the node of the last listing that names it. */
  lemma {:induction false} MergeNodesLastWins(listings: seq<map<string, string>>, i: nat, k: string)
    requires i < |listings| && k in listings[i]
    requires forall j :: i < j < |listings| ==> k !in listings[j]
    ensures k in MergeNodes(listings) && MergeNodes(listings)[k] == listings[i][k]
  {
    var last := |listings| - 1;
    if i < last {
      var init := listings[..last];
      assert k !in listings[last];
      assert init[i] == listings[i];
      MergeNodesLastWins(init, i, k);
    }
  }

  /** Branches then tags: a tag replaces a branch of the same name. */
  lemma TagsOverrideBranches(branches: map<string, string>, tags: map<string, string>)
    ensures MergeNodes([branches, tags]).Keys == branches.Keys + tags.Keys
    ensures forall k :: k in tags ==> MergeNodes([branches, tags])[k] == tags[k]
    ensures forall k :: k in branches && k !in tags ==> MergeNodes([branches, tags])[k] == branches[k]
  {
    var ls := [branches, tags];
    var merged := MergeNodes(ls);
    forall k ensures k in merged <==> k in branches || k in tags {
      MergeNodesKeys(ls, k);
      if k in branches { assert k in ls[0]; }
      if k in tags { assert k in ls[1]; }
    }
    forall k | k in tags ensures merged[k] == tags[k] {
      MergeNodesLastWins(ls, 1, k);
    }
    forall k | k in branches && k !in tags ensures merged[k] == branches[k] {
      MergeNodesLastWins(ls, 0, k);
    }
  }

  /** The follower count, or -1 when the request failed. */
  function StarCount(followers: Response<int>): (n: int)
    ensures followers.Err? ==> n == -1
    ensures followers.Ok? ==> n == followers.value
  {
    match followers
    case Err => -1
    case Ok(count) => count
  }

  // ---------------------------------------------------------------------
  // File catalog
  // ---------------------------------------------------------------------

  /** The listed paths whose file part the documentation predicate accepts,
      in listing order. */
  function KeptPaths(isDocFile: string -> bool, paths: seq<string>): (kept: seq<string>)
    ensures |kept| <= |paths|
  {
    if |paths| == 0 then []
    else if isDocFile(LastSegment(paths[0])) then [paths[0]] + KeptPaths(isDocFile, paths[1..])
    else KeptPaths(isDocFile, paths[1..])
  }

  /** Every kept path has a documentation file part. */
  lemma {:induction false} KeptPathsAccepted(isDocFile: string -> bool, paths: seq<string>)
    ensures forall i :: 0 <= i < |KeptPaths(isDocFile, paths)| ==> isDocFile(LastSegment(KeptPaths(isDocFile, paths)[i]))
  {
    if |paths| > 0 {
      KeptPathsAccepted(isDocFile, paths[1..]);
      var kept, rest := KeptPaths(isDocFile, paths), KeptPaths(isDocFile, paths[1..]);
      if isDocFile(LastSegment(paths[0])) {
        assert kept == [paths[0]] + rest;
        forall i | 1 <= i < |kept| ensures isDocFile(LastSegment(kept[i])) {
          assert kept[i] == rest[i - 1];
        }
      } else {
        assert kept == rest;
        forall i | 0 <= i < |kept| ensures isDocFile(LastSegment(kept[i])) {
          assert kept[i] == rest[i];
        }
      }
    }
  }

  /** The kept paths are exactly the listed paths with a documentation file
      part, in listing order. */
  lemma {:induction false} KeptPathsMembers(isDocFile: string -> bool, paths: seq<string>, p: string)
    ensures p in KeptPaths(isDocFile, paths) <==> p in paths && isDocFile(LastSegment(p))
  {
    if |paths| > 0 {
      KeptPathsMembers(isDocFile, paths[1..], p);
      assert paths == [paths[0]] + paths[1..];
    }
  }

  /** A path is kept when the documentation predicate accepts its file part. */
  function HasDocFilePart(isDocFile: string -> bool): string -> bool {
    p => isDocFile(LastSegment(p))
  }

  /** Keeping paths is filtering the listing by `HasDocFilePart`: every
      accepted path stays, as often as it is listed and in listing order. */
  lemma {:induction false} KeptPathsIsFilter(isDocFile: string -> bool, paths: seq<string>)
    ensures KeptPaths(isDocFile, paths) == Filter(HasDocFilePart(isDocFile), paths)
  {
    if |paths| > 0 {
      KeptPathsIsFilter(isDocFile, paths[1..]);
      assert HasDocFilePart(isDocFile)(paths[0]) == isDocFile(LastSegment(paths[0]));
    }
  }

  /** The kept paths keep the listing order. */
  lemma {:induction false} KeptPathsIsSubsequence(isDocFile: string -> bool, paths: seq<string>)
    ensures IsSubsequence(KeptPaths(isDocFile, paths), paths)
  {
    KeptPathsIsFilter(isDocFile, paths);
    FilterIsSubsequence(HasDocFilePart(isDocFile), paths);
  }

  function BitbucketSource(ctx: Context, path: string): Source {
    Source(LastSegment(path), Expand(SourceBrowseUrl, ctx, path), Expand(RawFileUrl, ctx, path))
  }

  /** The catalog: one source per listed path whose file part is a
      documentation file, named by that file part and located by the full
      path. */
  function BitbucketSources(isDocFile: string -> bool, ctx: Context, paths: seq<string>): seq<Source> {
    SourcesOf(ctx, KeptPaths(isDocFile, paths))
  }

  /** One source per kept path, in order. */
  function SourcesOf(ctx: Context, kept: seq<string>): (r: seq<Source>)
    ensures |r| == |kept|
  {
    if |kept| == 0 then [] else [BitbucketSource(ctx, kept[0])] + SourcesOf(ctx, kept[1..])
  }

  lemma {:induction false} SourcesOfElements(ctx: Context, kept: seq<string>)
    ensures |SourcesOf(ctx, kept)| == |kept|
    ensures forall i :: 0 <= i < |kept| ==> SourcesOf(ctx, kept)[i] == BitbucketSource(ctx, kept[i])
  {
    if |kept| > 0 {
      SourcesOfElements(ctx, kept[1..]);
      var r, rest := SourcesOf(ctx, kept), SourcesOf(ctx, kept[1..]);
      assert r == [BitbucketSource(ctx, kept[0])] + rest;
      forall i | 1 <= i < |r| ensures r[i] == BitbucketSource(ctx, kept[i]) {
        assert r[i] == rest[i - 1];
      }
    }
  }

  function BitbucketPackage(ctx: Context, etag: string, starCount: int): Package {
    Package(
      importPath := Lookup(ctx, "originalImportPath"),
      projectRoot := ProjectRoot(ctx),
      projectName := Lookup(ctx, "repo"),
      projectURL := Expand(ProjectUrlTemplate, ctx, ""),
      browseURL := PackageBrowseUrl(ctx),
      lineFmt := "%s#cl-%d",
      etag := etag,
      vcs := Lookup(ctx, "vcs"),
      starCount := starCount)
  }

  // ---------------------------------------------------------------------
  // Resolution
  // ---------------------------------------------------------------------

  /** The VCS kind: taken from a saved change token with an `hg-` or `git-`
      prefix without any request, otherwise the repository's `Scm`. */
  function ResolveBitbucketVcs(m: Context, savedEtag: string, repository: Response<string>): (r: Stage<string>)
    ensures EtagVcs(savedEtag, BitbucketVcsKinds).Some? ==>
      r == Stage(Success(EtagVcs(savedEtag, BitbucketVcsKinds).value), [])
    ensures EtagVcs(savedEtag, BitbucketVcsKinds).None? ==>
      && |r.trace| == 1 && r.trace[0].step == RepositoryInfo
      && (repository.Err? ==> r.result == Failure(Upstream(RepositoryInfo)))
      && (repository.Ok? ==> r.result == Success(repository.value))
  {
    match EtagVcs(savedEtag, BitbucketVcsKinds)
    case Some(v) => Stage(Success(v), [])
    case None =>
      var trace := [Request(RepositoryInfo, Expand(RepositoryUrl, m, ""))];
      match repository
      case Err => Stage(Failure(Upstream(RepositoryInfo)), trace)
      case Ok(scm) => Stage(Success(scm), trace)
  }

  /** The follower count and the branch and tag listings, merged and handed
      to the tag selector: the chosen tag and its commit. A follower failure
      is not fatal; a listing failure is. */
  function SelectTag(env: Collaborators, ctx: Context, api: BitbucketApi): (r: Stage<(string, string)>)
    ensures NoCatalogWork(r.trace) && Avoids(r.trace, RepositoryInfo)
    ensures api.branches.Err? || api.tags.Err? ==> r.result.Failure?
    ensures r.result.Success? ==>
      && api.branches.Ok? && api.tags.Ok?
      && env.bestTag(MergeNodes([api.branches.value, api.tags.value]), DefaultTagsFor(env, Lookup(ctx, "vcs")))
         == Some(r.result.value)
    ensures api.branches.Ok? && api.tags.Ok?
      && env.bestTag(MergeNodes([api.branches.value, api.tags.value]), DefaultTagsFor(env, Lookup(ctx, "vcs"))).None?
      ==> r.result == Failure(TagSelection)
    ensures api.branches.Ok? && api.tags.Ok?
      && env.bestTag(MergeNodes([api.branches.value, api.tags.value]), DefaultTagsFor(env, Lookup(ctx, "vcs"))).Some?
      ==> r.result
          == Success(env.bestTag(MergeNodes([api.branches.value, api.tags.value]), DefaultTagsFor(env, Lookup(ctx, "vcs"))).value)
  {
    var trace := [Request(Followers, Expand(FollowersUrl, ctx, "")),
                  Request(Branches, Expand(NodesUrl, ctx, "branches"))];
    match api.branches
    case Err => Stage(Failure(Upstream(Branches)), trace)
    case Ok(branches) =>
      var trace := trace + [Request(Tags, Expand(NodesUrl, ctx, "tags"))];
      match api.tags
      case Err => Stage(Failure(Upstream(Tags)), trace)
      case Ok(tagList) =>
        match env.bestTag(MergeNodes([branches, tagList]), DefaultTagsFor(env, Lookup(ctx, "vcs")))
        case None => Stage(Failure(TagSelection), trace)
        case Some(choice) => Stage(Success(choice), trace)
  }

  /** From the chosen tag on: the change token, the not-modified
      short-circuit, the directory listing, the catalog and its fetch. */
  function BuildFromTag(env: Collaborators, ctx: Context, savedEtag: string, api: BitbucketApi): (res: Resolution)
    ensures Avoids(res.trace, RepositoryInfo)
    ensures res.outcome.NotModified? <==> BitbucketEtag(ctx) == savedEtag
    ensures res.outcome.NotModified? ==> res.trace == []
    ensures BitbucketEtag(ctx) != savedEtag ==>
      && (res.outcome.Built? <==>
            api.directory.Ok? && (api.fetch.Ok? || KeptPaths(env.isDocFile, api.directory.value) == []))
      && (api.directory.Err? ==> res.outcome == Failed(Upstream(DirectoryListing)))
      && (api.directory.Ok? && res.outcome.Failed? ==> res.outcome.error == Upstream(FileFetch))
    ensures api.fetch.Err? && res.outcome.Built? ==> res.outcome.sources == []
    ensures res.outcome.Built? ==>
      && api.directory.Ok? && Fetched(res.outcome.sources, api.fetch)
      && res.outcome.pkg.etag == BitbucketEtag(ctx) && res.outcome.pkg.etag != savedEtag
      && res.outcome.pkg.vcs == Lookup(ctx, "vcs")
      && res.outcome.pkg.starCount == StarCount(api.followers)
      && res.outcome.sources == BitbucketSources(env.isDocFile, ctx, api.directory.value)
  {
    var etag := BitbucketEtag(ctx);
    if etag == savedEtag then Resolution(NotModified, [])
    else
      var trace := [Request(DirectoryListing, Expand(DirectoryUrl, ctx, ""))];
      match api.directory
      case Err => Resolution(Failed(Upstream(DirectoryListing)), trace)
      case Ok(paths) =>
        var files := BitbucketSources(env.isDocFile, ctx, paths);
        var trace := trace + FetchRequests(files);
        if Fetched(files, api.fetch) then Resolution(Built(BitbucketPackage(ctx, etag, StarCount(api.followers)), files), trace)
        else Resolution(Failed(Upstream(FileFetch)), trace)
  }

  /** The context once the VCS kind and the tag are known. */
  function TagContext(m: Context, vcs: string, choice: (string, string)): Context {
    m["vcs" := vcs]["tag" := choice.0]["commit" := choice.1]
  }

  /** One Bitbucket resolution: the VCS kind, the tag selection, then the
      build from the chosen tag. */
  function BitbucketDoc(env: Collaborators, m: Context, savedEtag: string, api: BitbucketApi): (res: Resolution)
    ensures EtagVcs(savedEtag, BitbucketVcsKinds).None? && api.repository.Err? ==>
      res.outcome == Failed(Upstream(RepositoryInfo))
    ensures api.branches.Err? || api.tags.Err? ==> res.outcome.Failed?
    ensures api.fetch.Err? && res.outcome.Built? ==> res.outcome.sources == []
    ensures res.outcome.Built? ==>
      && api.branches.Ok? && api.tags.Ok? && api.directory.Ok? && Fetched(res.outcome.sources, api.fetch)
      && res.outcome.pkg.starCount == StarCount(api.followers)
      && res.outcome.pkg.etag != savedEtag
      && res.outcome.pkg.vcs == ResolveBitbucketVcs(m, savedEtag, api.repository).result.value
  {
    var vcs := ResolveBitbucketVcs(m, savedEtag, api.repository);
    match vcs.result
    case Failure(e) => Resolution(Failed(e), vcs.trace)
    case Success(v) =>
      var tag := SelectTag(env, m["vcs" := v], api);
      match tag.result
      case Failure(e) => Resolution(Failed(e), vcs.trace + tag.trace)
      case Success(choice) =>
        var ctx := TagContext(m, v, choice);
        assert Lookup(ctx, "vcs") == v;
        var rest := BuildFromTag(env, ctx, savedEtag, api);
        Resolution(rest.outcome, vcs.trace + tag.trace + rest.trace)
  }

  /** The repository metadata is requested exactly when the saved token names
      no VCS kind, and then it is the first request; when it fails, it is the
      only one. */
  lemma BitbucketMetadataOnlyWithoutToken(env: Collaborators, m: Context, savedEtag: string, api: BitbucketApi)
    ensures var res := BitbucketDoc(env, m, savedEtag, api);
      && (EtagVcs(savedEtag, BitbucketVcsKinds).Some? ==> Avoids(res.trace, RepositoryInfo))
      && (EtagVcs(savedEtag, BitbucketVcsKinds).None? ==>
            && |res.trace| > 0 && res.trace[0].step == RepositoryInfo
            && (api.repository.Err? ==> |res.trace| == 1))
  {
    var vcs := ResolveBitbucketVcs(m, savedEtag, api.repository);
    if vcs.result.Success? {
      var v := vcs.result.value;
      var tag := SelectTag(env, m["vcs" := v], api);
      AvoidsConcat(vcs.trace, tag.trace, RepositoryInfo);
      if tag.result.Success? {
        var rest := BuildFromTag(env, TagContext(m, v, tag.result.value), savedEtag, api);
        AvoidsConcat(vcs.trace + tag.trace, rest.trace, RepositoryInfo);
        assert (vcs.trace + tag.trace + rest.trace)[0] == (vcs.trace + tag.trace)[0];
      }
    }
  }

  /** A resolution that ends before the directory listing (not modified, or
      failed on the metadata, a listing or the tag selection) lists and
      fetches nothing. */
  lemma BitbucketStopsBeforeCatalog(env: Collaborators, m: Context, savedEtag: string, api: BitbucketApi)
    requires var out := BitbucketDoc(env, m, savedEtag, api).outcome;
      || out.NotModified?
      || (out.Failed? && out.error != Upstream(DirectoryListing) && out.error != Upstream(FileFetch))
    ensures NoCatalogWork(BitbucketDoc(env, m, savedEtag, api).trace)
  {
    var vcs := ResolveBitbucketVcs(m, savedEtag, api.repository);
    if vcs.result.Success? {
      var v := vcs.result.value;
      var tag := SelectTag(env, m["vcs" := v], api);
      AvoidsConcat(vcs.trace, tag.trace, DirectoryListing);
      AvoidsConcat(vcs.trace, tag.trace, FileFetch);
      if tag.result.Success? {
        var rest := BuildFromTag(env, TagContext(m, v, tag.result.value), savedEtag, api);
        AvoidsConcat(vcs.trace + tag.trace, rest.trace, DirectoryListing);
        AvoidsConcat(vcs.trace + tag.trace, rest.trace, FileFetch);
      }
    }
  }

  // ---------------------------------------------------------------------
  // Properties of a resolution
  // ---------------------------------------------------------------------

  /** A token `vcs-commit` with `vcs` one of the known kinds names that kind. */
  lemma BitbucketEtagNamesVcs(vcs: string, commit: string)
    requires vcs in BitbucketVcsKinds
    ensures EtagVcs(vcs + "-" + commit, BitbucketVcsKinds) == Some(vcs)
  {
    var etag := vcs + "-" + commit;
    assert etag[..|vcs| + 1] == vcs + "-";
    if vcs == "git" {
      assert etag[0] == 'g';
    }
  }

  /** A token `vcs-commit` starts with `k-` for a dash-free `k` only when `vcs`
      is `k` or itself starts with `k-`. */
  lemma EtagPrefixIsVcs(vcs: string, commit: string, k: string)
    requires '-' !in k
    requires !StartsWith(vcs, k + "-")
    requires StartsWith(vcs + "-" + commit, k + "-")
    ensures vcs == k
  {
    var etag := vcs + "-" + commit;
    assert etag[|vcs|] == '-';
    assert forall i :: 0 <= i < |k| ==> (k + "-")[i] == k[i];
    if |vcs| > |k| {
      assert false;
    } else if |vcs| < |k| {
      assert false;
    } else {
      assert vcs == etag[..|k|] == (k + "-")[..|k|];
    }
  }

  /** A token built from a VCS kind that does not itself start with `hg-` or
      `git-` names that kind when it is a known one, and no kind otherwise. */
  lemma {:induction false} BitbucketEtagVcs(vcs: string, commit: string)
    requires !StartsWith(vcs, "hg-") && !StartsWith(vcs, "git-")
    ensures vcs in BitbucketVcsKinds ==> EtagVcs(vcs + "-" + commit, BitbucketVcsKinds) == Some(vcs)
    ensures vcs !in BitbucketVcsKinds ==> EtagVcs(vcs + "-" + commit, BitbucketVcsKinds).None?
  {
    if vcs in BitbucketVcsKinds {
      BitbucketEtagNamesVcs(vcs, commit);
    } else {
      var r := EtagVcs(vcs + "-" + commit, BitbucketVcsKinds);
      if r.Some? {
        assert r.value == "hg" || r.value == "git";
        EtagPrefixIsVcs(vcs, commit, r.value);
      }
    }
  }

  /** When the tag selector rejects the merged listings, the resolution fails
      with its error before any catalog work. */
  lemma BitbucketTagSelectionFailure(env: Collaborators, m: Context, savedEtag: string, api: BitbucketApi)
    requires ResolveBitbucketVcs(m, savedEtag, api.repository).result.Success?
    requires api.branches.Ok? && api.tags.Ok?
    requires var vcs := ResolveBitbucketVcs(m, savedEtag, api.repository).result.value;
      env.bestTag(MergeNodes([api.branches.value, api.tags.value]), DefaultTagsFor(env, vcs)).None?
    ensures var res := BitbucketDoc(env, m, savedEtag, api);
      res.outcome == Failed(TagSelection) && NoCatalogWork(res.trace)
  {
    var vcs := ResolveBitbucketVcs(m, savedEtag, api.repository).result.value;
    assert Lookup(m["vcs" := vcs], "vcs") == vcs;
    BitbucketStopsBeforeCatalog(env, m, savedEtag, api);
  }

  /** The tag and commit a built package rests on: those the selector chose
      from the branch listing overlaid with the tag listing. */
  ghost function ChosenTag(env: Collaborators, m: Context, savedEtag: string, api: BitbucketApi): Option<(string, string)>
    requires api.branches.Ok? && api.tags.Ok?
  {
    var vcs := ResolveBitbucketVcs(m, savedEtag, api.repository).result;
    if vcs.Failure? then None
    else env.bestTag(MergeNodes([api.branches.value, api.tags.value]), DefaultTagsFor(env, vcs.value))
  }

  /** The context after tag selection reads the resolved kind, tag and
      commit, and every other key as the match did. */
  lemma TagContextLookups(m: Context, vcs: string, choice: (string, string))
    ensures var ctx := TagContext(m, vcs, choice);
      && Lookup(ctx, "vcs") == vcs && Lookup(ctx, "tag") == choice.0 && Lookup(ctx, "commit") == choice.1
      && Lookup(ctx, "owner") == Lookup(m, "owner") && Lookup(ctx, "repo") == Lookup(m, "repo")
      && Lookup(ctx, "dir") == Lookup(m, "dir")
      && Lookup(ctx, "originalImportPath") == Lookup(m, "originalImportPath")
  {
  }

  /** Once the VCS kind and the tag are chosen, the resolution is those two
      steps followed by the build from the chosen tag. */
  lemma SelectedSteps(env: Collaborators, m: Context, savedEtag: string, api: BitbucketApi, v: string, choice: (string, string))
    requires ResolveBitbucketVcs(m, savedEtag, api.repository).result == Success(v)
    requires SelectTag(env, m["vcs" := v], api).result == Success(choice)
    ensures BitbucketDoc(env, m, savedEtag, api)
      == Resolution(BuildFromTag(env, TagContext(m, v, choice), savedEtag, api).outcome,
                    ResolveBitbucketVcs(m, savedEtag, api.repository).trace
                    + SelectTag(env, m["vcs" := v], api).trace
                    + BuildFromTag(env, TagContext(m, v, choice), savedEtag, api).trace)
  {
    assert Lookup(TagContext(m, v, choice), "vcs") == v;
  }

  /** A built resolution is the VCS step, the tag selection and the build
      from the chosen tag, one after the other. */
  lemma BuiltSteps(env: Collaborators, m: Context, savedEtag: string, api: BitbucketApi)
    requires BitbucketDoc(env, m, savedEtag, api).outcome.Built?
    ensures var vcs := ResolveBitbucketVcs(m, savedEtag, api.repository);
      && vcs.result.Success? && api.branches.Ok? && api.tags.Ok?
      && var tag := SelectTag(env, m["vcs" := vcs.result.value], api);
      && tag.result.Success?
      && ChosenTag(env, m, savedEtag, api) == Some(tag.result.value)
      && var rest := BuildFromTag(env, TagContext(m, vcs.result.value, tag.result.value), savedEtag, api);
      BitbucketDoc(env, m, savedEtag, api) == Resolution(rest.outcome, vcs.trace + tag.trace + rest.trace)
  {
    var v := ResolveBitbucketVcs(m, savedEtag, api.repository).result.value;
    assert Lookup(m["vcs" := v], "vcs") == v;
  }

  /** The resolution reports "not modified" exactly when the VCS kind and a
      tag are chosen and `{vcs}-{commit}` of that tag equals the saved
      token. */
  lemma BitbucketNotModifiedExactly(env: Collaborators, m: Context, savedEtag: string, api: BitbucketApi)
    ensures var vcs := ResolveBitbucketVcs(m, savedEtag, api.repository).result;
      BitbucketDoc(env, m, savedEtag, api).outcome.NotModified? <==>
        && vcs.Success?
        && SelectTag(env, m["vcs" := vcs.value], api).result.Success?
        && vcs.value + "-" + SelectTag(env, m["vcs" := vcs.value], api).result.value.1 == savedEtag
  {
    var vcs := ResolveBitbucketVcs(m, savedEtag, api.repository).result;
    if vcs.Success? {
      var tag := SelectTag(env, m["vcs" := vcs.value], api).result;
      if tag.Success? {
        SelectedSteps(env, m, savedEtag, api, vcs.value, tag.value);
        TagContextLookups(m, vcs.value, tag.value);
      }
    }
  }

  /** A package is built exactly when the VCS kind and a tag are chosen,
      `vcs-commit` of that tag is not the saved token, the directory is
      listed, and the catalog's content arrives. */
  lemma BitbucketBuiltExactly(env: Collaborators, m: Context, savedEtag: string, api: BitbucketApi)
    ensures var vcs := ResolveBitbucketVcs(m, savedEtag, api.repository).result;
      BitbucketDoc(env, m, savedEtag, api).outcome.Built? <==>
        && vcs.Success?
        && SelectTag(env, m["vcs" := vcs.value], api).result.Success?
        && vcs.value + "-" + SelectTag(env, m["vcs" := vcs.value], api).result.value.1 != savedEtag
        && api.directory.Ok?
        && (api.fetch.Ok? || KeptPaths(env.isDocFile, api.directory.value) == [])
  {
    var vcs := ResolveBitbucketVcs(m, savedEtag, api.repository).result;
    if vcs.Success? {
      var tag := SelectTag(env, m["vcs" := vcs.value], api).result;
      if tag.Success? {
        SelectedSteps(env, m, savedEtag, api, vcs.value, tag.value);
        TagContextLookups(m, vcs.value, tag.value);
      }
    }
  }

  /** The descriptor fields of a built package. */
  lemma BitbucketDescriptor(env: Collaborators, m: Context, savedEtag: string, api: BitbucketApi)
    requires BitbucketDoc(env, m, savedEtag, api).outcome.Built?
    ensures var p := BitbucketDoc(env, m, savedEtag, api).outcome.pkg;
      var owner, repo := Lookup(m, "owner"), Lookup(m, "repo");
      var chosen := ChosenTag(env, m, savedEtag, api);
      && chosen.Some?
      && p.etag == p.vcs + "-" + chosen.value.1
      && p.lineFmt == "%s#cl-%d"
      && p.importPath == Lookup(m, "originalImportPath")
      && p.projectRoot == "bitbucket.org/" + owner + "/" + repo
      && p.projectName == repo
      && p.projectURL == "https://bitbucket.org/" + owner + "/" + repo + "/"
      && p.browseURL == "https://bitbucket.org/" + owner + "/" + repo + "/src/" + chosen.value.0 + Lookup(m, "dir")
  {
    BuiltSteps(env, m, savedEtag, api);
    var vcs := ResolveBitbucketVcs(m, savedEtag, api.repository).result.value;
    var choice := SelectTag(env, m["vcs" := vcs], api).result.value;
    var ctx := TagContext(m, vcs, choice);
    TagContextLookups(m, vcs, choice);
    SiteStem(ctx, "");
    var t := Empty.Text("https://bitbucket.org/").Key("owner").Text("/").Key("repo");
    assert Expand(ProjectUrlTemplate, ctx, "") == Expand(t, ctx, "") + "/";
  }

  /** A build's trace ends with one fetch request per catalog source. */
  lemma BuildFromTagTrace(env: Collaborators, ctx: Context, savedEtag: string, api: BitbucketApi)
    requires BuildFromTag(env, ctx, savedEtag, api).outcome.Built?
    ensures var res := BuildFromTag(env, ctx, savedEtag, api);
      res.trace[|res.trace| - |res.outcome.sources|..] == FetchRequests(res.outcome.sources)
  {
  }

  /** The sources are the kept paths, in order, each named by its file part
      and located by the full path at the given tag. */
  predicate CatalogSpelled(isDocFile: string -> bool, files: seq<Source>, kept: seq<string>,
                           owner: string, repo: string, tag: string)
  {
    && |files| == |kept|
    && forall i :: 0 <= i < |files| ==>
      && files[i].name == LastSegment(kept[i])
      && isDocFile(files[i].name)
      && files[i].browseURL == "https://bitbucket.org/" + owner + "/" + repo + "/src/" + tag + "/" + kept[i]
      && files[i].rawURL == ApiPrefix + owner + "/" + repo + "/raw/" + tag + "/" + kept[i]
  }

  /** The catalog's sources spelled out for a context that names the owner,
      the repository and the tag. */
  lemma SourcesAt(isDocFile: string -> bool, ctx: Context, paths: seq<string>, owner: string, repo: string, tag: string)
    requires Lookup(ctx, "owner") == owner && Lookup(ctx, "repo") == repo && Lookup(ctx, "tag") == tag
    ensures CatalogSpelled(isDocFile, BitbucketSources(isDocFile, ctx, paths), KeptPaths(isDocFile, paths), owner, repo, tag)
  {
    var files, kept := BitbucketSources(isDocFile, ctx, paths), KeptPaths(isDocFile, paths);
    KeptPathsAccepted(isDocFile, paths);
    SourcesOfElements(ctx, kept);
    forall i | 0 <= i < |files|
      ensures files[i].browseURL == "https://bitbucket.org/" + owner + "/" + repo + "/src/" + tag + "/" + kept[i]
      ensures files[i].rawURL == ApiPrefix + owner + "/" + repo + "/raw/" + tag + "/" + kept[i]
    {
      assert files[i] == BitbucketSource(ctx, kept[i]);
      SourceBrowseUrlSpelled(ctx, kept[i]);
      RawFileUrlSpelled(ctx, kept[i]);
    }
  }

  /** The catalog of a build from a tag, for a context that names the owner,
      the repository and the tag, and the fetch requests that end its trace. */
  lemma BuildFromTagCatalog(env: Collaborators, ctx: Context, savedEtag: string, api: BitbucketApi,
                            owner: string, repo: string, tag: string)
    requires BuildFromTag(env, ctx, savedEtag, api).outcome.Built?
    requires Lookup(ctx, "owner") == owner && Lookup(ctx, "repo") == repo && Lookup(ctx, "tag") == tag
    ensures var res := BuildFromTag(env, ctx, savedEtag, api);
      && CatalogSpelled(env.isDocFile, res.outcome.sources,
                        Filter(HasDocFilePart(env.isDocFile), api.directory.value), owner, repo, tag)
      && res.trace[|res.trace| - |res.outcome.sources|..] == FetchRequests(res.outcome.sources)
  {
    BuildFromTagTrace(env, ctx, savedEtag, api);
    SourcesAt(env.isDocFile, ctx, api.directory.value, owner, repo, tag);
    KeptPathsIsFilter(env.isDocFile, api.directory.value);
  }

  /** The catalog of a built package: one source per listed path with a
      documentation file part, in listing order, named by that part and
      located by the full path at the chosen tag; the fetch requests are the
      sources' raw URLs. */
  lemma BitbucketCatalog(env: Collaborators, m: Context, savedEtag: string, api: BitbucketApi)
    requires BitbucketDoc(env, m, savedEtag, api).outcome.Built?
    ensures var res := BitbucketDoc(env, m, savedEtag, api);
      && CatalogSpelled(env.isDocFile, res.outcome.sources, Filter(HasDocFilePart(env.isDocFile), api.directory.value),
                        Lookup(m, "owner"), Lookup(m, "repo"), ChosenTag(env, m, savedEtag, api).value.0)
      && res.trace[|res.trace| - |res.outcome.sources|..] == FetchRequests(res.outcome.sources)
  {
    BuiltSteps(env, m, savedEtag, api);
    var vcs := ResolveBitbucketVcs(m, savedEtag, api.repository);
    var v := vcs.result.value;
    var tag := SelectTag(env, m["vcs" := v], api);
    var ctx := TagContext(m, v, tag.result.value);
    var rest := BuildFromTag(env, ctx, savedEtag, api);
    var kept := Filter(HasDocFilePart(env.isDocFile), api.directory.value);
    assert rest.outcome.Built?
      && CatalogSpelled(env.isDocFile, rest.outcome.sources, kept, Lookup(m, "owner"), Lookup(m, "repo"), tag.result.value.0)
      && |rest.outcome.sources| <= |rest.trace|
      && rest.trace[|rest.trace| - |rest.outcome.sources|..] == FetchRequests(rest.outcome.sources)
    by {
      TagContextLookups(m, v, tag.result.value);
      BuildFromTagCatalog(env, ctx, savedEtag, api, Lookup(m, "owner"), Lookup(m, "repo"), tag.result.value.0);
    }
    SuffixOfConcat(vcs.trace + tag.trace, rest.trace, |rest.outcome.sources|);
  }

  /** A failed follower request changes nothing but the star count. */
  lemma FollowersNonFatal(env: Collaborators, m: Context, savedEtag: string, api: BitbucketApi)
    ensures var res := BitbucketDoc(env, m, savedEtag, api);
      var degraded := BitbucketDoc(env, m, savedEtag, api.(followers := Err));
      && degraded.trace == res.trace
      && degraded.outcome == (if res.outcome.Built?
                              then Built(res.outcome.pkg.(starCount := -1), res.outcome.sources)
                              else res.outcome)
  {
    var api' := api.(followers := Err);
    var vcs := ResolveBitbucketVcs(m, savedEtag, api.repository);
    if vcs.result.Success? {
      var v := vcs.result.value;
      var tag := SelectTag(env, m["vcs" := v], api);
      assert SelectTag(env, m["vcs" := v], api') == tag;
      if tag.result.Success? {
        var ctx := TagContext(m, v, tag.result.value);
        var rest := BuildFromTag(env, ctx, savedEtag, api);
        var rest' := BuildFromTag(env, ctx, savedEtag, api');
        assert rest'.trace == rest.trace;
        assert rest'.outcome == (if rest.outcome.Built?
                                 then Built(rest.outcome.pkg.(starCount := -1), rest.outcome.sources)
                                 else rest.outcome);
      }
    }
  }

  /** Re-running with the token a build returned, against the same answers,
      reports not-modified without listing or fetching anything. The
      repository metadata is skipped whenever the VCS kind is `hg` or `git`.
      A reported `Scm` that itself starts with `hg-` or `git-` is excluded:
      its token would name a different kind on the rerun. */
  lemma BitbucketRerunNotModified(env: Collaborators, m: Context, savedEtag: string, api: BitbucketApi)
    requires BitbucketDoc(env, m, savedEtag, api).outcome.Built?
    requires api.repository.Ok? ==> !StartsWith(api.repository.value, "hg-") && !StartsWith(api.repository.value, "git-")
    ensures var p := BitbucketDoc(env, m, savedEtag, api).outcome.pkg;
      var again := BitbucketDoc(env, m, p.etag, api);
      && again.outcome == NotModified
      && NoCatalogWork(again.trace)
      && (p.vcs in BitbucketVcsKinds ==> Avoids(again.trace, RepositoryInfo))
  {
    BuiltSteps(env, m, savedEtag, api);
    var vcs := ResolveBitbucketVcs(m, savedEtag, api.repository).result.value;
    var choice := SelectTag(env, m["vcs" := vcs], api).result.value;
    TagContextLookups(m, vcs, choice);
    var p := BitbucketDoc(env, m, savedEtag, api).outcome.pkg;
    assert p.etag == vcs + "-" + choice.1;
    if vcs in BitbucketVcsKinds {
      assert !StartsWith(vcs, "hg-") && !StartsWith(vcs, "git-");
    }
    BitbucketEtagVcs(vcs, choice.1);
    assert ResolveBitbucketVcs(m, p.etag, api.repository).result.value == vcs;
    BitbucketStopsBeforeCatalog(env, m, p.etag, api);
    BitbucketMetadataOnlyWithoutToken(env, m, p.etag, api);
  }

  /** A git repository whose only branch `default` is at `abc123`, and whose
      tag selector picks that branch, is built with the token `git-abc123`. */
  lemma BitbucketExample(env: Collaborators, api: BitbucketApi)
    requires api.repository == Ok("git")
    requires api.branches == Ok(map["default" := "abc123"]) && api.tags == Ok(map[])
    requires api.directory.Ok? && api.fetch.Ok?
    requires env.bestTag(map["default" := "abc123"], DefaultTagsFor(env, "git")) == Some(("default", "abc123"))
    ensures var res := BitbucketDoc(env, BitbucketCaptures("u", "r", ""), "", api);
      && res.outcome.Built?
      && res.outcome.pkg.etag == "git-abc123"
      && res.outcome.pkg.vcs == "git"
      && res.outcome.pkg.projectRoot == "bitbucket.org/u/r"
  {
    var m := BitbucketCaptures("u", "r", "");
    var branches: map<string, string> := map["default" := "abc123"];
    TagsOverrideBranches(branches, map[]);
    assert MergeNodes([branches, map[]]) == branches;
    assert EtagVcs("", BitbucketVcsKinds).None?;
    assert ResolveBitbucketVcs(m, "", api.repository).result == Success("git");
    assert Lookup(m["vcs" := "git"], "vcs") == "git";
    assert SelectTag(env, m["vcs" := "git"], api).result == Success(("default", "abc123"));
    var ctx := TagContext(m, "git", ("default", "abc123"));
    TagContextLookups(m, "git", ("default", "abc123"));
    assert BitbucketEtag(ctx) == "git-abc123";
    assert BuildFromTag(env, ctx, "", api).outcome.Built?;
    SelectedSteps(env, m, "", api, "git", ("default", "abc123"));
  }

  /** In the same setting, the rerun with `git-abc123` reports not-modified
      and makes no metadata, listing or fetch request. */
  lemma BitbucketExampleRerun(env: Collaborators, api: BitbucketApi)
    requires api.repository == Ok("git")
    requires api.branches == Ok(map["default" := "abc123"]) && api.tags == Ok(map[])
    requires api.directory.Ok? && api.fetch.Ok?
    requires env.bestTag(map["default" := "abc123"], DefaultTagsFor(env, "git")) == Some(("default", "abc123"))
    ensures var again := BitbucketDoc(env, BitbucketCaptures("u", "r", ""), "git-abc123", api);
      && again.outcome == NotModified
      && NoCatalogWork(again.trace) && Avoids(again.trace, RepositoryInfo)
  {
    BitbucketExample(env, api);
    assert "git"[0] != "hg-"[0];
    BitbucketRerunNotModified(env, BitbucketCaptures("u", "r", ""), "", api);
  }

  // ---------------------------------------------------------------------
  // User profile
  // ---------------------------------------------------------------------

  /** One repository of a user profile, as the API reports it. */
  datatype RepoInfo = RepoInfo(name: string, language: string)

  /** The profile's project list, as import-path roots. */
  datatype Person = Person(projects: seq<string>)

  predicate IsGoRepo(r: RepoInfo) { r.language == "go" }

  /** `prefix` + name for each Go repository, in profile order. */
  function GoProjects(prefix: string, repos: seq<RepoInfo>): (projects: seq<string>)
    ensures |projects| <= |repos|
    ensures forall i :: 0 <= i < |projects| ==> StartsWith(projects[i], prefix)
  {
    if |repos| == 0 then []
    else
      var rest := GoProjects(prefix, repos[1..]);
      if IsGoRepo(repos[0]) then
        var projects := [prefix + repos[0].name] + rest;
        assert forall i :: 1 <= i < |projects| ==> projects[i] == rest[i - 1];
        assert (prefix + repos[0].name)[..|prefix|] == prefix;
        projects
      else rest
  }

  /** The project list is the Go repositories, in order, each behind the
      prefix. */
  lemma {:induction false} GoProjectsAreGoRepos(prefix: string, repos: seq<RepoInfo>)
    ensures |GoProjects(prefix, repos)| == |Filter(IsGoRepo, repos)|
    ensures forall i :: 0 <= i < |GoProjects(prefix, repos)| ==>
      GoProjects(prefix, repos)[i] == prefix + Filter(IsGoRepo, repos)[i].name
  {
    if |repos| > 0 {
      GoProjectsAreGoRepos(prefix, repos[1..]);
      var projects, rest := GoProjects(prefix, repos), GoProjects(prefix, repos[1..]);
      var goRepos, tail := Filter(IsGoRepo, repos), Filter(IsGoRepo, repos[1..]);
      if IsGoRepo(repos[0]) {
        forall i | 1 <= i < |projects| ensures projects[i] == prefix + goRepos[i].name {
          assert projects[i] == rest[i - 1] && goRepos[i] == tail[i - 1];
        }
      } else {
        assert projects == rest && goRepos == tail;
      }
    }
  }

  /** The project list as the profile lookup spells it: the host, the owner
      and the repository name run together with no `/` between the last
      two. */
  function AsWrittenProjects(owner: string, repos: seq<RepoInfo>): seq<string> {
    GoProjects(HostPrefix + owner, repos)
  }

  /** With no `/` between owner and name, the user `u` with the Go
      repository `r` lists `bitbucket.org/ur`, which is not a Bitbucket
      import path at all. */
  lemma AsWrittenProjectsJoinNames()
    ensures AsWrittenProjects("u", [RepoInfo("r", "go")]) == ["bitbucket.org/ur"]
    ensures MatchBitbucketPath("bitbucket.org/ur").None?
  {
    var path := "bitbucket.org/ur";
    assert GoProjects(HostPrefix + "u", [RepoInfo("r", "go")][1..]) == [];
    assert HostPrefix + "u" + "r" == path;
    assert path == HostPrefix + "ur";
    assert path[|HostPrefix|..] == "ur";
    assert AllChars("ur", IsNameChar);
    SpanOfConcat("ur", "", IsNameChar);
    assert "ur" + "" == "ur";
  }

  /** The project roots `bitbucket.org/{owner}/{name}` of the owner's Go
      repositories, in profile order. */
  function ProjectRoots(owner: string, repos: seq<RepoInfo>): seq<string> {
    GoProjects(HostPrefix + owner + "/", repos)
  }

  /** One project root of a well-formed owner and repository name is an
      import path the Bitbucket pattern accepts, with no directory. */
  lemma ProjectRootMatches(owner: string, name: string)
    requires |owner| > 0 && AllChars(owner, IsNameChar)
    requires |name| > 0 && AllChars(name, IsNameChar)
    ensures MatchBitbucketPath(HostPrefix + owner + "/" + name) == Some(BitbucketCaptures(owner, name, ""))
  {
    MatchBitbucketComplete(owner, name, "");
    assert BitbucketPath(owner, name, "") == HostPrefix + owner + "/" + name;
  }

  /** For a well-formed owner and well-formed Go repository names, every
      project root is an import path the Bitbucket pattern accepts, with
      the owner and that repository as its captures and no directory. */
  lemma ProjectRootsMatch(owner: string, repos: seq<RepoInfo>)
    requires |owner| > 0 && AllChars(owner, IsNameChar)
    requires forall r :: r in repos && IsGoRepo(r) ==> |r.name| > 0 && AllChars(r.name, IsNameChar)
    ensures |ProjectRoots(owner, repos)| == |Filter(IsGoRepo, repos)|
    ensures forall i :: 0 <= i < |ProjectRoots(owner, repos)| ==>
      MatchBitbucketPath(ProjectRoots(owner, repos)[i])
        == Some(BitbucketCaptures(owner, Filter(IsGoRepo, repos)[i].name, ""))
  {
    var roots, goRepos := ProjectRoots(owner, repos), Filter(IsGoRepo, repos);
    GoProjectsAreGoRepos(HostPrefix + owner + "/", repos);
    forall i | 0 <= i < |roots|
      ensures MatchBitbucketPath(roots[i]) == Some(BitbucketCaptures(owner, goRepos[i].name, ""))
    {
      FilterMembers(IsGoRepo, repos, goRepos[i]);
      ProjectRootMatches(owner, goRepos[i].name);
    }
  }

  /** The profile request and, when it succeeds, the owner's Go
      repositories as the lookup spells them: host, owner and name run
      together with no `/` between owner and name. */
  function BitbucketPerson(m: Context, userInfo: Response<seq<RepoInfo>>): (r: Stage<Person>)
    ensures r.trace == [Request(UserInfo, "https://api.bitbucket.org/1.0/users/" + Lookup(m, "owner"))]
    ensures userInfo.Err? <==> r.result == Failure(Upstream(UserInfo))
    ensures userInfo.Ok? <==> r.result.Success?
    ensures r.result.Success? ==>
      && userInfo.Ok?
      && |r.result.value.projects| == |Filter(IsGoRepo, userInfo.value)|
      && forall i :: 0 <= i < |r.result.value.projects| ==>
           r.result.value.projects[i] == HostPrefix + Lookup(m, "owner") + Filter(IsGoRepo, userInfo.value)[i].name
  {
    var trace := [Request(UserInfo, UserRequestUrl(m))];
    match userInfo
    case Err => Stage(Failure(Upstream(UserInfo)), trace)
    case Ok(repos) =>
      GoProjectsAreGoRepos(HostPrefix + Lookup(m, "owner"), repos);
      Stage(Success(Person(AsWrittenProjects(Lookup(m, "owner"), repos))), trace)
  }

  /** The profile lookup with the `/` between owner and name restored: the
      projects are the owner's Go repositories as project roots. */
  function BitbucketPersonCorrected(m: Context, userInfo: Response<seq<RepoInfo>>): (r: Stage<Person>)
    ensures r.trace == [Request(UserInfo, "https://api.bitbucket.org/1.0/users/" + Lookup(m, "owner"))]
    ensures userInfo.Err? <==> r.result == Failure(Upstream(UserInfo))
    ensures userInfo.Ok? <==> r.result.Success?
    ensures r.result.Success? ==>
      && userInfo.Ok?
      && |r.result.value.projects| == |Filter(IsGoRepo, userInfo.value)|
      && forall i :: 0 <= i < |r.result.value.projects| ==>
           r.result.value.projects[i] == HostPrefix + Lookup(m, "owner") + "/" + Filter(IsGoRepo, userInfo.value)[i].name
  {
    var trace := [Request(UserInfo, UserRequestUrl(m))];
    match userInfo
    case Err => Stage(Failure(Upstream(UserInfo)), trace)
    case Ok(repos) =>
      GoProjectsAreGoRepos(HostPrefix + Lookup(m, "owner") + "/", repos);
      Stage(Success(Person(ProjectRoots(Lookup(m, "owner"), repos))), trace)
  }

  function UserRequestUrl(m: Context): (url: string)
    ensures url == "https://api.bitbucket.org/1.0/users/" + Lookup(m, "owner")
  {
    var t1 := Empty.Text("https://api.bitbucket.org/1.0/users/");
    assert Expand(t1, m, "") == "https://api.bitbucket.org/1.0/users/";
    Expand(UserUrl, m, "")
  }
}
