# gddo provider adapters for Google Code and Bitbucket, in Dafny

This project models the provider-adapter layer of gddo, the Go documentation server. That layer has two adapters.

The Google Code adapter (`doc/google.go`) does the following:
- recognises `code.google.com/p/<repo>[(.|:.)<subrepo>][<dir>]`;
- sets up the `dot` and `query` placeholders;
- learns the VCS kind from the saved change token (the etag) or by scraping the checkout page;
- scrapes the repository browser page for the revision and the file anchors;
- short-circuits with "not modified" when the token `vcs-revision` equals the saved one;
- otherwise builds the catalog of documentation sources and the package descriptor.

The standard-library variant (`getStandardDoc`) does the same against the Go project's release history. Its token is the bare revision.

The Bitbucket adapter (`doc/bitbucket.go`) does the following:
- recognises `bitbucket.org/<owner>/<repo>[<dir>]`;
- takes the VCS kind from an `hg-`/`git-` token or from the repository's `Scm`;
- reads the follower count (a failure leaves -1);
- merges the branch and tag listings, so a tag wins over a branch of the same name;
- asks the tag selector for a tag and commit;
- short-circuits on the token `vcs-commit`;
- lists the directory, keeps the paths whose file part is a documentation file, and builds the descriptor.

`GetBitbucketPerson` lists a user's Go repositories.

Modules:

- `Text` (`text.dfy`): prefix tests, character classes and greedy runs for the regular expressions, `path.Split`'s file part, the `strings.Split(s, "?")[0]` truncation, and order-preserving filtering.
- `DocTypes` (`doc_types.dfy`): the match context, network responses as oracle values (`Response`), the request trace, `Source`, `Package`, the error kinds and the outcome of one resolution. It also holds the opaque collaborators: the documentation-file predicate, the tag selector and its per-VCS default tags. Finally, `EtagVcs` models the `^(k1|k2|...)-` etag patterns.
- `Template` (`template.dfy`): plain named-placeholder substitution, standing in for `expand`.
- `Google` (`google.dfy`): the Google Code adapter and the standard-library variant.
- `Bitbucket` (`bitbucket.dfy`): the Bitbucket adapter and the user profile.

A resolution is a pure function. It takes the network's answers as parameters and returns an `Outcome` together with the trace of requests it made, in order:
- `NotModified`;
- `Failed` with a `DocError`;
- or `Built`, with the package and its sources.

Statements such as "no checkout-page request is made" and "nothing is listed or fetched" are therefore statements about the trace.

The match map is not mutated. Each step returns an extended map.

Long resolutions are split into stages, each with its own contract:
- `ResolveGoogleVcs`, then `GoogleFromPage`;
- `ResolveBitbucketVcs`, then `SelectTag`, then `BuildFromTag`.

The `...BuiltSteps` lemmas state that a built resolution is exactly these stages run in sequence.

On these points the model follows the code exactly:
- A browser page with no revision marker fails with a plain error (`NoRevision`, google.go:68), not with `NotFoundError`. Only the missing VCS marker on the checkout page is a `NotFound` (google.go:134).
- The Google pattern's `(:?\.` group accepts an optional literal colon before the subrepository separator. The parser therefore accepts both `repo.sub` and `repo:.sub`.
- The Bitbucket directory group is `/[...]*`, so a lone `/` is a directory. The Google one is `/[...]+`.
- The standard-library descriptor leaves the star count at Go's zero value, 0, not -1.

## Model

| member | source | states |
|---|---|---|
| Text.LastSegmentProperties | doc/bitbucket.go:105 | The file part of `path.Split` contains no `/`. It ends the path. It is either the whole path or follows a `/`. |
| Text.BeforeFirst | doc/google.go:159 | `strings.Split(s, "?")[0]` contains no `?`, is a prefix of `s`, and when shorter is followed by `?` in `s`. |
| DocTypes.EtagVcs | doc/google.go:39-40 | The kind a saved token names is a listed kind that the token starts with, followed by `-`. `None` exactly when no listed kind prefixes the token that way. |
| Google.MatchGoogleComplete | doc/google.go:32 | Every path of the pattern's shape parses to its repo/subrepo/dir captures, with either the `.` or the `:.` separator. |
| Google.MatchGoogleSound | doc/google.go:32 | Every accepted path has exactly the keys repo, subrepo and dir. The repo is a non-empty `[a-z0-9-]` run, the dir is empty or starts with `/`, and the path is rebuilt from the captures, so nothing else is accepted. |
| Google.GoogleRepoHasNoDot | doc/google.go:32 | The repo capture never contains a `.`. |
| Google.SetupGoogleMatch | doc/google.go:116-124 | A non-empty subrepo `s` gives `dot = "."` and `query = "?repo=" + s`. An empty one gives both empty. No other key changes. |
| Google.GetGoogleVcs | doc/google.go:126-138 | Exactly one checkout-page request is made. Success holds iff the page is read and carries a marker, and the kind is then that marker, one of hg, git or svn. A page without the marker is a `NotFound` error with the source's message. |
| Google.ResolveGoogleVcs | doc/google.go:39-43 | A token naming a kind gives that kind with no request. Otherwise the checkout page is the single request, and the kind is resolved iff the page is read and carries a marker, and is then that marker. |
| Google.GoogleEtag | doc/google.go:70 | The token is `vcs + "-" + revision`. |
| Google.RawFileUrl | doc/google.go:83 | The raw URL is `http://{subrepo}{dot}{repo}.googlecode.com/{vcs}{dir}/` followed by the name. |
| Google.ProjectRoot | doc/google.go:103 | The root is `code.google.com/p/{repo}{dot}{subrepo}`. |
| Google.ProjectUrl | doc/google.go:92-97 | The project page without a subrepo, otherwise `source/browse?repo={subrepo}`. |
| Google.ProjectName | doc/google.go:104 | The project name is `{repo}{dot}{subrepo}`. |
| Google.PackageBrowseUrl | doc/google.go:106 | The browse URL is `http://code.google.com/p/{repo}/source/browse{dir}/{query}`. |
| Google.GoogleSources | doc/google.go:76-86 | The source names are exactly the anchors the documentation predicate accepts, in page order, and none contains `/`. |
| Google.GoogleContextLookups | doc/google.go:38-43 | After set-up and VCS resolution, the context reads the resolved kind, the separator the subrepo calls for, and every captured group unchanged. |
| Google.GoogleFromPage | doc/google.go:66-113 | A missing revision fails with "Could not find revision for " + importPath and no request. Not-modified holds iff the page has a revision and `vcs-revision` equals the saved token, and then no request is made. With a revision and a new token, a package is built iff the fetch succeeds or no anchor is a documentation file, and any failure is the fetch's. A package has token `vcs-revision`, differs from the saved token, and its fetch requests are its sources' raw URLs. |
| Google.GoogleDoc | doc/google.go:37-114 | Not-modified holds iff the kind is resolved, the browser page is read and has a revision, and `vcs-revision` equals the saved token. A built package needs a read browser page with a revision and a fetch that succeeded or had nothing to fetch. Its kind is the one the token names, otherwise the checkout page's marker, and its token is `vcs-revision` and differs from the saved one. A browser error gives no package. |
| Google.GoogleCheckoutOnlyWithoutToken | doc/google.go:39-43 | A token naming a kind avoids the checkout page entirely. Otherwise the checkout page is the first request. |
| Google.GoogleNotModifiedSkipsCatalog | doc/google.go:71-73 | A not-modified resolution makes no file fetch. |
| Google.GoogleBuiltSteps | doc/google.go:37-114 | A built resolution is the VCS step, the browser request and the build from the page, with the traces concatenated. |
| Google.GoogleBuiltExactly | doc/google.go:37-113 | A package is built iff the kind is resolved, the browser page is read and has a revision, `vcs-revision` differs from the saved token, and the fetch succeeds or no anchor is a documentation file. |
| Google.GoogleEtagNamesVcs | doc/google.go:30 | A token `vcs-revision` built from hg, git or svn is recognised as naming that kind. |
| Google.GoogleVcsFailure | doc/google.go:128-135 | Without a usable token, a checkout-page error or a missing marker fails after that single request, with `NotFound` for the missing marker. |
| Google.GoogleMissingRevision | doc/google.go:67-68 | A browser page without a revision fails with "Could not find revision for " + importPath, never with a package. |
| Google.GoogleDescriptor | doc/google.go:99-111 | The line format is `%s#%d`, the star count is -1, the import path is the original one; the project root, project name `{repo}{dot}{subrepo}`, project URL and browse URL `.../source/browse{dir}/{query}` are spelled out for both subrepo cases. |
| Google.GoogleSourcesFetchedFrom | doc/google.go:83 | Every source is a plain name fetched from `http://{subrepo}{dot}{repo}.googlecode.com/{vcs}{dir}/` + name. |
| Google.GoogleCatalog | doc/google.go:76-90 | A package's sources are the accepted anchors, in order, each fetched from the browser's raw location. The trace ends with one fetch per source. |
| Google.GoogleRerunNotModified | doc/google.go:39-73 | Re-running with the returned token against the same pages gives not-modified after a single browser request: no checkout scrape, listing or fetch. |
| Google.StandardFileName | doc/google.go:159 | The file name is a prefix of the anchor with no `?`, and when shorter than the anchor it is followed by `?`: the anchor cut before its first `?`. |
| Google.StandardFileNames | doc/google.go:158-159 | The anchors are truncated one by one, in page order. |
| Google.StandardSources | doc/google.go:157-167 | The sources are the truncated names the predicate accepts, in page order, each with the release-history browse and raw URLs. |
| Google.StandardDoc | doc/google.go:140-187 | The first request is the release-history browser page. Not-modified holds iff the page is read, has a revision and that revision equals the saved token, and then no other request is made. With a new revision, a package is built iff the fetch succeeds or no truncated anchor is a documentation file, and any failure is the fetch's. A package's token is the bare revision and differs from the saved one. A missing revision fails with the source's message. A browser error gives no package. |
| Google.StandardDescriptor | doc/google.go:173-184 | The VCS is hg, the project name is "Go", the project root is empty, the star count is 0, the line format is `%s#%d`, the project and browse URLs are the release ones, the sources are the standard catalog of the accepted truncated anchors, and the trace is the browser request followed by one fetch per source. |
| Google.StandardRerunNotModified | doc/google.go:147-155 | Re-running with the returned token gives not-modified. |
| Bitbucket.MatchBitbucketComplete | doc/bitbucket.go:22 | Every path of the pattern's shape parses to its owner/repo/dir captures. |
| Bitbucket.MatchBitbucketSound | doc/bitbucket.go:22 | Every accepted path has exactly the keys owner, repo and dir. Owner and repo are non-empty name runs, the dir is empty or starts with `/` (possibly only `/`), and the path is rebuilt from the captures. |
| Bitbucket.BitbucketNamesHaveNoSlash | doc/bitbucket.go:22 | Neither the owner nor the repo capture contains `/`. |
| Bitbucket.MatchBitbucketExample | doc/bitbucket.go:22 | `bitbucket.org/u/r` captures owner `u`, repo `r` and an empty dir. |
| Bitbucket.BitbucketEtag | doc/bitbucket.go:88 | The token is `vcs + "-" + commit`. |
| Bitbucket.SourceBrowseUrlSpelled | doc/bitbucket.go:109 | The browse URL is `https://bitbucket.org/{owner}/{repo}/src/{tag}/` followed by the full path. |
| Bitbucket.RawFileUrlSpelled | doc/bitbucket.go:110 | The raw URL is `https://api.bitbucket.org/1.0/repositories/{owner}/{repo}/raw/{tag}/` followed by the full path. |
| Bitbucket.PackageBrowseUrl | doc/bitbucket.go:126 | The package browse URL is `https://bitbucket.org/{owner}/{repo}/src/{tag}{dir}`. |
| Bitbucket.ProjectRoot | doc/bitbucket.go:123 | The root is `bitbucket.org/{owner}/{repo}`. |
| Bitbucket.MergeNodesKeys | doc/bitbucket.go:69-80 | The merged map names exactly the names some listing names. |
| Bitbucket.MergeNodesLastWins | doc/bitbucket.go:69-80 | A name maps to its node in the last listing that names it. |
| Bitbucket.TagsOverrideBranches | doc/bitbucket.go:69-80 | Branches then tags: the keys are the union, a tag keeps its own node, and a branch keeps its node when no tag has its name. |
| Bitbucket.StarCount | doc/bitbucket.go:61-67 | A failed follower request gives -1. Otherwise the count is the returned one. |
| Bitbucket.KeptPathsAccepted | doc/bitbucket.go:104-106 | Every kept path's file part is accepted by the documentation predicate. |
| Bitbucket.KeptPathsMembers | doc/bitbucket.go:103-113 | A path is kept iff it is listed and its file part is a documentation file. |
| Bitbucket.KeptPathsIsFilter | doc/bitbucket.go:103-113 | The kept paths are the listing filtered by "the file part is a documentation file": every accepted path stays, as often as listed, in listing order. |
| Bitbucket.KeptPathsIsSubsequence | doc/bitbucket.go:103-113 | The kept paths keep their listing order. |
| Bitbucket.SourcesOfElements | doc/bitbucket.go:107-111 | There is one source per kept path, in order, built from that path. |
| Bitbucket.ResolveBitbucketVcs | doc/bitbucket.go:49-59 | A token naming hg or git gives that kind with no request. Otherwise the repository metadata is the single request, and its error aborts while its `Scm` becomes the kind. |
| Bitbucket.SelectTag | doc/bitbucket.go:61-86 | No metadata, directory-listing or file-fetch request is made. A branch or tag listing error fails. With both listings read, a tag the selector returns for the merged map and the kind's default tags is chosen, and a selector refusal is `TagSelection`. |
| Bitbucket.BuildFromTag | doc/bitbucket.go:88-133 | Not-modified holds iff `vcs-commit` equals the saved token, and then no request is made. With a new token, a package is built iff the directory is listed and the fetch succeeds or no path is kept; a listing error fails with that error, and any other failure is the fetch's. A package carries the token, the kind, the star count and the catalog of the listed paths. |
| Bitbucket.BitbucketDoc | doc/bitbucket.go:47-134 | Without a usable token, a metadata error fails with that error. A listing error fails. A package needs every listing and a fetch that succeeded or had nothing to fetch, differs from the saved token, keeps the resolved kind, and has the follower-derived star count. |
| Bitbucket.BitbucketMetadataOnlyWithoutToken | doc/bitbucket.go:49-57 | A token naming a kind avoids the metadata request. Otherwise the metadata is the first request, and its failure is the only request. |
| Bitbucket.BitbucketStopsBeforeCatalog | doc/bitbucket.go:74-91 | A not-modified resolution, and one that fails before the directory listing, makes no directory listing and no file fetch. |
| Bitbucket.BitbucketEtagNamesVcs | doc/bitbucket.go:23 | A token `vcs-commit` with vcs hg or git is recognised as naming that kind. |
| Bitbucket.EtagPrefixIsVcs | doc/bitbucket.go:23 | A token `vcs-commit` starts with `k-`, for a dash-free `k`, only when `vcs` is `k` or itself starts with `k-`. |
| Bitbucket.BitbucketEtagVcs | doc/bitbucket.go:49-50 | A token built from a kind that does not itself start with `hg-`/`git-` names that kind when it is hg or git, and no kind otherwise. |
| Bitbucket.BitbucketTagSelectionFailure | doc/bitbucket.go:82-86 | When the selector refuses the merged listings, the resolution fails with its error before any catalog work. |
| Bitbucket.BuiltSteps | doc/bitbucket.go:47-134 | A built resolution is the VCS step, the tag selection and the build from the chosen tag, in sequence. The chosen tag is the selector's answer. |
| Bitbucket.BitbucketDescriptor | doc/bitbucket.go:119-130 | Token `vcs-commit` of the chosen tag; line format `%s#cl-%d`; the original import path; root `bitbucket.org/{owner}/{repo}`; name `repo`; the project URL; browse URL `.../src/{tag}{dir}`. |
| Bitbucket.BitbucketNotModifiedExactly | doc/bitbucket.go:47-91 | Not-modified holds iff the kind is resolved, a tag is chosen, and `vcs-commit` of that tag equals the saved token. |
| Bitbucket.BitbucketBuiltExactly | doc/bitbucket.go:47-133 | A package is built iff the kind is resolved, a tag is chosen, `vcs-commit` of that tag differs from the saved token, the directory is listed, and the fetch succeeds or no path is kept. |
| Bitbucket.BuildFromTagTrace | doc/bitbucket.go:103-117 | A build's trace ends with one fetch request per catalog source. |
| Bitbucket.SourcesAt | doc/bitbucket.go:103-113 | The catalog is the kept paths, in order. Each source is named by its file part, accepted by the predicate, and browsed and fetched by the full path at the tag. |
| Bitbucket.BuildFromTagCatalog | doc/bitbucket.go:99-117 | A build from a tag has one source per listed path with a documentation file part, in listing order (the filtered listing), spelled out at the tag, and ends its trace with the catalog's fetches. |
| Bitbucket.BitbucketCatalog | doc/bitbucket.go:99-117 | A package's catalog is the listing filtered by documentation file part, in order, spelled out at the chosen tag, and the resolution's trace ends with the catalog's fetches. |
| Bitbucket.FollowersNonFatal | doc/bitbucket.go:61-67 | A failed follower request leaves the trace and the outcome unchanged except for a star count of -1. |
| Bitbucket.BitbucketRerunNotModified | doc/bitbucket.go:47-91 | Re-running with the returned token against the same answers gives not-modified with no listing or fetch. With an hg or git kind, it also makes no metadata request. |
| Bitbucket.BitbucketExample | doc/bitbucket.go:47-134 | A git repository with only branch `default` at `abc123`, chosen by the selector, builds with token `git-abc123` and root `bitbucket.org/u/r`. |
| Bitbucket.BitbucketExampleRerun | doc/bitbucket.go:49-91 | In that setting, the rerun with `git-abc123` is not-modified and makes no metadata, listing or fetch request. |
| Bitbucket.GoProjects | doc/bitbucket.go:37-42 | The list has at most one entry per repository, each starting with the prefix. |
| Bitbucket.GoProjectsAreGoRepos | doc/bitbucket.go:37-42 | The entries are the prefix followed by each repository whose language is exactly "go", in profile order. |
| Bitbucket.AsWrittenProjectsJoinNames | doc/bitbucket.go:41 | As written, user `u` with Go repository `r` lists `bitbucket.org/ur`, which the Bitbucket pattern rejects. |
| Bitbucket.ProjectRootMatches | doc/bitbucket.go:41 | With a separator, the root of a well-formed owner and repository name parses back to exactly those captures with no directory. |
| Bitbucket.ProjectRootsMatch | doc/bitbucket.go:41 | With a separator, every listed root parses as owner plus that repository with no directory. |
| Bitbucket.BitbucketPerson | doc/bitbucket.go:25-45 | The single request is the user URL, and its error (and only its error) fails. On success, there is one project per Go repository, in order, spelled `bitbucket.org/` + owner + name with no separator, as the code writes it. |
| Bitbucket.BitbucketPersonCorrected | doc/bitbucket.go:25-45 | The same request and failure. On success, the projects are the Go repositories' roots `bitbucket.org/{owner}/{name}`, in order. |

## Left out

- `getGooglePresentation` (doc/google.go:189-228) is not part of this model. It relies on URL reference resolution and a presentation builder, neither of which is available.
- HTTP transport and JSON decoding are oracle parameters (`Response`). Any transport or decoding error is `Upstream(step)`, and its message is not modelled.
- Regular-expression scraping of HTML (`googleRepoRe`, `googleRevisionRe`, `googleFileRe`) is not modelled. Its results are inputs with the shape guarantees of the patterns:
  - a VCS marker is one of hg/git/svn;
  - a revision is non-empty and colon-free;
  - an anchor is non-empty and free of `/` and `"`.
- The concurrent `fetchFiles` is a single all-or-nothing answer. Fetched contents are not modelled.
- `fetchFiles` itself is not part of this model. An empty catalog is taken to need no request, so it cannot fail: a fetch error rules out a package only when the catalog has sources.
- `builder.build` is not modelled. A `Built` outcome carries the descriptor and the sources the builder would receive.
- `isDocFile`, `bestTag` and `defaultTags` are uninterpreted collaborators. Determinism and the empty-map failure of `bestTag` are therefore not proved.
- `expand` is modelled as plain placeholder substitution.
- The commented-out star-count scrape (doc/google.go:34, 46-58) is not modelled. The Google star count is -1.
- Go's map iteration order in the listing merge is not modelled: names within one listing are unique, so the order is irrelevant.
- BitbucketRerunNotModified: it requires that a reported `Scm` does not itself start with `hg-` or `git-`. Such a token would name a different kind on the rerun, and the resolution would rebuild instead.

## Findings

| source | as written | input that shows it | evidently intended | confidence | as-written member | corrected member |
|---|---|---|---|---|---|---|
| doc/bitbucket.go:41 | `"bitbucket.org/" + match["owner"] + repo.Name`, with no `/` between owner and repository | owner `u` with the Go repository `r` lists `bitbucket.org/ur`, which is not a Bitbucket import path | `bitbucket.org/{owner}/{name}` | medium; not executed | Bitbucket.AsWrittenProjectsJoinNames | Bitbucket.ProjectRootsMatch |

`BitbucketPerson` keeps the list as the code writes it. `BitbucketPersonCorrected` uses `ProjectRoots`, the list with the separator restored, and `ProjectRootsMatch` proves that each of its entries parses back to the owner and repository. Whether this shows up in practice depends on whether the caller's `owner` capture can end in `/`. The caller is not part of this model.
