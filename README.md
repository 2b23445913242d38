# A verified model of a fetch-and-rewrite tool

The tool takes a list of URLs and fetches each one into a local file. The
file is named after the URL's host and path. With the metadata switch (`-m`)
an HTML page goes through a content filter, which counts the page's `a` and
`img` tags and prints a summary. With the rewrite switch (`-r`) as well, the
filter changes every `img` tag's `src` so that it points at the local copy of
the image. It then returns the image URLs as follow-up tasks. The follow-ups
run with both switches off, so they never discover anything themselves.

The model covers five parts:

- the derivation of the output file name, including the platform path
  library's notion of a path's file name, as it is on Unix (only `/`
  separates pieces);
- the image rewriter;
- the HTML filter: its content-type gate, its one pass over the parsed
  nodes, and the choice of the saved body;
- task execution;
- the worklist loop of `main`.

The network, the filesystem, text decoding, the HTML parser and serialiser,
and URL resolution are uninterpreted functions. They are the fields of
`Web.Env`.

The model is split into these modules:

- `Base`: bytes and `Option`.
- `Html`: the parsed document, seen as a flat sequence of nodes, and tag
  counting.
- `Web`: URLs, responses, failures and the environment.
- `FileNames`: `filename_for_url` and `Path::file_name`.
- `Filter`: `rewrite_image` and `filter_html`.
- `Tasks`: `Task::new` and `Task::exec`.
- `Scheduler`: the loop in `main`.

`filter_html` mutates the document in place, so the model copies the parsed
nodes into an `array` and changes it in a loop. That loop is proved against
`Filter.FilterHtmlSpec`. The scheduler is a sequential worklist: each round
takes any pending job, whichever one that is. It is proved against
`Scheduler.Spawned`, which lists every job the seeds lead to.

Two details of the code matter for what is saved:

- `Response::text` decodes lossily, in the charset the content type names
  (UTF-8 by default), and never fails on a body that is not valid in that
  charset. So `Env.text` is total and takes the content type along with the
  body. Without rewriting, the saved bytes of an HTML page are the decoded
  text re-encoded, not the raw body.
- The code creates the output file before it writes to it. The model has one
  writability test for both steps and records no file when it fails.

## Model

| member | source | states |
|---|---|---|
| Html.TagCountZero | src/main.rs:72-73 | a tag count is zero exactly when no tag of that name occurs, so an absent entry reads as 0 |
| Html.CountedStep | src/main.rs:59-62 | bumping the entry of each visited tag's name keeps the map equal to the tag counts of the visited prefix: a name is present iff it occurs, and then it maps to its count |
| Html.CountOrZero | src/main.rs:72-73 | an absent name reads as 0, and reading a map that counts a document gives the name's number of occurrences |
| FileNames.SplitJoin | src/main.rs:17 | splitting a path at `/` loses nothing: joining the pieces restores it, and no piece holds a `/` |
| FileNames.Normal | src/main.rs:17-18 | the normal components are exactly the pieces that are neither empty nor `.`, and there are no more of them than pieces |
| FileNames.FileName | src/main.rs:17-18 | a file name is one of the path's normal components: non-empty and neither `.` nor `..`; a path with no components has none; the lemmas below fix which component it is |
| FileNames.SplitConcat | src/main.rs:17 | the pieces of `p/b` are the pieces of `p` followed by the pieces of `b`, for every `p` and `b` |
| FileNames.LastSegmentIsFileName | src/main.rs:17-18 | for every `p`, the components of `p/a` are those of `p` then `a`, and its file name is `a`, when `a` is a plain name other than `..` |
| FileNames.ParentEndHasNoFileName | src/main.rs:17-19 | for every `p`, `p/..` has no file name |
| FileNames.CurrentEndKeepsFileName | src/main.rs:17-18 | for every `p`, a trailing `.` piece is skipped: `p/.` has the file name of `p` |
| FileNames.FileNameIsPiece | src/main.rs:17-18 | a file name is one of the path's pieces; it is non-empty, neither `.` nor `..`, and holds no `/` |
| FileNames.SlashesHaveNoFileName | src/main.rs:17-19 | a path made only of `/`, such as the root or the empty path, has no components and no file name |
| FileNames.TrailingSlashKeepsFileName | src/main.rs:17-18 | a trailing `/` does not change the file name |
| FileNames.TwoComponents | src/main.rs:17 | `/a/b` with plain pieces splits into the empty piece, `a` and `b`, and its components are `a` and `b` |
| FileNames.Underscored | src/main.rs:24 | same length, no `/` left, every `/` turned into `_` and every other character kept |
| FileNames.FilenameForUrl | src/main.rs:16-27 | the name starts with the host and holds no `/` after it; with a file name it is as long as host and path together, without one the host is followed by `.html`; the host must be present |
| FileNames.NamedPathFilename | src/main.rs:20-25 | with a file name, the output has length \|host\| + \|path\|, starts with the host, has every path character with `/` turned into `_`, and holds no `/` after the host |
| FileNames.NamelessPathFilename | src/main.rs:17-19 | without a file name, the output is the host followed by `.html`, with no `/` after the host |
| FileNames.UnderscoredLast | src/main.rs:24 | underscoring `p/a`, for `a` without `/`, gives `p` underscored, then `_`, then `a` |
| FileNames.LastSegmentFilename | src/main.rs:16-27 | for every path `p/a` whose last piece `a` is a plain name other than `..`, the output is the host, then `p` underscored, then `_a`, whatever else the URL holds |
| FileNames.RootFilename | src/main.rs:17-19 | the root path `/` gives `host.html` |
| FileNames.SingleFilename | src/main.rs:20-25 | `/a` gives `host_a`, whatever else the URL holds |
| FileNames.NestedFilename | src/main.rs:20-25 | `/a/b` gives `host_a_b`, whatever else the URL holds |
| FileNames.DirectoryFilename | src/main.rs:17-25 | `/a/b/` still has the file name `b` and gives `host_a_b_` |
| FileNames.NamesCollide | src/main.rs:16-27 | `/a/b` and `/a_b` on one host map to the same output file, so file names are not unique |
| Filter.IsHtml | src/main.rs:45-48 | the gate passes exactly when the content type is present and its first nine bytes are `text/html` |
| Html.Src | src/main.rs:89 | the `src` value of a tag; absent when the attribute is missing or has no value |
| Filter.ResolvedSrc | src/main.rs:90-92 | the resolved URL of a tag's `src`; its host is taken to be present because the code unwraps it |
| Filter.RewriteImage | src/main.rs:86-99 | a tag without a `src` value is left alone; otherwise `src` becomes the file name of the resolved URL, that URL is appended to the assets, the other attributes stay the same, and the tag keeps its name; on an `img` the new tag is `RewriteNode`'s |
| Filter.RewriteNode | src/main.rs:86-95 | a node that is not an `img` with a `src` value is unchanged; such an `img` stays an `img`, its `src` becomes the file name of its resolved URL, and every other attribute is kept |
| Filter.Rewritten | src/main.rs:59-66 | the rewritten document has the same length; non-rewritable nodes are unchanged; each `img` with a `src` stays an `img`, its `src` is the file name of its resolved URL, and its other attributes are kept |
| Filter.AssetsOf | src/main.rs:59-66 | the assets accumulated over the loop (the push at line 96) number at most the nodes, and each has a host |
| Filter.AssetsAtImages | src/main.rs:64-66 | one asset per `img` with a `src`, in node order: the k-th asset is the k-th such tag's resolved URL |
| Filter.AssetsMatchImages | src/main.rs:64-66 | there is one asset per `img` with a `src`, in node order: the k-th asset is the k-th such tag's resolved URL, and that tag's new `src` is the asset's file name |
| Filter.FilterHtmlSpec | src/main.rs:39-84 | a non-HTML response, including one without a content type, passes through byte for byte with no assets and no summary; HTML fails iff parsing fails, and then with a parse error; a parsed page always has a summary; without rewriting there are no assets and the body is the decoded text; the summary holds the page's `a` and `img` counts; with rewriting the assets are those of the page's images in node order and the body is the serialised rewritten document; every asset has a host |
| Filter.Visit | src/main.rs:60-66 | one loop step bumps the tag's count and, when rewriting, rewrites an `img` and appends its asset as the spec functions say |
| Filter.Scan | src/main.rs:55-68 | after the loop the document is the rewritten one (unchanged without rewriting), the map counts every tag name, and the assets are those of the rewritable images (none without rewriting) |
| Filter.FilterHtml | src/main.rs:39-84 | the in-place filter returns exactly what `FilterHtmlSpec` describes |
| Tasks.NewTask | src/main.rs:30-33 | the task keeps its URL, and its output name is derived from that URL |
| Tasks.TasksFor | src/main.rs:118 | one task per asset, in order, each for that asset's URL and named after it |
| Tasks.ExecSpec | src/main.rs:101-119 | a network failure fails the task; a non-2xx status fails it with that status; after a 2xx response, a filter error fails the task with that error, an unwritable output fails it with a write error, and otherwise the task succeeds; a successful task has written its own output file and its follow-ups are valid tasks; with metadata the saved bytes and the summary are the filter's and there is one follow-up per asset; without metadata the saved bytes are the raw body, with no summary and no follow-ups; without rewriting there are no follow-ups |
| Tasks.FollowUpsAreDiscoveredAssets | src/main.rs:111-118 | with both switches on, a successful task saves the filter's bytes and follows up on exactly the discovered assets, in order, each named after its URL |
| Tasks.Exec | src/main.rs:101-119 | executing a task returns exactly what `ExecSpec` describes |
| Scheduler.FollowJobs | src/main.rs:177-180 | only a job with both switches on queues anything, and every job it queues is fetch-only and can run |
| Scheduler.FollowShape | src/main.rs:178-180 | follow-ups are fetch-only and queue nothing themselves, so discovery has depth one |
| Scheduler.SpawnedCount | src/main.rs:171-184 | the jobs the seeds lead to number the seeds plus the follow-ups they discover |
| Scheduler.SpawnedShape | src/main.rs:171-184 | every job the seeds lead to is a seed or a fetch-only job, and every seed is among them |
| Scheduler.NoMetadataRunsOnlySeeds | src/main.rs:111-115 | without the metadata switch exactly the seeds run, and nothing is discovered |
| Scheduler.TakeJob | src/main.rs:175-181 | taking any pending job and queuing its follow-ups removes exactly that job from what is still to run, and the remaining work shrinks by one |
| Scheduler.Enqueue | src/main.rs:178-180 | the follow-up tasks are queued as fetch-only jobs, in order, behind the pending ones |
| Scheduler.SeedAll | src/main.rs:167-174 | one seed job per URL, in order, with the caller's switches |
| Scheduler.RunOne | src/main.rs:175-183 | one round runs the chosen job as `ExecSpec` says and leaves the other jobs plus its follow-ups pending, whether the job succeeded or failed |
| Scheduler.Advance | src/main.rs:175-184 | a round keeps every pending job runnable and every record faithful; it moves exactly one job from the work still to do to the runs, and strictly reduces the work left |
| Scheduler.RunAll | src/main.rs:167-184 | the loop ends after exactly \|seeds\| + \|discovered\| executions; as a multiset, these are the seeds and their follow-ups, whatever the order and whichever tasks fail; every seed runs, every other run is fetch-only, and every result is what executing its job gives |

## Left out

- The network, the response body reads and the status line are not modelled directly. They become `Env.fetch`, which returns the status code, the first `content-type` value and the whole body, or a network failure. A failure while reading the body is not modelled.
- Text decoding (`Response::text`, which takes its charset from the content type) and turning a string back into bytes are the uninterpreted functions `Env.text` and `Env.utf8`.
- The internals of the HTML parser and serialiser (`tl::parse`, `inner_html`) are not modelled. The document is a flat sequence of nodes, and serialisation is `Env.serialize`.
- URL parsing and relative resolution (the WHATWG URL Standard, resolution in the sense of section 5.2 of RFC 3986) are not modelled. They are `Env.resolve`. Seed URLs arrive already parsed, so the fatal error for an invalid seed URL is outside the model.
- File creation and writing are reduced to `Env.canWrite`. A file left partly written after a failed write is not modelled.
- The tokio and `FuturesUnordered` concurrency is replaced by a sequential worklist that picks any pending job. When two tasks derive the same output name (see `FileNames.NamesCollide`, or one image used by two pages), which task's bytes stay on disk depends on the completion order, and concurrent writes may interleave. The model records every task's write, not the final contents of the directory.
- The CLI (`clap`), the verbosity mapping, the logging, and the format of the printed summary line are not modelled. Neither is its timestamp (`chrono::Local::now`). The summary is kept as its two counts.
- Filter.FilterHtmlSpec: the panic of `url.domain().unwrap()` in the summary line, for a page whose host is an IP address, is not modelled.
- Filter.RewriteImage: the error that `set` on an attribute value can return, for a value longer than its 32-bit length allows, is not modelled.
- Tasks.ExecSpec: the same URL is taken to give the same response every time it is fetched.
- `filter_noop` is written inline in `Tasks.Exec`: the raw body passes through unchanged.
- The panics of `host_str().unwrap()` and of the resolution `unwrap` are preconditions (`Filter.SrcResolves`, `Tasks.PageSafe`). A run that would panic is outside the model.
