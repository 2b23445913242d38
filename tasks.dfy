/**
 * A fetch task: one URL bound to the file it is saved to (`Task::new`), and
 * its execution (`Task::exec`): fetch, status check, filter, save, and the
 * follow-up tasks for the discovered assets.
 */
module Tasks {
  import opened Base
  import opened Web
  import opened FileNames
  import opened Filter

  datatype Task = Task(url: Url, outName: string) {
    /** Built by NewTask: the URL has a host and the output name is derived from it. */
    predicate Valid() {
      url.host.Some? && outName == FilenameForUrl(url)
    }
  }

  /** `Task::new`; the source unwraps the host, so a host-less URL is excluded. */
  function NewTask(url: Url): (t: Task)
    requires url.host.Some?
    ensures t.Valid() && t.url == url
  {
    Task(url, FilenameForUrl(url))
  }

  /** The tasks for a list of discovered assets, one per URL and in the same order. */
  function TasksFor(assets: seq<Url>): (tasks: seq<Task>)
    requires forall u :: u in assets ==> u.host.Some?
    ensures |tasks| == |assets|
    ensures forall k :: 0 <= k < |tasks| ==> tasks[k].Valid() && tasks[k].url == assets[k]
  {
    seq(|assets|, k requires 0 <= k < |assets| => NewTask(assets[k]))
  }

  /** The file a successful task leaves behind. */
  datatype Written = Written(path: string, bytes: seq<byte>)

  datatype ExecResult =
    | Done(file: Written, report: Option<Report>, followUps: seq<Task>)
    | Failed(error: Failure)

  /**
   * Executing a task does not panic: when the task both reports metadata and
   * rewrites assets, every image of the page it fetches resolves.
   */
  ghost predicate PageSafe(env: Env, url: Url) {
    forall resp {:trigger PageResolvable(env, url, resp)} ::
      env.fetch(url) == Some(resp) && IsSuccess(resp.status) ==> PageResolvable(env, url, resp)
  }

  /**
   * What `Task::exec` does. A network failure or a status outside 2xx fails
   * the task before anything is written. Otherwise the body goes through the
   * HTML filter when `showMetadata` is set and passes through byte for byte
   * when it is not; a filter failure or a write failure fails the task;
   * otherwise the filter's bytes are saved under the task's name and one
   * follow-up task is returned per discovered asset.
   */
  function ExecSpec(env: Env, task: Task, showMetadata: bool, rewrite: bool): (r: ExecResult)
    requires showMetadata && rewrite ==> PageSafe(env, task.url)
    ensures env.fetch(task.url).None? ==> r == Failed(NetworkError(task.url))
    ensures env.fetch(task.url).Some? && !IsSuccess(env.fetch(task.url).value.status) ==>
      r == Failed(HttpStatus(task.url, env.fetch(task.url).value.status))
    ensures r.Done? ==>
      && env.fetch(task.url).Some? && IsSuccess(env.fetch(task.url).value.status)
      && env.canWrite(task.outName)
      && r.file.path == task.outName
      && forall t :: t in r.followUps ==> t.Valid()
    ensures r.Done? && !showMetadata ==>
      r.file.bytes == env.fetch(task.url).value.body && r.report.None? && r.followUps == []
    ensures r.Done? && !rewrite ==> r.followUps == []
    ensures env.fetch(task.url).Some? && IsSuccess(env.fetch(task.url).value.status) && showMetadata ==>
      var filtered := FilterHtmlSpec(env, task.url, env.fetch(task.url).value, rewrite);
      && (filtered.Err? ==> r == Failed(filtered.error))
      && (filtered.Ok? && !env.canWrite(task.outName) ==> r == Failed(WriteError(task.outName)))
      && (filtered.Ok? && env.canWrite(task.outName) ==>
            r.Done? && r.file.bytes == filtered.value.body && r.report == filtered.value.report
            && |r.followUps| == |filtered.value.assets|)
    ensures env.fetch(task.url).Some? && IsSuccess(env.fetch(task.url).value.status) && !showMetadata ==>
      (env.canWrite(task.outName) <==> r.Done?)
      && (!env.canWrite(task.outName) ==> r == Failed(WriteError(task.outName)))
  {
    match env.fetch(task.url)
    case None => Failed(NetworkError(task.url))
    case Some(resp) =>
      if !IsSuccess(resp.status) then Failed(HttpStatus(task.url, resp.status))
      else
        var filtered := if showMetadata then FilterHtmlSpec(env, task.url, resp, rewrite)
                        else Ok(Filtered(resp.body, [], None));
        if filtered.Err? then Failed(filtered.error)
        else if !env.canWrite(task.outName) then Failed(WriteError(task.outName))
        else Done(Written(task.outName, filtered.value.body), filtered.value.report, TasksFor(filtered.value.assets))
  }

  /**
   * With metadata and rewriting on, a successful task saves what the HTML
   * filter produced and follows up on exactly the assets it discovered, in
   * order, each saved under the name its rewritten `src` now refers to.
   */
  lemma FollowUpsAreDiscoveredAssets(env: Env, task: Task)
    requires PageSafe(env, task.url)
    requires ExecSpec(env, task, true, true).Done?
    ensures var resp := env.fetch(task.url).value;
      var filtered := FilterHtmlSpec(env, task.url, resp, true);
      var r := ExecSpec(env, task, true, true);
      && filtered.Ok?
      && r.file.bytes == filtered.value.body
      && |r.followUps| == |filtered.value.assets|
      && forall k :: 0 <= k < |r.followUps| ==>
           r.followUps[k].url == filtered.value.assets[k]
           && r.followUps[k].outName == FilenameForUrl(filtered.value.assets[k])
  {
  }

  /** `Task::exec`; the filter is the only step that is not a single expression. */
  method Exec(env: Env, task: Task, showMetadata: bool, rewrite: bool) returns (r: ExecResult)
    requires showMetadata && rewrite ==> PageSafe(env, task.url)
    ensures r == ExecSpec(env, task, showMetadata, rewrite)
  {
    var fetched := env.fetch(task.url);
    if fetched.None? {
      return Failed(NetworkError(task.url));
    }
    var resp := fetched.value;
    if !IsSuccess(resp.status) {
      return Failed(HttpStatus(task.url, resp.status));
    }
    var filtered: Outcome<Filtered>;
    if showMetadata {
      filtered := FilterHtml(env, task.url, resp, rewrite);
    } else {
      filtered := Ok(Filtered(resp.body, [], None));
    }
    if filtered.Err? {
      return Failed(filtered.error);
    }
    if !env.canWrite(task.outName) {
      return Failed(WriteError(task.outName));
    }
    r := Done(Written(task.outName, filtered.value.body), filtered.value.report, TasksFor(filtered.value.assets));
  }
}
