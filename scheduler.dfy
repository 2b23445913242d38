/**
 * The scheduler of `main`: seed tasks run with the caller's switches, every
 * follow-up task with both switches off, and the run ends when no task is
 * pending. Completion order is arbitrary, so the pending set is a worklist
 * from which any task may be taken next.
 */
module Scheduler {
  import opened Web
  import opened Tasks

  /** A pending execution: a task and the two switches it runs with. */
  datatype Job = Job(task: Task, showMetadata: bool, rewrite: bool)

  /** A finished execution and its result; a failure is reported and dropped. */
  datatype Run = Run(job: Job, result: ExecResult)

  /** The job can run without panicking. */
  ghost predicate JobOk(env: Env, job: Job) {
    job.showMetadata && job.rewrite ==> PageSafe(env, job.task.url)
  }

  /** A job that runs with both switches off, as every follow-up does. */
  predicate FetchOnly(job: Job) {
    !job.showMetadata && !job.rewrite
  }

  /** Only a job with both switches on can discover follow-ups. */
  predicate MayDiscover(job: Job) {
    job.showMetadata && job.rewrite
  }

  /** Fetch-only jobs for the given tasks, in order. */
  function FetchOnlyJobs(tasks: seq<Task>): (jobs: seq<Job>)
    ensures |jobs| == |tasks|
    ensures forall k :: 0 <= k < |jobs| ==> jobs[k] == Job(tasks[k], false, false)
  {
    seq(|tasks|, k requires 0 <= k < |tasks| => Job(tasks[k], false, false))
  }

  /** Queuing one more fetch-only job extends the queued prefix by it. */
  lemma FetchOnlyJobsStep(tasks: seq<Task>, k: nat)
    requires k < |tasks|
    ensures FetchOnlyJobs(tasks[..k + 1]) == FetchOnlyJobs(tasks[..k]) + [Job(tasks[k], false, false)]
    ensures k + 1 == |tasks| ==> FetchOnlyJobs(tasks[..k + 1]) == FetchOnlyJobs(tasks)
  {
    assert tasks[..k + 1][..k] == tasks[..k];
    assert k + 1 == |tasks| ==> tasks[..k + 1] == tasks;
  }

  /** The jobs that executing `job` adds to the worklist: one fetch-only job per follow-up task. */
  function FollowJobs(env: Env, job: Job): (jobs: seq<Job>)
    requires JobOk(env, job)
    ensures !MayDiscover(job) ==> jobs == []
    ensures forall k :: 0 <= k < |jobs| ==> FetchOnly(jobs[k]) && JobOk(env, jobs[k])
  {
    var r := ExecSpec(env, job.task, job.showMetadata, job.rewrite);
    if r.Done? then FetchOnlyJobs(r.followUps) else []
  }

  /** What executing a job adds to the worklist, as a total function for the accounting below. */
  ghost function Follow(env: Env): Job -> seq<Job> {
    (job: Job) => if JobOk(env, job) then FollowJobs(env, job) else []
  }

  /** Follow-up jobs are fetch-only, and only a job with both switches on has any. */
  lemma FollowShape(env: Env)
    ensures forall job, x :: x in Follow(env)(job) ==> FetchOnly(x) && JobOk(env, x)
    ensures forall job :: !MayDiscover(job) ==> Follow(env)(job) == []
    ensures DepthOne(Follow(env))
  {
    forall job, x | x in Follow(env)(job) ensures FetchOnly(x) && JobOk(env, x) {
      var k :| 0 <= k < |FollowJobs(env, job)| && FollowJobs(env, job)[k] == x;
    }
  }

  /** Follow-ups are fetch-only jobs and discover nothing themselves. */
  ghost predicate DepthOne(follow: Job -> seq<Job>) {
    forall job, x :: x in follow(job) ==> FetchOnly(x) && follow(x) == []
  }

  /** Every job that `jobs` leads to: each job followed by its follow-ups. */
  function Spawned(follow: Job -> seq<Job>, jobs: seq<Job>): seq<Job>
  {
    if jobs == [] then []
    else [jobs[0]] + follow(jobs[0]) + Spawned(follow, jobs[1..])
  }

  /** The number of follow-up jobs the given jobs discover. */
  function Discovered(follow: Job -> seq<Job>, jobs: seq<Job>): nat
  {
    if jobs == [] then 0 else |follow(jobs[0])| + Discovered(follow, jobs[1..])
  }

  /** The seed jobs, one per seed URL, with the caller's switches. */
  function SeedJobs(urls: seq<Url>, showMetadata: bool, rewrite: bool): (jobs: seq<Job>)
    requires forall k :: 0 <= k < |urls| ==> urls[k].host.Some?
    ensures |jobs| == |urls|
    ensures forall k :: 0 <= k < |urls| ==> jobs[k] == Job(NewTask(urls[k]), showMetadata, rewrite)
  {
    seq(|urls|, k requires 0 <= k < |urls| => Job(NewTask(urls[k]), showMetadata, rewrite))
  }

  function JobsOf(runs: seq<Run>): (jobs: seq<Job>)
    ensures |jobs| == |runs|
    ensures forall k :: 0 <= k < |runs| ==> jobs[k] == runs[k].job
  {
    seq(|runs|, k requires 0 <= k < |runs| => runs[k].job)
  }

  /** The jobs a concatenation leads to are those of its two parts. */
  lemma {:induction false} SpawnedAppend(follow: Job -> seq<Job>, a: seq<Job>, b: seq<Job>)
    ensures Spawned(follow, a + b) == Spawned(follow, a) + Spawned(follow, b)
    ensures Discovered(follow, a + b) == Discovered(follow, a) + Discovered(follow, b)
  {
    if a == [] {
      assert a + b == b;
    } else {
      assert (a + b)[1..] == a[1..] + b;
      SpawnedAppend(follow, a[1..], b);
    }
  }

  /** Jobs that discover nothing lead to nothing but themselves. */
  lemma {:induction false} LeavesSpawnNothing(follow: Job -> seq<Job>, jobs: seq<Job>)
    requires forall k :: 0 <= k < |jobs| ==> follow(jobs[k]) == []
    ensures Spawned(follow, jobs) == jobs
  {
    if jobs != [] {
      LeavesSpawnNothing(follow, jobs[1..]);
    }
  }

  /** The jobs lead to themselves plus the follow-ups they discover, and no more. */
  lemma {:induction false} SpawnedCount(follow: Job -> seq<Job>, jobs: seq<Job>)
    ensures |Spawned(follow, jobs)| == |jobs| + Discovered(follow, jobs)
  {
    if jobs != [] {
      SpawnedCount(follow, jobs[1..]);
    }
  }

  /**
   * Depth one: when every follow-up is fetch-only, every job the seeds lead to
   * is a seed job or a fetch-only job, and each of the seeds is among them.
   */
  lemma {:induction false} SpawnedShape(follow: Job -> seq<Job>, jobs: seq<Job>)
    requires DepthOne(follow)
    ensures forall j :: j in Spawned(follow, jobs) ==> j in jobs || FetchOnly(j)
    ensures forall j :: j in jobs ==> j in Spawned(follow, jobs)
  {
    if jobs != [] {
      SpawnedShape(follow, jobs[1..]);
      forall j | j in Spawned(follow, jobs) ensures j in jobs || FetchOnly(j) {
        if j in Spawned(follow, jobs[1..]) {
          assert j in jobs[1..] || FetchOnly(j);
        }
      }
    }
  }

  /** Without the metadata switch no seed discovers anything, so exactly the seeds run. */
  lemma NoMetadataRunsOnlySeeds(env: Env, urls: seq<Url>, rewrite: bool)
    requires forall k :: 0 <= k < |urls| ==> urls[k].host.Some?
    ensures var seeds := SeedJobs(urls, false, rewrite);
      Spawned(Follow(env), seeds) == seeds && Discovered(Follow(env), seeds) == 0
  {
    var seeds := SeedJobs(urls, false, rewrite);
    FollowShape(env);
    LeavesSpawnNothing(Follow(env), seeds);
    SpawnedCount(Follow(env), seeds);
  }

  /** Every job of the list can run without panicking. */
  ghost predicate AllOk(env: Env, jobs: seq<Job>) {
    forall k :: 0 <= k < |jobs| ==> JobOk(env, jobs[k])
  }

  /** Every recorded result is what executing its job gives. */
  ghost predicate Faithful(env: Env, runs: seq<Run>) {
    forall k :: 0 <= k < |runs| ==>
      JobOk(env, runs[k].job) &&
      runs[k].result == ExecSpec(env, runs[k].job.task, runs[k].job.showMetadata, runs[k].job.rewrite)
  }

  /**
   * One round of the scheduler: taking the job at `i` out of the worklist and
   * putting its follow-ups in removes exactly that job from what the worklist
   * still leads to.
   */
  lemma TakeJob(follow: Job -> seq<Job>, pending: seq<Job>, i: nat)
    requires DepthOne(follow) && i < |pending|
    ensures var rest := pending[..i] + pending[i + 1..];
      && multiset(Spawned(follow, pending)) ==
         multiset(Spawned(follow, rest + follow(pending[i]))) + multiset{pending[i]}
      && |Spawned(follow, rest + follow(pending[i]))| + 1 == |Spawned(follow, pending)|
  {
    var job := pending[i];
    var before, after := pending[..i], pending[i + 1..];
    var rest, next := before + after, follow(job);
    assert pending == before + ([job] + after);
    SpawnedAppend(follow, before, [job] + after);
    SpawnedAppend(follow, [job], after);
    SpawnedAppend(follow, before, after);
    assert Spawned(follow, [job]) == [job] + next by {
      assert [job][1..] == [];
    }
    LeavesSpawnNothing(follow, next);
    SpawnedAppend(follow, rest, next);
  }

  /** Taking a job out and queuing its follow-ups keeps every pending job runnable. */
  lemma TakeJobOk(env: Env, pending: seq<Job>, i: nat)
    requires AllOk(env, pending) && i < |pending|
    ensures AllOk(env, pending[..i] + pending[i + 1..] + Follow(env)(pending[i]))
  {
    FollowShape(env);
    var rest, next := pending[..i] + pending[i + 1..], Follow(env)(pending[i]);
    forall k | 0 <= k < |rest + next| ensures JobOk(env, (rest + next)[k]) {
      if k < i {
        assert (rest + next)[k] == pending[k];
      } else if k < |rest| {
        assert (rest + next)[k] == pending[k + 1];
      } else {
        assert (rest + next)[k] in next;
      }
    }
  }

  /** Recording one more run adds its job to the executed ones and keeps the record faithful. */
  lemma Record(env: Env, runs: seq<Run>, run: Run)
    requires Faithful(env, runs)
    requires JobOk(env, run.job)
    requires run.result == ExecSpec(env, run.job.task, run.job.showMetadata, run.job.rewrite)
    ensures Faithful(env, runs + [run])
    ensures multiset(JobsOf(runs + [run])) == multiset(JobsOf(runs)) + multiset{run.job}
  {
    assert JobsOf(runs + [run]) == JobsOf(runs) + [run.job];
  }

  /** What executing, as a multiset, exactly the jobs the seeds lead to means. */
  lemma Conclude(follow: Job -> seq<Job>, seeds: seq<Job>, runs: seq<Run>)
    requires DepthOne(follow)
    requires multiset(JobsOf(runs)) == multiset(Spawned(follow, seeds))
    ensures |runs| == |seeds| + Discovered(follow, seeds)
    ensures forall j :: j in seeds ==> j in JobsOf(runs)
    ensures forall j :: j in JobsOf(runs) ==> j in seeds || FetchOnly(j)
  {
    SpawnedCount(follow, seeds);
    SpawnedShape(follow, seeds);
    assert |multiset(JobsOf(runs))| == |multiset(Spawned(follow, seeds))|;
    forall j | j in seeds ensures j in JobsOf(runs) {
      assert j in multiset(Spawned(follow, seeds));
    }
    forall j | j in JobsOf(runs) ensures j in seeds || FetchOnly(j) {
      assert j in multiset(JobsOf(runs));
    }
  }

  /** `futures.push(task.exec(false, false))` for every follow-up task, in order. */
  method Enqueue(pending: seq<Job>, subTasks: seq<Task>) returns (queued: seq<Job>)
    ensures queued == pending + FetchOnlyJobs(subTasks)
  {
    queued := pending;
    for k := 0 to |subTasks|
      invariant queued == pending + FetchOnlyJobs(subTasks[..k])
    {
      FetchOnlyJobsStep(subTasks, k);
      queued := queued + [Job(subTasks[k], false, false)];
    }
    assert subTasks[..|subTasks|] == subTasks;
  }

  /** `futures.push(Task::new(url).exec(..))` for every seed URL, in order. */
  method SeedAll(urls: seq<Url>, showMetadata: bool, rewrite: bool) returns (pending: seq<Job>)
    requires forall k :: 0 <= k < |urls| ==> urls[k].host.Some?
    ensures pending == SeedJobs(urls, showMetadata, rewrite)
  {
    pending := [];
    for k := 0 to |urls|
      invariant pending == SeedJobs(urls[..k], showMetadata, rewrite)
    {
      pending := pending + [Job(NewTask(urls[k]), showMetadata, rewrite)];
    }
    assert urls[..|urls|] == urls;
  }

  /**
   * The loop invariant of the scheduler: every pending job can run, every
   * recorded result is faithful, and the executed jobs plus what the pending
   * jobs still lead to are exactly what the seeds lead to.
   */
  ghost predicate Progress(env: Env, seeds: seq<Job>, runs: seq<Run>, pending: seq<Job>) {
    && AllOk(env, pending)
    && Faithful(env, runs)
    && multiset(JobsOf(runs)) + multiset(Spawned(Follow(env), pending)) == multiset(Spawned(Follow(env), seeds))
  }

  /** A round of the loop keeps the invariant and leaves less to do. */
  lemma Advance(env: Env, seeds: seq<Job>, runs: seq<Run>, pending: seq<Job>, i: nat, run: Run, queued: seq<Job>)
    requires Progress(env, seeds, runs, pending) && i < |pending|
    requires run.job == pending[i] && JobOk(env, run.job)
    requires run.result == ExecSpec(env, run.job.task, run.job.showMetadata, run.job.rewrite)
    requires queued == pending[..i] + pending[i + 1..] + Follow(env)(pending[i])
    ensures Progress(env, seeds, runs + [run], queued)
    ensures |Spawned(Follow(env), queued)| < |Spawned(Follow(env), pending)|
  {
    var follow := Follow(env);
    FollowShape(env);
    TakeJob(follow, pending, i);
    TakeJobOk(env, pending, i);
    Record(env, runs, run);
    MoveOne(multiset(JobsOf(runs)), multiset(Spawned(follow, pending)), multiset(Spawned(follow, queued)), run.job);
  }

  /**
   * One round of the loop: executing the pending job at `i` and queuing the
   * follow-ups it returns, behind the jobs still pending.
   */
  method RunOne(env: Env, pending: seq<Job>, i: nat) returns (run: Run, queued: seq<Job>)
    requires AllOk(env, pending) && i < |pending|
    ensures run.job == pending[i] && JobOk(env, run.job)
    ensures run.result == ExecSpec(env, run.job.task, run.job.showMetadata, run.job.rewrite)
    ensures queued == pending[..i] + pending[i + 1..] + Follow(env)(pending[i])
  {
    var job := pending[i];
    var rest := pending[..i] + pending[i + 1..];
    var result := Exec(env, job.task, job.showMetadata, job.rewrite);
    run := Run(job, result);
    assert Follow(env)(job) == FollowJobs(env, job);
    if result.Done? {
      queued := Enqueue(rest, result.followUps);
    } else {
      queued := rest;
    }
  }

  /** Moving one element from one side of a multiset sum to the other. */
  lemma MoveOne<T>(a: multiset<T>, b: multiset<T>, c: multiset<T>, x: T)
    requires b == c + multiset{x}
    ensures (a + multiset{x}) + c == a + b
  {
  }

  /**
   * The loop of `main`. Each round takes any pending job, executes it,
   * records the result, and on success queues the follow-ups as fetch-only
   * jobs; a failure is recorded and the loop carries on. The run ends, and
   * executes, as a multiset, exactly the seed jobs and the follow-ups the
   * seed jobs discover: |seeds| + |discovered| executions in all, whatever
   * the order and whichever tasks fail.
   */
  method RunAll(env: Env, urls: seq<Url>, showMetadata: bool, rewrite: bool) returns (runs: seq<Run>)
    requires forall k :: 0 <= k < |urls| ==> urls[k].host.Some?
    requires showMetadata && rewrite ==> forall k :: 0 <= k < |urls| ==> PageSafe(env, urls[k])
    ensures var seeds := SeedJobs(urls, showMetadata, rewrite);
      && multiset(JobsOf(runs)) == multiset(Spawned(Follow(env), seeds))
      && |runs| == |urls| + Discovered(Follow(env), seeds)
      && (forall j :: j in seeds ==> j in JobsOf(runs))
      && (forall j :: j in JobsOf(runs) ==> j in seeds || FetchOnly(j))
    ensures Faithful(env, runs)
  {
    var pending := SeedAll(urls, showMetadata, rewrite);
    ghost var seeds := pending;
    ghost var follow := Follow(env);
    runs := [];
    while pending != []
      invariant Progress(env, seeds, runs, pending)
      decreases |Spawned(follow, pending)|
    {
      var i :| 0 <= i < |pending|;
      var run, queued := RunOne(env, pending, i);
      Advance(env, seeds, runs, pending, i, run, queued);
      runs, pending := runs + [run], queued;
    }
    FollowShape(env);
    Conclude(follow, seeds, runs);
  }
}
