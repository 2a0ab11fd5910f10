/**
 * The job registry (`JobManager` in srv/server.go and srv/handlers.go): the
 * map from history id to live job, the three phases of `RunJob`, what
 * `saveJob` hands to the database, and the status overlay that
 * `HandleHistory` applies to the stored history.
 *
 * The rsync process itself is not modelled: whether it started, the lines it
 * printed and how `cmd.Wait` returned are inputs.
 */
module Registry {
  import opened Wrappers
  import opened Text
  import opened Jobs

  const JobNotFound := "job not found"
  const StartErrorPrefix := "Error starting rsync: "

  /** How `cmd.Wait` returned. */
  datatype WaitOutcome =
    | ExitedCleanly           // no error
    | ExitFailure(code: int)  // an *exec.ExitError carrying the process's exit code
    | OtherWaitError          // any other error, for instance a failed copy from a pipe

  /** The exit code `RunJob` derives: only an `*exec.ExitError` gives a nonzero one. */
  function ExitCode(w: WaitOutcome): (code: int)
    ensures code != 0 ==> w.ExitFailure? && code == w.code
    ensures w.ExitFailure? ==> code == w.code
  {
    if w.ExitFailure? then w.code else 0
  }

  /** The terminal status of a process that started: cancellation first, then the exit code. */
  function Classify(cancelled: bool, exitCode: int): (status: string)
    ensures status == Cancelled <==> cancelled
    ensures status == Failed <==> !cancelled && exitCode != 0
    ensures status == Completed <==> !cancelled && exitCode == 0
    ensures status != Running
  {
    if cancelled then Cancelled else if exitCode != 0 then Failed else Completed
  }

  /** The fields `saveJob` writes with `UpdateRsyncStatus` (timestamps left out). */
  datatype StatusUpdate = StatusUpdate(id: int, status: string, exitCode: int, output: string)

  /** One row of `ListRsyncHistory` (timestamps left out). */
  datatype HistoryRow = HistoryRow(
    id: int,
    source: string,
    destination: string,
    options: string,
    fullCommand: string,
    status: string,
    exitCode: Option<int>,
    output: Option<string>)

  /** The history as `HandleHistory` returns it: the status of each row whose job is live is replaced. */
  function Overlay(rows: seq<HistoryRow>, live: map<int, string>): (r: seq<HistoryRow>)
    ensures |r| == |rows|
    ensures forall i :: 0 <= i < |rows| ==> r[i].(status := rows[i].status) == rows[i]
    ensures forall i :: 0 <= i < |rows| ==>
              r[i].status == if rows[i].id in live then live[rows[i].id] else rows[i].status
  {
    seq(|rows|, i requires 0 <= i < |rows| =>
      if rows[i].id in live then rows[i].(status := live[rows[i].id]) else rows[i])
  }

  /** How the process launch went, and what happened afterwards, as `RunJob` sees it. */
  datatype Run =
    | StartError(message: string)
    | Started(lines: seq<string>, cancelled: bool, wait: WaitOutcome)

  class JobManager {
    var jobs: map<int, Job>

    constructor ()
      ensures jobs == map[]
    {
      jobs := map[];
    }

    /** The live job with this id, or nil. */
    function Get(id: int): (job: Job?)
      reads this
      ensures job != null <==> id in jobs
      ensures job != null ==> job == jobs[id]
    {
      if id in jobs then jobs[id] else null
    }

    /**
     * Closes the job's cancel channel. Closing it twice panics in Go, so a
     * job may be cancelled once.
     */
    method Cancel(id: int) returns (err: Option<string>)
      requires id in jobs ==> !jobs[id].cancelRequested
      modifies if id in jobs then {jobs[id]} else {}
      ensures jobs == old(jobs)
      ensures id !in jobs ==> err == Some(JobNotFound)
      ensures id in jobs ==> err == None && jobs[id].cancelRequested
      ensures id in jobs ==> jobs[id].output == old(jobs[id].output)
      ensures id in jobs ==> jobs[id].status == old(jobs[id].status)
      ensures id in jobs ==> jobs[id].subscribers == old(jobs[id].subscribers)
    {
      if id !in jobs {
        return Some(JobNotFound);
      }
      jobs[id].cancelRequested := true;
      err := None;
    }

    ghost function RunningIds(): set<int>
      reads this, jobs.Values
    {
      set id | id in jobs && jobs[id].status == Running
    }

    /** Counts the registered jobs whose status is "running". */
    method RunningCount() returns (count: nat)
      ensures count == |RunningIds()|
      ensures count <= |jobs|
    {
      count := 0;
      var remaining := jobs.Keys;
      ghost var counted: set<int> := {};
      while remaining != {}
        invariant remaining <= jobs.Keys
        invariant counted == RunningIds() - remaining
        invariant count == |counted|
        decreases remaining
      {
        HasElement(remaining);
        var id :| id in remaining;
        if jobs[id].status == Running {
          counted := counted + {id};
          count := count + 1;
        }
        remaining := remaining - {id};
      }
      assert counted == RunningIds();
      assert RunningIds() <= jobs.Keys;
      CardinalityOfSubset(RunningIds(), jobs.Keys);
    }

    /** The status of every live job, by id. */
    function LiveStatuses(): (live: map<int, string>)
      reads this, jobs.Values
      ensures live.Keys == jobs.Keys
      ensures forall id :: id in jobs ==> live[id] == jobs[id].status
    {
      map id | id in jobs :: jobs[id].status
    }

    /** Overwrites, in place, the status of each history row whose job is live. */
    method OverlayHistory(history: array<HistoryRow>)
      modifies history
      ensures history[..] == Overlay(old(history[..]), LiveStatuses())
    {
      ghost var rows := history[..];
      ghost var live := LiveStatuses();
      for i := 0 to history.Length
        invariant history[..i] == Overlay(rows, live)[..i]
        invariant history[i..] == rows[i..]
      {
        var job := Get(history[i].id);
        if job != null {
          history[i] := history[i].(status := job.status);
        }
        assert history[i] == Overlay(rows, live)[i];
        assert history[..i + 1] == history[..i] + [history[i]];
        assert history[i + 1..] == rows[i + 1..];
      }
      assert history[..] == history[..history.Length];
    }

    /** Registers a new running job under `id`, replacing any job registered there. */
    method Launch(id: int) returns (job: Job)
      modifies this
      ensures fresh(job) && job.Valid()
      ensures job.id == id && job.output == [] && job.status == Running
      ensures job.subscribers == {} && !job.cancelRequested
      ensures jobs == old(jobs)[id := job]
    {
      job := new Job(id);
      jobs := jobs[id := job];
    }

    /** `saveJob`: the output joined by newlines, the status, and an exit code that is always 0. */
    method SaveJob(job: Job) returns (saved: StatusUpdate)
      ensures saved.id == job.id && saved.status == job.status && saved.exitCode == 0
      ensures saved.output == Join(job.output, "\n")
      ensures (job.output != [] && forall k :: 0 <= k < |job.output| ==> '\n' !in job.output[k])
              ==> Split(saved.output, '\n') == job.output
      ensures job.output == [] ==> saved.output == ""
    {
      saved := StatusUpdate(job.id, job.status, 0, Join(job.output, "\n"));
      if job.output != [] && (forall k :: 0 <= k < |job.output| ==> '\n' !in job.output[k]) {
        SplitJoin(job.output, '\n');
      }
    }

    /**
     * `readOutput`: every line read from the process is added in order, and
     * each subscriber attached meanwhile is offered every line in turn.
     */
    method ReadOutput(job: Job, lines: seq<string>)
      requires job.Valid()
      modifies job, job.subscribers
      ensures job.Valid()
      ensures job.output == old(job.output) + lines
      ensures job.status == old(job.status) && job.subscribers == old(job.subscribers)
      ensures job.cancelRequested == old(job.cancelRequested)
      ensures forall c :: c in job.subscribers ==>
                c.buffer == OfferAll(old(c.buffer), c.capacity, lines) && !c.closed
    {
      for i := 0 to |lines|
        invariant job.Valid()
        invariant job.output == old(job.output) + lines[..i]
        invariant job.status == old(job.status) && job.subscribers == old(job.subscribers)
        invariant job.cancelRequested == old(job.cancelRequested)
        invariant forall c :: c in job.subscribers ==> c.buffer == OfferAll(old(c.buffer), c.capacity, lines[..i])
      {
        job.AddOutput(lines[i]);
        assert lines[..i + 1][..i] == lines[..i];
        assert lines[..i + 1] == lines[..i] + [lines[i]];
      }
      assert lines[..|lines|] == lines;
    }

    /** The path of `RunJob` on which `cmd.Start` failed: one diagnostic line, then "failed". */
    method FailStart(job: Job, message: string) returns (saved: StatusUpdate)
      requires job.Valid()
      modifies job, job.subscribers
      ensures job.Valid()
      ensures job.output == old(job.output) + [StartErrorPrefix + message]
      ensures job.status == Failed && job.subscribers == {}
      ensures job.cancelRequested == old(job.cancelRequested)
      ensures forall c :: c in old(job.subscribers) ==>
                c.closed && c.buffer == Offer(Offer(old(c.buffer), c.capacity, StartErrorPrefix + message),
                                              c.capacity, DoneSentinel)
      ensures saved == StatusUpdate(job.id, Failed, 0, Join(job.output, "\n"))
    {
      job.AddOutput(StartErrorPrefix + message);
      job.Finish(Failed, 1);
      saved := SaveJob(job);
    }

    /** The path of `RunJob` after `cmd.Wait` returned: classify, finish, save. */
    method Complete(job: Job, wait: WaitOutcome) returns (saved: StatusUpdate)
      requires job.Valid()
      modifies job, job.subscribers
      ensures job.Valid()
      ensures job.status == Classify(job.cancelRequested, ExitCode(wait))
      ensures job.output == old(job.output) && job.subscribers == {}
      ensures job.cancelRequested == old(job.cancelRequested)
      ensures forall c :: c in old(job.subscribers) ==>
                c.closed && c.buffer == Offer(old(c.buffer), c.capacity, DoneSentinel)
      ensures saved == StatusUpdate(job.id, job.status, 0, Join(job.output, "\n"))
    {
      var exitCode := ExitCode(wait);
      var status := Classify(job.cancelRequested, exitCode);
      job.Finish(status, exitCode);
      saved := SaveJob(job);
    }

    /**
     * `RunJob` run to its end with no observer attached: register the job,
     * then either record the start error or record every line, honour a
     * cancellation that arrived before the process exited, and save.
     */
    method RunJob(id: int, run: Run) returns (job: Job, saved: StatusUpdate)
      modifies this
      ensures fresh(job) && job.Valid() && jobs == old(jobs)[id := job]
      ensures run.StartError? ==> job.output == [StartErrorPrefix + run.message] && job.status == Failed
      ensures run.Started? ==> job.output == run.lines
      ensures run.Started? ==> job.status == Classify(run.cancelled, ExitCode(run.wait))
      ensures job.status != Running
      ensures saved == StatusUpdate(id, job.status, 0, Join(job.output, "\n"))
    {
      job := Launch(id);
      if run.StartError? {
        saved := FailStart(job, run.message);
        return;
      }
      ReadOutput(job, run.lines);
      if run.cancelled {
        var err := Cancel(id);
      }
      saved := Complete(job, run.wait);
    }

    /** The delayed `delete(jm.jobs, job.ID)` that `saveJob` schedules. */
    method Evict(id: int)
      modifies this
      ensures jobs == old(jobs) - {id}
    {
      jobs := jobs - {id};
    }
  }

  /** A non-empty set of ids has an element: the next key a `range` over the map visits. */
  lemma HasElement(s: set<int>)
    requires s != {}
    ensures exists x :: x in s
  {
    if forall x :: x !in s {
      assert false;
    }
  }

  lemma CardinalityOfSubset(a: set<int>, b: set<int>)
    requires a <= b
    ensures |a| <= |b|
  {
    assert b == a + (b - a);
    assert a * (b - a) == {};
  }
}
