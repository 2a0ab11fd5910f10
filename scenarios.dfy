/**
 * One run of a job watched by one websocket observer, put together from the
 * registry, the job's methods and the observer's transcript: the job is
 * registered, prints `before`, the observer subscribes and snapshots the
 * output and status, the job prints `after`, possibly gets cancelled, exits,
 * and the observer's channel is then drained.
 */
module Scenarios {
  import opened Jobs
  import opened Registry
  import opened Observer

  /**
   * An observer that subscribed while the job ran, and whose channel never
   * filled up, sees every line exactly once and in order, then `done` with
   * the terminal status.
   */
  method WatchRun(id: int, before: seq<string>, after: seq<string>, cancelled: bool, wait: WaitOutcome)
    returns (t: Transcript, saved: StatusUpdate)
    requires |after| < SubscriberCapacity
    ensures DoneSentinel !in after ==>
              t == Transcript(Replay(before) + Replay(after) + [Done(Classify(cancelled, ExitCode(wait)))], true)
    ensures saved.status == Classify(cancelled, ExitCode(wait)) && saved.exitCode == 0
  {
    var jm := new JobManager();
    var job := jm.Launch(id);
    jm.ReadOutput(job, before);
    var ch := job.Subscribe();
    var snapshot, status := job.output, job.status;
    assert snapshot == before && status == Running;
    jm.ReadOutput(job, after);
    OfferAllKeepsFirst([], SubscriberCapacity, after);
    assert ch.buffer == after;
    if cancelled {
      var err := jm.Cancel(id);
    }
    saved := jm.Complete(job, wait);
    assert ch.buffer == after + [DoneSentinel] && ch.closed;
    t := LiveTranscript(snapshot, status, ch.buffer, ch.closed, job.status);
    if DoneSentinel !in after {
      LiveOutcome(snapshot, ch.buffer, ch.closed, job.status);
      assert FirstIndex(ch.buffer, DoneSentinel) == |after|;
      assert ch.buffer[..|after|] == after;
    }
  }

  /**
   * An observer that does not drain its channel while the job prints 100 or
   * more lines keeps only the first 100; the sentinel is dropped too, so the
   * stream ends when the channel closes, without `done`.
   */
  method WatchOverflow(id: int, after: seq<string>, wait: WaitOutcome) returns (t: Transcript)
    requires |after| >= SubscriberCapacity
    ensures DoneSentinel !in after ==>
              t == Transcript(Replay(after[..SubscriberCapacity]), true)
  {
    var jm := new JobManager();
    var job := jm.Launch(id);
    var ch := job.Subscribe();
    jm.ReadOutput(job, after);
    OfferAllKeepsFirst([], SubscriberCapacity, after);
    assert ch.buffer == after[..SubscriberCapacity];
    var saved := jm.Complete(job, wait);
    assert ch.buffer == after[..SubscriberCapacity] && ch.closed;
    t := LiveTranscript([], Running, ch.buffer, ch.closed, job.status);
    if DoneSentinel !in after {
      LiveOutcome([], ch.buffer, ch.closed, job.status);
    }
  }

  /**
   * A process that prints the line "__DONE__" ends the stream of an observer
   * that drains its channel while the job still runs: the lines before it are
   * forwarded, then `done` arrives with the status "running".
   */
  method WatchSentinelLine(id: int, after: seq<string>) returns (t: Transcript)
    requires |after| < SubscriberCapacity && DoneSentinel in after
    ensures t == Transcript(Replay(after[..FirstIndex(after, DoneSentinel)]) + [Done(Running)], true)
  {
    var jm := new JobManager();
    var job := jm.Launch(id);
    var ch := job.Subscribe();
    jm.ReadOutput(job, after);
    OfferAllKeepsFirst([], SubscriberCapacity, after);
    assert ch.buffer == after;
    t := LiveTranscript([], Running, ch.buffer, ch.closed, job.status);
    LiveOutcome([], ch.buffer, ch.closed, job.status);
  }
}
