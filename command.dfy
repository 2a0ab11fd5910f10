/**
 * How `HandleRun` turns a run request into the rsync argument vector and the
 * command line stored in the history.
 */
module Command {
  import opened Wrappers
  import opened Text

  const RsyncUnavailable := "rsync not available"

  /** The decoded JSON body of `POST /api/run`. */
  datatype RunRequest = RunRequest(source: string, destination: string, options: seq<string>)

  /** What `HandleRun` records and starts: the arguments handed to rsync and the command line shown to users. */
  datatype RunPlan = RunPlan(args: seq<string>, fullCommand: string)

  /** `append(req.Options, req.Source, req.Destination)` */
  function Args(req: RunRequest): (args: seq<string>)
    ensures |args| == |req.options| + 2
    ensures args[..|req.options|] == req.options
    ensures args[|args| - 2] == req.source && args[|args| - 1] == req.destination
  {
    req.options + [req.source, req.destination]
  }

  /** `fmt.Sprintf("rsync %s", strings.Join(args, " "))` */
  function FullCommand(args: seq<string>): (cmd: string)
    ensures StartsWith(cmd, "rsync ")
    ensures cmd[|"rsync "|..] == Join(args, " ")
  {
    "rsync " + Join(args, " ")
  }

  /**
   * The part of `HandleRun` before the database: refuse when no rsync binary
   * was found, otherwise build the arguments and the command line.
   */
  function PlanRun(rsyncPath: string, req: RunRequest): (r: Result<RunPlan>)
    ensures rsyncPath == "" <==> r == Err(RsyncUnavailable)
    ensures r.Ok? ==> r.value.args == Args(req) && r.value.fullCommand == FullCommand(Args(req))
  {
    if rsyncPath == "" then Err(RsyncUnavailable)
    else Ok(RunPlan(Args(req), FullCommand(Args(req))))
  }

  /**
   * When no argument contains a space, the stored command line determines the
   * arguments: splitting what follows "rsync " at spaces gives them back, so
   * the options, the source and the destination can all be read off it.
   */
  lemma {:induction false} FullCommandDeterminesArgs(req: RunRequest)
    requires forall k :: 0 <= k < |req.options| ==> ' ' !in req.options[k]
    requires ' ' !in req.source && ' ' !in req.destination
    ensures var parts := Split(FullCommand(Args(req))[|"rsync "|..], ' ');
            && parts == Args(req)
            && parts[..|req.options|] == req.options
            && parts[|parts| - 2] == req.source
            && parts[|parts| - 1] == req.destination
  {
    var args := Args(req);
    assert forall k :: 0 <= k < |args| ==> ' ' !in args[k] by {
      forall k | 0 <= k < |args|
        ensures ' ' !in args[k]
      {
        if k < |req.options| {
          assert args[k] == req.options[k];
        }
      }
    }
    SplitJoin(args, ' ');
  }

  /** Two requests give the same command line only if they ask for the same arguments, when no argument has a space. */
  lemma FullCommandInjective(a: RunRequest, b: RunRequest)
    requires forall k :: 0 <= k < |a.options| ==> ' ' !in a.options[k]
    requires forall k :: 0 <= k < |b.options| ==> ' ' !in b.options[k]
    requires ' ' !in a.source && ' ' !in a.destination && ' ' !in b.source && ' ' !in b.destination
    requires FullCommand(Args(a)) == FullCommand(Args(b))
    ensures a == b
  {
    FullCommandDeterminesArgs(a);
    FullCommandDeterminesArgs(b);
    assert Args(a) == Args(b);
    assert |a.options| == |b.options|;
  }
}
