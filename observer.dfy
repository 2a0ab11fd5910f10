/**
 * What a websocket observer of one job receives (`HandleJobWebSocket` in
 * srv/handlers.go), as a function of what the handler finds: the stored
 * record when the job is not live, or else the job's output and status when
 * it subscribed, then the items its channel yields.
 */
module Observer {
  import opened Wrappers
  import opened Jobs

  datatype Message =
    | Output(data: string)                        // {"type": "output", "data": line}
    | StoredOutput(data: string, status: string)  // {"type": "output", "data": output, "status": status}
    | Done(status: string)                        // {"type": "done", "status": status}

  /** The stored record of a job that is not live: its status and its saved output, if any. */
  datatype StoredJob = StoredJob(status: string, output: Option<string>)

  /** The messages sent so far, and whether the handler has returned (closing the socket). */
  datatype Transcript = Transcript(messages: seq<Message>, ended: bool)

  /** A `done` message, if there is one, is the last message. */
  predicate DoneOnlyLast(messages: seq<Message>) {
    forall i :: 0 <= i < |messages| && messages[i].Done? ==> i == |messages| - 1
  }

  /**
   * A job that is not in the registry: its stored output in one message when
   * the lookup succeeded and the output is not null, then `done` with the
   * stored status, or with the empty status when the lookup failed.
   */
  function StoredTranscript(record: Option<StoredJob>): (messages: seq<Message>)
    ensures 1 <= |messages| <= 2
    ensures messages[|messages| - 1] == Done(if record.Some? then record.value.status else "")
    ensures |messages| == 2 <==> record.Some? && record.value.output.Some?
    ensures |messages| == 2 ==> messages[0].StoredOutput? && messages[0].data == record.value.output.value
    ensures DoneOnlyLast(messages)
  {
    match record
    case None => [Done("")]
    case Some(r) =>
      (if r.output.Some? then [StoredOutput(r.output.value, r.status)] else []) + [Done(r.status)]
  }

  /** One `output` message per line, in order. */
  function Replay(lines: seq<string>): (messages: seq<Message>)
    ensures |messages| == |lines|
    ensures forall i :: 0 <= i < |lines| ==> messages[i] == Output(lines[i])
  {
    seq(|lines|, i requires 0 <= i < |lines| => Output(lines[i]))
  }

  /** Index of the first occurrence of `x` in `items`, or |items|. */
  function FirstIndex(items: seq<string>, x: string): (k: nat)
    ensures k <= |items| && (k < |items| ==> items[k] == x) && x !in items[..k]
    decreases |items|
  {
    if items == [] || items[0] == x then 0 else 1 + FirstIndex(items[1..], x)
  }

  /**
   * The `for line := range ch` loop: each item is forwarded until the
   * sentinel, which yields `done` with the status the job has at that moment
   * and ends the handler. If the items run out, the handler has ended exactly
   * when the channel was closed.
   */
  function Drain(items: seq<string>, closed: bool, statusNow: string): (t: Transcript)
    ensures |t.messages| <= |items|
    ensures forall i :: 0 <= i < |t.messages| - 1 ==> t.messages[i].Output?
    ensures t.ended <==> closed || DoneSentinel in items
    decreases |items|
  {
    if items == [] then Transcript([], closed)
    else if items[0] == DoneSentinel then Transcript([Done(statusNow)], true)
    else
      var rest := Drain(items[1..], closed, statusNow);
      assert items == [items[0]] + items[1..];
      Transcript([Output(items[0])] + rest.messages, rest.ended)
  }

  /**
   * A live job: every line already in `output` is replayed; a job that is no
   * longer running then gets `done` at once, a running one streams what its
   * channel yields.
   */
  function LiveTranscript(output: seq<string>, status: string, items: seq<string>, closed: bool,
                          statusNow: string): (t: Transcript)
    ensures |t.messages| >= |output| && t.messages[..|output|] == Replay(output)
    ensures status != Running ==> t == Transcript(Replay(output) + [Done(status)], true)
  {
    if status != Running then Transcript(Replay(output) + [Done(status)], true)
    else
      var rest := Drain(items, closed, statusNow);
      Transcript(Replay(output) + rest.messages, rest.ended)
  }

  /** Items before the first sentinel are forwarded in order; the sentinel gives `done` and ends the stream. */
  lemma {:induction false} DrainUpToSentinel(items: seq<string>, closed: bool, statusNow: string)
    requires DoneSentinel in items
    ensures Drain(items, closed, statusNow) ==
            Transcript(Replay(items[..FirstIndex(items, DoneSentinel)]) + [Done(statusNow)], true)
    decreases |items|
  {
    if items[0] != DoneSentinel {
      assert DoneSentinel in items[1..];
      DrainUpToSentinel(items[1..], closed, statusNow);
      var k := FirstIndex(items[1..], DoneSentinel);
      assert items[..k + 1] == [items[0]] + items[1..][..k];
    }
  }

  /** Without a sentinel every item is forwarded, and no `done` is sent. */
  lemma {:induction false} DrainWithoutSentinel(items: seq<string>, closed: bool, statusNow: string)
    requires DoneSentinel !in items
    ensures Drain(items, closed, statusNow) == Transcript(Replay(items), closed)
    decreases |items|
  {
    if items != [] {
      assert DoneSentinel !in items[1..];
      DrainWithoutSentinel(items[1..], closed, statusNow);
    }
  }

  /**
   * The stream a running job's observer receives ends with `done` exactly
   * when the sentinel is among its items; if the channel is closed without
   * it, the stream ends with no `done`; if it is still open, the stream has
   * not ended.
   */
  lemma {:induction false} LiveOutcome(output: seq<string>, items: seq<string>, closed: bool, statusNow: string)
    ensures var t := LiveTranscript(output, Running, items, closed, statusNow);
            && DoneOnlyLast(t.messages)
            && (DoneSentinel in items ==>
                  t.ended && t.messages == Replay(output) + Replay(items[..FirstIndex(items, DoneSentinel)])
                                           + [Done(statusNow)])
            && (DoneSentinel !in items ==>
                  t.ended == closed && t.messages == Replay(output) + Replay(items))
  {
    var t := LiveTranscript(output, Running, items, closed, statusNow);
    if DoneSentinel in items {
      DrainUpToSentinel(items, closed, statusNow);
      var k := FirstIndex(items, DoneSentinel);
      assert t.messages == Replay(output) + Replay(items[..k]) + [Done(statusNow)];
      assert forall i :: 0 <= i < |t.messages| - 1 ==> t.messages[i].Output?;
    } else {
      DrainWithoutSentinel(items, closed, statusNow);
      assert forall i :: 0 <= i < |t.messages| ==> t.messages[i].Output?;
    }
  }

  /** A job's observer, live or not, never receives anything after `done`. */
  lemma DoneIsLast(record: Option<StoredJob>, output: seq<string>, status: string, items: seq<string>,
                   closed: bool, statusNow: string)
    ensures DoneOnlyLast(StoredTranscript(record))
    ensures DoneOnlyLast(LiveTranscript(output, status, items, closed, statusNow).messages)
  {
    if status == Running {
      LiveOutcome(output, items, closed, statusNow);
    } else {
      var m := Replay(output) + [Done(status)];
      assert forall i :: 0 <= i < |m| - 1 ==> m[i].Output?;
    }
  }
}
