/**
 The set-based Slack reaction monitor (`PollSlackForReactionWorkflow`).

 The workflow keeps `processed`, the set of message timestamps it has
 already handled; the set only grows. One cycle polls the channel for
 timestamps and, for each timestamp not yet processed, checks its reactions,
 marks it processed whatever the check returned, and re-posts the message
 text when a `white_check_mark` reaction is present.

 Activity results are inputs: the timestamps the poll returns and, for each
 timestamp, the result the reaction check returns when it is called on it.
 */
module SlackApproval {

  type Ts = string

  datatype Option<T> = None | Some(value: T)

  /** One entry of a message's reactions; `name` is `None` when the entry has no name. */
  datatype Reaction = Reaction(name: Option<string>)

  /** The two shapes the reaction check returns: the message was not found
      (no text, no reactions), or the message with its text, author and reactions. */
  datatype CheckResult =
    | NotFound(ts: Ts)
    | Found(ts: Ts, text: string, user: Option<string>, reactions: seq<Reaction>)

  /** The reaction that approves a message for re-posting. */
  const ApprovalReaction: string := "white_check_mark"

  /** `info.get("reactions")` is truthy: the result has a non-empty reactions list. */
  predicate HasReactions(info: CheckResult)
  {
    info.Found? && |info.reactions| > 0
  }

  /** The re-post condition: some reaction is named `white_check_mark`. */
  predicate Approved(info: CheckResult)
  {
    HasReactions(info) && exists r :: r in info.reactions && r.name == Some(ApprovalReaction)
  }

  /** What the workflow does, in order: the three activity calls, plus the
      bookkeeping `processed.add(ts)`. The re-post activity receives only the
      text; `forTs` records which timestamp's iteration made the call. */
  datatype Call =
    | GetMessages(channelId: string)
    | CheckReactions(ts: Ts, channelId: string)
    | MarkProcessed(ts: Ts)
    | Resend(forTs: Ts, text: string)

  /** The workflow state after some steps together with the trace of those steps. */
  datatype Step = Step(processed: set<Ts>, calls: seq<Call>)

  /** The activity results of one cycle: the polled timestamps and the reaction oracle. */
  datatype PollRound = PollRound(timestamps: seq<Ts>, check: Ts -> CheckResult)

  /** The state of a freshly started workflow: `processed = set()`. */
  const Initial: set<Ts> := {}

  /** The timestamps of a poll result, as a set. */
  function Elements(tss: seq<Ts>): (elems: set<Ts>)
    ensures forall t :: t in elems <==> t in tss
  {
    set t | t in tss
  }

  /** Every timestamp polled in a sequence of rounds. */
  function Polled(rounds: seq<PollRound>): (polled: set<Ts>)
    ensures forall n :: 0 <= n < |rounds| ==> Elements(rounds[n].timestamps) <= polled
    decreases |rounds|
  {
    if |rounds| == 0 then {} else Elements(rounds[0].timestamps) + Polled(rounds[1..])
  }


  /** The timestamps whose reactions were checked, in order. */
  function Checked(calls: seq<Call>): (checked: seq<Ts>)
  {
    if |calls| == 0 then []
    else if calls[0].CheckReactions? then [calls[0].ts] + Checked(calls[1..])
    else Checked(calls[1..])
  }

  /** The timestamps added to `processed`, in order. */
  function Marked(calls: seq<Call>): (marked: seq<Ts>)
  {
    if |calls| == 0 then []
    else if calls[0].MarkProcessed? then [calls[0].ts] + Marked(calls[1..])
    else Marked(calls[1..])
  }

  /** The timestamps whose message was re-posted, in order. */
  function Reposted(calls: seq<Call>): (reposted: seq<Ts>)
  {
    if |calls| == 0 then []
    else if calls[0].Resend? then [calls[0].forTs] + Reposted(calls[1..])
    else Reposted(calls[1..])
  }

  /** The call at position `j` sits where it must: a check is immediately
      followed by marking that timestamp; a mark immediately follows its check
      and is followed by a re-post exactly when the check result is approved;
      a re-post immediately follows the mark of its timestamp and carries the
      checked message's text. */
  predicate WellPlaced(calls: seq<Call>, j: int, channelId: string, check: Ts -> CheckResult)
    requires 0 <= j < |calls|
  {
    match calls[j]
    case GetMessages(_) => true
    case CheckReactions(ts, c) =>
      c == channelId && j + 1 < |calls| && calls[j + 1] == MarkProcessed(ts)
    case MarkProcessed(ts) =>
      && 0 < j && calls[j - 1] == CheckReactions(ts, channelId)
      && (Approved(check(ts)) <==> j + 1 < |calls| && calls[j + 1].Resend?)
    case Resend(ts, text) =>
      0 < j && calls[j - 1] == MarkProcessed(ts) && Approved(check(ts)) && text == check(ts).text
  }

  /** Every call of the trace is well placed. */
  predicate CheckMarkResend(calls: seq<Call>, channelId: string, check: Ts -> CheckResult)
  {
    forall j :: 0 <= j < |calls| ==> WellPlaced(calls, j, channelId, check)
  }


  /** The body of `for ts in timestamps`. */
  function Handle(processed: set<Ts>, channelId: string, ts: Ts, check: Ts -> CheckResult): (r: Step)
    ensures ts in processed ==> r == Step(processed, [])
    ensures ts !in processed ==> r.processed == processed + {ts}
    ensures ts !in processed ==> |r.calls| >= 2 && r.calls[..2] == [CheckReactions(ts, channelId), MarkProcessed(ts)]
    ensures ts !in processed && !Approved(check(ts)) ==> |r.calls| == 2
    ensures ts !in processed && check(ts).NotFound? ==> |r.calls| == 2
    ensures ts !in processed && Approved(check(ts)) ==> r.calls[2..] == [Resend(ts, check(ts).text)]
  {
    if ts in processed then Step(processed, [])
    else
      var info := check(ts);
      var repost := if Approved(info) then [Resend(ts, info.text)] else [];
      Step(processed + {ts}, [CheckReactions(ts, channelId), MarkProcessed(ts)] + repost)
  }

  /** The loop over the polled timestamps. */
  function HandleAll(processed: set<Ts>, channelId: string, tss: seq<Ts>, check: Ts -> CheckResult): (r: Step)
    ensures r.processed == processed + Elements(tss)
    ensures |r.calls| > 0 ==> r.calls[0].CheckReactions?
    decreases |tss|
  {
    if |tss| == 0 then Step(processed, [])
    else
      var h := Handle(processed, channelId, tss[0], check);
      var rest := HandleAll(h.processed, channelId, tss[1..], check);
      assert Elements(tss) == {tss[0]} + Elements(tss[1..]);
      Step(rest.processed, h.calls + rest.calls)
  }

  /** One pass of the `while True` body: poll, then handle every timestamp. */
  function Cycle(processed: set<Ts>, channelId: string, round: PollRound): (r: Step)
    ensures processed <= r.processed
    ensures forall t :: t in round.timestamps ==> t in r.processed
    ensures forall t :: t in r.processed ==> t in processed || t in round.timestamps
    ensures |r.calls| > 0 && r.calls[0] == GetMessages(channelId)
  {
    var rest := HandleAll(processed, channelId, round.timestamps, round.check);
    Step(rest.processed, [GetMessages(channelId)] + rest.calls)
  }

  /** A finite prefix of the `while True` loop. */
  function Run(processed: set<Ts>, channelId: string, rounds: seq<PollRound>): (r: Step)
    ensures r.processed == processed + Polled(rounds)
    decreases |rounds|
  {
    if |rounds| == 0 then Step(processed, [])
    else
      var c := Cycle(processed, channelId, rounds[0]);
      var rest := Run(c.processed, channelId, rounds[1..]);
      Step(rest.processed, c.calls + rest.calls)
  }

  /** The body of `for ts in timestamps` as the workflow writes it. */
  method HandleTimestamp(processed0: set<Ts>, channelId: string, ts: Ts, check: Ts -> CheckResult)
    returns (processed: set<Ts>, calls: seq<Call>)
    ensures Step(processed, calls) == Handle(processed0, channelId, ts, check)
  {
    processed := processed0;
    calls := [];
    if ts in processed {
      return;
    }
    var info := check(ts);
    calls := calls + [CheckReactions(ts, channelId)];
    processed := processed + {ts};
    calls := calls + [MarkProcessed(ts)];
    if HasReactions(info) && exists r :: r in info.reactions && r.name == Some(ApprovalReaction) {
      calls := calls + [Resend(ts, info.text)];
    }
  }

  /** One iteration of the timestamp loop: handling the remaining timestamps
      is handling the next one, then the rest. */
  lemma HandleAllFrom(processed: set<Ts>, channelId: string, tss: seq<Ts>, i: nat, check: Ts -> CheckResult)
    requires i < |tss|
    ensures HandleAll(processed, channelId, tss[i..], check).processed ==
              HandleAll(Handle(processed, channelId, tss[i], check).processed, channelId, tss[i + 1..], check).processed
    ensures HandleAll(processed, channelId, tss[i..], check).calls ==
              Handle(processed, channelId, tss[i], check).calls +
              HandleAll(Handle(processed, channelId, tss[i], check).processed, channelId, tss[i + 1..], check).calls
  {
    assert tss[i..][0] == tss[i];
    assert tss[i..][1..] == tss[i + 1..];
  }

  /** The cycle written as the workflow writes it: a loop that adds to the
      processed set in place. It computes exactly `Cycle`. */
  method PollCycle(processed0: set<Ts>, channelId: string, timestamps: seq<Ts>, check: Ts -> CheckResult)
    returns (processed: set<Ts>, calls: seq<Call>)
    ensures Step(processed, calls) == Cycle(processed0, channelId, PollRound(timestamps, check))
  {
    ghost var goal := HandleAll(processed0, channelId, timestamps, check);
    processed := processed0;
    calls := [GetMessages(channelId)];
    var i := 0;
    while i < |timestamps|
      invariant 0 <= i <= |timestamps|
      invariant HandleAll(processed, channelId, timestamps[i..], check).processed == goal.processed
      invariant calls + HandleAll(processed, channelId, timestamps[i..], check).calls == [GetMessages(channelId)] + goal.calls
    {
      HandleAllFrom(processed, channelId, timestamps, i, check);
      var handled;
      processed, handled := HandleTimestamp(processed, channelId, timestamps[i], check);
      calls := calls + handled;
      i := i + 1;
    }
  }
}
