/**
 The cursor-based Telegram monitor (`TelegramMonitorWorkflow`).

 The workflow keeps `last_ids`, a map from channel to the id of the last
 message it moved its cursor to. One cycle visits the channels of
 `channel_list` in order; for each it fetches the messages newer than the
 stored id (0 when the channel was never seen), sets the cursor to the id of
 the FIRST returned message, and then, message by message, skips empty texts
 and calls the translate activity followed by the send activity.

 The workflow is deterministic, so one cycle is a pure function from the
 state and the activity results to the new state and the trace of what the
 workflow did. Activity results are inputs: the batch each fetch returns,
 and, for each fetched message, the text the translate activity returns
 when it is called on that message.
 */
module TelegramMonitor {

  type Channel = string

  /** One fetched Telegram message: its id and its text (`""` when it has none). */
  datatype Message = Message(id: int, text: string)

  /** A fetched message paired with what the translate activity returns if it is called on it. */
  datatype Fetched = Fetched(msg: Message, translation: string)

  /** What the workflow does, in order: the three activity calls, plus the
      cursor assignment `last_ids[channel] = id`, which is bookkeeping and not
      an activity, recorded so that its position among the calls is visible. */
  datatype Call =
    | FetchMessages(channel: Channel, lastId: int)
    | Advance(channel: Channel, id: int)
    | Translate(text: string)
    | SendToSlack(content: string)

  /** The workflow state after some steps together with the trace of those steps. */
  datatype Step = Step(lastIds: map<Channel, int>, calls: seq<Call>)

  /** The state of a freshly started workflow: no channel seen yet. */
  const Initial: map<Channel, int> := map[]

  /** `last_ids.get(channel, 0)`. */
  function CursorOf(lastIds: map<Channel, int>, channel: Channel): (cursor: int)
    ensures channel !in lastIds ==> cursor == 0
  {
    if channel in lastIds then lastIds[channel] else 0
  }

  predicate HasText(f: Fetched)
  {
    |f.msg.text| != 0
  }

  predicate IsDelivery(c: Call)
  {
    c.Translate? || c.SendToSlack?
  }

  /** The messages of a batch that get forwarded: those with non-empty text, in fetched order. */
  function Forwarded(batch: seq<Fetched>): (kept: seq<Fetched>)
    ensures |kept| <= |batch|
    ensures forall k :: 0 <= k < |kept| ==> HasText(kept[k])
    ensures forall f :: f in batch && HasText(f) ==> f in kept
    ensures forall f :: f in kept ==> f in batch
    ensures forall f :: multiset(kept)[f] == if HasText(f) then multiset(batch)[f] else 0
  {
    if |batch| == 0 then []
    else
      assert batch == [batch[0]] + batch[1..];
      if HasText(batch[0]) then [batch[0]] + Forwarded(batch[1..])
      else Forwarded(batch[1..])
  }

  function Translations(kept: seq<Fetched>): (out: seq<string>)
    ensures |out| == |kept|
    ensures forall k :: 0 <= k < |kept| ==> out[k] == kept[k].translation
  {
    seq(|kept|, k requires 0 <= k < |kept| => kept[k].translation)
  }

  /** What one cycle sends, channel after channel: the translations of the forwarded messages. */
  function Outbox(replies: seq<seq<Fetched>>): (out: seq<string>)
  {
    if |replies| == 0 then []
    else Translations(Forwarded(replies[0])) + Outbox(replies[1..])
  }

  /** `channels` repeated `n` times: the visiting order of `n` cycles. */
  function Repeat(channels: seq<Channel>, n: nat): (order: seq<Channel>)
    ensures |order| == n * |channels|
  {
    if n == 0 then [] else channels + Repeat(channels, n - 1)
  }

  /** The fetch calls of a trace, in order. */
  function Fetches(calls: seq<Call>): (fetches: seq<Call>)
    ensures |fetches| <= |calls|
    ensures forall k :: 0 <= k < |fetches| ==> fetches[k].FetchMessages?
  {
    if |calls| == 0 then []
    else if calls[0].FetchMessages? then [calls[0]] + Fetches(calls[1..])
    else Fetches(calls[1..])
  }

  /** The channels fetched in a trace, in order. */
  function FetchedChannels(calls: seq<Call>): (channels: seq<Channel>)
  {
    if |calls| == 0 then []
    else if calls[0].FetchMessages? then [calls[0].channel] + FetchedChannels(calls[1..])
    else FetchedChannels(calls[1..])
  }

  /** The contents handed to the send activity, in order. */
  function Sent(calls: seq<Call>): (contents: seq<string>)
  {
    if |calls| == 0 then []
    else if calls[0].SendToSlack? then [calls[0].content] + Sent(calls[1..])
    else Sent(calls[1..])
  }

  /** The cursor map obtained by performing the cursor assignments of a trace. */
  function Replay(lastIds: map<Channel, int>, calls: seq<Call>): (replayed: map<Channel, int>)
    ensures lastIds.Keys <= replayed.Keys
    decreases |calls|
  {
    if |calls| == 0 then lastIds
    else if calls[0].Advance? then Replay(lastIds[calls[0].channel := calls[0].id], calls[1..])
    else Replay(lastIds, calls[1..])
  }

  /** The inner loop over one fetched batch: empty texts are skipped, every
      other message is translated and the translation is sent. */
  function Deliver(batch: seq<Fetched>): (calls: seq<Call>)
    ensures |batch| == 0 ==> calls == []
    ensures forall j :: 0 <= j < |calls| ==> IsDelivery(calls[j])
  {
    if |batch| == 0 then []
    else if HasText(batch[0]) then
      [Translate(batch[0].msg.text), SendToSlack(batch[0].translation)] + Deliver(batch[1..])
    else Deliver(batch[1..])
  }

  /** One visit of one channel: fetch from the stored cursor, move the cursor
      to the first returned id, then deliver the batch. */
  function Visit(lastIds: map<Channel, int>, channel: Channel, batch: seq<Fetched>): (r: Step)
    ensures |r.calls| >= 1 && r.calls[0] == FetchMessages(channel, CursorOf(lastIds, channel))
    ensures |batch| == 0 ==> r.lastIds == lastIds && |r.calls| == 1
    ensures |batch| > 0 ==> channel in r.lastIds && r.lastIds[channel] == batch[0].msg.id
    ensures forall c :: c != channel ==> (c in r.lastIds <==> c in lastIds)
    ensures forall c :: c != channel && c in lastIds ==> r.lastIds[c] == lastIds[c]
    ensures r.lastIds.Keys == if |batch| == 0 then lastIds.Keys else lastIds.Keys + {channel}
    ensures forall j :: 0 <= j < |r.calls| && IsDelivery(r.calls[j]) ==>
              |batch| > 0 && 1 < j && r.calls[1] == Advance(channel, batch[0].msg.id)
  {
    var fetch := FetchMessages(channel, CursorOf(lastIds, channel));
    if |batch| == 0 then Step(lastIds, [fetch])
    else
      var latest := batch[0].msg.id;
      Step(lastIds[channel := latest], [fetch, Advance(channel, latest)] + Deliver(batch))
  }

  /** One pass of the `while True` body over `channel_list`; `replies[k]` is
      what the fetch of the k-th visit returns. */
  function Cycle(lastIds: map<Channel, int>, channels: seq<Channel>, replies: seq<seq<Fetched>>): (r: Step)
    requires |replies| == |channels|
    ensures lastIds.Keys <= r.lastIds.Keys
    ensures forall c :: c !in channels ==> (c in r.lastIds <==> c in lastIds)
    ensures forall c :: c !in channels && c in lastIds ==> r.lastIds[c] == lastIds[c]
    decreases |channels|
  {
    if |channels| == 0 then Step(lastIds, [])
    else
      var v := Visit(lastIds, channels[0], replies[0]);
      var rest := Cycle(v.lastIds, channels[1..], replies[1..]);
      Step(rest.lastIds, v.calls + rest.calls)
  }

  /** A finite prefix of the `while True` loop: `rounds[n]` holds the fetch results of cycle n. */
  function Run(lastIds: map<Channel, int>, channels: seq<Channel>, rounds: seq<seq<seq<Fetched>>>): (r: Step)
    requires forall n :: 0 <= n < |rounds| ==> |rounds[n]| == |channels|
    ensures lastIds.Keys <= r.lastIds.Keys
    ensures forall c :: c !in channels ==> (c in r.lastIds <==> c in lastIds)
    ensures forall c :: c !in channels && c in lastIds ==> r.lastIds[c] == lastIds[c]
    decreases |rounds|
  {
    if |rounds| == 0 then Step(lastIds, [])
    else
      var c := Cycle(lastIds, channels, rounds[0]);
      var rest := Run(c.lastIds, channels, rounds[1..]);
      Step(rest.lastIds, c.calls + rest.calls)
  }

  /** The inner `for msg in new_msgs` loop as the workflow writes it. */
  method DeliverBatch(newMsgs: seq<Fetched>) returns (calls: seq<Call>)
    ensures calls == Deliver(newMsgs)
  {
    calls := [];
    var k := 0;
    while k < |newMsgs|
      invariant 0 <= k <= |newMsgs|
      invariant calls + Deliver(newMsgs[k..]) == Deliver(newMsgs)
    {
      var msg := newMsgs[k];
      assert newMsgs[k..][1..] == newMsgs[k + 1..];
      if |msg.msg.text| != 0 {
        calls := calls + [Translate(msg.msg.text), SendToSlack(msg.translation)];
      }
      k := k + 1;
    }
  }

  /** The body of `for channel in channel_list` as the workflow writes it. */
  method VisitChannel(lastIds0: map<Channel, int>, channel: Channel, newMsgs: seq<Fetched>)
    returns (lastIds: map<Channel, int>, calls: seq<Call>)
    ensures Step(lastIds, calls) == Visit(lastIds0, channel, newMsgs)
  {
    lastIds := lastIds0;
    calls := [FetchMessages(channel, CursorOf(lastIds, channel))];
    if |newMsgs| > 0 {
      var latest := newMsgs[0].msg.id;
      lastIds := lastIds[channel := latest];
      var delivered := DeliverBatch(newMsgs);
      calls := calls + [Advance(channel, latest)] + delivered;
    }
  }

  /** Visiting one more channel extends a cycle: the new visit starts from
      the cursors the earlier visits left, and its calls follow theirs. */
  lemma {:induction false} CycleSnoc(lastIds: map<Channel, int>, channels: seq<Channel>, replies: seq<seq<Fetched>>, channel: Channel, batch: seq<Fetched>)
    requires |replies| == |channels|
    ensures Cycle(lastIds, channels + [channel], replies + [batch]).lastIds ==
              Visit(Cycle(lastIds, channels, replies).lastIds, channel, batch).lastIds
    ensures Cycle(lastIds, channels + [channel], replies + [batch]).calls ==
              Cycle(lastIds, channels, replies).calls + Visit(Cycle(lastIds, channels, replies).lastIds, channel, batch).calls
    decreases |channels|
  {
    if |channels| > 0 {
      var v := Visit(lastIds, channels[0], replies[0]);
      var moreChannels := channels + [channel];
      var moreReplies := replies + [batch];
      assert moreChannels[0] == channels[0] && moreChannels[1..] == channels[1..] + [channel];
      assert moreReplies[0] == replies[0] && moreReplies[1..] == replies[1..] + [batch];
      CycleSnoc(v.lastIds, channels[1..], replies[1..], channel, batch);
      var before := Cycle(v.lastIds, channels[1..], replies[1..]);
      var last := Visit(before.lastIds, channel, batch);
      assert Cycle(lastIds, moreChannels, moreReplies).calls == v.calls + (before.calls + last.calls);
      assert v.calls + (before.calls + last.calls) == (v.calls + before.calls) + last.calls;
    } else {
      assert channels + [channel] == [channel];
      assert replies + [batch] == [batch];
    }
  }

  /** The cycle written as the workflow writes it: a loop over the channels
      that updates the cursor map in place. It computes exactly `Cycle`. */
  method MonitorCycle(lastIds0: map<Channel, int>, channels: seq<Channel>, replies: seq<seq<Fetched>>)
    returns (lastIds: map<Channel, int>, calls: seq<Call>)
    requires |replies| == |channels|
    ensures Step(lastIds, calls) == Cycle(lastIds0, channels, replies)
  {
    lastIds := lastIds0;
    calls := [];
    var i := 0;
    while i < |channels|
      invariant 0 <= i <= |channels|
      invariant Step(lastIds, calls) == Cycle(lastIds0, channels[..i], replies[..i])
    {
      assert channels[..i + 1] == channels[..i] + [channels[i]];
      assert replies[..i + 1] == replies[..i] + [replies[i]];
      CycleSnoc(lastIds0, channels[..i], replies[..i], channels[i], replies[i]);
      var visitCalls;
      lastIds, visitCalls := VisitChannel(lastIds, channels[i], replies[i]);
      calls := calls + visitCalls;
      i := i + 1;
    }
    assert channels[..i] == channels && replies[..i] == replies;
  }
}
