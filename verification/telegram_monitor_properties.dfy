/**
 Properties of the Telegram monitor model: what one visit, one cycle and a
 sequence of cycles fetch, send and remember.
 */
module TelegramMonitorProperties {

  import opened TelegramMonitor
  import opened Sequences


  lemma {:induction false} FetchesAppend(a: seq<Call>, b: seq<Call>)
    ensures Fetches(a + b) == Fetches(a) + Fetches(b)
    decreases |a|
  {
    if |a| > 0 {
      assert (a + b)[1..] == a[1..] + b;
      FetchesAppend(a[1..], b);
    } else {
      assert a + b == b;
    }
  }

  lemma {:induction false} FetchedChannelsAppend(a: seq<Call>, b: seq<Call>)
    ensures FetchedChannels(a + b) == FetchedChannels(a) + FetchedChannels(b)
    decreases |a|
  {
    if |a| > 0 {
      assert (a + b)[1..] == a[1..] + b;
      FetchedChannelsAppend(a[1..], b);
    } else {
      assert a + b == b;
    }
  }

  lemma {:induction false} SentAppend(a: seq<Call>, b: seq<Call>)
    ensures Sent(a + b) == Sent(a) + Sent(b)
    decreases |a|
  {
    if |a| > 0 {
      assert (a + b)[1..] == a[1..] + b;
      SentAppend(a[1..], b);
    } else {
      assert a + b == b;
    }
  }

  lemma {:induction false} ReplayAppend(m: map<Channel, int>, a: seq<Call>, b: seq<Call>)
    ensures Replay(m, a + b) == Replay(Replay(m, a), b)
    decreases |a|
  {
    if |a| > 0 {
      assert (a + b)[1..] == a[1..] + b;
      if a[0].Advance? {
        ReplayAppend(m[a[0].channel := a[0].id], a[1..], b);
      } else {
        ReplayAppend(m, a[1..], b);
      }
    } else {
      assert a + b == b;
    }
  }


  /** Filtering distributes over concatenation: the messages of a longer batch
      are forwarded in the order they were fetched. */
  lemma {:induction false} ForwardedAppend(a: seq<Fetched>, b: seq<Fetched>)
    ensures Forwarded(a + b) == Forwarded(a) + Forwarded(b)
    decreases |a|
  {
    if |a| > 0 {
      assert (a + b)[0] == a[0];
      assert (a + b)[1..] == a[1..] + b;
      ForwardedAppend(a[1..], b);
    } else {
      assert a + b == b;
    }
  }

  /** A single message is forwarded exactly when its text is non-empty. */
  lemma ForwardedSingleton(f: Fetched)
    ensures HasText(f) ==> Forwarded([f]) == [f]
    ensures !HasText(f) ==> Forwarded([f]) == []
  {
    assert [f][1..] == [];
  }

  /** The shape `DeliverPairs` states: translate/send pairs, one per forwarded message. */
  predicate Paired(calls: seq<Call>, kept: seq<Fetched>)
  {
    && |calls| == 2 * |kept|
    && forall k :: 0 <= k < |kept| ==>
         calls[2 * k] == Translate(kept[k].msg.text) && calls[2 * k + 1] == SendToSlack(kept[k].translation)
  }

  lemma PairedCons(f: Fetched, calls: seq<Call>, kept: seq<Fetched>)
    requires Paired(calls, kept)
    ensures Paired([Translate(f.msg.text), SendToSlack(f.translation)] + calls, [f] + kept)
  {
  }

  /** Every forwarded message yields exactly one translate call on its text,
      immediately followed by one send of that translation, in fetched order;
      nothing else is called. */
  lemma {:induction false} DeliverPairs(batch: seq<Fetched>)
    ensures |Deliver(batch)| == 2 * |Forwarded(batch)|
    ensures forall k :: 0 <= k < |Forwarded(batch)| ==>
              Deliver(batch)[2 * k] == Translate(Forwarded(batch)[k].msg.text) &&
              Deliver(batch)[2 * k + 1] == SendToSlack(Forwarded(batch)[k].translation)
    decreases |batch|
  {
    if |batch| > 0 {
      DeliverPairs(batch[1..]);
      if HasText(batch[0]) {
        PairedCons(batch[0], Deliver(batch[1..]), Forwarded(batch[1..]));
      }
    }
    assert Paired(Deliver(batch), Forwarded(batch));
  }

  lemma {:induction false} DeliverAppend(a: seq<Fetched>, b: seq<Fetched>)
    ensures Deliver(a + b) == Deliver(a) + Deliver(b)
    decreases |a|
  {
    if |a| > 0 {
      assert (a + b)[1..] == a[1..] + b;
      DeliverAppend(a[1..], b);
    } else {
      assert a + b == b;
    }
  }

  /** A message with empty text causes no call at all, wherever it sits in the batch. */
  lemma EmptyTextIsSkipped(before: seq<Fetched>, f: Fetched, after: seq<Fetched>)
    requires !HasText(f)
    ensures Deliver(before + [f] + after) == Deliver(before + after)
  {
    DeliverAppend(before + [f], after);
    DeliverAppend(before, [f]);
    DeliverAppend(before, after);
    assert Deliver([f]) == Deliver([f][1..]);
  }

  lemma {:induction false} SentOfDeliverHead(batch: seq<Fetched>)
    requires |batch| > 0 && HasText(batch[0])
    ensures Sent(Deliver(batch)) == [batch[0].translation] + Sent(Deliver(batch[1..]))
  {
    var head := [Translate(batch[0].msg.text), SendToSlack(batch[0].translation)];
    SentAppend(head, Deliver(batch[1..]));
  }

  lemma TranslationsCons(f: Fetched, kept: seq<Fetched>)
    ensures Translations([f] + kept) == [f.translation] + Translations(kept)
  {
  }

  /** What a batch sends is the translations of its non-empty messages, in order. */
  lemma {:induction false} SentOfDeliver(batch: seq<Fetched>)
    ensures Sent(Deliver(batch)) == Translations(Forwarded(batch))
    decreases |batch|
  {
    if |batch| > 0 {
      SentOfDeliver(batch[1..]);
      if HasText(batch[0]) {
        SentOfDeliverHead(batch);
        TranslationsCons(batch[0], Forwarded(batch[1..]));
      }
    }
  }

  lemma {:induction false} DeliverIsNotBookkeeping(m: map<Channel, int>, batch: seq<Fetched>)
    ensures Replay(m, Deliver(batch)) == m
    ensures Fetches(Deliver(batch)) == []
    ensures FetchedChannels(Deliver(batch)) == []
    decreases |batch|
  {
    if |batch| > 0 {
      DeliverIsNotBookkeeping(m, batch[1..]);
      if HasText(batch[0]) {
        var head := [Translate(batch[0].msg.text), SendToSlack(batch[0].translation)];
        ReplayAppend(m, head, Deliver(batch[1..]));
        FetchesAppend(head, Deliver(batch[1..]));
        FetchedChannelsAppend(head, Deliver(batch[1..]));
      }
    }
  }


  /** A visit fetches exactly once, for its channel and from the stored cursor. */
  lemma VisitFetchesOnce(lastIds: map<Channel, int>, channel: Channel, batch: seq<Fetched>)
    ensures Fetches(Visit(lastIds, channel, batch).calls) == [FetchMessages(channel, CursorOf(lastIds, channel))]
    ensures FetchedChannels(Visit(lastIds, channel, batch).calls) == [channel]
  {
    DeliverIsNotBookkeeping(lastIds, batch);
    if |batch| > 0 {
      var head := [FetchMessages(channel, CursorOf(lastIds, channel)), Advance(channel, batch[0].msg.id)];
      FetchesAppend(head, Deliver(batch));
      FetchedChannelsAppend(head, Deliver(batch));
    }
  }

  /** A visit fetches once, from the stored cursor, and sends exactly the
      translations of the fetched messages whose text is non-empty. */
  lemma VisitFetchesAndSends(lastIds: map<Channel, int>, channel: Channel, batch: seq<Fetched>)
    ensures Fetches(Visit(lastIds, channel, batch).calls) == [FetchMessages(channel, CursorOf(lastIds, channel))]
    ensures FetchedChannels(Visit(lastIds, channel, batch).calls) == [channel]
    ensures Sent(Visit(lastIds, channel, batch).calls) == Translations(Forwarded(batch))
    ensures |Sent(Visit(lastIds, channel, batch).calls)| == |Forwarded(batch)|
  {
    VisitFetchesOnce(lastIds, channel, batch);
    SentOfDeliver(batch);
    if |batch| > 0 {
      var head := [FetchMessages(channel, CursorOf(lastIds, channel)), Advance(channel, batch[0].msg.id)];
      SentAppend(head, Deliver(batch));
    }
  }

  /** The cursor map after a visit is exactly what the visit's cursor assignment produces. */
  lemma VisitReplay(lastIds: map<Channel, int>, channel: Channel, batch: seq<Fetched>)
    ensures Replay(lastIds, Visit(lastIds, channel, batch).calls) == Visit(lastIds, channel, batch).lastIds
  {
    if |batch| > 0 {
      var head := [FetchMessages(channel, CursorOf(lastIds, channel)), Advance(channel, batch[0].msg.id)];
      ReplayAppend(lastIds, head, Deliver(batch));
      DeliverIsNotBookkeeping(lastIds[channel := batch[0].msg.id], batch);
    }
  }

  /** The new cursor is an assignment: it does not depend on the old cursor. */
  lemma CursorIgnoresOldValue(m1: map<Channel, int>, m2: map<Channel, int>, channel: Channel, batch: seq<Fetched>)
    requires |batch| > 0
    ensures CursorOf(Visit(m1, channel, batch).lastIds, channel) == CursorOf(Visit(m2, channel, batch).lastIds, channel)
  {
  }

  /** Telegram returns messages newest first: each id is below the one before it. */
  predicate NewestFirst(batch: seq<Fetched>)
  {
    forall i :: 0 < i < |batch| ==> batch[i].msg.id < batch[i - 1].msg.id
  }

  lemma {:induction false} NewestFirstHeadIsMax(batch: seq<Fetched>)
    requires NewestFirst(batch)
    ensures forall i :: 0 <= i < |batch| ==> batch[i].msg.id <= batch[0].msg.id
    decreases |batch|
  {
    if |batch| > 1 {
      NewestFirstHeadIsMax(batch[1..]);
      forall i | 1 <= i < |batch|
        ensures batch[i].msg.id <= batch[0].msg.id
      {
        assert batch[1..][i - 1] == batch[i];
      }
    }
  }

  /** When the fetch returns messages newest first and only ids above the
      cursor, the assigned cursor is the largest id fetched, so the cursor
      never moves backwards. */
  lemma NewestFirstCursorIsMax(lastIds: map<Channel, int>, channel: Channel, batch: seq<Fetched>)
    requires NewestFirst(batch)
    requires forall i :: 0 <= i < |batch| ==> batch[i].msg.id > CursorOf(lastIds, channel)
    ensures CursorOf(lastIds, channel) <= CursorOf(Visit(lastIds, channel, batch).lastIds, channel)
    ensures forall i :: 0 <= i < |batch| ==> batch[i].msg.id <= CursorOf(Visit(lastIds, channel, batch).lastIds, channel)
  {
    NewestFirstHeadIsMax(batch);
  }


  /** The channels are fetched in the order of `channel_list`, each once. */
  lemma {:induction false} CycleVisitsInOrder(lastIds: map<Channel, int>, channels: seq<Channel>, replies: seq<seq<Fetched>>)
    requires |replies| == |channels|
    ensures FetchedChannels(Cycle(lastIds, channels, replies).calls) == channels
    decreases |channels|
  {
    if |channels| > 0 {
      var v := Visit(lastIds, channels[0], replies[0]);
      var rest := Cycle(v.lastIds, channels[1..], replies[1..]);
      VisitFetchesOnce(lastIds, channels[0], replies[0]);
      CycleVisitsInOrder(v.lastIds, channels[1..], replies[1..]);
      FetchedChannelsAppend(v.calls, rest.calls);
    }
  }

  /** The first k visits of a cycle are the first visit followed by the next k - 1. */
  lemma CyclePrefixAfterFirst(lastIds: map<Channel, int>, channels: seq<Channel>, replies: seq<seq<Fetched>>, k: nat)
    requires |replies| == |channels|
    requires 1 <= k <= |channels|
    ensures Cycle(lastIds, channels[..k], replies[..k]).lastIds ==
              Cycle(Visit(lastIds, channels[0], replies[0]).lastIds, channels[1..][..k - 1], replies[1..][..k - 1]).lastIds
  {
    assert channels[..k][0] == channels[0] && replies[..k][0] == replies[0];
    assert channels[..k][1..] == channels[1..][..k - 1];
    assert replies[..k][1..] == replies[1..][..k - 1];
  }

  /** Whether or not `channel_list` repeats a channel, the k-th fetch of a
      cycle is for the k-th channel and uses the cursor in effect just before
      the k-th visit, that is, after the first k visits. */
  lemma {:induction false} CycleFetchesCurrentCursor(lastIds: map<Channel, int>, channels: seq<Channel>, replies: seq<seq<Fetched>>)
    requires |replies| == |channels|
    ensures |Fetches(Cycle(lastIds, channels, replies).calls)| == |channels|
    ensures forall k :: 0 <= k < |channels| ==>
              Fetches(Cycle(lastIds, channels, replies).calls)[k] ==
              FetchMessages(channels[k], CursorOf(Cycle(lastIds, channels[..k], replies[..k]).lastIds, channels[k]))
    decreases |channels|
  {
    if |channels| > 0 {
      var v := Visit(lastIds, channels[0], replies[0]);
      var rest := Cycle(v.lastIds, channels[1..], replies[1..]);
      VisitFetchesOnce(lastIds, channels[0], replies[0]);
      CycleFetchesCurrentCursor(v.lastIds, channels[1..], replies[1..]);
      FetchesAppend(v.calls, rest.calls);
      var fs := Fetches(Cycle(lastIds, channels, replies).calls);
      assert Cycle(lastIds, channels[..0], replies[..0]).lastIds == lastIds;
      forall k | 1 <= k < |channels|
        ensures fs[k] == FetchMessages(channels[k], CursorOf(Cycle(lastIds, channels[..k], replies[..k]).lastIds, channels[k]))
      {
        assert channels[1..][k - 1] == channels[k];
        CyclePrefixAfterFirst(lastIds, channels, replies, k);
      }
    }
  }

  /** When `channel_list` names each channel once, every fetch of the cycle
      uses the cursor stored at the start of the cycle, 0 for a new channel. */
  lemma CycleFetchesStoredCursor(lastIds: map<Channel, int>, channels: seq<Channel>, replies: seq<seq<Fetched>>)
    requires |replies| == |channels|
    requires NoDuplicates(channels)
    ensures |Fetches(Cycle(lastIds, channels, replies).calls)| == |channels|
    ensures forall k :: 0 <= k < |channels| ==>
              Fetches(Cycle(lastIds, channels, replies).calls)[k] == FetchMessages(channels[k], CursorOf(lastIds, channels[k]))
  {
    CycleFetchesCurrentCursor(lastIds, channels, replies);
    forall k | 0 <= k < |channels|
      ensures CursorOf(Cycle(lastIds, channels[..k], replies[..k]).lastIds, channels[k]) == CursorOf(lastIds, channels[k])
    {
      assert channels[k] !in channels[..k];
    }
  }

  /** What `last_ids` holds for a listed channel after a cycle, when
      `channel_list` has no repeats: the id of the first message its fetch
      returned, or the cursor it had before when the fetch returned nothing.
      The channel is in the map exactly when it was before or its fetch
      returned something. */
  lemma {:induction false} CycleCursors(lastIds: map<Channel, int>, channels: seq<Channel>, replies: seq<seq<Fetched>>)
    requires |replies| == |channels|
    requires NoDuplicates(channels)
    ensures forall k :: 0 <= k < |channels| ==>
              CursorOf(Cycle(lastIds, channels, replies).lastIds, channels[k]) ==
              if |replies[k]| > 0 then replies[k][0].msg.id else CursorOf(lastIds, channels[k])
    ensures forall k :: 0 <= k < |channels| ==>
              (channels[k] in Cycle(lastIds, channels, replies).lastIds <==> channels[k] in lastIds || |replies[k]| > 0)
    decreases |channels|
  {
    if |channels| > 0 {
      var v := Visit(lastIds, channels[0], replies[0]);
      var rest := Cycle(v.lastIds, channels[1..], replies[1..]);
      CycleCursors(v.lastIds, channels[1..], replies[1..]);
      assert channels[0] !in channels[1..];
      forall k | 1 <= k < |channels|
        ensures CursorOf(rest.lastIds, channels[k]) ==
                  if |replies[k]| > 0 then replies[k][0].msg.id else CursorOf(lastIds, channels[k])
        ensures channels[k] in rest.lastIds <==> channels[k] in lastIds || |replies[k]| > 0
      {
        assert channels[1..][k - 1] == channels[k] && replies[1..][k - 1] == replies[k];
        assert channels[k] != channels[0];
      }
    }
  }

  /** A cycle sends, channel after channel, the translations of the non-empty messages fetched. */
  lemma {:induction false} CycleSends(lastIds: map<Channel, int>, channels: seq<Channel>, replies: seq<seq<Fetched>>)
    requires |replies| == |channels|
    ensures Sent(Cycle(lastIds, channels, replies).calls) == Outbox(replies)
    decreases |channels|
  {
    if |channels| > 0 {
      var v := Visit(lastIds, channels[0], replies[0]);
      var rest := Cycle(v.lastIds, channels[1..], replies[1..]);
      VisitFetchesAndSends(lastIds, channels[0], replies[0]);
      CycleSends(v.lastIds, channels[1..], replies[1..]);
      SentAppend(v.calls, rest.calls);
    }
  }

  /** The cursor map after a cycle is the one rebuilt from the cycle's cursor assignments. */
  lemma {:induction false} CycleReplay(lastIds: map<Channel, int>, channels: seq<Channel>, replies: seq<seq<Fetched>>)
    requires |replies| == |channels|
    ensures Replay(lastIds, Cycle(lastIds, channels, replies).calls) == Cycle(lastIds, channels, replies).lastIds
    decreases |channels|
  {
    if |channels| > 0 {
      var v := Visit(lastIds, channels[0], replies[0]);
      var rest := Cycle(v.lastIds, channels[1..], replies[1..]);
      VisitReplay(lastIds, channels[0], replies[0]);
      CycleReplay(v.lastIds, channels[1..], replies[1..]);
      ReplayAppend(lastIds, v.calls, rest.calls);
    }
  }


  /** Every cycle visits `channel_list` in the same fixed order. */
  lemma {:induction false} RunVisitsInOrder(lastIds: map<Channel, int>, channels: seq<Channel>, rounds: seq<seq<seq<Fetched>>>)
    requires forall n :: 0 <= n < |rounds| ==> |rounds[n]| == |channels|
    ensures FetchedChannels(Run(lastIds, channels, rounds).calls) == Repeat(channels, |rounds|)
    decreases |rounds|
  {
    if |rounds| > 0 {
      var c := Cycle(lastIds, channels, rounds[0]);
      var rest := Run(c.lastIds, channels, rounds[1..]);
      CycleVisitsInOrder(lastIds, channels, rounds[0]);
      RunVisitsInOrder(c.lastIds, channels, rounds[1..]);
      FetchedChannelsAppend(c.calls, rest.calls);
    }
  }

  /** Running one more cycle extends the run: the new cycle starts from the
      cursors the earlier cycles left. */
  lemma {:induction false} RunSnoc(lastIds: map<Channel, int>, channels: seq<Channel>, rounds: seq<seq<seq<Fetched>>>, round: seq<seq<Fetched>>)
    requires forall n :: 0 <= n < |rounds| ==> |rounds[n]| == |channels|
    requires |round| == |channels|
    ensures Run(lastIds, channels, rounds + [round]).lastIds ==
              Cycle(Run(lastIds, channels, rounds).lastIds, channels, round).lastIds
    ensures Run(lastIds, channels, rounds + [round]).calls ==
              Run(lastIds, channels, rounds).calls + Cycle(Run(lastIds, channels, rounds).lastIds, channels, round).calls
    decreases |rounds|
  {
    if |rounds| > 0 {
      var c := Cycle(lastIds, channels, rounds[0]);
      var longer := rounds + [round];
      assert longer[0] == rounds[0] && longer[1..] == rounds[1..] + [round];
      RunSnoc(c.lastIds, channels, rounds[1..], round);
      var before := Run(c.lastIds, channels, rounds[1..]);
      var last := Cycle(before.lastIds, channels, round);
      assert Run(lastIds, channels, longer).calls == c.calls + (before.calls + last.calls);
      assert c.calls + (before.calls + last.calls) == (c.calls + before.calls) + last.calls;
    } else {
      assert rounds + [round] == [round];
    }
  }

  /** The fetches of a cycle over a repeat-free `channel_list`, as one sequence. */
  function CursorFetches(lastIds: map<Channel, int>, channels: seq<Channel>): (fetches: seq<Call>)
    ensures |fetches| == |channels|
  {
    seq(|channels|, k requires 0 <= k < |channels| => FetchMessages(channels[k], CursorOf(lastIds, channels[k])))
  }

  lemma CycleFetchesAreCursorFetches(lastIds: map<Channel, int>, channels: seq<Channel>, replies: seq<seq<Fetched>>)
    requires |replies| == |channels|
    requires NoDuplicates(channels)
    ensures Fetches(Cycle(lastIds, channels, replies).calls) == CursorFetches(lastIds, channels)
  {
    CycleFetchesStoredCursor(lastIds, channels, replies);
  }

  /** When `channel_list` has no repeats, cycle n fetches every channel from
      the cursor the first n cycles left it, in list order. */
  lemma RunFetchesFromLastCursor(lastIds: map<Channel, int>, channels: seq<Channel>, rounds: seq<seq<seq<Fetched>>>, n: nat)
    requires forall i :: 0 <= i < |rounds| ==> |rounds[i]| == |channels|
    requires NoDuplicates(channels)
    requires n < |rounds|
    ensures Fetches(Run(lastIds, channels, rounds[..n + 1]).calls) ==
              Fetches(Run(lastIds, channels, rounds[..n]).calls) +
              CursorFetches(Run(lastIds, channels, rounds[..n]).lastIds, channels)
  {
    var before := Run(lastIds, channels, rounds[..n]);
    var c := Cycle(before.lastIds, channels, rounds[n]);
    assert rounds[..n + 1] == rounds[..n] + [rounds[n]];
    RunSnoc(lastIds, channels, rounds[..n], rounds[n]);
    FetchesAppend(before.calls, c.calls);
    CycleFetchesAreCursorFetches(before.lastIds, channels, rounds[n]);
  }

  /** The cursor a listed channel ends with, computed channel by channel: the
      first id of its last non-empty fetch, or its starting cursor. */
  function LatestCursor(cursor: int, rounds: seq<seq<seq<Fetched>>>, k: nat): int
    requires forall n :: 0 <= n < |rounds| ==> k < |rounds[n]|
    decreases |rounds|
  {
    if |rounds| == 0 then cursor
    else LatestCursor(if |rounds[0][k]| > 0 then rounds[0][k][0].msg.id else cursor, rounds[1..], k)
  }

  /** When `channel_list` has no repeats, after any number of cycles each
      listed channel's cursor is the first id of the last non-empty batch
      fetched for it, or its starting cursor if every fetch came back empty. */
  lemma {:induction false} RunCursors(lastIds: map<Channel, int>, channels: seq<Channel>, rounds: seq<seq<seq<Fetched>>>)
    requires forall n :: 0 <= n < |rounds| ==> |rounds[n]| == |channels|
    requires NoDuplicates(channels)
    ensures forall k :: 0 <= k < |channels| ==>
              CursorOf(Run(lastIds, channels, rounds).lastIds, channels[k]) == LatestCursor(CursorOf(lastIds, channels[k]), rounds, k)
    decreases |rounds|
  {
    if |rounds| > 0 {
      var c := Cycle(lastIds, channels, rounds[0]);
      CycleCursors(lastIds, channels, rounds[0]);
      RunCursors(c.lastIds, channels, rounds[1..]);
    }
  }

  /** A freshly started workflow: the first cycle fetches every channel of a
      repeat-free `channel_list` from 0, and the cursor map only ever holds
      listed channels. */
  lemma FirstCycleFetchesFromZero(channels: seq<Channel>, rounds: seq<seq<seq<Fetched>>>)
    requires forall n :: 0 <= n < |rounds| ==> |rounds[n]| == |channels|
    requires NoDuplicates(channels)
    requires |rounds| > 0
    ensures |Fetches(Cycle(Initial, channels, rounds[0]).calls)| == |channels|
    ensures forall k :: 0 <= k < |channels| ==> Fetches(Cycle(Initial, channels, rounds[0]).calls)[k] == FetchMessages(channels[k], 0)
    ensures forall c :: c in Run(Initial, channels, rounds).lastIds ==> c in channels
  {
    CycleFetchesStoredCursor(Initial, channels, rounds[0]);
  }

  /** The durable state after any number of cycles is rebuilt from the trace alone. */
  lemma {:induction false} RunReplay(lastIds: map<Channel, int>, channels: seq<Channel>, rounds: seq<seq<seq<Fetched>>>)
    requires forall n :: 0 <= n < |rounds| ==> |rounds[n]| == |channels|
    ensures Replay(lastIds, Run(lastIds, channels, rounds).calls) == Run(lastIds, channels, rounds).lastIds
    decreases |rounds|
  {
    if |rounds| > 0 {
      var c := Cycle(lastIds, channels, rounds[0]);
      var rest := Run(c.lastIds, channels, rounds[1..]);
      CycleReplay(lastIds, channels, rounds[0]);
      RunReplay(c.lastIds, channels, rounds[1..]);
      ReplayAppend(lastIds, c.calls, rest.calls);
    }
  }
}
