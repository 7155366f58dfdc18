/**
 Properties of the Slack reaction monitor model: which timestamps get
 checked, marked and re-posted, in what order, and how often.
 */
module SlackApprovalProperties {

  import opened SlackApproval
  import opened Sequences


  lemma {:induction false} CheckedAppend(a: seq<Call>, b: seq<Call>)
    ensures Checked(a + b) == Checked(a) + Checked(b)
    decreases |a|
  {
    if |a| > 0 {
      assert (a + b)[1..] == a[1..] + b;
      CheckedAppend(a[1..], b);
    } else {
      assert a + b == b;
    }
  }

  lemma {:induction false} MarkedAppend(a: seq<Call>, b: seq<Call>)
    ensures Marked(a + b) == Marked(a) + Marked(b)
    decreases |a|
  {
    if |a| > 0 {
      assert (a + b)[1..] == a[1..] + b;
      MarkedAppend(a[1..], b);
    } else {
      assert a + b == b;
    }
  }

  lemma {:induction false} RepostedAppend(a: seq<Call>, b: seq<Call>)
    ensures Reposted(a + b) == Reposted(a) + Reposted(b)
    decreases |a|
  {
    if |a| > 0 {
      assert (a + b)[1..] == a[1..] + b;
      RepostedAppend(a[1..], b);
    } else {
      assert a + b == b;
    }
  }


  /** A processed timestamp causes nothing; a new one is checked and marked
      once, and re-posted once exactly when its check result is approved. */
  lemma HandleProjections(processed: set<Ts>, channelId: string, ts: Ts, check: Ts -> CheckResult)
    ensures ts in processed ==> Checked(Handle(processed, channelId, ts, check).calls) == []
    ensures ts !in processed ==> Checked(Handle(processed, channelId, ts, check).calls) == [ts]
    ensures Marked(Handle(processed, channelId, ts, check).calls) == Checked(Handle(processed, channelId, ts, check).calls)
    ensures Reposted(Handle(processed, channelId, ts, check).calls) ==
              if ts !in processed && Approved(check(ts)) then [ts] else []
  {
    var h := Handle(processed, channelId, ts, check);
    if ts !in processed {
      var head := [CheckReactions(ts, channelId), MarkProcessed(ts)];
      assert h.calls == head + h.calls[2..];
      CheckedAppend(head, h.calls[2..]);
      MarkedAppend(head, h.calls[2..]);
      RepostedAppend(head, h.calls[2..]);
    }
  }

  /** Concatenating two well-ordered traces keeps them well ordered when the
      first does not end with a check and the second does not start with a
      mark or a re-post. */
  lemma CheckMarkResendAppend(a: seq<Call>, b: seq<Call>, channelId: string, check: Ts -> CheckResult)
    requires CheckMarkResend(a, channelId, check) && CheckMarkResend(b, channelId, check)
    requires |a| > 0 ==> !a[|a| - 1].CheckReactions?
    requires |b| > 0 ==> b[0].CheckReactions? || b[0].GetMessages?
    ensures CheckMarkResend(a + b, channelId, check)
  {
    var ab := a + b;
    forall j | 0 <= j < |ab|
      ensures WellPlaced(ab, j, channelId, check)
    {
      if j < |a| {
        assert WellPlaced(a, j, channelId, check);
        assert ab[j] == a[j];
        if j + 1 < |a| {
          assert ab[j + 1] == a[j + 1];
        }
        if 0 < j {
          assert ab[j - 1] == a[j - 1];
        }
      } else {
        var k := j - |a|;
        assert WellPlaced(b, k, channelId, check);
        assert ab[j] == b[k];
        if k + 1 < |b| {
          assert ab[j + 1] == b[k + 1];
        }
        if k > 0 {
          assert ab[j - 1] == b[k - 1];
        }
      }
    }
  }

  lemma HandleOrdered(processed: set<Ts>, channelId: string, ts: Ts, check: Ts -> CheckResult)
    ensures CheckMarkResend(Handle(processed, channelId, ts, check).calls, channelId, check)
    ensures |Handle(processed, channelId, ts, check).calls| > 0 ==>
              !Handle(processed, channelId, ts, check).calls[|Handle(processed, channelId, ts, check).calls| - 1].CheckReactions?
  {
  }


  /** Within one poll result, exactly the timestamps not processed before are
      checked, each once even when the poll repeats it; each is marked; and
      re-posts go to exactly the checked timestamps whose result is approved,
      each once. */
  lemma {:induction false} HandleAllChecksNewOnce(processed: set<Ts>, channelId: string, tss: seq<Ts>, check: Ts -> CheckResult)
    ensures NoDuplicates(Checked(HandleAll(processed, channelId, tss, check).calls))
    ensures forall t :: t in Checked(HandleAll(processed, channelId, tss, check).calls) <==> t in tss && t !in processed
    ensures Marked(HandleAll(processed, channelId, tss, check).calls) == Checked(HandleAll(processed, channelId, tss, check).calls)
    ensures NoDuplicates(Reposted(HandleAll(processed, channelId, tss, check).calls))
    ensures forall t :: t in Reposted(HandleAll(processed, channelId, tss, check).calls) <==>
              t in Checked(HandleAll(processed, channelId, tss, check).calls) && Approved(check(t))
    decreases |tss|
  {
    if |tss| > 0 {
      var h := Handle(processed, channelId, tss[0], check);
      var rest := HandleAll(h.processed, channelId, tss[1..], check);
      HandleProjections(processed, channelId, tss[0], check);
      HandleAllChecksNewOnce(h.processed, channelId, tss[1..], check);
      CheckedAppend(h.calls, rest.calls);
      MarkedAppend(h.calls, rest.calls);
      RepostedAppend(h.calls, rest.calls);
      NoDuplicatesAppend(Checked(h.calls), Checked(rest.calls));
      NoDuplicatesAppend(Reposted(h.calls), Reposted(rest.calls));
      forall t | t in tss && t !in processed
        ensures t in Checked(h.calls) || t in Checked(rest.calls)
      {
        if t != tss[0] {
          assert t in tss[1..];
        }
      }
    }
  }

  /** Every check is immediately followed by its mark, and every re-post immediately
      follows the mark of an approved timestamp and carries that message's text. */
  lemma {:induction false} HandleAllOrdered(processed: set<Ts>, channelId: string, tss: seq<Ts>, check: Ts -> CheckResult)
    ensures CheckMarkResend(HandleAll(processed, channelId, tss, check).calls, channelId, check)
    decreases |tss|
  {
    if |tss| > 0 {
      var h := Handle(processed, channelId, tss[0], check);
      var rest := HandleAll(h.processed, channelId, tss[1..], check);
      HandleOrdered(processed, channelId, tss[0], check);
      HandleAllOrdered(h.processed, channelId, tss[1..], check);
      CheckMarkResendAppend(h.calls, rest.calls, channelId, check);
    }
  }

  /** One cycle: it polls first, then checks exactly the polled timestamps that
      were not processed, each once, marks each right after its check and
      re-posts exactly the approved ones, right after their mark. */
  lemma CycleChecksNewOnce(processed: set<Ts>, channelId: string, round: PollRound)
    ensures NoDuplicates(Checked(Cycle(processed, channelId, round).calls))
    ensures forall t :: t in Checked(Cycle(processed, channelId, round).calls) <==> t in round.timestamps && t !in processed
    ensures Marked(Cycle(processed, channelId, round).calls) == Checked(Cycle(processed, channelId, round).calls)
    ensures NoDuplicates(Reposted(Cycle(processed, channelId, round).calls))
    ensures forall t :: t in Reposted(Cycle(processed, channelId, round).calls) <==>
              t in Checked(Cycle(processed, channelId, round).calls) && Approved(round.check(t))
    ensures CheckMarkResend(Cycle(processed, channelId, round).calls, channelId, round.check)
  {
    var rest := HandleAll(processed, channelId, round.timestamps, round.check);
    var poll := [GetMessages(channelId)];
    HandleAllChecksNewOnce(processed, channelId, round.timestamps, round.check);
    HandleAllOrdered(processed, channelId, round.timestamps, round.check);
    CheckedAppend(poll, rest.calls);
    MarkedAppend(poll, rest.calls);
    RepostedAppend(poll, rest.calls);
    CheckMarkResendAppend(poll, rest.calls, channelId, round.check);
  }


  /** Across any number of cycles, each timestamp is checked at most once and
      re-posted at most once; exactly the polled timestamps that were not
      processed at the start get checked, and every check is marked. */
  lemma {:induction false} RunChecksEachOnce(processed: set<Ts>, channelId: string, rounds: seq<PollRound>)
    ensures NoDuplicates(Checked(Run(processed, channelId, rounds).calls))
    ensures forall t :: t in Checked(Run(processed, channelId, rounds).calls) <==> t in Polled(rounds) && t !in processed
    ensures Marked(Run(processed, channelId, rounds).calls) == Checked(Run(processed, channelId, rounds).calls)
    ensures NoDuplicates(Reposted(Run(processed, channelId, rounds).calls))
    ensures forall t :: t in Reposted(Run(processed, channelId, rounds).calls) ==> t in Checked(Run(processed, channelId, rounds).calls)
    decreases |rounds|
  {
    if |rounds| > 0 {
      var c := Cycle(processed, channelId, rounds[0]);
      var rest := Run(c.processed, channelId, rounds[1..]);
      CycleChecksNewOnce(processed, channelId, rounds[0]);
      RunChecksEachOnce(c.processed, channelId, rounds[1..]);
      CheckedAppend(c.calls, rest.calls);
      MarkedAppend(c.calls, rest.calls);
      RepostedAppend(c.calls, rest.calls);
      NoDuplicatesAppend(Checked(c.calls), Checked(rest.calls));
      NoDuplicatesAppend(Reposted(c.calls), Reposted(rest.calls));
    }
  }

  /** A freshly started workflow (`processed = set()`): after any number of
      cycles the processed set is exactly the timestamps ever polled, and each
      of them has been checked exactly once. */
  lemma InitialRun(channelId: string, rounds: seq<PollRound>)
    ensures Run(Initial, channelId, rounds).processed == Polled(rounds)
    ensures NoDuplicates(Checked(Run(Initial, channelId, rounds).calls))
    ensures forall t :: t in Checked(Run(Initial, channelId, rounds).calls) <==> t in Polled(rounds)
  {
    RunChecksEachOnce(Initial, channelId, rounds);
  }

  /** The processed set never loses a timestamp: a later state contains every earlier one. */
  lemma {:induction false} ProcessedOnlyGrows(processed: set<Ts>, channelId: string, rounds: seq<PollRound>, n: nat)
    requires n <= |rounds|
    ensures processed <= Run(processed, channelId, rounds[..n]).processed
    ensures Run(processed, channelId, rounds[..n]).processed <= Run(processed, channelId, rounds).processed
  {
    PolledPrefix(rounds, n);
  }

  lemma {:induction false} PolledPrefix(rounds: seq<PollRound>, n: nat)
    requires n <= |rounds|
    ensures Polled(rounds[..n]) <= Polled(rounds)
    decreases n
  {
    if n > 0 {
      assert rounds[..n][1..] == rounds[1..][..n - 1];
      PolledPrefix(rounds[1..], n - 1);
    }
  }
}
