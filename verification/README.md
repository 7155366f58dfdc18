# Polling workflows of infra-on-temporal, modelled in Dafny

The repository runs two Temporal workflows that poll chat channels forever:

- `TelegramMonitorWorkflow` keeps `last_ids`, a cursor per Telegram channel. Each cycle it
  visits `channel_list` in order and fetches the messages newer than the channel's cursor
  (0 for a channel it has never seen). When the fetch returns messages, it sets the cursor
  to the id of the FIRST returned message. It then walks the batch in order, skips messages
  with empty text, and for every other message calls the translate activity followed by
  the send-to-Slack activity with the translation.
- `PollSlackForReactionWorkflow` keeps `processed`, a set of Slack message timestamps.
  Each cycle it polls the channel for timestamps and skips the ones already processed.
  For a new one it calls the reaction check and adds the timestamp to `processed`
  whatever the check returned. It re-posts the message text only when the result has a
  non-empty `reactions` list containing an entry named `white_check_mark`.

Temporal demands deterministic workflow code, so each cycle is modelled as a pure
function `(state, activity results) -> (state', trace)`. The activity results are inputs:

- for Telegram, the batch each fetch returns, where each fetched message carries the text
  the translate activity returns when it is called on it;
- for Slack, the polled timestamps and an oracle `check: Ts -> CheckResult`, one per cycle.

`CheckResult` has the two shapes the reaction check returns
(`activities/slack_approval_activities/get_reactions.py:22-37`): `NotFound(ts)`, or
`Found(ts, text, user, reactions)`.

The trace lists the activity calls in order. It also lists the two bookkeeping
assignments: `Advance` for `last_ids[channel] = latest`, and `MarkProcessed` for
`processed.add(ts)`. This makes the order between bookkeeping and calls provable. It also
lets the state be rebuilt from the trace, which the `Replay` lemmas prove for Telegram and
`RunChecksEachOnce` (marks = checks) together with `Run`'s contract states for Slack.

Each cycle is written twice: as a recursive function, and as a method with the
workflow's own loops (`MonitorCycle`, `PollCycle`). The methods are proved to compute
the functions.

Files:

- `sequences.dfy` holds the duplicate-free predicate shared by both models.
- `telegram_monitor.dfy` and `telegram_monitor_properties.dfy` model the Telegram workflow.
- `slack_approval.dfy` and `slack_approval_properties.dfy` model the Slack workflow.

Two points about the code that the model keeps as written:

- The cursor is assigned, not maximised: `last_ids[channel]` becomes the first returned
  id, whatever it was before. `NewestFirstCursorIsMax` states when the two coincide: the
  fetch returns ids newest first, all above the cursor, as Telegram's message iterator does.
- `processed` is an unbounded `set()`. The workflow has no eviction, rotation or retry
  logic of its own.

## Model

| member | source | states |
|---|---|---|
| TelegramMonitor.Visit | workflows/telegram_to_slack_workflow.py:18-48 | The fetch uses the stored cursor, or 0 for an unseen channel. An empty batch leaves the map unchanged and makes no other call. A non-empty batch sets that channel's cursor to the first message's id. Every other channel's entry is unchanged. Any translate or send call comes after the cursor assignment. |
| TelegramMonitor.Forwarded | workflows/telegram_to_slack_workflow.py:30-32 | The forwarded messages are the batch's messages with non-empty text: every kept message has text, and every batch message with text is kept. Each message with text appears exactly as often as in the batch, and each message without text not at all. |
| TelegramMonitor.Deliver | workflows/telegram_to_slack_workflow.py:30-48 | Handling a batch makes only translate and send calls, and none for an empty batch. |
| TelegramMonitor.Cycle | workflows/telegram_to_slack_workflow.py:15-52 | A cycle never drops a channel from the cursor map. It leaves the entries of channels outside `channel_list` unchanged. What it does to listed channels is stated by `CycleCursors` and `CycleFetchesCurrentCursor`. |
| TelegramMonitor.Run | workflows/telegram_to_slack_workflow.py:11-54 | Over any number of cycles, the channels in the cursor map only grow, and channels outside `channel_list` keep their cursors. What it does to listed channels is stated by `RunCursors` and `RunFetchesFromLastCursor`. |
| TelegramMonitor.DeliverBatch | workflows/telegram_to_slack_workflow.py:30-48 | The workflow's inner `for msg in new_msgs` loop produces exactly the calls of the functional model. |
| TelegramMonitor.VisitChannel | workflows/telegram_to_slack_workflow.py:16-48 | The in-place body of the channel loop computes exactly `Visit`. |
| TelegramMonitor.CycleSnoc | workflows/telegram_to_slack_workflow.py:16-28 | Visiting one more channel extends a cycle. The new visit starts from the cursors the earlier visits left, and its calls follow theirs. |
| TelegramMonitor.MonitorCycle | workflows/telegram_to_slack_workflow.py:15-52 | The workflow's loop over `channel_list`, updating `last_ids` in place, computes exactly `Cycle`. |
| TelegramMonitorProperties.DeliverPairs | workflows/telegram_to_slack_workflow.py:30-48 | The k-th forwarded message yields a translate call on its text at position 2k and a send of that translation at 2k+1. There are no other calls, and the order is the fetched order. |
| TelegramMonitorProperties.EmptyTextIsSkipped | workflows/telegram_to_slack_workflow.py:31-32 | Inserting a message with empty text anywhere in a batch changes no call. |
| TelegramMonitorProperties.SentOfDeliver | workflows/telegram_to_slack_workflow.py:34-48 | The send calls of a batch carry exactly the translations of its non-empty messages, in order. |
| TelegramMonitorProperties.ForwardedAppend | workflows/telegram_to_slack_workflow.py:30-32 | Filtering a concatenated batch forwards the first part's messages followed by the second part's: the fetched order is kept. |
| TelegramMonitorProperties.ForwardedSingleton | workflows/telegram_to_slack_workflow.py:31-32 | A single message is forwarded exactly when its text is non-empty. |
| TelegramMonitorProperties.VisitFetchesAndSends | workflows/telegram_to_slack_workflow.py:18-48 | A visit fetches exactly once, for its channel and from the stored cursor. It sends as many messages as were fetched with non-empty text. |
| TelegramMonitorProperties.VisitReplay | workflows/telegram_to_slack_workflow.py:26-28 | The cursor map after a visit equals the one rebuilt from the visit's trace. |
| TelegramMonitorProperties.CursorIgnoresOldValue | workflows/telegram_to_slack_workflow.py:27-28 | After a non-empty fetch, the new cursor is the same whatever the old one was: it is assigned, not maximised. |
| TelegramMonitorProperties.NewestFirstCursorIsMax | workflows/telegram_to_slack_workflow.py:27-28 | Suppose a batch is newest first with all ids above the cursor. Then the assigned cursor is at least every fetched id and at least the old cursor. |
| TelegramMonitorProperties.CycleVisitsInOrder | workflows/telegram_to_slack_workflow.py:16-24 | A cycle's fetches name exactly the channels of `channel_list`, in order. |
| TelegramMonitorProperties.CycleFetchesStoredCursor | workflows/telegram_to_slack_workflow.py:16-24 | When `channel_list` has no repeats, the k-th fetch of a cycle is for the k-th channel. It uses that channel's cursor from the start of the cycle, or 0. |
| TelegramMonitorProperties.CycleFetchesCurrentCursor | workflows/telegram_to_slack_workflow.py:16-28 | Even when `channel_list` repeats a channel, the k-th fetch is for the k-th channel. It uses the cursor left by the first k visits of the same cycle. |
| TelegramMonitorProperties.CycleCursors | workflows/telegram_to_slack_workflow.py:16-28 | When `channel_list` has no repeats, after a cycle each listed channel's cursor is the first id its fetch returned. If the fetch returned nothing, the cursor is the one it had before. The channel is in the map exactly when it was before or its fetch returned something. |
| TelegramMonitorProperties.CycleSends | workflows/telegram_to_slack_workflow.py:16-48 | A cycle sends, channel by channel, exactly the translations of the non-empty messages fetched. |
| TelegramMonitorProperties.CycleReplay | workflows/telegram_to_slack_workflow.py:26-28 | The cursor map after a cycle equals the one rebuilt from the cycle's cursor assignments. |
| TelegramMonitorProperties.RunVisitsInOrder | workflows/telegram_to_slack_workflow.py:15-16 | n cycles fetch from `channel_list` repeated n times: the same fixed order on every cycle. |
| TelegramMonitorProperties.RunReplay | workflows/telegram_to_slack_workflow.py:11-28 | After any number of cycles, the cursor map equals the one rebuilt from the whole trace. |
| TelegramMonitorProperties.RunSnoc | workflows/telegram_to_slack_workflow.py:15-16 | One more cycle extends a run: it starts from the cursors the earlier cycles left, and its calls follow theirs. |
| TelegramMonitorProperties.RunFetchesFromLastCursor | workflows/telegram_to_slack_workflow.py:15-24 | When `channel_list` has no repeats, cycle n fetches every channel in list order. Each fetch uses the cursor the first n cycles left that channel. |
| TelegramMonitorProperties.RunCursors | workflows/telegram_to_slack_workflow.py:15-28 | When `channel_list` has no repeats, after any number of cycles each listed channel's cursor is the first id of the last non-empty batch fetched for it. If every fetch came back empty, it is the starting cursor. |
| TelegramMonitorProperties.FirstCycleFetchesFromZero | workflows/telegram_to_slack_workflow.py:10-18 | A fresh workflow starts with an empty cursor map. Its first cycle fetches every channel of a repeat-free list from 0. Afterwards, the map only ever holds listed channels. |
| SlackApproval.Handle | workflows/slack_approval_workflow.py:23-44 | A processed timestamp causes no call and no change. A new one is checked, then marked processed whatever the result. A re-post of the checked text follows exactly when the result is approved. A not-found result is never re-posted. |
| SlackApproval.HandleAll | workflows/slack_approval_workflow.py:23-36 | After the loop, the processed set is the old set plus every polled timestamp. |
| SlackApproval.Cycle | workflows/slack_approval_workflow.py:16-36 | A cycle polls first. No timestamp leaves the processed set. Every polled timestamp is in it afterwards, and nothing else is added. |
| SlackApproval.Run | workflows/slack_approval_workflow.py:11-36 | After any number of cycles, the processed set is the initial set plus every timestamp ever polled. There is no eviction. |
| SlackApproval.HandleTimestamp | workflows/slack_approval_workflow.py:23-44 | The in-place loop body computes exactly `Handle`. |
| SlackApproval.PollCycle | workflows/slack_approval_workflow.py:16-46 | The workflow's loop, adding to `processed` in place, computes exactly `Cycle`. |
| SlackApprovalProperties.HandleProjections | workflows/slack_approval_workflow.py:26-44 | One timestamp is checked and marked at most once. It is re-posted exactly when it is new and its result is approved. |
| SlackApprovalProperties.HandleAllChecksNewOnce | workflows/slack_approval_workflow.py:23-44 | Within one poll result, the checked timestamps are exactly the polled ones not processed before. Each is checked once, even if the poll repeats it. Marks equal checks, and the re-posts are exactly the approved checked timestamps, each once. |
| SlackApprovalProperties.HandleAllOrdered | workflows/slack_approval_workflow.py:29-44 | Every check is immediately followed by the mark of its timestamp. An approved check's mark is immediately followed by its re-post. Every re-post carries the checked message's text. |
| SlackApprovalProperties.CycleChecksNewOnce | workflows/slack_approval_workflow.py:17-44 | Both the checked-once and the check/mark/re-post ordering properties hold for a whole cycle, after the poll. |
| SlackApprovalProperties.RunChecksEachOnce | workflows/slack_approval_workflow.py:11-36 | Across any number of cycles, each timestamp is checked at most once and re-posted at most once. Exactly the timestamps polled and not initially processed get checked, and every check is marked. |
| SlackApprovalProperties.ProcessedOnlyGrows | workflows/slack_approval_workflow.py:11-36 | The processed set after the first n cycles contains the initial set and is contained in the set after all cycles. |
| SlackApprovalProperties.InitialRun | workflows/slack_approval_workflow.py:10-36 | A fresh workflow starts with an empty processed set. After any number of cycles, the set is exactly the timestamps ever polled, and each has been checked exactly once. |

## Left out

- The activity bodies are left out because they are network I/O over libraries not
  modelled here: the Telegram client fetch, the Claude translation call, the Slack history
  and reactions queries, and the two webhook posts. Their results are model inputs.
- Worker registration, workflow start scripts and session saving are left out. They are
  connection plumbing.
- Activity timeouts, Temporal's retries, `workflow.sleep` between cycles and logging are
  left out. They are host runtime behaviour. The unbounded `while True` loop is modelled
  as one cycle, or as a finite sequence of cycles (`Run`).
- Activity failures are left out. The workflows do not catch activity errors, so a failed
  activity fails the workflow run in the host, which is outside the deterministic step.
- Two wiring mismatches are not reproduced, and the fetch and send are treated as
  abstract. First, the workflow imports `fetch_channel_messages`, which the telegram
  activity file does not define; that file only defines `fetch_last_message`. Second,
  `send_message_to_slack` indexes its argument as a pair, while the workflow passes it
  the translated string.
- The Slack reaction check's `ts` and `user` fields are carried in `CheckResult`, but the
  workflow only logs them, so no property mentions them.
- Slack: the reaction oracle of a cycle gives one result per timestamp. This loses
  nothing, since `RunChecksEachOnce` proves each timestamp is checked at most once.
