# plijadur-monitor, modelled in Dafny

The monitor watches the InPlayGuru.com Telegram group, decides for every new
message whether it is a betting alert, and forwards each alert to the
Plijadur bot through the Telegram Bot API `sendMessage` call. This project
models the three pieces of logic in `main.py`:

- **Classifier** (`classifier.dfy`, `is_inplayguru_alert`): a message is an
  alert when it has at least 80 characters, at least 3 of the 16
  `ALERT_PATTERNS` occur in it, and none of the 5 exclusion patterns does.
  The regular-expression engine is a parameter (`Matcher`: does a pattern
  body match the text from index `i`?). The model itself owns the `^` anchor,
  because the two lists use different flags. Content patterns are searched
  with `IGNORECASE | MULTILINE`, so an anchored content pattern may match at
  the start of any line. Exclusions are searched with `IGNORECASE` only, so an
  anchored exclusion matches only at index 0. The pattern constants are the
  regex source strings exactly as the Python raw strings hold them.
- **Forwarder** (`forwarder.dfy`, `send_to_plijadur_bot`): the request built
  from a message, and the verdict drawn from the response. The response is
  abstract: `Timeout | Fault | Reply(status, body)`, where the body either
  fails to decode or is a JSON value. Success means status 200 and a JSON
  object whose `ok` member is truthy in Python's sense. Every `Exception`
  raised inside the `try` becomes `false`. Cancellation and interrupts are
  not `Exception`s and would still propagate (see "Left out").
- **Monitor** (`monitor.dfy`, `InPlayGuruMonitor._handle_new_message`): the
  counters `messages_processed` and `alerts_count`, stepped once per event.
  The step also yields the requests the handler posts: the forwarded alert,
  and, when forwarding fails, an error notice carrying the lost alert's index.
  The network's reply to each forward is part of that event, so two forwards
  of the same text can fare differently. `Run` folds the handler over a
  sequence of events. This assumes each handler call finishes before the next
  event is handled (see "Left out").

`decimal.dfy` renders counters as decimal text, as a Python f-string does,
and parses them back. `wrappers.dfy` holds `Option` and `Result`.

Text is `string`, a sequence of Unicode scalar values. Python's `len` also
counts code points, so the 80-character threshold means the same thing.

The comment on the pattern list (main.py:30) says at least 2 patterns must
match. The code requires 3 (main.py:71), and the model follows the code.

The error notice is posted through `send_to_plijadur_bot` too, so it also
starts with the alert banner `🎯 ALERTE INPLAYGURU AUTOMATIQUE:`. A consumer
that keys on the banner cannot tell the two apart by their prefix.
`HandleMessage`'s contract records this (`Unwrap` of the notice succeeds).

## Model

| member | source | states |
|---|---|---|
| Classifier.Classify | main.py:53-91 | The classifier returns true exactly when the text has at least 80 characters, at least 3 content patterns match and no exclusion matches. Texts under 80 characters are rejected before any pattern is tried. Otherwise the match list it reports is the in-order list of matching content patterns. |
| Classifier.CollectMatches | main.py:63-66 | The loop that tries each pattern of a list once, in list order, returns exactly the list's matching patterns. With the content patterns and content flags, that is the `pattern_matches` list. |
| Classifier.AnyExclusion | main.py:74-83 | The short-circuiting `any` over the 5 exclusions, searched without MULTILINE, is true exactly when some exclusion matches. |
| Classifier.Matching | main.py:63-68 | The `pattern_matches` list holds exactly the patterns of the list that match, each one from the list, and is no longer than the list. |
| Classifier.AlertPatternsDistinct | main.py:29-51 | There are 16 content patterns, pairwise different. |
| Classifier.MatchingKeepsDistinct | main.py:63-68 | When the pattern list has no repeats, neither has the match list, so each pattern is counted at most once. |
| Classifier.MatchingCountsDistinctPatterns | main.py:63-68 | For a list of distinct patterns, the length of the match list equals the number of distinct matching patterns. |
| Classifier.MatchCountIsNumberOfMatchingPatterns | main.py:63-68 | `matches_count` is the number of distinct content patterns found in the text, so 0 <= count <= 16. |
| Classifier.AlertIff | main.py:58-91 | Alert if and only if the length is at least 80, at least 3 distinct content patterns match, and no exclusion pattern matches. |
| Classifier.ExclusionDominates | main.py:74-91 | When all 16 content patterns match, the count is 16, yet one matching exclusion still makes the result false. |
| Classifier.AllPatternsNoExclusionIsAlert | main.py:68-91 | A text of 80 characters or more on which all content patterns match and no exclusion does is an alert. |
| Classifier.MatchingMonotone | main.py:63-68 | If every pattern matching the first text also matches the second, the second text's match list is at least as long. |
| Classifier.AlertMonotone | main.py:68-71 | If t2 has 80 characters or more, has no exclusion and matches every content pattern that the alert t1 matches, then t2 is an alert too. |
| Classifier.AnchoredExclusionAtTextStart | main.py:82-83 | Without MULTILINE, an anchored exclusion matches exactly when its body matches at index 0. |
| Classifier.AnchoredContentAtLineStarts | main.py:64-66 | With MULTILINE, an anchored content pattern matches exactly when its body matches at the start of some line. |
| Classifier.UnanchoredIgnoresMultiline | main.py:64-83 | For an unanchored pattern, the MULTILINE flag does not change the search result. This relies on the matcher not seeing MULTILINE, which is faithful because no pattern has `$` or a `^` after its first character. |
| Classifier.LaterLineDoesNotTriggerAnchoredExclusion | main.py:75-83 | An anchored pattern whose body occurs only at the start of a later line is found by the MULTILINE search but not by the exclusion search. |
| Decimal.NatToString | main.py:211 | The f-string rendering of a counter is a non-empty digit string without a leading zero, and it parses back to the counter. |
| Decimal.NatToStringInjective | main.py:211 | Different counters render to different texts. |
| Forwarder.Unwrap | main.py:100 | Removing the banner succeeds exactly on texts that start with it, and the text equals the banner followed by the result. |
| Forwarder.Outcome | main.py:108-126 | The verdict is true if and only if the status is 200 and the body is a JSON object whose `ok` is truthy. Any exception of the `try` block yields false, and so does a status other than 200. |
| Forwarder.Forward | main.py:93-126 | One forwarding attempt succeeds if and only if the response to the built request is acknowledged. |
| Forwarder.RequestCarriesMessage | main.py:97-109 | The posted text is the banner followed by the unchanged message. The request goes to the configured chat in HTML mode, at the configured bot's `sendMessage` URL, with timeout 10. |
| Forwarder.BuildRequestInjective | main.py:100-106 | Different messages give different requests. |
| Forwarder.ExceptionsAreFailures | main.py:121-126 | A timeout or any other client fault gives false. |
| Forwarder.OkTrueIsSuccess | main.py:110-114 | A 200 reply with body `{"ok": true, ...}` gives true. |
| Forwarder.BadAcknowledgementIsFailure | main.py:110-126 | A 200 reply gives false when its body does not decode, is not a JSON object, lacks `ok`, or has a falsy `ok`. |
| Monitor.LostAlertIndexRoundTrip | main.py:238 | The index can be read back from the error notice built for a lost alert, and it equals the index put in. |
| Monitor.HandleMessage | main.py:185-216 | One event adds exactly 1 to `processed`. It adds 1 to `alerts` exactly when the sender lookup succeeds and the text is an alert, so alerts <= processed is preserved. A request is posted exactly for a detected alert. It is the forwarder's request for the message text: banner plus text, to the configured bot and chat, in HTML mode, with timeout 10. A second request is posted exactly when the reply to that forward is not acknowledged. It is the forwarder's request for the error notice `Échec transfert alerte #<alerts_count>`, rendered as the f-string does, and the index can be read back from it. |
| Monitor.RunCounters | main.py:185-216 | Over any event sequence, `processed` grows by the number of events and `alerts` by the number of detected alerts, and alerts <= processed is kept. The requests posted number one per alert plus one per lost alert. |
| Monitor.RunFromInitialIsValid | main.py:137-138 | From the initial zero counters, any run ends with processed = number of events, alerts = number of alerts, and alerts <= processed. |
| Monitor.ReliableTransportNoLoss | main.py:205-211 | If every forward's reply is acknowledged, no alert is lost and exactly one request is posted per alert. |
| Monitor.CountersIgnoreTransport | main.py:205-211 | The counters after an event do not depend on the network's reply, so a failed forward leaves them as they were. |
| Monitor.SameAlertLostThenDelivered | main.py:205-211 | The same alert text can time out once and be delivered the next time. That run posts three requests: the forward, its error notice, and the second forward. |
| Monitor.MissingTextIsNoAlert | main.py:189-201 | An event without text is counted as processed, is not an alert, and posts nothing. |

## Left out

- The regular-expression engine: pattern bodies are matched by the `Matcher` parameter. The model fixes only where `^` may match and which flags each list uses. `IGNORECASE` is passed through to the matcher unmodelled.
- The Telethon client: login, session, `get_entity`, handler registration and `run_until_disconnected` (main.py:135-183). These are external library I/O. Only the failure of `message.get_sender()` is kept, as a flag on the event, because it aborts the handler after the processed counter has risen.
- The sender display name and handle (main.py:193-197). They feed only a log line.
- The aiohttp transport and JSON decoding. The response is an abstract `Response` value, produced by a `Transport` function of the request. The monitor calls `Forwarder.Forward` with a transport that returns the reply carried by the event.
- Forwarder.Outcome: only `Exception`s are caught (main.py:124). `asyncio.CancelledError`, `KeyboardInterrupt` and `SystemExit` are `BaseException`s that would propagate out of `send_to_plijadur_bot`. `Response` has no case for them, because cancellation belongs to the async lifecycle, which is not modelled.
- Monitor.HandleMessage: assumes each handler call finishes before the next event is handled. The source has no lock, and the Telegram client may run handlers for different updates as concurrent tasks that interleave at main.py:193 and 205. The counters stay consistent under such interleaving, because no `await` falls between the read and the write of either `+=`. The lost-alert index does not. main.py:211 reads `alerts_count` after the forward, which may wait up to 10 seconds, so a second alert detected meanwhile makes the notice name the wrong alert. The contract's index (the count just after this alert) holds only for serialized handling.
- Logging in every function. It has no effect on results.
- The startup notification (main.py:218-234). It embeds the wall-clock time, and it is sent from `start`, which is lifecycle code.
- `start`, `cleanup` and `main` (main.py:140-172, 245-280). This is the async lifecycle and exception routing to shutdown, which is I/O plumbing.
- Configuration read from the environment and its hard-coded fallback credentials (main.py:18-26). The bot token and chat id are a `Config` parameter.
