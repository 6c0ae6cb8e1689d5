# awaitable-emit, modelled in Dafny

`createAwaitableEmit` turns a fire-and-forget Kafka emission into a call that
waits until the message has been handled. The caller's `emitMessage` produces
the message. It then races three conditions: a success signal for the
message key, an error signal for it, and a timer. If an admin client was
configured, it finally polls the broker until every consumer group that reads
the topic has committed the topic's latest offset. A global NestJS interceptor
runs after every handler and publishes the signals on an in-process event
emitter, on channels named after the message key.

The model covers the decision logic of `src/awaitable-emit.ts` and leaves out
the libraries around it:

- `event_names.dfy` (module `EventNames`) has the two channel names of a key
  and the text key the interceptor correlates on. It proves that the names are
  injective and that a key's two channels differ. It also proves exactly when a
  success channel coincides with another key's error channel.
- `gateway.dfy` (module `Gateway`) models the pending wait as a state machine,
  `Awaiting` then `Resolved(BySuccess | ByTimeout)` or `Rejected(err)`. The
  machine is fed the signals and the timer in order of arrival.
  `emitMessageDefault`, `emitMessage` and `emitRetryableMessage` are functions
  of the produce outcome and of those arrivals. Each returns the wait's state
  and the steps taken (produce, race, offset check).
- `completion_hook.dfy` (module `CompletionHook`) models the interceptor's
  publish decision. It also gives what a wait for a key observes from a
  publication, which connects the hook to the gateway end to end.
- `offset_monitor.dfy` (module `OffsetMonitor`) models `waitGroupsOffset` as a
  method with the two nested loops of `waitGroupsOffset`. It runs over a finite sequence of
  polls and returns the first converging poll, together with the admin calls
  made in order.
- `wrappers.dfy` (module `Wrappers`) holds the `Option` datatype.

A consequence of the naming scheme, proved rather than assumed: the success
channel of key `"error " + x` is the error channel of key `x`. When the
handler of a message keyed `"error x"` returns, a pending `emitMessage` for
`"x"` is therefore rejected with `undefined` (`CrossTalkRejectsWithUndefined`).
Likewise, a failing handler for `x` resolves a wait for `"error x"`
(`HookReaches`). Distinct keys thus interfere when one is `"error "` followed
by the other.

## Model

| member | source | states |
|---|---|---|
| EventNames.NamesDiffer | src/awaitable-emit.ts:39-42 | for every key, its success channel name differs from its error channel name |
| EventNames.EventNameInjective | src/awaitable-emit.ts:39-40 | two keys have the same success channel name if and only if they are the same key |
| EventNames.ErrorEventNameInjective | src/awaitable-emit.ts:41-42 | two keys have the same error channel name if and only if they are the same key |
| EventNames.SuccessNameIsErrorNameIff | src/awaitable-emit.ts:39-42 | the success name of k1 equals the error name of k2 exactly when k1 is "error " followed by k2, so the two families overlap across keys |
| EventNames.MissingKeyIsUndefined | src/awaitable-emit.ts:98 | a message without a key correlates on the same text as the key "undefined" |
| Gateway.SettledIsFinal | src/awaitable-emit.ts:87 | once the race has settled (resolved or rejected), later arrivals change nothing: only the first raced value counts |
| Gateway.StandardFirstArrivalDecides | src/awaitable-emit.ts:51-59 | with all three conditions raced, the first arrival decides: success or timer resolves, an error signal rejects with exactly its error, and with no arrival the wait is pending |
| Gateway.RetryableSettlesOnFirstNonError | src/awaitable-emit.ts:69-72 | the retryable race settles on its first success signal or timer, whatever error signals came before |
| Gateway.RetryableNeverRejects | src/awaitable-emit.ts:65-75 | the retryable race never ends in a rejection, for any arrivals |
| Gateway.RetryableIgnoresErrors | src/awaitable-emit.ts:69-72 | the retryable race on some arrivals equals the full race on the same arrivals with every error signal removed |
| Gateway.EmitDefault | src/awaitable-emit.ts:77-88 | the produce step always comes first; a failed produce rejects with the producer's error and nothing is awaited; otherwise the race follows and decides the state: for the full race the first arrival, for the retryable race the full race on the arrivals without error signals |
| Gateway.EmitMessage | src/awaitable-emit.ts:47-63 | produce first; a failed produce rejects with its error; otherwise the first arrival decides; the offset check runs, last, if and only if an admin exists, the produce was acknowledged and the race resolved |
| Gateway.EmitRetryableMessage | src/awaitable-emit.ts:65-75 | produce first; rejects if and only if the produce failed; otherwise behaves as the full race without error signals; never runs the offset check |
| CompletionHook.Intercept | src/awaitable-emit.ts:91-107 | a handler that returns gives a bare success notification and no rethrow; a handler that throws gives a notification carrying that error, and exactly that error is re-thrown |
| CompletionHook.HookPublishesOnOwnChannel | src/awaitable-emit.ts:97-105 | for a message keyed k, the hook publishes only on k's success channel when the handler returns, and only on k's error channel when it throws |
| CompletionHook.HookMissingKey | src/awaitable-emit.ts:97-98 | the hook treats a message without a key exactly as one keyed "undefined" |
| CompletionHook.HookSettlesEmitMessage | src/awaitable-emit.ts:100-105 | after an acknowledged produce, the hook's publication for k resolves a pending emitMessage for k when the handler returns, and rejects it with exactly the handler's error when it throws, whatever arrives later |
| CompletionHook.HookSettlesRetryable | src/awaitable-emit.ts:100-105 | for a pending emitRetryableMessage for k that may already have seen error signals, the hook's publication for k resolves it when the handler returns, whatever arrives later; when the handler throws, the wait ends exactly as if only the later arrivals had come |
| CompletionHook.HookReaches | src/awaitable-emit.ts:101-103 | a wait for k observes the hook's publication for a message keyed m exactly when m is k, or the handler returned and m is "error " + k, or the handler threw and k is "error " + m |
| CompletionHook.CrossTalkRejectsWithUndefined | src/awaitable-emit.ts:101-103 | when the handler of a message keyed "error x" returns, a pending emitMessage for x is rejected with undefined |
| OffsetMonitor.EveryCheckIffConverges | src/awaitable-emit.ts:125-138 | the per-iteration `offsetChecks` array has no false entry if and only if every group with an applicable offset has committed the topic's offset (vacuously so when no group applies) |
| OffsetMonitor.SentinelContributesNothing | src/awaitable-emit.ts:131-135 | a group whose answer is missing or -1 neither blocks nor satisfies convergence: removing it does not change the verdict |
| OffsetMonitor.PollingNeverRelists | src/awaitable-emit.ts:122-124 | the polling iterations never fetch the topic offset or list the groups again: snapshot and group list are fixed before the loop |
| OffsetMonitor.WaitGroupsOffset | src/awaitable-emit.ts:115-141 | a missing or -1 topic offset returns at once after the single topic-offset fetch; otherwise the calls start with the topic-offset fetch and the group listing, neither of which recurs, and each poll fetches every listed group in order; the result is the first converging poll (all earlier ones did not converge, with a sleep after each) or, if none of the given polls converged, still polling |

## Left out

- The Kafka producer call (`getKafkaClient().emit`, `lastValueFrom`) is foreign I/O. Its result is the input `Produce`: acknowledged, or failed with an error.
- The admin client (`fetchTopicOffsets`, `listGroups`, `fetchOffsets`) is foreign I/O. Its answers are inputs, and the calls are recorded as `AdminCall` values. `dispose` only disconnects the admin client and is not modelled.
- The event-emitter subscriptions, rxjs `race`/`delay`/`fromEvent` and the 100 ms sleep are library scheduling and timers. They appear only as the order in which signals and the timer arrive, and as `Sleep` between polls. Real time is not modelled.
- The `wait` option (default 5000 ms, src/awaitable-emit.ts:36) only sets the timer's delay. The model does not represent that delay: the timer is one more arrival, `TimerFired`.
- The subscribe-after-produce race is a timing effect. In it, a signal published before the wait subscribes is lost, so the call falls back to the timer. In the model, such a lost signal is simply absent from the arrivals.
- Gateway.EmitMessage: the final promise also waits for the offset check; the model records that the check runs, and the check itself is `OffsetMonitor.WaitGroupsOffset`. An admin failure while polling, which would reject the call, is not modelled.
- OffsetMonitor.WaitGroupsOffset: the `while (true)` loop of `waitGroupsOffset` has no bound and may never end; the model covers a finite prefix of polls and reports `StillPolling` when none of them converged.
- `parseInt` on arbitrary strings, including the NaN it returns for non-numeric text, is left out. Offsets are inputs already parsed to integers, and `None` stands for a missing or empty one.
- Offsets are compared on the first partition entry only, as `waitGroupsOffset` does. Other partitions are not modelled.
- The NestJS `ExecutionContext`/`KafkaContext` extraction and the interceptor's registration are framework wiring. The message key arrives as an already decoded `Option<string>`, so decoding the key buffer as UTF-8 is not modelled.
- CompletionHook.Intercept: the handler is modelled as returning once or throwing. A handler stream that emits several values, or none, would publish once per value. The boolean that `map` passes downstream in place of the handler's value is not modelled.
- The handler-side and producer-side message keys are assumed to be the same text. Nest's Kafka client carries `data.key` as the Kafka message key; that client is not part of this model.
- app/main.ts, app/app.controller.ts and app/app.e2e-spec.ts are bootstrap, a demo handler and an end-to-end test that needs a live broker. They hold no logic of the core.
