/**
 * The completion hook (`AwaitableEmitInterceptor.intercept`): after the
 * handler of an inbound message finishes, publish on the success channel of
 * the message key, or on its error channel with the error and re-throw it.
 * What a wait on some key observes from one such publication ties the hook
 * to the gateway's race.
 */
module CompletionHook {
  import opened Wrappers
  import opened EventNames
  import opened Gateway

  /** How the downstream handler finished: it returned, or it threw `err`. */
  datatype HandlerOutcome<E> = Returned | Threw(err: E)

  /**
   * One `emitter.emit(name[, arg])` call; `arg == None` is a call without a
   * second argument, whose listeners receive `undefined`.
   */
  datatype Publication<E> = Publication(name: string, arg: Option<E>)

  /** What the hook publishes, and the error it throws on, if any. */
  datatype Intercepted<E> = Intercepted(published: Publication<E>, rethrown: Option<E>)

  /**
   * `intercept`: the `map` branch publishes a bare success notification; the
   * `catchError` branch publishes the error on the error channel and throws
   * the same error again.
   */
  function Intercept<E>(key: Option<string>, outcome: HandlerOutcome<E>): (r: Intercepted<E>)
    ensures outcome.Returned? <==> r.rethrown.None?
    ensures outcome.Threw? ==> r.rethrown == Some(outcome.err) && r.published.arg == Some(outcome.err)
    ensures outcome.Returned? ==> r.published.arg.None?
  {
    var messageKey := MessageKey(key);
    match outcome
    case Returned => Intercepted(Publication(EventName(messageKey), None), None)
    case Threw(err) => Intercepted(Publication(ErrorEventName(messageKey), Some(err)), Some(err))
  }

  /**
   * The arrivals a wait for key `k` sees from one publication: its success
   * listener fires on `EventName(k)`, its error listener on
   * `ErrorEventName(k)` with the published argument (`None` is `undefined`).
   */
  function Observe<E>(k: string, p: Publication<E>): seq<Event<Option<E>>> {
    if p.name == EventName(k) then [SuccessSignal]
    else if p.name == ErrorEventName(k) then [ErrorSignal(p.arg)]
    else []
  }

  /**
   * For a message keyed `k`, the hook publishes only on `k`'s channels: on
   * the success channel when the handler returns and on the error channel when
   * it throws.
   */
  lemma HookPublishesOnOwnChannel<E>(k: string, outcome: HandlerOutcome<E>)
    ensures var p := Intercept(Some(k), outcome).published;
      (outcome.Returned? ==> p.name == EventName(k) && p.name != ErrorEventName(k)) &&
      (outcome.Threw? ==> p.name == ErrorEventName(k) && p.name != EventName(k))
  {
    NamesDiffer(k);
  }

  /** A message with no key is published under the key "undefined". */
  lemma HookMissingKey<E>(outcome: HandlerOutcome<E>)
    ensures Intercept(None, outcome) == Intercept(Some("undefined"), outcome)
  {
    MissingKeyIsUndefined();
  }

  /**
   * End to end for one key: a pending `emitMessage` for `k`, once its message
   * is acknowledged, resolves when the handler of `k` returns and rejects
   * with exactly the handler's error when it throws, whatever arrives later.
   */
  lemma HookSettlesEmitMessage<E>(opts: Options, k: string, outcome: HandlerOutcome<E>, later: seq<Event<Option<E>>>)
    ensures var c := EmitMessage(opts, Acked, Observe(k, Intercept(Some(k), outcome).published) + later);
      c.state == match outcome
        case Returned => Resolved(BySuccess)
        case Threw(err) => Rejected(Some(err))
  {
    NamesDiffer(k);
  }

  /**
   * End to end for one key, retryable variant: a pending
   * `emitRetryableMessage` for `k`, which may already have seen error
   * signals, resolves when the handler of `k` returns, whatever arrives
   * later; when the handler throws, its error is not observed and the wait
   * goes on exactly as if only the later arrivals had come.
   */
  lemma HookSettlesRetryable<E>(k: string, outcome: HandlerOutcome<E>,
                                earlier: seq<Event<Option<E>>>, later: seq<Event<Option<E>>>)
    requires forall i :: 0 <= i < |earlier| ==> earlier[i].ErrorSignal?
    ensures var c := EmitRetryableMessage(Acked, earlier + Observe(k, Intercept(Some(k), outcome).published) + later);
      c.state == if outcome.Returned? then Resolved(BySuccess) else EmitRetryableMessage(Acked, later).state
  {
    NamesDiffer(k);
    var observed := Observe(k, Intercept(Some(k), outcome).published);
    var events := earlier + observed + later;
    if outcome.Returned? {
      assert observed == [SuccessSignal];
      assert events[|earlier|] == SuccessSignal;
      assert forall j :: 0 <= j < |earlier| ==> events[j] == earlier[j];
      RetryableSettlesOnFirstNonError(events, |earlier|);
    } else {
      assert observed == [ErrorSignal(Some(outcome.err))];
      assert WithoutErrors(observed) == [];
      WithoutErrorsOfErrors(earlier);
      WithoutErrorsAppend(earlier, observed);
      WithoutErrorsAppend(earlier + observed, later);
      assert WithoutErrors(events) == WithoutErrors(later);
      RetryableIgnoresErrors(events);
      RetryableIgnoresErrors(later);
    }
  }

  /**
   * Which waits the hook reaches: a wait for `k` observes the hook's
   * publication for a message keyed `m` exactly when `m` is `k`, or the
   * handler returned and `m` is "error " + `k`, or the handler threw and `k`
   * is "error " + `m`.
   */
  lemma HookReaches<E>(k: string, m: string, outcome: HandlerOutcome<E>)
    ensures Observe(k, Intercept(Some(m), outcome).published) != [] <==>
      k == m || (outcome.Returned? && m == "error " + k) || (outcome.Threw? && k == "error " + m)
  {
    EventNameInjective(m, k);
    ErrorEventNameInjective(m, k);
    SuccessNameIsErrorNameIff(m, k);
    SuccessNameIsErrorNameIff(k, m);
  }

  /**
   * The channel families overlap across keys: when the handler of a message
   * keyed "error x" returns, a pending `emitMessage` for "x" is rejected with
   * `undefined`.
   */
  lemma CrossTalkRejectsWithUndefined<E>(opts: Options, x: string)
    ensures EmitMessage(opts, Acked, Observe(x, Intercept<E>(Some("error " + x), Returned).published)).state
      == Rejected(None)
  {
    NamesDiffer(x);
    SuccessNameIsErrorNameIff("error " + x, x);
  }
}
