/**
 * The emission gateway: `emitMessageDefault`, `emitMessage` and
 * `emitRetryableMessage`.  Producing the message is an input (acknowledged
 * or failed), and the race between the success signal, the error signal and
 * the timer is a state machine fed with the signals in the order they
 * arrive.  Real time is not modelled: the timer is one more arriving event.
 */
module Gateway {
  import opened Wrappers

  /** What can reach a pending wait: a signal on one of its channels, or its timer. */
  datatype Event<E> = SuccessSignal | ErrorSignal(err: E) | TimerFired

  /** Which race condition settled a resolved wait. */
  datatype Cause = BySuccess | ByTimeout

  /** A pending wait: `Awaiting` moves once, to `Resolved` or to `Rejected`. */
  datatype WaitState<E> = Awaiting | Resolved(cause: Cause) | Rejected(err: E)

  /**
   * The two sets of race conditions: `emitMessage` races success, error and
   * timer; `emitRetryableMessage` races only success and timer.
   */
  datatype Variant = Standard | Retryable

  /** Whether the race of `v` is subscribed to the kind of `e`. */
  predicate Raced<E>(v: Variant, e: Event<E>) {
    !e.ErrorSignal? || v == Standard
  }

  /** The state a raced event settles the wait in; an error signal is re-thrown. */
  function Settle<E>(e: Event<E>): WaitState<E> {
    match e
    case SuccessSignal => Resolved(BySuccess)
    case TimerFired => Resolved(ByTimeout)
    case ErrorSignal(err) => Rejected(err)
  }

  /** One arrival: only an awaiting wait reacts, and only to what it races. */
  function Step<E>(st: WaitState<E>, v: Variant, e: Event<E>): WaitState<E> {
    if st.Awaiting? && Raced(v, e) then Settle(e) else st
  }

  /** Feeds the arrivals to the state machine in order. */
  function Run<E>(st: WaitState<E>, v: Variant, events: seq<Event<E>>): WaitState<E>
    decreases |events|
  {
    if events == [] then st else Run(Step(st, v, events[0]), v, events[1..])
  }

  /** `firstValueFrom(race(...raceConditions))`, started after the produce step. */
  function Race<E>(v: Variant, events: seq<Event<E>>): WaitState<E> {
    Run(Awaiting, v, events)
  }

  /** The arrivals with every error signal removed. */
  function WithoutErrors<E>(events: seq<Event<E>>): (r: seq<Event<E>>)
    ensures |r| <= |events|
    ensures forall i :: 0 <= i < |r| ==> !r[i].ErrorSignal?
  {
    if events == [] then []
    else (if events[0].ErrorSignal? then [] else [events[0]]) + WithoutErrors(events[1..])
  }

  /** Removing error signals distributes over concatenation. */
  lemma {:induction false} WithoutErrorsAppend<E>(a: seq<Event<E>>, b: seq<Event<E>>)
    ensures WithoutErrors(a + b) == WithoutErrors(a) + WithoutErrors(b)
    decreases |a|
  {
    if a == [] {
      assert a + b == b;
    } else {
      WithoutErrorsAppend(a[1..], b);
      assert (a + b)[0] == a[0] && (a + b)[1..] == a[1..] + b;
    }
  }

  /** Arrivals that are all error signals leave nothing once errors are removed. */
  lemma {:induction false} WithoutErrorsOfErrors<E>(a: seq<Event<E>>)
    requires forall i :: 0 <= i < |a| ==> a[i].ErrorSignal?
    ensures WithoutErrors(a) == []
    decreases |a|
  {
    if a != [] {
      WithoutErrorsOfErrors(a[1..]);
    }
  }

  /** A settled wait ignores everything that arrives later. */
  lemma {:induction false} SettledIsFinal<E>(st: WaitState<E>, v: Variant, events: seq<Event<E>>)
    requires !st.Awaiting?
    ensures Run(st, v, events) == st
    decreases |events|
  {
    if events != [] {
      SettledIsFinal(st, v, events[1..]);
    }
  }

  /**
   * `emitMessage` races all three conditions, so the first arrival decides:
   * success or timer resolves, an error signal rejects with exactly its
   * error, and with nothing arrived the wait is still pending.
   */
  lemma StandardFirstArrivalDecides<E>(events: seq<Event<E>>)
    ensures Race(Standard, events) == if events == [] then Awaiting else Settle(events[0])
  {
    if events != [] {
      SettledIsFinal(Settle(events[0]), Standard, events[1..]);
    }
  }

  /**
   * `emitRetryableMessage` is settled by the first success signal or timer;
   * error signals before it are ignored.
   */
  lemma {:induction false} RetryableSettlesOnFirstNonError<E>(events: seq<Event<E>>, i: nat)
    requires i < |events| && !events[i].ErrorSignal?
    requires forall j :: 0 <= j < i ==> events[j].ErrorSignal?
    ensures Race(Retryable, events) == Settle(events[i])
    decreases i
  {
    if i == 0 {
      SettledIsFinal(Settle(events[0]), Retryable, events[1..]);
    } else {
      RetryableSettlesOnFirstNonError(events[1..], i - 1);
    }
  }

  lemma {:induction false} RetryableRunNeverRejects<E>(st: WaitState<E>, events: seq<Event<E>>)
    requires !st.Rejected?
    ensures !Run(st, Retryable, events).Rejected?
    decreases |events|
  {
    if events != [] {
      RetryableRunNeverRejects(Step(st, Retryable, events[0]), events[1..]);
    }
  }

  /** The retryable race never rejects, whatever signals arrive. */
  lemma RetryableNeverRejects<E>(events: seq<Event<E>>)
    ensures !Race(Retryable, events).Rejected?
  {
    RetryableRunNeverRejects(Awaiting, events);
  }

  lemma {:induction false} RetryableRunIgnoresErrors<E>(st: WaitState<E>, events: seq<Event<E>>)
    ensures Run(st, Retryable, events) == Run(st, Standard, WithoutErrors(events))
    decreases |events|
  {
    if events != [] {
      var e, rest := events[0], events[1..];
      RetryableRunIgnoresErrors(Step(st, Retryable, e), rest);
      if e.ErrorSignal? {
        assert WithoutErrors(events) == [] + WithoutErrors(rest) == WithoutErrors(rest);
        assert Step(st, Retryable, e) == st;
      } else {
        var w := [e] + WithoutErrors(rest);
        assert WithoutErrors(events) == w;
        assert w[0] == e && w[1..] == WithoutErrors(rest);
        assert Step(st, Retryable, e) == Step(st, Standard, e);
      }
    }
  }

  /**
   * The retryable race behaves as the full race would on the same arrivals
   * with the error signals taken out.
   */
  lemma RetryableIgnoresErrors<E>(events: seq<Event<E>>)
    ensures Race(Retryable, events) == Race(Standard, WithoutErrors(events))
  {
    RetryableRunIgnoresErrors(Awaiting, events);
  }

  /** Outcome of the producer call: the broker's acknowledgement, or its failure. */
  datatype Produce<E> = Acked | ProduceFailed(err: E)

  /** The steps an emission takes, in order. */
  datatype Action = ProduceMessage | AwaitRace | CheckOffsets

  /** Where a call stands after the given arrivals, and what it has done. */
  datatype Call<E> = Call(state: WaitState<E>, actions: seq<Action>)

  /** Construction options: `brokers` and `wait` (milliseconds, the timer's delay). */
  datatype Options = Options(brokers: Option<seq<string>>, wait: Option<int>)

  /**
   * `brokers ? new Kafka(...).admin() : undefined`: any supplied array,
   * the empty one included, is truthy and creates an admin client.
   */
  predicate HasAdmin(opts: Options) {
    opts.brokers.Some?
  }

  /**
   * `emitMessageDefault`: produce, and only once the producer has
   * acknowledged, race the given conditions.
   */
  function EmitDefault<E>(v: Variant, produced: Produce<E>, events: seq<Event<E>>): (c: Call<E>)
    ensures |c.actions| > 0 && c.actions[0] == ProduceMessage
    ensures produced.ProduceFailed? ==> c == Call(Rejected(produced.err), [ProduceMessage])
    ensures produced.Acked? ==> c.actions == [ProduceMessage, AwaitRace]
    ensures produced.Acked? && v == Standard ==>
      c.state == if events == [] then Awaiting else Settle(events[0])
    ensures produced.Acked? && v == Retryable ==> c.state == Race(Standard, WithoutErrors(events))
  {
    StandardFirstArrivalDecides(events);
    RetryableIgnoresErrors(events);
    match produced
    case ProduceFailed(err) => Call(Rejected(err), [ProduceMessage])
    case Acked => Call(Race(v, events), [ProduceMessage, AwaitRace])
  }

  /**
   * `emitMessage`: the full race, then the offset check, which runs only when
   * an admin client exists and the race has resolved (a rejection propagates
   * out of the `await` before it).
   */
  function EmitMessage<E>(opts: Options, produced: Produce<E>, events: seq<Event<E>>): (c: Call<E>)
    ensures |c.actions| > 0 && c.actions[0] == ProduceMessage
    ensures AwaitRace in c.actions <==> produced.Acked?
    ensures CheckOffsets in c.actions <==> HasAdmin(opts) && produced.Acked? && c.state.Resolved?
    ensures CheckOffsets in c.actions ==> c.actions[|c.actions| - 1] == CheckOffsets
    ensures produced.ProduceFailed? ==> c.state == Rejected(produced.err)
    ensures produced.Acked? ==> c.state == if events == [] then Awaiting else Settle(events[0])
  {
    StandardFirstArrivalDecides(events);
    var d := EmitDefault(Standard, produced, events);
    if d.state.Resolved? && HasAdmin(opts) then Call(d.state, d.actions + [CheckOffsets]) else d
  }

  /**
   * `emitRetryableMessage`: the race without the error channel, and never the
   * offset check; it rejects only when producing fails.
   */
  function EmitRetryableMessage<E>(produced: Produce<E>, events: seq<Event<E>>): (c: Call<E>)
    ensures |c.actions| > 0 && c.actions[0] == ProduceMessage
    ensures AwaitRace in c.actions <==> produced.Acked?
    ensures CheckOffsets !in c.actions
    ensures c.state.Rejected? <==> produced.ProduceFailed?
    ensures produced.ProduceFailed? ==> c.state == Rejected(produced.err)
    ensures produced.Acked? ==> c.state == Race(Standard, WithoutErrors(events))
  {
    RetryableNeverRejects(events);
    RetryableIgnoresErrors(events);
    EmitDefault(Retryable, produced, events)
  }
}
