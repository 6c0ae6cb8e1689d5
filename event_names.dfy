/**
 * Names of the in-process signal channels.  Every message key gets a
 * success channel and an error channel; the completion hook publishes on
 * them and a waiting emission subscribes to them.
 */
module EventNames {
  import opened Wrappers

  const SuccessPrefix: string := "awaitable emit "
  const ErrorPrefix: string := "awaitable emit error "

  /** `createEventName`: the success channel of a message key. */
  function EventName(messageId: string): string {
    SuccessPrefix + messageId
  }

  /** `createErrorEventName`: the error channel of a message key. */
  function ErrorEventName(messageId: string): string {
    ErrorPrefix + messageId
  }

  /**
   * `String(key?.toString())`: the key the hook correlates on.  A Kafka
   * message key is a byte buffer or null; `Some(k)` is a key already decoded
   * to text, and a missing key turns into the text "undefined".
   */
  function MessageKey(key: Option<string>): string {
    match key
    case Some(s) => s
    case None => "undefined"
  }

  lemma PrefixCancels(p: string, a: string, b: string)
    requires p + a == p + b
    ensures a == b
  {
    assert a == (p + a)[|p|..];
    assert b == (p + b)[|p|..];
  }

  /** The error prefix is the success prefix followed by "error ". */
  lemma ErrorPrefixExtendsSuccessPrefix()
    ensures ErrorPrefix == SuccessPrefix + "error "
  {
  }

  /** A key's success channel and error channel are never the same name. */
  lemma NamesDiffer(k: string)
    ensures EventName(k) != ErrorEventName(k)
  {
    assert |EventName(k)| + 6 == |ErrorEventName(k)|;
  }

  /** Distinct keys have distinct success channels. */
  lemma EventNameInjective(k1: string, k2: string)
    ensures EventName(k1) == EventName(k2) <==> k1 == k2
  {
    if EventName(k1) == EventName(k2) {
      PrefixCancels(SuccessPrefix, k1, k2);
    }
  }

  /** Distinct keys have distinct error channels. */
  lemma ErrorEventNameInjective(k1: string, k2: string)
    ensures ErrorEventName(k1) == ErrorEventName(k2) <==> k1 == k2
  {
    if ErrorEventName(k1) == ErrorEventName(k2) {
      PrefixCancels(ErrorPrefix, k1, k2);
    }
  }

  /**
   * The two families are not disjoint across keys: the success channel of
   * `k1` is the error channel of `k2` exactly when `k1` is "error " followed
   * by `k2`.
   */
  lemma SuccessNameIsErrorNameIff(k1: string, k2: string)
    ensures EventName(k1) == ErrorEventName(k2) <==> k1 == "error " + k2
  {
    ErrorPrefixExtendsSuccessPrefix();
    assert ErrorEventName(k2) == SuccessPrefix + ("error " + k2);
    if EventName(k1) == ErrorEventName(k2) {
      PrefixCancels(SuccessPrefix, k1, "error " + k2);
    }
  }

  /** A message without a key correlates with the key "undefined". */
  lemma MissingKeyIsUndefined()
    ensures MessageKey(None) == MessageKey(Some("undefined"))
  {
  }
}
