/** Error values and how the router classifies them. */
module Errors {

  datatype Sentinel =
    | DeviceNotFound | UnsupportedProtocol | TimedOut | Network | QueueFull
    | Canceled | DeadlineExceeded | EndOfFile

  /** Any error value: the sentinels it matches itself, whether the operating system calls it a
      timeout, and the errors it unwraps to (none, one, or several for a joined error). */
  datatype Error = Error(text: string, matches: set<Sentinel>, timesOut: bool, causes: seq<Error>)

  datatype Class = Retryable | Fatal | Warning

  const ERR_TIMEOUT := Error("operation timed out", {TimedOut}, false, [])
  const ERR_NETWORK := Error("network error occurred", {Network}, false, [])
  const ERR_UNSUPPORTED_PROTOCOL := Error("unsupported protocol", {UnsupportedProtocol}, false, [])
  const CONTEXT_CANCELED := Error("context canceled", {Canceled}, false, [])
  const ERR_CLOSED := Error("use of closed network connection", {}, false, [])
  const EOF := Error("EOF", {EndOfFile}, false, [])

  /** The target occurs somewhere along the unwrapping of `err`. */
  predicate Is(err: Error, target: Sentinel) {
    target in err.matches || exists c | c in err.causes :: Is(c, target)
  }

  function Classify(err: Error): Class {
    if Is(err, TimedOut) || Is(err, Network) || Is(err, QueueFull) then Retryable
    else if Is(err, DeviceNotFound) || Is(err, UnsupportedProtocol) then Fatal
    else Warning
  }

  /** An error formatted around one wrapped cause; the wrapper has no timeout answer of its own. */
  function Wrap(prefix: string, cause: Error, suffix: string): Error {
    Error(prefix + cause.text + suffix, {}, false, [cause])
  }

  function Categorize(err: Error, context: string): Error {
    if Is(err, Canceled) then Wrap("", ERR_TIMEOUT, ": " + context + " (context canceled)")
    else if Is(err, DeadlineExceeded) || err.timesOut then Wrap("", ERR_TIMEOUT, ": " + context)
    else if Is(err, EndOfFile) then Wrap("", ERR_NETWORK, ": " + context + " (unexpected EOF)")
    else Wrap("", ERR_NETWORK, ": " + context + " (" + err.text + ")")
  }

  /** `Categorize` applied once for every context message, innermost first. */
  function Recategorize(err: Error, contexts: seq<string>): Error {
    if contexts == [] then err
    else Categorize(Recategorize(err, contexts[..|contexts| - 1]), contexts[|contexts| - 1])
  }

  lemma WrapIs(prefix: string, cause: Error, suffix: string, target: Sentinel)
    ensures Is(Wrap(prefix, cause, suffix), target) <==> Is(cause, target)
  {
    var w := Wrap(prefix, cause, suffix);
    assert w.causes[0] == cause;
    assert forall c | c in w.causes :: c == cause;
  }

  /** Adding context with a wrapping verb never moves an error between classes. */
  lemma WrapKeepsClass(prefix: string, cause: Error, suffix: string)
    ensures Classify(Wrap(prefix, cause, suffix)) == Classify(cause)
  {
    forall target: Sentinel
      ensures Is(Wrap(prefix, cause, suffix), target) <==> Is(cause, target)
    {
      WrapIs(prefix, cause, suffix, target);
    }
  }

  /** A categorized error matches exactly one sentinel: a timeout if the raw error was a
      cancellation, a deadline or an operating-system timeout, a network error otherwise. */
  lemma CategorizeMatches(err: Error, context: string, target: Sentinel)
    ensures Is(Categorize(err, context), target) <==>
            target == if Is(err, Canceled) || Is(err, DeadlineExceeded) || err.timesOut then TimedOut else Network
    ensures !Categorize(err, context).timesOut
  {
    var inner := Categorize(err, context).causes[0];
    assert inner == ERR_TIMEOUT || inner == ERR_NETWORK;
    assert Is(inner, target) <==> target in inner.matches;
    assert forall c | c in Categorize(err, context).causes :: c == inner;
  }

  lemma CategorizeMatchesAll(err: Error, context: string)
    ensures forall target :: Is(Categorize(err, context), target) <==>
              target == if Is(err, Canceled) || Is(err, DeadlineExceeded) || err.timesOut then TimedOut else Network
    ensures !Categorize(err, context).timesOut
  {
    forall target: Sentinel
      ensures Is(Categorize(err, context), target) <==>
              target == if Is(err, Canceled) || Is(err, DeadlineExceeded) || err.timesOut then TimedOut else Network
    {
      CategorizeMatches(err, context, target);
    }
    CategorizeMatches(err, context, Network);
  }

  /** Whatever went wrong, and however often it is re-categorized on its way up, the router sees a
      retryable error; from the second wrapping on it is a network error, even if it was a timeout. */
  lemma RecategorizedIsRetryable(err: Error, contexts: seq<string>)
    requires contexts != []
    ensures Classify(Recategorize(err, contexts)) == Retryable
    ensures |contexts| >= 2 ==>
              Is(Recategorize(err, contexts), Network) && !Is(Recategorize(err, contexts), TimedOut)
  {
    var n := |contexts| - 1;
    var below := Recategorize(err, contexts[..n]);
    CategorizeMatchesAll(below, contexts[n]);
    if n > 0 {
      var lower := Recategorize(err, contexts[..n][..n - 1]);
      assert below == Categorize(lower, contexts[..n][n - 1]);
      CategorizeMatchesAll(lower, contexts[..n][n - 1]);
    }
  }

  /** What each sentinel means to the router. */
  const CLASS_OF: map<Sentinel, Class> :=
    map[TimedOut := Retryable, Network := Retryable, QueueFull := Retryable,
        DeviceNotFound := Fatal, UnsupportedProtocol := Fatal,
        Canceled := Warning, DeadlineExceeded := Warning, EndOfFile := Warning]

  /** However deep a sentinel lies along the unwrapping, an error that matches no other is classified
      as that sentinel is. */
  lemma ClassifyBySentinel(err: Error, only: Sentinel)
    requires forall target :: Is(err, target) <==> target == only
    ensures Classify(err) == CLASS_OF[only]
  {
    assert Is(err, only);
  }

  lemma ClassifyUnmarked(err: Error)
    requires forall target :: !Is(err, target)
    ensures Classify(err) == Warning
  {
  }
}
