/** The retry loop: when it stops, with what result, and how long it waits. */
module RetryLaws {
  import opened Domain
  import opened Errors
  import opened Router

  // ---------- doubling ----------

  lemma WrapExact(n: int)
    ensures Wrap64(n) == n <==> InRange(n)
  {
  }

  lemma WrapShift(n: int, k: int)
    ensures Wrap64(n + k * (2 * TWO_63)) == Wrap64(n)
  {
  }

  /** Doubling a wrapped duration is wrapping the doubled one. */
  lemma WrapDouble(n: int)
    ensures Wrap64(2 * (Wrap64(n) as int)) == Wrap64(2 * n)
  {
    var k := (n + TWO_63) / (2 * TWO_63);
    assert Wrap64(n) == n - k * (2 * TWO_63);
    WrapShift(2 * n, -2 * k);
  }

  /** A duration doubled `n` times, without wrap-around. */
  function Doubled(unit: int, n: nat): int
    decreases n
  {
    if n == 0 then unit else Doubled(2 * unit, n - 1)
  }

  lemma {:induction false} DoubledIsPower(unit: int, n: nat)
    ensures Doubled(unit, n) == unit * Pow2(n)
    decreases n
  {
    if n > 0 {
      DoubledIsPower(2 * unit, n - 1);
    }
  }

  lemma {:induction false} DoubledGrows(unit: int, n: nat)
    ensures if unit >= 0 then unit <= Doubled(unit, n) else Doubled(unit, n) <= unit
    decreases n
  {
    if n > 0 {
      DoubledGrows(2 * unit, n - 1);
    }
  }

  /** Wrap-around never shows in the first `n + 1` backoffs exactly when the last of them fits. */
  lemma {:induction false} DoublingFits(unit: int, n: nat)
    ensures InRange(Doubled(unit, n)) <==> forall m: nat :: m <= n ==> Wrap64(Doubled(unit, m)) == Doubled(unit, m)
    decreases n
  {
    WrapExact(Doubled(unit, n));
    DoubledGrows(unit, n);
    if n > 0 && InRange(Doubled(unit, n)) {
      WrapExact(unit);
      DoublingFits(2 * unit, n - 1);
      forall m: nat | m <= n
        ensures Wrap64(Doubled(unit, m)) == Doubled(unit, m)
      {
        if m > 0 {
          var less: nat := m - 1;
          assert Doubled(unit, m) == Doubled(2 * unit, less);
          assert Wrap64(Doubled(2 * unit, less)) == Doubled(2 * unit, less);
        }
      }
    }
  }

  // ---------- when a retry stops ----------

  /** The first `n` calls of a retry: the same call over and over, with waits that double between. */
  function Rounds(call: Call, unit: int, n: nat): Journal
    decreases n
  {
    if n == 0 then []
    else if n == 1 then [call]
    else [call, Wait(Wrap64(unit))] + Rounds(call, 2 * unit, n - 2)
  }

  predicate Failing(a: Answer) {
    a.reply.Err? && Classify(a.reply.error) == Retryable
  }

  /** From position `at`, `k` sends failed retryably, and the wait after each ran its course. */
  predicate Persisted(script: Script, at: nat, k: nat)
    decreases k
  {
    k == 0 || (Failing(script(at)) && !script(at + 1).cancelled && Persisted(script, at + 2, k - 1))
  }

  /** Attempt `k` is the last one: it ends the retry after `n` calls with result `r`. */
  predicate Concludes(max: int, script: Script, at: nat, k: nat, n: nat, r: Result<Bytes, Error>) {
    && 1 <= k <= max && Persisted(script, at, k - 1)
    && var last := script(at + 2 * (k - 1));
       if Failing(last) && k < max
       then script(at + 2 * k - 1).cancelled && n == 2 * k && r == Err(CONTEXT_CANCELED)
       else n == 2 * k - 1 && r == last.reply
  }

  /** With at least one attempt allowed, the loop stops at some attempt `k`; its calls are that many
      sends of the one payload, the waits between them doubling from the base. */
  lemma RetryConcludes(p: Policy, script: Script, j: Journal, dev: Device, payload: Bytes) returns (k: nat, n: nat)
    requires p.maxAttempts >= 1
    ensures var (r, after) := Retry(p, script, j, dev, payload);
            && Concludes(p.maxAttempts, script, |j|, k, n, r)
            && after == j + Rounds(Send(dev, payload), p.baseBackoff, n)
  {
    WrapExact(p.baseBackoff);
    k, n := AttemptsConclude(p, script, j, dev, payload, 1, p.baseBackoff, None);
  }

  lemma {:induction false} AttemptsConclude(
    p: Policy, script: Script, j: Journal, dev: Device, payload: Bytes, attempt: int, unit: int, last: Option<Error>)
    returns (k: nat, n: nat)
    requires attempt <= p.maxAttempts
    ensures var (r, after) := Attempts(p, script, j, dev, payload, attempt, Wrap64(unit), last);
            && Concludes(p.maxAttempts - attempt + 1, script, |j|, k, n, r)
            && after == j + Rounds(Send(dev, payload), unit, n)
    decreases p.maxAttempts - attempt
  {
    var call := Send(dev, payload);
    var sent := j + [call];
    var waited := sent + [Wait(Wrap64(unit))];
    assert waited == j + [call, Wait(Wrap64(unit))];
    if !Failing(script(|j|)) || attempt == p.maxAttempts {
      k, n := 1, 1;
    } else if script(|j| + 1).cancelled {
      k, n := 1, 2;
      assert Rounds(call, unit, 2) == [call, Wait(Wrap64(unit))];
    } else {
      WrapDouble(unit);
      k, n := AttemptsConclude(p, script, waited, dev, payload, attempt + 1, 2 * unit, Some(script(|j|).reply.error));
      k, n := k + 1, n + 2;
      assert waited + Rounds(call, 2 * unit, n - 2) == j + Rounds(call, unit, n);
    }
  }

  lemma {:induction false} PersistedAt(script: Script, at: nat, k: nat, i: nat)
    requires Persisted(script, at, k) && i < k
    ensures Failing(script(at + 2 * i)) && !script(at + 2 * i + 1).cancelled
    decreases k
  {
    if i > 0 {
      PersistedAt(script, at + 2, k - 1, i - 1);
    }
  }

  /** No retry can end in two ways. */
  lemma ConcludesOnce(
    max: int, script: Script, at: nat,
    k1: nat, n1: nat, r1: Result<Bytes, Error>, k2: nat, n2: nat, r2: Result<Bytes, Error>)
    requires Concludes(max, script, at, k1, n1, r1) && Concludes(max, script, at, k2, n2, r2)
    ensures k1 == k2 && n1 == n2 && r1 == r2
  {
    if k1 != k2 {
      PersistedAt(script, at, (if k1 < k2 then k2 else k1) - 1, (if k1 < k2 then k1 else k2) - 1);
    }
  }

  /** The call succeeds at attempt `k` exactly when the attempts before it failed retryably, no wait
      between them was cancelled, and attempt `k` is answered. */
  lemma RetrySucceedsAt(p: Policy, script: Script, j: Journal, dev: Device, payload: Bytes, k: nat)
    requires 1 <= k <= p.maxAttempts
    ensures var (r, after) := Retry(p, script, j, dev, payload);
            r.Ok? && |after| == |j| + 2 * k - 1 <==>
            Persisted(script, |j|, k - 1) && script(|j| + 2 * (k - 1)).reply.Ok?
  {
    var (r, after) := Retry(p, script, j, dev, payload);
    var k0, n0 := RetryConcludes(p, script, j, dev, payload);
    RoundsLength(Send(dev, payload), p.baseBackoff, n0);
    var last := script(|j| + 2 * (k - 1));
    if Persisted(script, |j|, k - 1) && last.reply.Ok? {
      ConcludesOnce(p.maxAttempts, script, |j|, k0, n0, r, k, 2 * k - 1, last.reply);
    }
  }

  lemma {:induction false} RoundsLength(call: Call, unit: int, n: nat)
    ensures |Rounds(call, unit, n)| == n
    ensures forall i :: 0 <= i < n && i % 2 == 0 ==> Rounds(call, unit, n)[i] == call
    ensures forall i :: 0 <= i < n && i % 2 == 1 ==> Rounds(call, unit, n)[i].Wait?
    decreases n
  {
    if n >= 2 {
      RoundsLength(call, 2 * unit, n - 2);
    }
  }

  /** A retry that allows no attempt makes no call and reports success with an empty reply; otherwise
      a success is a reply the device gave to this payload. */
  lemma EmptySuccess(p: Policy, script: Script, j: Journal, dev: Device, payload: Bytes)
    ensures var (r, after) := Retry(p, script, j, dev, payload);
            && (after == j <==> p.maxAttempts <= 0)
            && (p.maxAttempts <= 0 ==> r == Ok([]))
            && (p.maxAttempts >= 1 && r.Ok? ==>
                  |after| > |j| && after[|after| - 1] == Send(dev, payload) && script(|after| - 1).reply == r)
  {
    if p.maxAttempts >= 1 {
      var k, n := RetryConcludes(p, script, j, dev, payload);
      RoundsLength(Send(dev, payload), p.baseBackoff, n);
    }
  }

  // ---------- when publishing stops ----------

  predicate Unpublished(script: Script, at: nat, k: nat)
    decreases k
  {
    k == 0 || (!script(at).ok && !script(at + 1).cancelled && Unpublished(script, at + 2, k - 1))
  }

  /** Publishing ends at attempt `k`, after `n` calls: the publish was accepted, or the wait after it
      was cancelled, or no attempt is left. */
  predicate PublishingEnds(max: int, script: Script, at: nat, k: nat, n: nat) {
    && 1 <= k <= max && Unpublished(script, at, k - 1)
    && if !script(at + 2 * (k - 1)).ok && k < max
       then script(at + 2 * k - 1).cancelled && n == 2 * k
       else n == 2 * k - 1
  }

  lemma PublicationsEnd(p: Policy, script: Script, j: Journal, t: Telemetry) returns (k: nat, n: nat)
    requires p.maxAttempts >= 1
    ensures PublishingEnds(p.maxAttempts, script, |j|, k, n)
    ensures Publications(p, script, j, t, 1, p.baseBackoff) == j + Rounds(Publish(t), p.baseBackoff, n)
  {
    WrapExact(p.baseBackoff);
    k, n := PublicationsEndFrom(p, script, j, t, 1, p.baseBackoff);
  }

  lemma {:induction false} PublicationsEndFrom(
    p: Policy, script: Script, j: Journal, t: Telemetry, attempt: int, unit: int)
    returns (k: nat, n: nat)
    requires attempt <= p.maxAttempts
    ensures PublishingEnds(p.maxAttempts - attempt + 1, script, |j|, k, n)
    ensures Publications(p, script, j, t, attempt, Wrap64(unit)) == j + Rounds(Publish(t), unit, n)
    decreases p.maxAttempts - attempt
  {
    var call := Publish(t);
    var waited := j + [call] + [Wait(Wrap64(unit))];
    assert waited == j + [call, Wait(Wrap64(unit))];
    if script(|j|).ok || attempt == p.maxAttempts {
      k, n := 1, 1;
    } else if script(|j| + 1).cancelled {
      k, n := 1, 2;
      assert Rounds(call, unit, 2) == [call, Wait(Wrap64(unit))];
    } else {
      WrapDouble(unit);
      k, n := PublicationsEndFrom(p, script, waited, t, attempt + 1, 2 * unit);
      k, n := k + 1, n + 2;
      assert waited + Rounds(call, 2 * unit, n - 2) == j + Rounds(call, unit, n);
    }
  }

  // ---------- time ----------

  function Waits(j: Journal): int {
    if j == [] then 0 else (if j[0].Wait? then j[0].duration as int else 0) + Waits(j[1..])
  }

  /** Before attempt `k` the configured waits add up to the base times 2^(k-1) - 1, provided the last
      of them fits in 64 bits. */
  lemma {:induction false} WaitsAreGeometric(call: Call, unit: int, k: nat)
    requires !call.Wait? && k >= 1
    requires k >= 2 ==> InRange(Doubled(unit, k - 2))
    ensures Waits(Rounds(call, unit, 2 * k - 1)) == Doubled(unit, k - 1) - unit == unit * (Pow2(k - 1) - 1)
    decreases k
  {
    DoubledIsPower(unit, k - 1);
    assert unit * Pow2(k - 1) - unit == unit * (Pow2(k - 1) - 1);
    var rounds := Rounds(call, unit, 2 * k - 1);
    if k == 1 {
      assert rounds[1..] == [];
    } else {
      DoubledGrows(unit, k - 2);
      WrapExact(unit);
      WaitsAreGeometric(call, 2 * unit, k - 1);
      assert rounds[1..][1..] == Rounds(call, 2 * unit, 2 * (k - 1) - 1);
      assert rounds[1..][0] == Wait(Wrap64(unit));
    }
  }

  /** The time `n` calls take from position `at` on. */
  function Elapsed(took: nat -> int, at: nat, n: nat): int
    decreases n
  {
    if n == 0 then 0 else took(at) + Elapsed(took, at + 1, n - 1)
  }

  /** Every send ends within the timeout; a wait lasts at most its configured duration. */
  predicate Punctual(took: nat -> int, at: nat, calls: Journal, timeout: int)
    decreases |calls|
  {
    calls == [] ||
    (took(at) <= (if calls[0].Wait? then calls[0].duration as int else timeout) &&
     Punctual(took, at + 1, calls[1..], timeout))
  }

  /** Then a whole retry is over within the timeout per attempt plus the geometric sum of the waits. */
  lemma RetryIsBounded(
    p: Policy, script: Script, j: Journal, dev: Device, payload: Bytes, took: nat -> int, timeout: nat)
    requires p.maxAttempts >= 1 && p.baseBackoff >= 0
    requires p.maxAttempts >= 2 ==> InRange(Doubled(p.baseBackoff, p.maxAttempts - 2))
    requires var after := Retry(p, script, j, dev, payload).1;
             |j| <= |after| && Punctual(took, |j|, after[|j|..], timeout)
    ensures var after := Retry(p, script, j, dev, payload).1;
            Elapsed(took, |j|, |after| - |j|) <=
            p.maxAttempts * timeout + p.baseBackoff * (Pow2(p.maxAttempts - 1) - 1)
  {
    var k, n := RetryConcludes(p, script, j, dev, payload);
    var after := Retry(p, script, j, dev, payload).1;
    RoundsLength(Send(dev, payload), p.baseBackoff, n);
    assert after[|j|..] == Rounds(Send(dev, payload), p.baseBackoff, n);
    RoundsElapsed(Send(dev, payload), p.baseBackoff, p.maxAttempts, n, took, |j|, timeout);
    DoubledIsPower(p.baseBackoff, p.maxAttempts - 1);
  }

  lemma {:induction false} RoundsElapsed(
    call: Call, unit: int, max: nat, n: nat, took: nat -> int, at: nat, timeout: nat)
    requires !call.Wait? && unit >= 0 && max >= 1 && n < 2 * max
    requires max >= 2 ==> InRange(Doubled(unit, max - 2))
    requires Punctual(took, at, Rounds(call, unit, n), timeout)
    ensures Elapsed(took, at, n) <= max * timeout + Doubled(unit, max - 1) - unit
    decreases n
  {
    var rounds := Rounds(call, unit, n);
    DoubledGrows(unit, max - 1);
    assert max * timeout == (max - 1) * timeout + timeout && (max - 1) * timeout >= 0;
    if n >= 2 {
      DoubledGrows(unit, max - 2);
      WrapExact(unit);
      assert rounds[1..][1..] == Rounds(call, 2 * unit, n - 2);
      assert rounds[1..][0] == Wait(Wrap64(unit));
      RoundsElapsed(call, 2 * unit, max - 1, n - 2, took, at + 2, timeout);
    }
  }
}
