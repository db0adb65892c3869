/** The webhook dispatcher: a bounded send loop with capped exponential delays. */
module Webhook {
  import opened Types

  datatype DeliveryStatus = DeliveryPending | Delivered | DeliveryFailed

  /** What one POST came to: an HTTP answer, ok if 2xx, or a network error. */
  datatype Send = Answered(ok: bool, code: nat) | NoAnswer(error: string)

  datatype Delivery = Delivery(
    url: string,
    status: DeliveryStatus,
    attempts: nat,
    responseCode: Option<nat>,
    lastError: Option<string>,
    delivered: bool)  // `deliveredAt` is set

  datatype WebhookEntry = WebhookDelivered(attempt: nat) | WebhookFailed(attempts: nat)

  const BASE_DELAY: nat := 1_000
  const MAX_DELAY: nat := 30_000

  predicate Succeeds(s: Send) {
    s.Answered? && s.ok
  }

  function Pow2(n: nat): nat {
    if n == 0 then 1 else 2 * Pow2(n - 1)
  }

  /** The wait after a failed attempt. */
  function Wait(attempt: nat): nat
    requires attempt >= 1
  {
    var d := BASE_DELAY * Pow2(attempt - 1);
    if d <= MAX_DELAY then d else MAX_DELAY
  }

  function TotalWait(n: nat): nat {
    if n == 0 then 0 else TotalWait(n - 1) + Wait(n)
  }

  lemma {:induction false} Pow2Grows(m: nat, n: nat)
    requires m <= n
    ensures Pow2(m) <= Pow2(n)
  {
    if m < n {
      Pow2Grows(m, n - 1);
    }
  }

  /** The waits in closed form: doubling up to 16 s, then 30 s each. */
  lemma {:induction false} TotalWaitClosed(n: nat)
    ensures TotalWait(n) == if n <= 5 then 1_000 * (Pow2(n) - 1) else 31_000 + 30_000 * (n - 5)
  {
    if n > 0 {
      TotalWaitClosed(n - 1);
      if n >= 6 {
        Pow2Grows(5, n - 1);
        assert Pow2(5) == 32;
      } else {
        Pow2Grows(n - 1, 4);
        assert Pow2(4) == 16;
      }
    }
  }

  /** Attempt `a` is the first success, or the last attempt if none succeeds. */
  ghost predicate Ends(send: nat -> Send, maxAttempts: nat, a: nat) {
    && 1 <= a <= maxAttempts
    && (forall k :: 1 <= k < a ==> !Succeeds(send(k)))
    && (Succeeds(send(a)) || a == maxAttempts)
  }

  lemma EndUnique(send: nat -> Send, maxAttempts: nat, a: nat, b: nat)
    requires Ends(send, maxAttempts, a) && Ends(send, maxAttempts, b)
    ensures a == b
  {
  }

  /** The columns `responseCode` and `lastError` after `a` sends: an update without a value leaves the
      column as it is, so each holds what the latest send that had one gave. */
  function LatestCode(send: nat -> Send, a: nat): Option<nat> {
    if a == 0 then None else if send(a).Answered? then Some(send(a).code) else LatestCode(send, a - 1)
  }

  function LatestError(send: nat -> Send, a: nat): Option<string> {
    if a == 0 then None else if send(a).NoAnswer? then Some(send(a).error) else LatestError(send, a - 1)
  }

  /** Send `k` is the latest of the first `a` sends that got an answer, or that got none. */
  ghost predicate IsLatest(send: nat -> Send, a: nat, k: nat, answered: bool) {
    && 1 <= k <= a && send(k).Answered? == answered
    && forall n :: k < n <= a ==> send(n).Answered? != answered
  }

  lemma {:induction false} LatestOfAll(send: nat -> Send, a: nat)
    ensures forall k :: IsLatest(send, a, k, true) ==> LatestCode(send, a) == Some(send(k).code)
    ensures forall k :: IsLatest(send, a, k, false) ==> LatestError(send, a) == Some(send(k).error)
    ensures LatestCode(send, a).None? <==> forall n :: 1 <= n <= a ==> send(n).NoAnswer?
    ensures LatestError(send, a).None? <==> forall n :: 1 <= n <= a ==> send(n).Answered?
  {
    if a > 0 {
      LatestOfAll(send, a - 1);
      forall k: nat, answered | k < a && IsLatest(send, a, k, answered)
        ensures IsLatest(send, a - 1, k, answered) && send(a).Answered? != answered
      {
      }
    }
  }

  class WebhookService {
    var deliveries: seq<Delivery>
    var log: seq<WebhookEntry>
    var sends: nat
    var slept: nat

    constructor ()
      ensures deliveries == [] && log == [] && sends == 0 && slept == 0
    {
      deliveries, log, sends, slept := [], [], 0, 0;
    }

    /** Delivers one event. Without a callback URL nothing happens; otherwise one row is added and
        the loop ends at the first success or after `maxAttempts` failures. */
    method Dispatch(callbackUrl: Option<string>, maxAttempts: nat, send: nat -> Send) returns (ghost a: nat)
      requires maxAttempts >= 1
      modifies this
      ensures callbackUrl.None? || callbackUrl.value == "" ==>
        deliveries == old(deliveries) && log == old(log) && sends == old(sends) && slept == old(slept)
      ensures callbackUrl.Some? && callbackUrl.value != "" ==>
        && Ends(send, maxAttempts, a)
        && (forall k :: 1 <= k < a ==> !(send(k).Answered? && send(k).ok))
        && (a == maxAttempts || (send(a).Answered? && send(a).ok))
        && sends == old(sends) + a
        && slept == old(slept) + TotalWait(a - 1)
        && log == old(log) + [if Succeeds(send(a)) then WebhookDelivered(a) else WebhookFailed(maxAttempts)]
        && |deliveries| == |old(deliveries)| + 1
        && deliveries[..|old(deliveries)|] == old(deliveries)
        && var row := deliveries[|old(deliveries)|];
           && (row.status == Delivered <==> send(a).Answered? && send(a).ok)
           && (row.status == DeliveryFailed <==> !(send(a).Answered? && send(a).ok))
           && row == Delivery(callbackUrl.value,
                           if Succeeds(send(a)) then Delivered else DeliveryFailed,
                           a,
                           LatestCode(send, a),
                           LatestError(send, a),
                           Succeeds(send(a)))
    {
      a := 0;
      if callbackUrl.None? || callbackUrl.value == "" {
        return;
      }
      var id := |deliveries|;
      deliveries := deliveries + [Delivery(callbackUrl.value, DeliveryPending, 0, None, None, false)];
      for attempt := 1 to maxAttempts + 1
        invariant |deliveries| == id + 1 && deliveries[..id] == old(deliveries)
        invariant forall k :: 1 <= k < attempt ==> !Succeeds(send(k))
        invariant sends == old(sends) + attempt - 1
        invariant attempt <= maxAttempts ==> slept == old(slept) + TotalWait(attempt - 1) && log == old(log)
        invariant attempt <= maxAttempts ==>
          && deliveries[id].url == callbackUrl.value
          && deliveries[id].responseCode == LatestCode(send, attempt - 1)
          && deliveries[id].lastError == LatestError(send, attempt - 1)
        invariant attempt > maxAttempts ==>
          && slept == old(slept) + TotalWait(maxAttempts - 1)
          && log == old(log) + [WebhookFailed(maxAttempts)]
          && deliveries[id] == Delivery(callbackUrl.value, DeliveryFailed, maxAttempts,
               LatestCode(send, maxAttempts), LatestError(send, maxAttempts), false)
      {
        var result := send(attempt);
        sends := sends + 1;
        var ok := Succeeds(result);
        deliveries := deliveries[id := deliveries[id].(
          attempts := attempt,
          status := if ok then Delivered else DeliveryPending,
          lastError := if result.NoAnswer? then Some(result.error) else deliveries[id].lastError,
          responseCode := if result.Answered? then Some(result.code) else deliveries[id].responseCode,
          delivered := ok)];
        if ok {
          log := log + [WebhookDelivered(attempt)];
          a := attempt;
          return;
        }
        if attempt < maxAttempts {
          slept := slept + Wait(attempt);
        } else {
          deliveries := deliveries[id := deliveries[id].(status := DeliveryFailed)];
          log := log + [WebhookFailed(maxAttempts)];
        }
      }
      a := maxAttempts;
    }
  }
}
