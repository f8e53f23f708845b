/** What one drained batch does with its requests' result channels and callbacks.

    Every strategy of the executor ends in a loop over the batch that sends request `i`
    its result and then, on success, may invoke its `OnBatchComplete` callback. The
    batch protocol (BatchProtocol) runs any delivery of this shape; the strategies
    (BatchStrategies) are proved to produce only such deliveries. */
module Delivery {

  datatype Event = Send(i: nat) | Notify(i: nat)

  /** `plan` sends to requests `next .. n` in order; a callback follows directly on its
      own request's send. `mayNotify` says whether request `next - 1` may still be notified. */
  predicate InDelivery(plan: seq<Event>, next: nat, n: nat, mayNotify: bool)
    decreases |plan|
  {
    if plan == [] then
      next == n
    else
      match plan[0]
      case Send(i) => i == next && next < n && InDelivery(plan[1..], next + 1, n, true)
      case Notify(i) => mayNotify && i + 1 == next && InDelivery(plan[1..], next, n, false)
  }

  /** A complete delivery to a batch of `n` requests. */
  predicate IsDelivery(plan: seq<Event>, n: nat) {
    InDelivery(plan, 0, n, false)
  }

  ghost function Occurrences(plan: seq<Event>, e: Event): nat {
    if plan == [] then 0 else (if plan[0] == e then 1 else 0) + Occurrences(plan[1..], e)
  }

  function CallbacksIn(plan: seq<Event>): nat {
    if plan == [] then 0 else (if plan[0].Notify? then 1 else 0) + CallbacksIn(plan[1..])
  }

  lemma {:induction false} WeakenNotify(plan: seq<Event>, next: nat, n: nat)
    requires InDelivery(plan, next, n, false)
    ensures InDelivery(plan, next, n, true)
  {
    if plan != [] && plan[0].Send? {
      assert InDelivery(plan[1..], next + 1, n, true);
    }
  }

  lemma {:induction false} SendsFrom(plan: seq<Event>, next: nat, n: nat, mayNotify: bool, i: nat)
    requires InDelivery(plan, next, n, mayNotify)
    ensures next <= n
    ensures Occurrences(plan, Send(i)) == (if next <= i < n then 1 else 0)
    ensures Occurrences(plan, Notify(i)) <= (if (mayNotify && i + 1 == next) || next <= i < n then 1 else 0)
    decreases |plan|
  {
    if plan != [] {
      match plan[0]
      case Send(_) => SendsFrom(plan[1..], next + 1, n, true, i);
      case Notify(_) => SendsFrom(plan[1..], next, n, false, i);
    }
  }

  lemma {:induction false} CallbacksBounded(plan: seq<Event>, next: nat, n: nat, mayNotify: bool)
    requires InDelivery(plan, next, n, mayNotify)
    ensures next <= n && CallbacksIn(plan) <= n - next + (if mayNotify then 1 else 0)
    decreases |plan|
  {
    if plan != [] {
      match plan[0]
      case Send(_) => CallbacksBounded(plan[1..], next + 1, n, true);
      case Notify(_) => CallbacksBounded(plan[1..], next, n, false);
    }
  }

  /** Each request of the batch is sent exactly one result and notified at most once;
      nobody else is sent or notified anything. */
  lemma EachSentOnce(plan: seq<Event>, n: nat, i: nat)
    requires IsDelivery(plan, n)
    ensures Occurrences(plan, Send(i)) == (if i < n then 1 else 0)
    ensures Occurrences(plan, Notify(i)) <= (if i < n then 1 else 0)
  {
    SendsFrom(plan, 0, n, false, i);
  }

  /** The delivery without callbacks. */
  function SendsOnly(next: nat, n: nat): (plan: seq<Event>)
    requires next <= n
    ensures InDelivery(plan, next, n, true)
    ensures InDelivery(plan, next, n, false)
    decreases n - next
  {
    if next == n then [] else [Send(next)] + SendsOnly(next + 1, n)
  }
}
