/**
 * The buyer agent: it sends purchase requests, reads the seller's replies and,
 * after a refusal it may retry, schedules a delayed one-shot retry behaviour.
 * Random draws are parameters whose preconditions give their ranges.
 */
module Buyer {
  import opened Common

  /** A reply body as the listener decodes it: a JSON object with the fields
    * the listener looks at (each possibly missing), or anything else (a body
    * that is not JSON, or JSON that is not an object). */
  datatype Payload =
    | Dict(reason: Option<string>, product: Option<string>, requestedQuantity: Option<int>)
    | NotDict

  /** A message taken from the mailbox: its performative metadata, if set, and its body. */
  datatype Incoming = Incoming(performative: Option<string>, body: Payload)

  /** An outgoing `request` message: recipient, product and quantity. */
  datatype Request = Request(to: string, product: string, quantity: int)

  /** The state of one scheduled retry: what to ask for again, and after how long. */
  datatype RetryTask = RetryTask(product: string, quantity: int, delay: real)

  /** The behaviours an agent runs. */
  datatype Behaviour =
    | SendRequest
    | ListenResponse
    | RetryPurchase(task: RetryTask)

  /** The catalogue used when the agent is built without one. */
  const DEFAULT_PRODUCTS: seq<string> :=
    ["Apple", "Banana", "Grapefruit", "Orange", "Pear", "Melon", "Strawberry"]

  function LowerChar(c: char): char {
    if 'A' <= c <= 'Z' then (c as int - 'A' as int + 'a' as int) as char else c
  }

  /** No ASCII capital letter occurs in `s`. */
  predicate NoUpper(s: string) {
    forall i :: 0 <= i < |s| ==> !('A' <= s[i] <= 'Z')
  }

  /** `s.lower()` on ASCII letters: same length, no capital left, and a text
    * without capitals is returned as it is. */
  function Lower(s: string): (r: string)
    ensures |r| == |s| && NoUpper(r)
    ensures NoUpper(s) ==> r == s
  {
    seq(|s|, i requires 0 <= i < |s| => LowerChar(s[i]))
  }

  /** The performative, read case-insensitively; a missing one reads as "". */
  function Performative(msg: Incoming): (r: string)
    ensures NoUpper(r)
    ensures msg.performative.None? ==> r == ""
    ensures msg.performative.Some? && NoUpper(msg.performative.value) ==> r == msg.performative.value
  {
    Lower(msg.performative.GetOr(""))
  }

  /** A refusal the buyer may retry: performative `refuse`, a JSON object whose
    * reason is `out_of_stock` or `not_available`, and a non-empty product. A
    * message without a performative never qualifies. */
  function Retryable(msg: Incoming): (b: bool)
    ensures b ==> msg.performative.Some? && msg.body.Dict?
  {
    && Performative(msg) == "refuse"
    && msg.body.Dict?
    && (msg.body.reason == Some("out_of_stock") || msg.body.reason == Some("not_available"))
    && msg.body.product.Some? && msg.body.product.value != ""
  }

  /** Lower-casing is idempotent. */
  lemma LowerIdempotent(s: string)
    ensures Lower(Lower(s)) == Lower(s)
  {
  }

  /** Eligibility reads the performative case-insensitively: lower-casing it
    * beforehand changes nothing. */
  lemma RetryableIgnoresCase(s: string, body: Payload)
    ensures Retryable(Incoming(Some(s), body)) == Retryable(Incoming(Some(Lower(s)), body))
  {
    LowerIdempotent(s);
  }

  /** `random.uniform(lo, hi)` for the unit draw `u`. */
  function Uniform(lo: real, hi: real, u: real): (d: real)
    requires 0.0 <= u < 1.0
    ensures MinReal(lo, hi) <= d <= MaxReal(lo, hi)
  {
    UniformWithin(lo, hi, u);
    lo + (hi - lo) * u
  }

  lemma UniformWithin(lo: real, hi: real, u: real)
    requires 0.0 <= u < 1.0
    ensures MinReal(lo, hi) <= lo + (hi - lo) * u <= MaxReal(lo, hi)
  {
    var w := hi - lo;
    if lo <= hi {
      ProductNonNegative(w, u);
      ProductNonNegative(w, 1.0 - u);
    } else {
      ProductNonNegative(-w, u);
      ProductNonNegative(-w, 1.0 - u);
    }
  }

  lemma ProductNonNegative(a: real, b: real)
    requires 0.0 <= a && 0.0 <= b
    ensures 0.0 <= a * b
  {
  }

  /** The retry, if any, that the listener schedules for `msg`, given the draw
    * `draw` compared with `retryProbability` and the unit draw `u` that picks
    * the delay within `delayRange`. */
  function RetryFor(msg: Incoming, draw: real, u: real, retryProbability: real, delayRange: (real, real)): (r: Option<RetryTask>)
    requires 0.0 <= draw < 1.0 && 0.0 <= u < 1.0
    ensures r.Some? <==> Retryable(msg) && draw < retryProbability
    ensures r.Some? ==>
              && r.value.product == msg.body.product.value
              && r.value.quantity == msg.body.requestedQuantity.GetOr(1)
              && MinReal(delayRange.0, delayRange.1) <= r.value.delay <= MaxReal(delayRange.0, delayRange.1)
    ensures Retryable(msg) && retryProbability >= 1.0 ==> r.Some?
    ensures retryProbability <= 0.0 ==> r.None?
  {
    var perf := Performative(msg);
    if perf == "confirm" then None
    else if perf == "refuse" then
      match msg.body
      case NotDict => None
      case Dict(reason, product, requested) =>
        var quantity := requested.GetOr(1);
        if (reason == Some("out_of_stock") || reason == Some("not_available"))
           && product.Some? && product.value != "" then
          if draw < retryProbability then
            Some(RetryTask(product.value, quantity, Uniform(delayRange.0, delayRange.1, u)))
          else None
        else None
    else None
  }

  class BuyerAgent {
    const sellerJid: string
    const products: seq<string>
    const retryProbability: real
    const retryDelayRange: (real, real)
    var behaviours: seq<Behaviour>

    constructor (sellerJid: string, products: Option<seq<string>>, retryProbability: real,
                 retryDelayRange: (real, real))
      ensures this.sellerJid == sellerJid
      ensures this.products == products.GetOr(DEFAULT_PRODUCTS)
      ensures this.retryProbability == retryProbability && this.retryDelayRange == retryDelayRange
      ensures behaviours == []
    {
      this.sellerJid := sellerJid;
      this.products := products.GetOr(DEFAULT_PRODUCTS);
      this.retryProbability := retryProbability;
      this.retryDelayRange := retryDelayRange;
      this.behaviours := [];
    }

    /** The start-up hook: the periodic sender and the listener join the
      * agent's behaviours. */
    method Setup()
      modifies this
      ensures behaviours == old(behaviours) + [SendRequest, ListenResponse]
    {
      behaviours := behaviours + [SendRequest, ListenResponse];
    }

    /** One tick of the periodic sender: `choice` is the index drawn from the
      * catalogue and `qty` the quantity drawn from 1..5. With an empty
      * catalogue the draw raises `IndexError` before anything is sent: `None`. */
    method SendRequestRun(choice: nat, qty: int) returns (sent: Option<Request>)
      requires |products| > 0 ==> choice < |products|
      requires 1 <= qty <= 5
      ensures sent.None? <==> |products| == 0
      ensures sent.Some? ==>
                && sent.value.to == sellerJid
                && sent.value.product in products && sent.value.product == products[choice]
                && 1 <= sent.value.quantity <= 5 && sent.value.quantity == qty
    {
      if |products| == 0 {
        return None;
      }
      var product := products[choice];
      sent := Some(Request(sellerJid, product, qty));
    }

    /** The retry behaviour firing after its delay: one request to the seller
      * for the product and quantity it was built with. */
    method RetryPurchaseRun(task: RetryTask) returns (sent: Request)
      ensures sent.to == sellerJid
      ensures sent.product == task.product && sent.quantity == task.quantity
    {
      sent := Request(sellerJid, task.product, task.quantity);
    }

    /** One run of the listener. `msg` is what the mailbox yielded (`None`
      * after the receive timeout); `draw` and `u` are the two unit draws. */
    method ListenResponseRun(msg: Option<Incoming>, draw: real, u: real)
      requires 0.0 <= draw < 1.0 && 0.0 <= u < 1.0
      modifies this
      ensures msg.None? ==> behaviours == old(behaviours)
      ensures msg.Some? ==>
                behaviours == old(behaviours) +
                  match RetryFor(msg.value, draw, u, retryProbability, retryDelayRange)
                  case None => []
                  case Some(task) => [RetryPurchase(task)]
    {
      if msg.None? {
        return;
      }
      var m := msg.value;
      var perf := Performative(m);
      if perf == "confirm" {
        // the confirmation is only reported
      } else if perf == "refuse" {
        var reason := if m.body.Dict? then m.body.reason else None;
        var product := if m.body.Dict? then m.body.product else None;
        var requestedQty := if m.body.Dict? then m.body.requestedQuantity.GetOr(1) else 1;
        if (reason == Some("out_of_stock") || reason == Some("not_available"))
           && product.Some? && product.value != "" {
          if draw < retryProbability {
            var delay := Uniform(retryDelayRange.0, retryDelayRange.1, u);
            behaviours := behaviours + [RetryPurchase(RetryTask(product.value, requestedQty, delay))];
          }
        }
      }
    }
  }
}
