/**
 * How the two agents see each other's messages, and what follows when a
 * buyer's request meets the seller's ledger: which replies lead to a retry,
 * and that a retry asks for exactly what was refused.
 */
module Exchange {
  import opened Common
  import Seller
  import Buyer

  /** The body the seller decodes from a buyer's `request`: both fields are
    * present, so it is never malformed, and it asks for the product and the
    * quantity the buyer sent. */
  function Received(m: Buyer.Request): (b: Seller.RequestBody)
    ensures b.Fields? && b.product == Some(m.product)
    ensures Seller.RequestedQuantity(b) == m.quantity
  {
    Seller.Fields(Some(m.product), Some(m.quantity))
  }

  /** The message the buyer reads from a seller's reply: its performative and
    * the fields the reply's JSON object carries. A confirmation reads as
    * `confirm`, every refusal as `refuse`; the buyer may retry exactly the
    * availability and stock refusals that name a product, and then sees the
    * refused product and quantity. */
  function Delivered(r: Seller.Reply): (m: Buyer.Incoming)
    ensures Buyer.Performative(m) == "confirm" <==> r.Confirm?
    ensures Buyer.Performative(m) == "refuse" <==> !r.Confirm?
    ensures Buyer.Retryable(m) <==>
              || (r.RefuseNotAvailable? && r.requested.Some? && r.requested.value != "")
              || (r.RefuseOutOfStock? && r.product != "")
    ensures r.RefuseNotAvailable? ==>
              m.body.Dict? && m.body.product == r.requested && m.body.requestedQuantity == Some(r.requestedQuantity)
    ensures r.RefuseOutOfStock? ==>
              m.body.Dict? && m.body.product == Some(r.product) && m.body.requestedQuantity == Some(r.requestedQuantity)
  {
    match r
    case Confirm(p, _, _) =>
      Buyer.Incoming(Some("confirm"), Buyer.Dict(None, Some(p), None))
    case RefuseMalformed =>
      Buyer.Incoming(Some("refuse"), Buyer.Dict(Some("malformed_request"), None, None))
    case RefuseNotAvailable(p, q) =>
      Buyer.Incoming(Some("refuse"), Buyer.Dict(Some("not_available"), p, Some(q)))
    case RefuseOutOfStock(p, _, q) =>
      Buyer.Incoming(Some("refuse"), Buyer.Dict(Some("out_of_stock"), Some(p), Some(q)))
  }

  /** Only an availability or stock refusal can lead to a retry: never a
    * confirmation, never a malformed-request refusal, whatever the draws. */
  lemma OnlyStockRefusalsRetried(r: Seller.Reply, draw: real, u: real, retryProbability: real, delayRange: (real, real))
    requires 0.0 <= draw < 1.0 && 0.0 <= u < 1.0
    ensures Buyer.RetryFor(Delivered(r), draw, u, retryProbability, delayRange).Some? ==>
              r.RefuseNotAvailable? || r.RefuseOutOfStock?
    ensures r.Confirm? || r.RefuseMalformed? ==>
              Buyer.RetryFor(Delivered(r), draw, u, retryProbability, delayRange).None?
  {
  }

  /** A request the seller refuses is retried, when the draw falls below the
    * retry probability, and the retry asks for the same product and quantity. */
  lemma RefusedRequestRetriedUnchanged(prices: map<string, real>, stock: map<string, int>, req: Buyer.Request,
                                       draw: real, u: real, retryProbability: real, delayRange: (real, real))
    requires 0.0 <= draw < 1.0 && 0.0 <= u < 1.0
    requires req.product != ""
    requires !Seller.Answer(prices, stock, Received(req)).Confirm?
    ensures var retry := Buyer.RetryFor(Delivered(Seller.Answer(prices, stock, Received(req))), draw, u, retryProbability, delayRange);
            && (retry.Some? <==> draw < retryProbability)
            && (retry.Some? ==> retry.value.product == req.product && retry.value.quantity == req.quantity)
  {
  }

  /** Four requests for three apples against a fresh default seller (ten of
    * each product, ceiling twenty) with no restock in between: three sales
    * that leave 7, 4 and 1, then an out-of-stock refusal reporting 1. */
  method SellOutScenario() returns (replies: seq<Option<Seller.Reply>>, levels: seq<int>)
    ensures levels == [10, 7, 4, 1]
    ensures replies == [Some(Seller.Confirm("Apple", 3, 3.0)), Some(Seller.Confirm("Apple", 3, 3.0)),
                        Some(Seller.Confirm("Apple", 3, 3.0)), Some(Seller.RefuseOutOfStock("Apple", 1, 3))]
  {
    var seller := new Seller.SellerAgent(None, 10, 20, 10, 5);
    var before1, reply1 := RequestThreeApples(seller);
    var before2, reply2 := RequestThreeApples(seller);
    var before3, reply3 := RequestThreeApples(seller);
    var before4, reply4 := RequestThreeApples(seller);
    levels := [before1, before2, before3, before4];
    replies := [reply1, reply2, reply3, reply4];
  }

  /** One request for three apples at one unit of price each. */
  method RequestThreeApples(seller: Seller.SellerAgent) returns (before: int, reply: Option<Seller.Reply>)
    requires seller.Valid() && "Apple" in seller.products && seller.products["Apple"] == 1.0
    modifies seller
    ensures seller.Valid()
    ensures before == old(seller.stock["Apple"])
    ensures before >= 3 ==> reply == Some(Seller.Confirm("Apple", 3, 3.0)) && seller.stock["Apple"] == before - 3
    ensures before < 3 ==> reply == Some(Seller.RefuseOutOfStock("Apple", before, 3)) && seller.stock["Apple"] == before
  {
    before := seller.stock["Apple"];
    reply := seller.HandlePurchase(Some(Seller.Fields(Some("Apple"), Some(3))));
  }

  /** The retry example: the seller has no apples; the buyer asks for two,
    * is refused, and with retry probability 1 schedules exactly one retry,
    * which asks the same seller for the same two apples after a delay in
    * the configured window. */
  method RetryScenario(draw: real, u: real) returns (first: Buyer.Request, scheduled: seq<Buyer.Behaviour>, retry: Buyer.Request)
    requires 0.0 <= draw < 1.0 && 0.0 <= u < 1.0
    ensures first == retry == Buyer.Request("seller@localhost", "Apple", 2)
    ensures |scheduled| == 1 && scheduled[0].RetryPurchase?
    ensures 3.0 <= scheduled[0].task.delay <= 10.0
  {
    var seller := new Seller.SellerAgent(None, 0, 20, 10, 20);
    var buyer := new Buyer.BuyerAgent("seller@localhost", None, 1.0, (3.0, 10.0));
    var sent := buyer.SendRequestRun(0, 2);
    first := sent.value;
    var reply := seller.HandlePurchase(Some(Received(first)));
    assert reply == Some(Seller.RefuseOutOfStock("Apple", 0, 2));
    buyer.ListenResponseRun(Some(Delivered(reply.value)), draw, u);
    scheduled := buyer.behaviours;
    retry := buyer.RetryPurchaseRun(scheduled[0].task);
  }

  /** A request for minus two apples against a default seller holding 19 of a
    * ceiling of 20: it is confirmed with a total of -2.0, the stock rises to
    * 21, past the ceiling, and the units sold and the profit drop to -2. */
  method NegativeQuantityScenario() returns (reply: Option<Seller.Reply>, stock: int, ceiling: int, sold: int, profit: real)
    ensures reply == Some(Seller.Confirm("Apple", -2, -2.0))
    ensures stock == 21 && ceiling == 20 && stock > ceiling
    ensures sold == -2 && profit == -2.0
  {
    var seller := new Seller.SellerAgent(None, 19, 20, 10, 5);
    reply := seller.HandlePurchase(Some(Seller.Fields(Some("Apple"), Some(-2))));
    stock, ceiling, sold, profit := seller.stock["Apple"], seller.maxStock["Apple"], seller.sold["Apple"], seller.profit;
  }
}
