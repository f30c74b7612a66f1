/**
 * The seller agent's inventory ledger: a catalogue of prices, and per-product
 * stock, ceiling and units sold, plus the accumulated profit. Two behaviours
 * change it, each as one uninterrupted step: the purchase handler (one
 * incoming request, one reply) and the restock tick.
 */
module Seller {
  import opened Common

  /** A request body as the purchase handler decodes it: either it could not be
    * read as a JSON object with a usable quantity, or it carries the (possibly
    * missing) `product` and `quantity` fields. */
  datatype RequestBody =
    | Malformed
    | Fields(product: Option<string>, quantity: Option<int>)

  /** The reply the purchase handler sends back for one request. */
  datatype Reply =
    | Confirm(product: string, quantity: int, total: real)
    | RefuseMalformed
    | RefuseNotAvailable(requested: Option<string>, requestedQuantity: int)
    | RefuseOutOfStock(product: string, stock: int, requestedQuantity: int)

  /** The catalogue used when the agent is built without one. */
  const DEFAULT_PRODUCTS: map<string, real> :=
    map["Apple" := 1.0, "Banana" := 0.5, "Grapefruit" := 1.2, "Orange" := 0.8]

  /** The quantity a decoded request asks for; a missing field means one unit. */
  function RequestedQuantity(body: RequestBody): (q: int)
    requires body.Fields?
  {
    body.quantity.GetOr(1)
  }

  /** The product named by a decoded request is in the catalogue. */
  predicate Known(prices: map<string, real>, product: Option<string>) {
    product.Some? && product.value in prices
  }

  /** `stock.get(p, 0)`. */
  function Available(stock: map<string, int>, p: string): (n: int) {
    if p in stock then stock[p] else 0
  }

  /** Every product's stock lies between zero and its ceiling. */
  ghost predicate WithinBounds(stock: map<string, int>, maxStock: map<string, int>) {
    forall p :: p in stock ==> p in maxStock && 0 <= stock[p] <= maxStock[p]
  }

  /** The reply to one decoded request, given the catalogue and the stock before it.
    * Checks run in order: malformed, unknown product, enough stock. */
  function Answer(prices: map<string, real>, stock: map<string, int>, body: RequestBody): (r: Reply)
    ensures r.RefuseMalformed? <==> body.Malformed?
    ensures r.RefuseNotAvailable? <==> body.Fields? && !Known(prices, body.product)
    ensures r.RefuseNotAvailable? ==>
              r.requested == body.product && r.requestedQuantity == RequestedQuantity(body)
    ensures r.Confirm? <==>
              body.Fields? && Known(prices, body.product)
              && Available(stock, body.product.value) >= RequestedQuantity(body)
    ensures r.Confirm? ==>
              && r.product == body.product.value && r.product in prices
              && r.quantity == RequestedQuantity(body)
              && r.total == prices[r.product] * r.quantity as real
    ensures r.RefuseOutOfStock? ==>
              && r.product == body.product.value && r.product in prices
              && r.requestedQuantity == RequestedQuantity(body)
              && r.stock == Available(stock, r.product) < r.requestedQuantity
  {
    match body
    case Malformed => RefuseMalformed
    case Fields(product, _) =>
      var qty := RequestedQuantity(body);
      if product.None? || product.value !in prices then
        RefuseNotAvailable(product, qty)
      else
        var p := product.value;
        var available := Available(stock, p);
        if available >= qty then Confirm(p, qty, prices[p] * qty as real)
        else RefuseOutOfStock(p, available, qty)
  }

  /** Nothing rejects a negative quantity: it passes the stock check whenever the
    * stock is not negative, and is confirmed with the total `price * qty`, which
    * is negative for any product with a positive price. */
  lemma NegativeQuantityConfirmed(prices: map<string, real>, stock: map<string, int>, p: string, q: int)
    requires p in prices && p in stock && 0 <= stock[p] && q < 0
    ensures Answer(prices, stock, Fields(Some(p), Some(q))) == Confirm(p, q, prices[p] * q as real)
    ensures prices[p] > 0.0 ==> Answer(prices, stock, Fields(Some(p), Some(q))).total < 0.0
  {
    if prices[p] > 0.0 {
      ProductNegative(prices[p], q as real);
    }
  }

  /** A positive factor times a negative one is negative. */
  lemma ProductNegative(a: real, b: real)
    requires a > 0.0 && b < 0.0
    ensures a * b < 0.0
  {
    assert a * -b > 0.0;
  }

  /** A sale of at most the available units keeps every stock within its bounds. */
  lemma SaleWithinBounds(stock: map<string, int>, maxStock: map<string, int>, p: string, q: int)
    requires WithinBounds(stock, maxStock)
    requires p in stock && 0 <= q <= stock[p]
    ensures WithinBounds(stock[p := stock[p] - q], maxStock)
  {
  }

  /** One restock step for one product: raise `current` by at most `amount`,
    * never past `ceiling`, and leave it alone when it is already there. */
  function TopUp(current: int, ceiling: int, amount: int): (n: int)
    ensures current < ceiling ==> n == Min(current + amount, ceiling)
    ensures current >= ceiling ==> n == current
    ensures amount >= 0 ==> current <= n
    ensures amount >= 0 && current <= ceiling ==> n <= ceiling
  {
    if current < ceiling then current + Min(amount, ceiling - current) else current
  }

  /** The sum of price times units sold over `keys`. */
  ghost function Revenue(prices: map<string, real>, sold: map<string, int>, keys: set<string>): (total: real)
    requires keys <= prices.Keys && keys <= sold.Keys
    decreases keys
  {
    if keys == {} then 0.0
    else
      var p :| p in keys;
      prices[p] * sold[p] as real + Revenue(prices, sold, keys - {p})
  }

  /** Any product can be taken out of the sum first, whichever one the definition picks. */
  lemma {:induction false} RevenueRemove(prices: map<string, real>, sold: map<string, int>, keys: set<string>, x: string)
    requires keys <= prices.Keys && keys <= sold.Keys
    requires x in keys
    ensures Revenue(prices, sold, keys) == prices[x] * sold[x] as real + Revenue(prices, sold, keys - {x})
    decreases keys
  {
    var p :| p in keys && Revenue(prices, sold, keys) == prices[p] * sold[p] as real + Revenue(prices, sold, keys - {p});
    if p != x {
      RevenueRemove(prices, sold, keys - {p}, x);
      RevenueRemove(prices, sold, keys - {x}, p);
      assert keys - {p} - {x} == keys - {x} - {p};
    }
  }

  /** The sum only depends on the units sold of the products it ranges over. */
  lemma {:induction false} RevenueAgree(prices: map<string, real>, sold: map<string, int>, sold': map<string, int>, keys: set<string>)
    requires keys <= prices.Keys && keys <= sold.Keys && keys <= sold'.Keys
    requires forall p :: p in keys ==> sold[p] == sold'[p]
    ensures Revenue(prices, sold, keys) == Revenue(prices, sold', keys)
    decreases keys
  {
    if keys != {} {
      var x :| x in keys;
      RevenueRemove(prices, sold, keys, x);
      RevenueRemove(prices, sold', keys, x);
      RevenueAgree(prices, sold, sold', keys - {x});
    }
  }

  /** Selling `q` more units of `p` raises the sum by exactly `price[p] * q`. */
  lemma RevenueAfterSale(prices: map<string, real>, sold: map<string, int>, keys: set<string>, p: string, q: int)
    requires keys <= prices.Keys && keys <= sold.Keys && p in keys
    ensures Revenue(prices, sold[p := sold[p] + q], keys) == Revenue(prices, sold, keys) + prices[p] * q as real
  {
    var sold' := sold[p := sold[p] + q];
    var rest := keys - {p};
    calc {
      Revenue(prices, sold', keys);
    == { RevenueRemove(prices, sold', keys, p); }
      prices[p] * sold'[p] as real + Revenue(prices, sold', rest);
    == { RevenueAgree(prices, sold, sold', rest); }
      prices[p] * (sold[p] as real + q as real) + Revenue(prices, sold, rest);
    == { Distribute(prices[p], sold[p] as real, q as real, Revenue(prices, sold, rest)); }
      (prices[p] * sold[p] as real + Revenue(prices, sold, rest)) + prices[p] * q as real;
    == { RevenueRemove(prices, sold, keys, p); }
      Revenue(prices, sold, keys) + prices[p] * q as real;
    }
  }

  lemma Distribute(a: real, b: real, c: real, r: real)
    ensures a * (b + c) + r == (a * b + r) + a * c
  {
  }

  /** Nothing sold means no revenue. */
  lemma {:induction false} RevenueNothingSold(prices: map<string, real>, sold: map<string, int>, keys: set<string>)
    requires keys <= prices.Keys && keys <= sold.Keys
    requires forall p :: p in keys ==> sold[p] == 0
    ensures Revenue(prices, sold, keys) == 0.0
    decreases keys
  {
    if keys != {} {
      var x :| x in keys;
      RevenueRemove(prices, sold, keys, x);
      RevenueNothingSold(prices, sold, keys - {x});
    }
  }

  /** The seller agent's ledger, updated in place by its behaviours. */
  class SellerAgent {
    const products: map<string, real>
    const restockAmount: int
    const restockInterval: int
    var stock: map<string, int>
    var maxStock: map<string, int>
    var sold: map<string, int>
    var profit: real

    /** The three per-product tables share the catalogue's keys, and the profit
      * is the revenue of everything sold so far. */
    ghost predicate Valid()
      reads this
    {
      && stock.Keys == products.Keys
      && maxStock.Keys == products.Keys
      && sold.Keys == products.Keys
      && profit == Revenue(products, sold, products.Keys)
    }

    /** Stock within [0, ceiling] for every product. */
    ghost predicate Bounded()
      reads this
    {
      WithinBounds(stock, maxStock)
    }

    constructor (products: Option<map<string, real>>, initialStock: int, maxStock: int,
                 restockAmount: int, restockInterval: int)
      ensures Valid()
      ensures this.products == products.GetOr(DEFAULT_PRODUCTS)
      ensures forall p :: p in stock ==> stock[p] == initialStock
      ensures forall p :: p in this.maxStock ==> this.maxStock[p] == maxStock
      ensures forall p :: p in sold ==> sold[p] == 0
      ensures profit == 0.0
      ensures this.restockAmount == restockAmount && this.restockInterval == restockInterval
      ensures 0 <= initialStock <= maxStock ==> Bounded()
    {
      var catalogue := products.GetOr(DEFAULT_PRODUCTS);
      this.products := catalogue;
      this.stock := map p | p in catalogue :: initialStock;
      this.maxStock := map p | p in catalogue :: maxStock;
      this.restockAmount := restockAmount;
      this.restockInterval := restockInterval;
      this.sold := map p | p in catalogue :: 0;
      this.profit := 0.0;
      new;
      RevenueNothingSold(catalogue, sold, catalogue.Keys);
    }

    /** One run of the purchase handler. `msg` is what the mailbox yielded
      * (`None` after the receive timeout); the result is the reply sent, if any. */
    method HandlePurchase(msg: Option<RequestBody>) returns (reply: Option<Reply>)
      requires Valid()
      modifies this
      ensures Valid()
      ensures reply.None? <==> msg.None?
      ensures msg.Some? ==> reply == Some(Answer(products, old(stock), msg.value))
      ensures maxStock == old(maxStock)
      ensures reply.Some? && reply.value.Confirm? ==>
                var p, q := reply.value.product, reply.value.quantity;
                && stock == old(stock)[p := old(stock)[p] - q]
                && sold == old(sold)[p := old(sold)[p] + q]
                && profit == old(profit) + reply.value.total
      ensures !(reply.Some? && reply.value.Confirm?) ==>
                stock == old(stock) && sold == old(sold) && profit == old(profit)
      ensures old(Bounded()) && (msg.Some? && msg.value.Fields? ==> RequestedQuantity(msg.value) >= 0)
              ==> Bounded() && forall p :: p in sold ==> old(sold)[p] <= sold[p]
    {
      if msg.None? {
        return None;
      }
      ghost var expected := Answer(products, stock, msg.value);
      match msg.value {
        case Malformed =>
          reply := Some(RefuseMalformed);
        case Fields(product, quantity) =>
          var qty := quantity.GetOr(1);
          if product.None? || product.value !in products {
            reply := Some(RefuseNotAvailable(product, qty));
          } else {
            var p := product.value;
            var available := if p in stock then stock[p] else 0;
            if available >= qty {
              if Bounded() && qty >= 0 {
                SaleWithinBounds(stock, maxStock, p, qty);
              }
              assert expected == Confirm(p, qty, products[p] * qty as real);
              var total := Sell(p, qty);
              reply := Some(Confirm(p, qty, total));
            } else {
              reply := Some(RefuseOutOfStock(p, available, qty));
            }
          }
      }
    }

    /** The ledger update of one confirmed sale: the stock goes down by `qty`,
      * the units sold go up by `qty`, and the profit by the sale's total. */
    method Sell(p: string, qty: int) returns (total: real)
      requires Valid() && p in products
      modifies this
      ensures Valid()
      ensures total == products[p] * qty as real
      ensures stock == old(stock)[p := old(stock)[p] - qty]
      ensures sold == old(sold)[p := old(sold)[p] + qty]
      ensures profit == old(profit) + total
      ensures maxStock == old(maxStock)
    {
      total := products[p] * qty as real;
      RevenueAfterSale(products, sold, products.Keys, p, qty);
      profit := profit + total;
      sold := sold[p := sold[p] + qty];
      stock := stock[p := stock[p] - qty];
    }

    /** One tick of the restock behaviour: every product below its ceiling is
      * topped up by at most `restockAmount`. */
    method Restock()
      requires Valid()
      modifies this
      ensures Valid()
      ensures stock.Keys == old(stock).Keys
      ensures forall p :: p in stock ==> stock[p] == TopUp(old(stock)[p], maxStock[p], restockAmount)
      ensures maxStock == old(maxStock) && sold == old(sold) && profit == old(profit)
      ensures old(Bounded()) && restockAmount >= 0 ==> Bounded()
    {
      var pending := products.Keys;
      while pending != {}
        invariant pending <= products.Keys
        invariant stock.Keys == old(stock).Keys
        invariant maxStock == old(maxStock) && sold == old(sold) && profit == old(profit)
        invariant forall p :: p in pending ==> stock[p] == old(stock)[p]
        invariant forall p :: p in stock && p !in pending ==>
                    stock[p] == TopUp(old(stock)[p], maxStock[p], restockAmount)
        decreases pending
      {
        var p :| p in pending;
        var current := if p in stock then stock[p] else 0;
        var ceiling := if p in maxStock then maxStock[p] else current;
        if current < ceiling {
          var add := Min(restockAmount, ceiling - current);
          stock := stock[p := current + add];
        }
        pending := pending - {p};
      }
    }
  }
}
