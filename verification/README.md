# Marketplace agents: seller ledger, buyer retry policy, buyer-list parser

A Dafny model of the sequential core of a small agent marketplace. One seller agent
keeps a finite-stock inventory, and buyer agents send it purchase requests.

- **Seller** (`seller.dfy`). `SellerAgent` is a class. Its `stock`, `maxStock` and
  `sold` maps and its `profit` are changed in place by two behaviour bodies:
  - `HandlePurchase` answers one request. It refuses a malformed body, then an
    unknown product, then a sale there is not enough stock for, and otherwise
    sells.
  - `Restock` tops every product up towards its ceiling.

  Each body is one atomic step, because the source has no suspension point
  between reading the ledger and writing it. The object invariant `Valid()`
  has two parts:
  - the three tables share the catalogue's keys;
  - `profit` equals the sum of `price[p] * sold[p]` (`Revenue`).

  `Bounded()` (stock between 0 and the ceiling) is kept by both behaviours,
  given a non-negative requested quantity and a non-negative restock amount.
- **Buyer** (`buyer.dfy`).
  - `RetryFor` is the listener's decision. It takes the reply's performative
    (case-insensitive), its decoded body and two unit random draws, and says
    whether a retry is scheduled, for which product and quantity, and with
    what delay.
  - `BuyerAgent` holds the agent's behaviour list. `ListenResponseRun` appends
    the retry behaviour to it.
  - `SendRequestRun` and `RetryPurchaseRun` return the one `request` each of
    them sends.
- **Launcher parser** (`run_agents.dfy`).
  - `ParseBuyersSpec` is the loop that turns `"jid:pwd,jid:pwd"` into pairs.
    It is proved equal to the reference definition `ParseSpec`.
  - `ParseSpec` is built on models of Python's `split(',')`, `split(':', 1)`
    and `strip()`.
  - A formatted list of clean pairs parses back to itself (`RoundTrip`).
- **Exchange** (`exchange.dfy`).
  - It states how each agent reads the other's messages, with JSON abstracted
    to field values.
  - It proves that only `not_available` and `out_of_stock` refusals can cause
    a retry, and that a retry asks again for exactly the refused product and
    quantity.
  - It replays three scenarios against the classes: selling out apples three
    at a time, a refused request for two apples that is retried, and a
    negative quantity that is sold.

Money amounts, probabilities and delays are `real`. Random choices are
parameters whose preconditions give their ranges:
- `choice < |products|`, and `1 <= qty <= 5`;
- `0 <= draw < 1` for `random.random()`;
- a unit draw `u` for `random.uniform(lo, hi) = lo + (hi - lo) * u`.

A mailbox read that times out is `None`. A reply is the method's return value
rather than a send.

Where the code differs from the system's documented intent, the model follows
the code:
- A request's quantity is not checked. Zero and negative quantities reach the
  stock check. A negative one is always "sold" when the stock is not negative
  (`Seller.NegativeQuantityConfirmed`). The sale raises the stock, possibly past
  the ceiling, and lowers the units sold. It also lowers the profit when the
  price is positive (`Exchange.NegativeQuantityScenario`). This is why the
  bound invariant is conditional on a non-negative quantity.
- A missing `quantity` field means 1.
- A `not_available` refusal may carry a null product.
- The out-of-stock refusal's field is `stock`.
- The buyer's quantity range is fixed at 1..5.
- The restock tick computes `current + min(amount, max - current)`. `TopUp`
  proves this equals `min(current + amount, max)` for every product below its
  ceiling.

## Model

| member | source | states |
|---|---|---|
| `Seller.SellerAgent.constructor` | PL2/seller.py:16-42 | The catalogue is the given one, or the four-product default when none is given. `stock`, `max_stock` and `sold` have exactly the catalogue's keys, with values `initial_stock`, `max_stock` and 0. `profit` is 0, so the revenue invariant holds from the start. Stock is within bounds when `0 <= initial_stock <= max_stock`. |
| `Seller.Answer` | PL2/seller.py:50-90 | Exactly one reply per decoded request. Malformed iff the body did not decode. `not_available` iff the product is missing or not in the catalogue; it carries that product and the requested quantity (default 1). A confirm happens iff the stock before the request is at least the quantity; it carries `total == price * qty`. Otherwise `out_of_stock` carries the pre-request stock, which is below the quantity. |
| `Seller.SellerAgent.HandlePurchase` | PL2/seller.py:45-92 | A timeout gives no reply and no change. Otherwise the reply is `Answer` on the pre-request stock. A confirm lowers `stock[p]` by `qty`, raises `sold[p]` by `qty` and `profit` by the total, and leaves every other product untouched. Any refusal changes nothing. Ceilings never change. The key sets and `profit == Σ price·sold` are preserved. Given `qty >= 0`, stock bounds are preserved and `sold` never decreases. |
| `Seller.TopUp` | PL2/seller.py:98-102 | Below the ceiling, the new stock is `min(current + amount, ceiling)`. At or above it, the stock is unchanged. With `amount >= 0` the stock never decreases and never passes the ceiling. |
| `Seller.SellerAgent.Restock` | PL2/seller.py:95-103 | Every product's stock becomes `TopUp(old stock, ceiling, restock_amount)`. The key sets, ceilings, `sold` and `profit` are unchanged. Bounds are preserved when `restock_amount >= 0`. |
| `Seller.SellerAgent.Sell` | PL2/seller.py:72-76 | One confirmed sale of `qty` units of `p`. The total is `price[p] * qty`. `stock[p]` goes down by `qty`, `sold[p]` goes up by `qty` and `profit` goes up by the total. Every other product and every ceiling is unchanged, and `profit == Σ price·sold` still holds. |
| `Seller.RevenueAfterSale` | PL2/seller.py:72-76 | Selling `q` units of `p` raises `Σ price·sold` by exactly `price[p] * q`, so the profit update keeps the invariant. |
| `Seller.RevenueRemove` | PL2/seller.py:74-75 | The sum of `price·sold` splits off any one product, whichever product the definition picks first. |
| `Seller.RevenueAgree` | PL2/seller.py:75 | The sum depends only on the units sold of the products it ranges over, so a sale of `p` leaves the other products' share unchanged. |
| `Seller.RevenueNothingSold` | PL2/seller.py:41-42 | With every `sold` entry 0, the sum is 0, which matches the initial `profit` of 0. |
| `Seller.NegativeQuantityConfirmed` | PL2/seller.py:53-76 | A negative quantity for a known product with non-negative stock is confirmed, with total `price * qty`. That total is negative whenever the price is positive. |
| `Buyer.Lower` | PL2/buyer.py:72 | Lower-casing keeps the length and leaves no ASCII capital. A text without capitals comes back unchanged. |
| `Buyer.Performative` | PL2/buyer.py:66 | The performative as compared: a missing one reads as `""`. The result has no ASCII capital, and a performative already in lower case is read as it is. |
| `Buyer.Retryable` | PL2/buyer.py:72-79 | Only a message that has a performative and a JSON-object body can qualify for a retry. A missing performative reads as `""`, which is not `refuse`. |
| `Buyer.RetryableIgnoresCase` | PL2/buyer.py:72-79 | Eligibility for a retry does not depend on the performative's case: lower-casing it beforehand gives the same answer. |
| `Buyer.Uniform` | PL2/buyer.py:81 | The delay drawn from the range lies between its two ends, whichever end is larger. |
| `Buyer.RetryFor` | PL2/buyer.py:66-86 | A retry is scheduled iff all of these hold: the performative is `refuse` (case-insensitive); the body is an object whose reason is `out_of_stock` or `not_available`; the product is non-empty; and the draw is below `retry_probability`. The retry's product is the refused one. Its quantity is `requested_quantity`, or 1 when that field is absent. Its delay lies in the range. A probability of at least 1 always retries an eligible refusal, and a probability of at most 0 never retries. |
| `Buyer.BuyerAgent.constructor` | PL2/buyer.py:14-31 | Keeps the seller address, the probability and the delay range. The catalogue is the given one, or the seven-product default. No behaviours are added yet. |
| `Buyer.BuyerAgent.Setup` | PL2/buyer.py:90-95 | The start-up hook appends the periodic sender and then the listener to the agent's behaviours. |
| `Buyer.BuyerAgent.SendRequestRun` | PL2/buyer.py:34-42 | One `request` to the seller. Its product is the chosen catalogue entry, and its quantity is the drawn one, in 1..5. With an empty catalogue the draw raises `IndexError` before any send, shown as `None`. |
| `Buyer.BuyerAgent.RetryPurchaseRun` | PL2/buyer.py:52-57 | One `request` to the seller, with the product and quantity the retry was built with. |
| `Buyer.BuyerAgent.ListenResponseRun` | PL2/buyer.py:61-88 | A timeout leaves the behaviour list unchanged. Otherwise the list gains exactly the retry `RetryFor` decides on, or nothing. |
| `RunAgents.Find` | PL2/run_agents.py:68 | The index found holds the first `:`, or the text has none. |
| `RunAgents.Split` | PL2/run_agents.py:65 | Splitting on `,` gives at least one token, and no token contains `,`. |
| `RunAgents.JoinSplit` | PL2/run_agents.py:65 | Re-joining the tokens with `,` gives back the input, so the tokens are the input's comma-separated pieces, in order. |
| `RunAgents.SplitJoin` | PL2/run_agents.py:65 | Splitting a join of comma-free pieces gives back the pieces. |
| `RunAgents.TrimLeft` | PL2/run_agents.py:69 | The result is a suffix of the input that does not start with whitespace. Everything removed is whitespace. |
| `RunAgents.TrimRight` | PL2/run_agents.py:69 | The result is a prefix of the input that does not end with whitespace. Everything removed is whitespace. |
| `RunAgents.Strip` | PL2/run_agents.py:69 | The result has no leading or trailing whitespace. `StripCore` determines which text it is. |
| `RunAgents.StripCore` | PL2/run_agents.py:69 | Take any way of writing a text as whitespace, then a middle part with no surrounding whitespace, then whitespace. Stripping the text gives exactly that middle part. Every text can be written this way, so this fixes the result of `strip()` on every input, inner whitespace included. |
| `RunAgents.StripTrimmed` | PL2/run_agents.py:69 | Stripping a text with no surrounding whitespace leaves it unchanged. |
| `RunAgents.StripKeepsOut` | PL2/run_agents.py:69 | Stripping adds no character, so a jid without `:` stays without `:`. |
| `RunAgents.SplitPair` | PL2/run_agents.py:68-69 | A token with a `:` splits at its first `:` into a jid that contains no `:` and two halves with no surrounding whitespace. |
| `RunAgents.ParseBuyersSpec` | PL2/run_agents.py:60-70 | The loop returns `ParseSpec`: an empty list for a missing or empty option; `ValueError` when any comma-separated token lacks `:`; otherwise one stripped pair per token, split at its first `:`, in input order. |
| `RunAgents.TrailingCommaRejected` | PL2/run_agents.py:65-67 | A text ending in `,` yields an empty last token and so raises `ValueError`. |
| `RunAgents.ParsedPairsClean` | PL2/run_agents.py:68-69 | In every parsed pair, the jid contains no `:`, and both the jid and the password are stripped. |
| `RunAgents.SplitPairOfEntry` | PL2/run_agents.py:68-69 | A `jid:password` entry, where the jid has no `:` and neither half has surrounding whitespace, splits back into the two halves. |
| `RunAgents.RoundTrip` | PL2/run_agents.py:60-70 | Suppose no jid contains `:` or `,`, no password contains `,`, and neither half has surrounding whitespace. Then joining the pairs as `jid:pwd` with `,` and parsing the result gives back the same pairs. |
| `Exchange.Received` | PL2/seller.py:51-53 | The seller decodes a buyer's request (buyer.py:40 and 56) with both fields present: never malformed, and asking for the product and quantity the buyer sent. |
| `Exchange.Delivered` | PL2/buyer.py:66-79 | The buyer reads a seller reply (seller.py:58, 65, 80, 89) as `confirm` exactly for a confirmation and as `refuse` for every refusal. It may retry exactly the `not_available` and `out_of_stock` refusals that name a non-empty product, and then sees the refused product and quantity. |
| `Exchange.OnlyStockRefusalsRetried` | PL2/buyer.py:72-83 | A confirmation or a `malformed_request` refusal from the seller never schedules a retry, whatever the draws. Only `not_available` and `out_of_stock` can. |
| `Exchange.RefusedRequestRetriedUnchanged` | PL2/buyer.py:76-83 | When the seller refuses a buyer's request for a named product, a retry is scheduled iff the draw is below the probability. The retry asks for the same product and quantity. |
| `Exchange.SellOutScenario` | PL2/seller.py:70-90 | A fresh default seller with 10 apples and a ceiling of 20 gets four requests for 3 apples. The stock before each request is 10, 7, 4 and 1. The replies are three confirms with total 3.0, then `out_of_stock` reporting 1. |
| `Exchange.NegativeQuantityScenario` | PL2/seller.py:70-76 | A default seller holds 19 apples with a ceiling of 20 and gets a request for -2 apples. The request is confirmed with a total of -2.0. The stock becomes 21, above the ceiling, and the units sold and the profit become -2. |
| `Exchange.RetryScenario` | PL2/buyer.py:76-83 | A seller with no apples refuses a request for 2 apples. With retry probability 1, the buyer schedules exactly one retry, with a delay within the (3, 10) window. That retry sends the same request to the same seller. |

## Left out

- Agent runtime: `Agent`, `start`/`stop`, registration, `receive(timeout)`,
  `send`, `Message` and `make_reply` are foreign-library I/O. A mailbox read is
  an `Option` parameter, and a send is a returned value. Correlation of a reply
  to its request is not modelled.
- Scheduling: periodic and cyclic scheduling, `asyncio.sleep`, periods and
  timeouts are not modelled. Each behaviour body is one atomic step.
  `restockInterval` is stored but plays no part. A retry's delay is recorded
  but not waited for.
- The seller's `setup` hook (PL2/seller.py:113-119) is left out. It only
  registers the handler, the restock tick and the printer with the scheduler,
  and the seller model keeps no behaviour list.
- `ProfitPrinter` and every `print` are left out, because they only produce
  console output.
- JSON: encoding and decoding are abstracted to field values. `int()` coercion
  of strings or floats is not modelled: quantities are already integers, or a
  body is `Malformed`. A request's product is a string or missing. Other
  JSON product values are not modelled:
  - a number or a boolean is refused `not_available` and echoed back, and the
    buyer retries it when it is truthy;
  - a list or an object raises `TypeError` at the catalogue test, outside the
    handler's checks.

  A `requested_quantity` of `null` is not modelled either: the buyer's `int()`
  call raises on it.
- `Buyer.BuyerAgent.SendRequestRun`: with an empty catalogue, `random.choice`
  raises `IndexError`. The model returns `None`, meaning nothing is sent. What
  the runtime then does with the failed periodic behaviour is not modelled.
- Floating point: prices, totals, profit, probabilities and delays are exact
  reals. There is no rounding.
- `Buyer.Lower`: it lower-cases ASCII letters only, while Python's `str.lower`
  covers all of Unicode. The performatives compared are ASCII words.
- `Seller.SellerAgent.Restock`: it visits the products in an arbitrary order,
  not dict insertion order. Each iteration reads and writes only its own
  product, so the final state is the same.
- Process bootstrap: `start_agents` and the command-line block in
  PL2/run_agents.py are left out, because they start processes and parse
  arguments.
- The agents' jid and password, used only for registration, are left out.
- The PL1 demo scripts are left out, because they only send, receive and sleep.
