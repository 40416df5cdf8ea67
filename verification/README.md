# A model of a wholesale marketplace backend

The project models the stateful core of a wholesale marketplace: orders, pricing rules, price
requests sent to many sellers, listings, personal catalog categories, ranked lists, printed amounts and
the category tree. Tables are maps from id to record; a request handler is a method of a class that holds
those tables, and is tied by its contract to a function of the tables before the call. What the handlers
guarantee together, over every run of them, is proved about those functions. What a single call answers and
writes is proved in terms of the request and the stored rows alone, in the modules named after answers.

| module | models |
|---|---|
| `Orders` | the order protocol with one handler at a time: statuses, timelines, document numbers, the lazy seven-day close |
| `OrdersInterleaved` | the same handlers split at every database call, any number of them interleaving |
| `OrdersTimelines` | exactly when the interleaved handlers keep every timeline append-only |
| `OrderAnswers` | what each order handler answers and writes, column by column |
| `Tiers`, `Pricing` | volume tiers, percent/amount/final-price entry, three levels of overrides, the price preview |
| `PriceAnswers` | what the preview shows and the saves store, in terms of the rules and the requests |
| `Rfq`, `RfqRuns` | groups of inquiries: request, stop, restart, repeat, answer, accept, and the order that follows |
| `RfqClosing` | exactly how long an accepted group stays closed |
| `RfqFanout` | which sellers a request goes to |
| `RfqOrdering` | which offers of a group can be ordered from, after any run |
| `RfqView`, `RfqFetch` | the buyer's list, regrouped from flat rows, and what the fetch of the oldest 200 leaves out |
| `RfqAnswers`, `FanoutAnswers`, `ViewAnswers` | what the inquiry handlers, the requests and the buyer's list answer and write, column by column |
| `VariantKey`, `Listings`, `ListingRuns` | saving a listing, merging duplicates, bulk price changes, the price log |
| `ListingAnswers` | what a save and a bulk change leave of a listing, column by column |
| `Guards`, `Catalog` | the cache of business rows behind the ownership check, and catalog categories |
| `Matching`, `BuyRequests` | price ranks, and the ranked list of buy requests |
| `PersianNumbers` | printing an amount in Persian digits and reading it back |
| `CategoryTree` | building and pruning the public category tree |
| `Sorting`, `JsNumber`, `Wrappers` | the stable sort, rounding, and nullable values that the others share |

Numbers are exact: integers and reals. A stored id is opaque; a group key is either an object id or a UUID.
A clock reading is a parameter of the handler. A query that may return any of several rows (`findFirst`
with ties, or without an order) is an answer that the contract constrains, so the theorems hold for
every answer the database may give.

## Where the code and its comments disagree

The model follows the code.

- `normTiers` is commented "sorted, no overlap, open end only in the last". Nested tiers break that
  (`Tiers.NestedTiersOverlap`); `Tiers.PromiseIff` says for exactly which rows it holds, and
  `Tiers.LookupPreserved` that no quantity's discount is affected either way.
- An accepted inquiry group is documented as final. It is final exactly until a stop reaches it
  (`RfqClosing.StaysClosedIff`): stopping clears `closedAt`, after which a restart goes through
  (`RfqClosing.AcceptedThenReopened`).
- An order is meant for the winner of a closed group only, and an acceptance for one winner. The guard asks who
  was accepted last (`RfqOrdering.OrderedIff`): an order also goes through exactly when a stop came after that
  acceptance (`RfqOrdering.OpenOrderIff`, `RfqOrdering.OrderedWhileStopped`), and a group gets a second order
  exactly when another of its offers is accepted later (`RfqOrdering.SecondOrderIff`, `RfqOrdering.TwoOrders`).
- The buyer's list is meant to hold the buyer's inquiries and offers. It fetches the oldest 200 and 500, so from
  the 201st on nothing new is shown (`RfqFetch.InquiryShownIff`, `RfqFetch.OfferShownIff`), and an answer to a
  group that is not fetched is shown elsewhere, possibly at another total (`RfqFetch.LateAnswerIsElsewhere`).
  `RfqFetch.ShownWhereAcceptedIff` says for exactly which offers the list and the acceptance agree.
- The first listing resolved for a seller and good is commented as its cheapest. It is, exactly when the seller
  has no listing of the good without a price, or only such (`RfqFanout.FirstIsCheapestIff`);
  `RfqFanout.UnpricedHidesPrice` is a seller ranked behind a dearer one.
- A variant key is meant to tell combinations of attributes apart. Separators inside names and values
  (`VariantKey.BarCollides`) and the cut at sixty characters (`VariantKey.LongCollides`) let two share a key;
  without separators `VariantKey.SameKeyIff` is exact.
- A merge of duplicate listings moves inquiries and offers along. An offer that is looked up by its listing and
  seller can thereby land in another group and no longer be ordered from (`RfqOrdering.MergedAway`);
  `RfqRuns.MergeSettles` says exactly when it stays.
- The order timeline is described as append-only. Over every interleaving it is so exactly as long as each
  status write still finds the timeline it was computed from, or the one it is about to write
  (`OrdersTimelines.AppendOnlyIff`); `OrdersInterleaved.AcceptanceIsLost` is a run where it is not, and one
  handler at a time on each order is enough (`OrdersInterleaved.ExclusiveRunsAreGood`).
- A bulk price request that names a listing twice can leave its unit price behind
  (`ListingRuns.RepeatedIdBreaksUnitPrice`); `ListingRuns.BulkUnitIff` is the exact condition for the unit
  price, and `ListingRuns.BulkLogIff` the one for the price log.
- The order of buy requests for a seller is documented as "volume fit, then proximity, then recency".
  `BuyRequests.FarSmallComesLast` is a list in another order, and `BuyRequests.DocumentedIff` says for
  exactly which requests the ranking follows the documentation, `BuyRequests.ListDocumentedIff` the same of the
  list cut to its limit. `BuyRequests.SellerListIsOrdered` is the order
  the scores do give.

## Model

| member | source | states |
|---|---|---|
| Orders.OrdersController.CreateFromBasket | src/orders/orders.controller.ts:312-416 | an empty basket, an own catalog and an unknown supplier are refused in turn, then the first bad line decides; otherwise the lines are frozen at the seller's current prices into one new order, and nothing else changes |
| Orders.OrdersController.AcceptOrder | src/orders/orders.controller.ts:634-694 | only the seller of a NEW order accepts: edited lines, their total, the seller's next document number and one timeline entry, or an error and no change |
| Orders.OrdersController.Transition | src/orders/orders.controller.ts:259-298 | status and timeline move together, a given deadline is set, all other columns stay |
| Orders.OrdersController.RejectOrder | src/orders/orders.controller.ts:697-717 | only the seller rejects, only a NEW order |
| Orders.OrdersController.SendOrder | src/orders/orders.controller.ts:720-746 | only the seller sends, only an ACCEPTED order, with a deadline seven days on |
| Orders.OrdersController.DeliverOrder | src/orders/orders.controller.ts:749-772 | only the buyer confirms delivery, only of a SENT order |
| Orders.OrdersController.CancelOrder | src/orders/orders.controller.ts:775-797 | only the buyer cancels, only a NEW or ACCEPTED order |
| Orders.OrdersController.ArchiveOrder | src/orders/orders.controller.ts:800-817 | only finished orders are archived |
| Orders.OrdersController.LazyCloseDue | src/orders/orders.controller.ts:145-198 | at most one batch of orders past their deadline becomes DELIVERED by the system, and no other order changes |
| OrderAnswers.RefusedIff | src/orders/orders.controller.ts:123-143 | an order exists only for its parties; an act goes through exactly for its party at its status, and is otherwise refused for the party or the status, with no change |
| OrderAnswers.HandledWrites | src/orders/orders.controller.ts:634-817 | an act changes its own order only: one timeline entry, its status, the deadline of a dispatch, the date of an archiving; an acceptance freezes as many lines, each with its good, a sent quantity or price where one was sent and the stored one otherwise, their total, and the seller's next number |
| OrderAnswers.InterleavedAcceptWrites | src/orders/orders.controller.ts:648-680 | the same lines, total and number in the row an interleaved acceptance writes |
| OrderAnswers.SweptIs | src/orders/orders.controller.ts:145-198 | a sweep delivers at most fifty overdue orders in the system's name, and fewer than fifty only if none is left |
| OrderAnswers.FrozenIff | src/orders/orders.controller.ts:346-372 | a basket line is frozen exactly when its listing is active, the supplier's, for sale, priced and its minimum met, at the asked quantity and the listing's price |
| OrderAnswers.CreatedIs | src/orders/orders.controller.ts:374-394 | a created order is new, with its lines, their total and one entry, and no other order changes |
| Orders.RunKeepsOk | src/orders/orders.controller.ts:145-298 | in every run: timelines are legal paths ending in the status; document number and deadline exist exactly when their status was reached; only finished orders are archived; totals match the lines; a seller's document numbers are exactly 1..invoiceSeq, each once |
| Orders.RunIsLater | src/orders/orders.controller.ts:634-817 | in every run: no order disappears, timelines only grow, finished orders stay finished, lines and number are frozen once accepted |
| Orders.AtMostThreeTransitions | src/orders/orders.controller.ts:634-817 | a legal timeline has at most three moves after NEW, fewer the further the status |
| OrdersInterleaved.EveryInterleaving | src/orders/orders.controller.ts:145-298 | under every interleaving of split handlers and sweeps: status is the last entry's, total is the sum of the lines, no two orders of a seller share a number, none exceeds the counter |
| OrdersInterleaved.AcceptanceIsLost | src/orders/orders.controller.ts:259-298 | a run in which a cancel based on an older timeline erases the acceptance while its number stays |
| OrdersTimelines.AppendOnlyIff | src/orders/orders.controller.ts:259-298 | for every interleaving: all timelines stay legal, end in the status and only grow, at every action, exactly when every status write is fresh when it is made: the row still carries the timeline the handler read and may move on, or already carries the one to be written |
| OrdersTimelines.WriteIsFreshIff | src/orders/orders.controller.ts:259-298 | a single status write leaves a legal timeline extending the stored one exactly when it is fresh |
| OrdersInterleaved.ExclusiveRunsAreGood | src/orders/orders.controller.ts:635-694 | if no handler starts on an order another one holds, every interleaving keeps the one-at-a-time guarantees and orders only move forward |
| OrdersInterleaved.AloneIsAtomic | src/orders/orders.controller.ts:635-694 | the steps of an undisturbed handler add up to the one-step handler |
| OrdersInterleaved.SweepAloneIsAtomic | src/orders/orders.controller.ts:145-198 | and the steps of an undisturbed sweep to the sweep in one step |
| Tiers.ClampPct | src/pricing/pricing.service.ts:36-40 | the stored percent is in 0..90 whatever was sent |
| Tiers.ClampIdempotent | src/pricing/pricing.service.ts:36-40 | clamping a clamped percent changes nothing |
| Tiers.NormTiers | src/pricing/pricing.service.ts:43-66 | the in-place pass over the sorted, cut rows yields the closed chain of those rows |
| Tiers.RowsOk | src/pricing/pricing.service.ts:47-58 | the rows it works on are sorted, at most six, with nonnegative starts and percents in range |
| Tiers.LookupPreserved | src/pricing/pricing.service.ts:43-66 | for every quantity the first covering tier is the same before and after, nested tiers included |
| Tiers.NormalisedDiscount | src/pricing/pricing.service.ts:365-371 | for every request and quantity the stored tiers give the discount the rows promised |
| Tiers.NestedTiersOverlap | src/pricing/pricing.service.ts:42-66 | three nested rows whose output overlaps |
| Tiers.PromiseIff | src/pricing/pricing.service.ts:42-66 | the output is sorted, disjoint and open only at the end exactly when every nested row is followed by one past its predecessor's end |
| Tiers.UprightIff | src/pricing/pricing.service.ts:43-66 | no stored tier ends before it starts exactly when the effective ends never go back |
| Tiers.MonotoneDisjoint | src/pricing/pricing.service.ts:43-66 | with such ends the output is a strict sequence of intervals covering the same quantities |
| Tiers.NormaliseTwice | src/pricing/pricing.service.ts:43-66 | and saving the stored tiers again only drops the empty ones |
| PriceAnswers.SixLowest | src/pricing/pricing.service.ts:43-58 | the rows worked on are those of the entries that are ranges, in order, cut to the six that start lowest |
| PriceAnswers.StoredDiscount | src/pricing/pricing.service.ts:43-66 | the stored tiers give a quantity the percent of the first row that has started and whose own end, or for an open row the next row's start, has not come |
| Pricing.NormCustPct | src/pricing/pricing.service.ts:68-75 | each known customer kind has the clamped percent of its last entry, and nothing else has any |
| Pricing.NormItemTri | src/pricing/pricing.service.ts:77-89 | each known kind has the way and the value, to the tenth, of its last usable entry, and nothing else has any |
| Pricing.PricingService.SaveCatalogRule | src/pricing/pricing.service.ts:174-185 | replaces the catalog rule and nothing else |
| Pricing.PricingService.SaveGroupRule | src/pricing/pricing.service.ts:187-213 | replaces the rule of a category the business has, or refuses |
| Pricing.PricingService.SaveItemRule | src/pricing/pricing.service.ts:217-266 | deletes or replaces an own item's rule, turning amounts and final prices into percents of its base price, or refuses |
| Pricing.PricingService.BulkRules | src/pricing/pricing.service.ts:268-302 | for at most fifty own items, deletes their rules or rewrites their percents, keeping tiers and entered values |
| Pricing.PricingService.PreviewPrice | src/pricing/pricing.service.ts:307-393 | the customer percent of the most specific level that has one, the first covering tier of the most specific level with tiers, and the rounded price |
| PriceAnswers.PreviewIs | src/pricing/pricing.service.ts:307-393 | the customer percent is the item's, else its group's, else the catalog's, else none; the volume percent that of the first covering tier of the item's tiers, else the group's, else the catalog's; together at most ninety; the price is the base less that, to the nearest unit |
| PriceAnswers.LessSpecificTiersStay | src/pricing/pricing.service.ts:354-371 | saving tiers on a level less specific than the one whose tiers count changes no volume percent |
| PriceAnswers.LevelIsSaved | src/pricing/pricing.service.ts:174-213 | a catalog or group save writes the sent percents and tiers under its own key, keeps a stored three-way entry, and touches no other rule; a group is refused exactly for an unknown business or category |
| PriceAnswers.ItemRefusedIff | src/pricing/pricing.service.ts:217-242 | an item save is refused exactly for a foreign listing, or for an amount or final price without a base price |
| PriceAnswers.ItemIsSaved | src/pricing/pricing.service.ts:217-266 | an item rule is deleted, or replaced by the last usable entry of each kind, the percent that entry comes to, and the tiers |
| PriceAnswers.BulkRefusedIff | src/pricing/pricing.service.ts:268-285 | a bulk request goes through exactly if one of the first fifty listings it names is own |
| PriceAnswers.BulkIsSaved | src/pricing/pricing.service.ts:268-302 | the rules of the own ones among the first fifty are deleted, or get the sent percents and keep the rest; no other rule changes |
| Pricing.RunKeepsRulesOk | src/pricing/pricing.service.ts:174-302 | after any run of saves every stored percent is in 0..90 and no rule has more than six tiers |
| Pricing.PreviewInRange | src/pricing/pricing.service.ts:337-375 | after any run of saves the previewed price lies between a tenth of the base and the base |
| Pricing.LessSpecificChangesNothing | src/pricing/pricing.service.ts:337-360 | saving a level less specific than the winning one changes no customer percent |
| Pricing.EntriesAgree | src/pricing/pricing.service.ts:239-253 | a final price and the equivalent amount off come to the same percent, in range |
| Pricing.FinalPriceHonoured | src/pricing/pricing.service.ts:239-253 | an entered final price is previewed, at any quantity no tier covers, to within base/2000 + 1/2, and the equivalent amount off stores the identical percent |
| Rfq.MarketController.FindFirst | src/market/market.controller.ts:63-64 | the oldest row a group key selects |
| Rfq.MarketController.RfqGroupOf | src/market/market.controller.ts:1575-1597 | the group of the sample row, for its buyer only |
| Rfq.MarketController.StopRfq | src/market/market.controller.ts:1599-1614 | stops every selected row, clearing the closing columns |
| Rfq.MarketController.RestartRfq | src/market/market.controller.ts:1616-1634 | reopens every selected row unless the sample is closed |
| Rfq.MarketController.ArchiveRfq | src/market/market.controller.ts:1636-1652 | archives every selected row |
| Rfq.MarketController.CreateRows | src/market/market.controller.ts:388-422 | one row per recipient with a covered line, each carrying the whole basket |
| Rfq.MarketController.SendOffer | src/market/market.controller.ts:1315-1440 | an owner's answer with one price per line becomes an offer of the inquiry's group and marks it answered, or is refused |
| Rfq.MarketController.Accept | src/market/market.controller.ts:1769-1861 | closes the offer's group with the printed result and reports the total over the priced lines |
| Rfq.MarketController.CreateFromOffer | src/orders/orders.controller.ts:418-566 | freezes the winner's priced lines into one order per offer, or refuses |
| RfqAnswers.OrderedIs | src/orders/orders.controller.ts:476-566 | the order's lines are exactly those the offer prices, in order, each with the row's good and quantity at that place and the offer's price at that place; an offer without a list prices the first line only |
| RfqAnswers.OrderRefusedIff | src/orders/orders.controller.ts:422-463 | an order is refused exactly if one was made before, if the buyer has no such offer, or if no inquiry belongs to it, in this order |
| RfqAnswers.OrderGoesThroughIff | src/orders/orders.controller.ts:465-530 | and then exactly if the offer is not the winner or prices nothing |
| RfqAnswers.AcceptedTotalIs | src/market/market.controller.ts:1804-1828 | the total an acceptance reports is that of the very lines an order would freeze |
| RfqAnswers.AcceptedIff | src/market/market.controller.ts:1769-1832 | exactly the offer's buyer accepts; the result names the seller and the price, or for several lines their sum, in Persian digits |
| RfqAnswers.AcceptedRowsAre | src/market/market.controller.ts:1834-1840 | the rows of the group are closed with the result and the winner, and no other column or row changes |
| RfqAnswers.GroupForIs | src/market/market.controller.ts:1575-1597 | a request about a group is refused exactly without a row, for someone else's row, or when the buyer has none under the key |
| RfqAnswers.GroupRefused | src/market/market.controller.ts:1599-1652 | and is then answered so, with no change |
| RfqAnswers.QueriesAnswer | src/market/market.controller.ts:1575-1597 | the queries answer with an oldest row of the group, a row of it the buyer sent, and a newest row of the offer's pair not after it |
| RfqAnswers.GroupIsChanged | src/market/market.controller.ts:1599-1652 | a stop, a restart and an archiving change the rows of their group alone, in the columns they are for |
| RfqAnswers.AnswerIs | src/market/market.controller.ts:1340-1400 | an answer is taken exactly in time, for own lines, with some price; the offer has the sent prices, place by place, between one and a million million |
| RfqAnswers.SentIs | src/market/market.controller.ts:1315-1440 | only the inquiry's seller answers; the offer is stored, the row marked, and nothing else changes |
| RfqAnswers.RowsAre | src/market/market.controller.ts:388-422 | exactly the recipients who hold a line get a row: the basket in order with their own listings, under the first of them |
| RfqRuns.RunOk | src/market/market.controller.ts:1599-1734 | in every run: the rows of a group agree on buyer, basket, expiry, stop, closing, result and winner; none is both stopped and closed; one order per offer; rows keep group and basket |
| RfqRuns.GroupForIsWhole | src/market/market.controller.ts:1575-1597 | whatever id names a group, the update reaches the sample row's whole group |
| RfqRuns.KeySelectsGroup | src/market/market.controller.ts:60-64 | a group's key selects exactly its rows |
| RfqRuns.AcceptPicksTheWinner | src/market/market.controller.ts:1834-1840 | an acceptance closes the whole group and no other row, and makes that offer its only winner |
| RfqRuns.StopUnseals | src/market/market.controller.ts:1599-1634 | a restart is refused exactly while the group is closed; a stop and a restart open every row of any group and leave the winner on record |
| RfqClosing.StaysClosedIff | src/market/market.controller.ts:1599-1634 | a closed group stays closed throughout a run exactly when no request of the run is a stop that passes its checks and resolves to the group |
| RfqClosing.AcceptedIsClosed | src/market/market.controller.ts:1834-1840 | right after an acceptance the offer's group is closed |
| RfqClosing.AcceptedThenReopened | src/market/market.controller.ts:1599-1634 | from empty tables: request, answer, accept, stop, restart, and the accepted group is open again |
| RfqRuns.SumIsFrozenTotal | src/market/market.controller.ts:1804-1828 | the sum over priced lines is the total of the frozen lines |
| RfqRuns.AcceptTotalIsOrderTotal | src/orders/orders.controller.ts:476-530 | the reported total is the frozen total, for any price list with gaps and whichever row of the group is read |
| RfqRuns.NewestIsFound | src/market/market.controller.ts:1786-1800 | without a link of its own an offer belongs to a group exactly when the newest row of its pair, not after it, is of that group |
| RfqRuns.LegacyGroupStays | src/market/market.controller.ts:1786-1800 | later inquiries are not looked at: the newest row of the pair stays of its group |
| RfqRuns.MergeSettles | src/listings/listings.controller.ts:526-538 | when two listings are merged, the lookup finds an offer's group exactly when the newest inquiry of both listings, for that buyer and seller, is of that group, or neither is the offer's |
| RfqRuns.AcceptedTotalIsFrozen | src/orders/orders.controller.ts:440-530 | accept, let any run happen, merges of listings included, then order: the order's total is the one the acceptance reported, for offers with a group link and for those found by lookup |
| RfqRuns.AnsweredIsOrderable | src/market/market.controller.ts:1348-1369 | an answer the handler took prices some line, so the order freezes at least one |
| RfqOrdering.RunStanding | src/market/market.controller.ts:1599-1634 | after any run a group is closed if it was accepted after it was last stopped, and its winner is the offer accepted last |
| RfqOrdering.OrderedIff | src/orders/orders.controller.ts:465-475 | after any run an order goes through exactly when its other checks pass and the offer is the one its group accepted last, or the group was never accepted and its old result names the seller |
| RfqOrdering.OpenOrderIff | src/orders/orders.controller.ts:465-475 | it goes through on an open group exactly when the offer is the one accepted last and a stop followed that acceptance |
| RfqOrdering.SecondOrderIff | src/orders/orders.controller.ts:422-475 | a group with an order gets one from another of its offers exactly when that offer is accepted later, as the last one |
| RfqOrdering.OrderedWhileStopped | src/orders/orders.controller.ts:465-475 | from empty tables: request, answer, accept, stop, and the order goes through |
| RfqOrdering.TwoOrders | src/orders/orders.controller.ts:422-475 | from empty tables: a run after which one group has two orders |
| RfqOrdering.MergedAway | src/listings/listings.controller.ts:526-538 | from empty tables: an accepted offer that can be ordered from, and after a merge of its listing is refused |
| RfqFanout.ResolveHolders | src/market/market.controller.ts:339-349 | one pass in price order resolves each seller's first listing of each good, sellers in order of first appearance |
| RfqFanout.FirstIsCheapestIff | src/market/market.controller.ts:330-349 | the listing picked for a seller and good is its cheapest exactly when none of its listings of the good is without a price, or all are |
| RfqFanout.ResolvedIsCheapestIff | src/market/market.controller.ts:339-349 | the same of the entry the pass stores, which has no price exactly when some listing has none |
| RfqFanout.UnpricedHidesPrice | src/market/market.controller.ts:369-376 | a seller at five, with one more listing without a price, ranks behind a seller at a hundred |
| RfqFanout.AddMatches | src/market/market.controller.ts:350-365 | network sellers join in match order, each with its first match, until the cap is reached or every match is in; no resolved seller is disturbed |
| RfqFanout.NetworkFillsUp | src/market/market.controller.ts:350-365 | every holder is a candidate; with the network on, the cap is reached or every match's seller is one too; without it, or over the cap, only holders are |
| RfqFanout.MinPriceIsMin | src/market/market.controller.ts:369-373 | a seller's minimum is the least of its resolved prices, missing only without prices |
| RfqFanout.ChosenIsTopK | src/market/market.controller.ts:369-376 | exactly min(cap, candidates) sellers are chosen, each once, and none left out ranks strictly before a chosen one |
| RfqFanout.CoverageIsCovered | src/market/market.controller.ts:388-422 | the coverage a seller is ranked by is the number of covered lines of its stored snapshot |
| RfqFanout.HolderGetsRow | src/market/market.controller.ts:388-422 | a chosen seller always gets a row |
| RfqFanout.RequestQuote | src/market/market.controller.ts:290-425 | refused with the first failing check, or exactly one row for each of the best candidates up to the cap, with the network filling up to it, and no skipped recipient |
| FanoutAnswers.BasketIs | src/market/market.controller.ts:299-306 | the lines of a request are its items in order, or the one good of an old client, each quantity between one and a thousand million |
| FanoutAnswers.RefusedIs | src/market/market.controller.ts:306-322 | a request is refused without lines, for a repeated good, for an unknown good, and for a single good with nobody to ask, in this order |
| FanoutAnswers.HoldersAskedFor | src/market/market.controller.ts:326-338 | the holders looked up are other businesses selling a good asked for, and for a single good only the suppliers named, if any are |
| FanoutAnswers.ExpiryIs | src/market/market.controller.ts:382-384 | an answer is awaited one to five days, three unless asked otherwise |
| FanoutAnswers.BestAreAsked | src/market/market.controller.ts:369-376 | no seller left out covers more lines than one asked, or as many at a lower known price |
| FanoutAnswers.FoundIs | src/market/market.controller.ts:339-365 | a candidate has its first listings of the goods asked for, or from the network, for a single good, its first match without a price |
| FanoutAnswers.NetworkIsOptional | src/market/market.controller.ts:350-365 | for a list of items, or without the network, everyone asked has a listing of a good asked for |
| FanoutAnswers.AskedRowsAre | src/market/market.controller.ts:388-422 | each seller asked has one row of the new group, with the whole basket and its own listings, and nothing else comes or changes |
| RfqFanout.RepeatRfq | src/market/market.controller.ts:1654-1734 | the group's basket goes, in a new group open three days, to exactly min(15, holders) sellers of greatest coverage, one row each; refused without holders |
| FanoutAnswers.MostCoveringAreAsked | src/market/market.controller.ts:1690-1700 | no holder left out of a repeated request covers more than one of the at most fifteen asked |
| FanoutAnswers.HoldersFoundAre | src/market/market.controller.ts:1684-1694 | every seller of a good of the basket is a holder, with its first listing of each good it sells |
| FanoutAnswers.HolderRowsAre | src/market/market.controller.ts:1673-1683 | what is looked up for a repeated request are the listings others have for its goods, in the same order |
| FanoutAnswers.RepeatedIs | src/market/market.controller.ts:1700-1734 | a repeated request is open three days, and without a row or a holder changes nothing |
| FanoutAnswers.RepeatedBasketIs | src/market/market.controller.ts:1664-1670 | a repeated request asks for what the row it read asks for |
| RfqView.GroupInquiries | src/market/market.controller.ts:2448-2491 | one pass puts every row into exactly its group |
| RfqView.LinkOffers | src/market/market.controller.ts:2493-2514 | an offer is linked to its own group if that exists, otherwise to the group of the last row of its pair not after it, otherwise to none |
| RfqView.AttachOffers | src/market/market.controller.ts:2516-2605 | each offer joins its linked group or founds one of its own; counts add up |
| RfqView.GetMyRfqs | src/market/market.controller.ts:2387-2682 | of the oldest 200 inquiries and 500 offers, which are fetched, the view holds every one, counts adding up, and lists each group that is not archived once, newest first |
| RfqView.ExactlyOneGroup | src/market/market.controller.ts:2418-2605 | each fetched inquiry is a recipient of exactly one group and each fetched offer sits in exactly one |
| RfqView.GroupSums | src/market/market.controller.ts:2448-2491 | a group has one line per row in order, the date of its newest row, and is archived exactly if all its rows are |
| RfqView.MinAndArchive | src/market/market.controller.ts:2476-2605 | the shown minimum is the least offered price, the counts are those of the offers held, and archived means all rows are |
| ViewAnswers.GroupIs | src/market/market.controller.ts:2431-2560 | a group of inquiries shows the head of its first row, one line for each inquiry with the number of lines its seller covers, and one for each offer with its price for every line, how many there are, and the marks |
| ViewAnswers.OfferTotalIs | src/market/market.controller.ts:2521-2532 | the total shown is that of the lines an order would freeze, except for a group's only line without a price |
| ViewAnswers.ColdIs | src/market/market.controller.ts:2562-2605 | the group of an offer nobody asked for is open, shows that offer at its own price, and asks for no quantity |
| ViewAnswers.ColdHasOne | src/market/market.controller.ts:2562-2605 | an offer without a group founds one that holds it alone |
| RfqView.ViewTotalIsAcceptTotal | src/market/market.controller.ts:2521-2532 | the total shown for an offer is the one acceptance reports, except exactly when a one-line basket's only price is missing and the offered amount is not zero |
| RfqView.TotalsAgree | src/market/market.controller.ts:2521-2532 | so the two totals are equal for every answer the handler takes and every offer made without one |
| RfqFetch.InquiryShownIff | src/market/market.controller.ts:2387-2406 | an inquiry is in the view exactly when it is one of the buyer's oldest 200 |
| RfqFetch.OfferShownIff | src/market/market.controller.ts:2407-2415 | an offer is in the view exactly when it is one of the buyer's oldest 500 |
| RfqFetch.ShownWhereAcceptedIff | src/market/market.controller.ts:2387-2514 | the view shows an offer in the very group its acceptance closes exactly when the fetch reaches it: some row of the group an offer names is fetched, or the newest fetched row of its pair is of the accepted group |
| RfqFetch.FewOlderIff | src/market/market.controller.ts:2387-2406 | a group is among the fetched exactly when fewer than 200 of the buyer's inquiries are older than its oldest |
| RfqFetch.FewAreShownWhereAccepted | src/market/market.controller.ts:2493-2514 | a buyer with at most 200 inquiries sees every offer where its acceptance closes |
| RfqFetch.ShownTotalIsAccepted | src/market/market.controller.ts:2516-2540 | an offer shown where its acceptance closes is shown at the total the acceptance reports |
| RfqFetch.LateAnswerIsElsewhere | src/market/market.controller.ts:2387-2605 | from empty tables: 201 requests and an answer to the last, shown at half its total on its own, or under the 200th inquiry if that asked the same seller |
| VariantKey.SameSpecSameKey | src/listings/listings.controller.ts:40-52 | the same attributes in any order have the same key |
| VariantKey.SameRequestSameKey | src/listings/listings.controller.ts:21-52 | and so do two requests listing the same at most twelve attributes, after sanitising |
| VariantKey.KeptIs | src/listings/listings.controller.ts:21-31 | of the first twelve attributes exactly those with a name of one to forty characters and a value of at most eighty are kept, in order |
| VariantKey.SameKeyIff | src/listings/listings.controller.ts:40-52 | combinations without separators in names and values share a key exactly when they are the same, or their keys differ only behind the sixtieth character |
| VariantKey.SameRequestKeyIff | src/listings/listings.controller.ts:21-52 | the same of two requests after sanitising |
| VariantKey.BarCollides | src/listings/listings.controller.ts:45-52 | two combinations, one with a separator inside a value, with the same key |
| VariantKey.LongCollides | src/listings/listings.controller.ts:45-52 | two combinations that differ behind the sixtieth character only, with the same key |
| Listings.ListingsController.FindTarget | src/listings/listings.controller.ts:271-325 | which row a save goes to: the named one, the key's holder after a merge, the holder, the legacy row, or a new one |
| Listings.ListingsController.SaveListing | src/listings/listings.controller.ts:150-396 | validates, merges a duplicate if needed, writes the row and logs a changed price, or refuses with the first failing check |
| ListingAnswers.PreparedIff | src/listings/listings.controller.ts:150-215 | a request goes on exactly when it is complete, linked to the product it names or the one found; otherwise it is refused for the first of its reasons |
| ListingAnswers.SaveIs | src/listings/listings.controller.ts:225-390 | the answered row is the one the request is for, each column as requested over the row before; a named duplicate retires and no other listing changes |
| ListingAnswers.SaveIsLogged | src/listings/listings.controller.ts:391-396 | a changed price is logged once, behind everything logged before |
| ListingAnswers.SaveRefusedIff | src/listings/listings.controller.ts:286-300 | a refused save changes nothing, for a reason of the request or of the row it names |
| ListingAnswers.SaveGoesThrough | src/listings/listings.controller.ts:286-300 | a complete request for an own row of the good, or for none, goes through |
| Listings.ListingsController.ConvergeFork | src/listings/listings.controller.ts:521-538 | moves files, log, inquiries and offers to the survivor and retires the duplicate |
| Listings.ListingsController.PriceStockOne | src/listings/listings.controller.ts:739-775 | one item of a bulk change: an absolute price beats a percentage, only given fields are written, the unit price is recomputed, a changed price logged |
| Listings.ListingsController.BulkPriceStock | src/listings/listings.controller.ts:713-778 | applies the items in order to the rows as read at the start, counting the written and the foreign ones |
| ListingAnswers.BulkIs | src/listings/listings.controller.ts:733-778 | a listing named once has the sent price to within a half, or else the old one changed by the percentage to within a half and never below zero, or else the old one; the sent stock or the old one; its unit price, date and no other column; no other listing changes |
| ListingAnswers.PercentageIsHonoured | src/listings/listings.controller.ts:744-750 | a percentage of at least minus a hundred on a price that is not negative is honoured to within a half, and below that nothing is left |
| ListingAnswers.CountsAre | src/listings/listings.controller.ts:733-778 | the counts reported are those of the items that name no own listing, and of those with something to write |
| ListingRuns.RunKeepsOk | src/listings/listings.controller.ts:262-396 | in every run: one row per seller, good and key; every unit price is floor(price / base quantity), or the price; no row of any table is lost or moved to another seller or good |
| ListingRuns.SaveKeepsKeys | src/listings/listings.controller.ts:286-325 | a save never collides with another row's key, merged rows included |
| ListingRuns.SaveLands | src/listings/listings.controller.ts:262-390 | the row a save answers with is the one active row with the seller's key, at the requested price |
| ListingRuns.SaveAgainUpdates | src/listings/listings.controller.ts:40-44 | saving the same combination again updates the row instead of duplicating it |
| ListingRuns.SaveKeepsUnit | src/listings/listings.controller.ts:334-350 | the unit price is right after every save, whatever was kept of the row |
| ListingRuns.BulkUnitIff | src/listings/listings.controller.ts:733-778 | the unit price is right after a bulk change exactly when no item keeping the price follows one that changes it, or both prices share a unit price |
| ListingRuns.RepeatedIdBreaksUnitPrice | src/listings/listings.controller.ts:733-778 | a request naming a listing twice that leaves the old unit price behind |
| ListingRuns.BulkLogIff | src/listings/listings.controller.ts:766-773 | the entries a bulk request logs of a listing lead from its old price to its new one exactly when at most one item changes it |
| ListingRuns.ConvergeConserves | src/listings/listings.controller.ts:526-538 | a merge gives the survivor the disjoint union of both rows' references and log entries, leaves the retired row none and everyone else's alone |
| ListingRuns.MergeConserves | src/listings/listings.controller.ts:286-325 | the same of the whole merging save |
| ListingRuns.PriceLogChains | src/listings/listings.controller.ts:391-396 | while a listing has a price and is not merged, its log entries lead from its first price to its last, each starting where the one before ended |
| ListingRuns.PriceLogTelescopes | src/listings/listings.controller.ts:391-396 | and they add up to the change of the price |
| Guards.BusinessRowCache.AssertBusinessOwner | src/common/guards.ts:47-69 | the cached row within its minute, otherwise the stored row, remembered; only its owner or an administrator gets it |
| Guards.BusinessRowCache.RememberBusinessRow | src/common/guards.ts:35-42 | evicts the oldest key when over the limit, then stores the row |
| Guards.BusinessRowCache.CachedBusinessRow | src/common/guards.ts:25-33 | an expired row is dropped and not served |
| Guards.BusinessRowCache.InvalidateBusinessCache | src/common/guards.ts:20-23 | drops one row, or all |
| Guards.AssertOwnerKeepsOk | src/common/guards.ts:35-42 | keys stay listed once each, never more than 5001 |
| Guards.CacheIsTransparent | src/common/guards.ts:10-15 | with a fresh cache the check answers as the table would |
| Guards.OnlyOwnersGetIn | src/common/guards.ts:47-69 | with a fresh cache the check answers Ok, with the stored row, exactly for its owner and administrators, and otherwise that there is no such business or that it is not theirs |
| Guards.CheckAnswers | src/common/guards.ts:47-69 | with any cache it answers so about the row it serves: the cached one within its minute, otherwise the stored one |
| Guards.CheckCaches | src/common/guards.ts:25-42 | a stored row that was looked up is served for sixty seconds and no longer, and at most the oldest other row makes room |
| Guards.OldestGoes | src/common/guards.ts:35-42 | a full cache drops its oldest key for a new one, which becomes the newest |
| Guards.StaleUnlessInvalidated | src/businesses/businesses.controller.ts:32-40 | a row changed while cached is answered as it was, so the cache stays fresh only because every change drops it |
| Catalog.Handlers.SetCatalogCategories | src/businesses/businesses.controller.ts:1138-1172 | replaces a business's categories, clears them from listings whose category is gone, drops the cached row; duplicates are refused |
| Catalog.Handlers.EditBusinessRow | src/businesses/businesses.controller.ts:982-1045 | an edit of an own business is stored and drops the cached row |
| Catalog.Handlers.SaveOwnListing | src/listings/listings.controller.ts:182-193 | a save checks its category against the row the ownership check returned |
| Catalog.CategoriesAreSet | src/businesses/businesses.controller.ts:1138-1172 | the stored categories are those sent, in order, with trimmed names; exactly the business's listings left without their category lose it, and nothing else changes |
| Catalog.RefusedForRepeats | src/businesses/businesses.controller.ts:1146-1156 | and they are refused exactly for a repeated id or trimmed name |
| Catalog.CityIsEdited | src/businesses/businesses.controller.ts:982-1045 | an edit stores the trimmed city, unless none was sent |
| Catalog.StrangersChangeNothing | src/common/guards.ts:47-69 | whoever is neither the owner nor an administrator changes nothing |
| Catalog.OwnersAreNotDenied | src/common/guards.ts:47-69 | owners and administrators are never denied, and a save sees the stored categories |
| Catalog.ChangedRowIsDropped | src/common/guards.ts:20-23 | of what the check cached, exactly the row a handler just changed is dropped |
| Catalog.SizeTells | src/businesses/businesses.controller.ts:1148-1156 | comparing set size with length finds exactly the lists with a repeated id or name |
| Catalog.RunIsPlain | src/common/guards.ts:10-69 | every run answers and stores exactly what it would without the cache; what is cached is what is stored, at most 5001 rows |
| Catalog.RunKeepsIntegrity | src/businesses/businesses.controller.ts:1146-1171 | in every run each listing's category is none or one of its business's current ones, and category ids and names stay unique |
| Matching.PriceRanks | src/market/matching.service.ts:169-184 | every priced row gets the points of its place among its good's offers, cheapest first, and no other row any |
| Matching.PlacesArePaid | src/market/matching.service.ts:168-184 | listed from cheapest to dearest, the priced offers of a good have eighteen points down to none in even steps to the nearest, nine for an only one |
| Matching.CheaperNeverFewer | src/market/matching.service.ts:168-184 | points are 0 to 18 and a strictly cheaper offer of a good never has fewer |
| Matching.EndsAreExtremes | src/market/matching.service.ts:168-184 | with two or more offers a cheapest one has 18 and a dearest one 0 |
| Matching.RankIsLocal | src/market/matching.service.ts:168-184 | a row's points depend only on the offers of its good |
| BuyRequests.BuyRequestsFor | src/market/matching.service.ts:318-380 | candidates of the reader's branch, scored, stably sorted and cut |
| BuyRequests.RankedAre | src/market/matching.service.ts:318-376 | what is ranked is every request with a score for the reader: the points of its volume against the reader's last own row, of its place, and of its age |
| BuyRequests.ListIsTop | src/market/matching.service.ts:379 | the list is the best-scored requests up to the limit, and the rest score no higher |
| BuyRequests.SellerListIsOrdered | src/market/matching.service.ts:343-357 | the order a seller's list has: inside the band first, then nearer, then fresher, then the kind of misfit, except the tie at 34 |
| BuyRequests.DocumentedIff | src/market/matching.service.ts:312-317 | a seller's ranking follows volume fit, then proximity, then recency exactly when it reads no request below the minimum that is farther, or equally near and staler, than one beyond the stock, and no weakest fitting request after the strongest too small one |
| BuyRequests.ListDocumentedIff | src/market/matching.service.ts:312-379 | and the list cut to the limit follows it exactly when every such pair has its better request placed behind the limit |
| BuyRequests.FarSmallComesLast | src/market/matching.service.ts:312-317 | two requests ranked against the documented order |
| BuyRequests.BuyerListIsOrdered | src/market/matching.service.ts:358-372 | in a buyer's list similar volume, then proximity, then recency decide, without exception |
| BuyRequests.TiesAreNewestFirst | src/market/matching.service.ts:329-340 | equal scores stay newest first |
| PersianNumbers.PrintThenRead | src/products/import-file.ts:80-92 | reading a printed amount gives its absolute value, or nothing for zero |
| PersianNumbers.RoundTripIff | src/market/market.controller.ts:118-125 | printing and reading undo each other exactly for positive amounts |
| PersianNumbers.SeparatorsByThrees | src/market/market.controller.ts:118-125 | separators stand at every third place from the right and never in front |
| PersianNumbers.PrintIs | src/market/market.controller.ts:118-125 | an amount is printed as its sign, if it is negative, and its Persian digits without leading zeros, grouped by three from the right |
| PersianNumbers.ReadDigits | src/products/import-file.ts:80-92 | Persian and Arabic digits are read at their value |
| CategoryTree.BuildTree | src/goods/goods.controller.ts:93-113 | one pass gives each node its children in row order, and the roots |
| CategoryTree.ShownOnceIffVisible | src/goods/goods.controller.ts:66-73 | for any list, cyclic or not: a category is shown once if it and all its ancestors up to a root are active, otherwise not at all |
| CategoryTree.GetCategories | src/goods/goods.controller.ts:89-115 | the same of the whole handler, with every node's active children under it in row order |
| CategoryTree.ChainBounded | src/goods/goods.controller.ts:66-73 | what hangs below a root is no deeper than the list is long, so pruning ends even on cyclic lists |
| CategoryTree.AcyclicEndsChain | src/goods/goods.controller.ts:93-113 | without cycles every category has ancestors up to a root |

## Left out

- Requests, sessions, files, images, notifications, scores, follow edges and event logs: effects the modelled state does not depend on. Ownership of a business is a parameter of the inquiry handlers; its check and cache are modelled in `Guards`.
- IEEE rounding, exponents in printed numbers from 1e21 on, date parsing and locale texts other than the accepted-offer line.
- Interleavings of handlers other than the order handlers; a category save that races a category change is not covered.
- The fallback of saveListing for a key taken between its check and its write: one save at a time never gets there (`ListingRuns.SaveKeepsKeys`).
- bulkSave, deleteListing, setActive and imports, which write listings without a price log or with their own rules.
- Finding or creating the reference product of a listing: its answer is a field of the request.
- Business columns other than owner, city and categories. The rating, catalog count and document counter are written without dropping the cached row, so a cached copy of those may be up to a minute old.
- setCustType and the pricing overview; only the rules, the saves and the preview are modelled.
- The name, pack and listing id of frozen order lines; only good, quantity and price are.
- The newest-first order of the offers inside a group of the buyer's list, and the count of offers of the last three days beside it.
- A buyer's own purchase volume shown on a group founded by a direct offer, and the good details of the view.
- suppliersForNeed, suppliersForGoods and capacityAdj: their scores rest on code outside these files.
- Proximity of two places: a field of the request.
- VariantKey.SameRequestSameKey: says nothing of requests with more than twelve attributes, because only the first twelve typed are read.
- Pricing.LessSpecificChangesNothing: speaks of the customer percent only, because tiers are resolved level by level on their own.
- RfqRuns.AcceptedTotalIsFrozen: for an offer without its own group link, supposes that inquiries sent after the acceptance are dated after the offer, that no two groups of the pair tie on their date, before it or after a merge (on a tie the database may answer either), and that a merge of the offer's listing meets the exact condition of `RfqRuns.MergeSettles`; `RfqOrdering.MergedAway` is a merge that does not.
- VariantKey.SameKeyIff: says nothing of names or values that hold a separator; `VariantKey.BarCollides` is such a pair.
- Orders.OrdersController.SendOrder: takes one clock reading for the deadline and the timeline entry; the code takes two, moments apart, as `OrdersInterleaved` does.
- Catalog.Handlers.EditBusinessRow: models the city only, because no modelled check reads the other columns.
