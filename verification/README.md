# Verified model of the ad server's stateful core

This project models, in Dafny 4.11, the places of the server where state is kept across many
steps, or where a fast or order-dependent form has to agree with a simple one:

- VAST text: merging pixels by insertion (`vast_injection.dfy`), following wrapper chains
  (`wrapper_chain.dfy`), how the pixel scanner moves through a document (`extraction.dfy`), reading
  injected pixels back (`pixel_roundtrip.dfy`, `merged_pixels.dfy`), URLs that an injection tears
  (`torn_url.dfy`), the tag URI of a document (`tag_uri.dfy`), what the player reads of a document
  with the server's own pixels (`decoration.dfy`), the streaming structural check
  (`vast_validator.dfy`) and the VAST answer for a winning bid (`vast_response.dfy`);
- video delivery accounting: the statistics store (`stats_store.dfy`), the tracking-event ring
  (`tracking_ring.dfy`), the sharded impression deduper (`deduper.dfy`), beacons and billing notices
  under interleaving (`beacons.dfy`), the handlers' updates of the statistics under interleaving
  (`requests.dfy`), win and billing notices of one response (`notices.dfy`) and of all handlers in
  one run (`delivery.dfy`), the debounced config store (`config_store.dfy`) and the parallel demand
  collector (`demand.dfy`);
- the auction: winner selection over a map of seats (`auction.dfy`), ranking and cutting each
  bidder's bids through shared pointers (`multibid.dfy`) and both end to end (`auction_cut.dfy`);
- the racing bidder throttle (`throttle.dfy`);
- pricing: bid adjustments (`adjustments.dfy`, `adjusted_price.dfy`), price buckets
  (`price_buckets.dfy`) and currency rates (`currency.dfy`);
- in-place impression pruning (`prune_imps.dfy`).

`text.dfy`, `orders.dfy`, `options.dfy` and `real_arith.dfy` hold what these share.
`dafny verify dfyconfig.toml` checks everything.

Conventions. Documents are ASCII. Prices and health are reals, counters and clocks are integers.
A Go map that is iterated is visited in an order that is a parameter or an arbitrary choice, so a
statement holds for every order. Handlers that run concurrently are sequences of atomic actions of a
state machine, and a theorem about `Run` is about every interleaving. HTTP fetches, macro
substitution, currency-code parsing and random draws are parameters. The net/http and the fasthttp
handlers take the same steps and share a model.

What the code does not do. Several statements one would expect are false of the code. Each has a
lemma with the exact condition under which it holds, and one with an input or run that breaks it:

- `extractTrackingURLs` loses the first beacon of every `<TrackingEvents>` block, because `<tracking`
  also matches the parent's start tag (`ReadsDocument`). Injected beacons are all read back exactly
  when they were appended to existing ones and no start tag is left open (`BeaconsReadBackExactly`,
  `DanglingLosesFirst`).
- An injection tears a URL exactly when its point cuts every place where the URL stands and the
  inserted text does not bring it back (`InjectTrackingHoldsExactly`, `InjectImpressionHoldsExactly`;
  `MergeTearsUrl`, `BeaconTearsBeacon`). No injection tears an http URL that has no anchor inside and
  does not end on its way into one (`ImpressionKeepsUrl`, `TrackingKeepsUrl`).
- The winner of an impression depends on map order exactly when unbeaten bids come from two seats,
  which needs a colon in a seat name (`OrderIndependentExactly`, `ColonSeatsCollide`).
- The bid limit can cut the overall winner exactly when more bids of its bidder tie with it than the
  limit allows (`WinnerSurvivesExactly`, `WinnerCut`).
- The ten-minute impression window runs from the moment a beacon's handler read the clock. With
  handlers that stall for up to d seconds two counts can be as close as 601 - d seconds, and no
  closer (`GapExactly`, `WindowExactly`, `StalledBeaconCountsTwice`).
- A billing notice is released by a handler that read the clock before its expiry. With handlers that
  take up to d seconds from there it can fire d - 1 seconds after its expiry, and no later
  (`LatenessExactly`, `ExpiryExactly`, `StalledHandlerFiresLate`).
- The sweeper deletes a notice that has not expired exactly when it condemned an earlier one under the
  same key (`LostUnexpiredExactly`, `SweeperDropsFresh`).
- A statistics reset keeps opportunities within requests exactly when no request is waiting for
  demand (`ResetSafeExactly`, `ResetBreaksTheBooks`).
- The comment at exchange/bidder.go:902-904 holds for the health over a run, not for a single store
  (`RunWithin`, `WrongWayExactly`, `StaleSuccessRaisesHealth`).
- The win notice of a bid is fired before its VAST markup is checked (`FiredThoughRejected`,
  `BrokenMarkupIsNotified`).
- A win URL is both fired and handed to the player exactly when the markup or the billing URL is that
  same URL and is passed on, or a document of the demand names it as tag URI or impression
  (`FiredAndExposedExactly`, `FiredAndExposed`, `FiredAndNamed`).
- A notice that the server fired or stored stays in an ORTB response exactly when another bid brings
  the same URL or the winner's own markup holds it (`SingleBillingChannel`, `SingleWinChannel`;
  `SharedUrlGoesOut`, `OwnMarkupGoesOut`).
- The player reads the billing URL of a served document exactly when it was an impression there
  already, or there is an anchor for impressions and the URL does not stand inside other text
  (`BillingPixelExactly`, `BillingServedExactly`; `BillingPixelDropped`, `HeldInLongerUrl`).
- A failed save of the config store is not retried (`QuietSavedExactly`, `FailedSaveIsNotRetried`).
- After a failed CPM conversion the price reverts and the currency does not (`FailureKeepsLabel`,
  `StuckLabel`).
- Rounding prices up is monotone exactly over ranges that are a whole number of increments wide
  (`UpMonotoneExactly`, `UpGoesDown`).
- A currency rate is the ratio of worths in every map order exactly when no entry that could answer is
  zero (`RateIsWorthRatio`, `ZeroRateGivesNoNumber`).
- An `Ad` element behind the end of the VAST root is accepted as if it were inside
  (`AcceptsBeyondRootExactly`, `AdBehindRoot`).

Where comments and code differ the model follows the code: the fourth tie-break of
`extractWinningBid` (endpoints/video_pipeline.go:3273-3275) is never reached, since positions differ,
and the placeholder "kosong" (endpoints/video_pipeline.go:3437-3438) is not among the empty AdM values.

## Model

| member | source | states |
|---|---|---|
| `Text.IndexFrom` | endpoints/video_pipeline.go:3811-3814 | the first occurrence at or after an index, and none before it |
| `Text.BoundaryInsertKeeps` | endpoints/video_pipeline.go:3838-3849 | an insertion next to a tag splits no bracket-free text and no tag |
| `VastInjection.ImpressionPoint` | endpoints/video_pipeline.go:3838-3849 | there is an insertion point exactly when one of the three anchors is present, and it is a tag boundary |
| `VastInjection.TrackingPoint` | endpoints/video_pipeline.go:3885-3898 | the same for tracking blocks |
| `VastInjection.ImpressionPlacement` | endpoints/video_pipeline.go:3788-3801 | the pixel goes behind the last impression, else before the first InLine end, else before the first Wrapper end |
| `VastInjection.TrackingPlacement` | endpoints/video_pipeline.go:3851-3858 | the block goes behind the last tracking, else with a parent of its own before the first Linear end, else before the first Wrapper end |
| `VastInjection.InjectVASTTracking` | endpoints/video_pipeline.go:3859-3899 | the filtering and building loops compute the specified insertion |
| `VastInjection.FreshInOrder` | endpoints/video_pipeline.go:3863-3876 | the beacons that are injected keep the order of the list |
| `VastInjection.BoundaryInsertGrows` | endpoints/video_pipeline.go:3838-3849 | an injection only inserts text and keeps every bracket-free text and every tag of the document |
| `VastInjection.InjectImpressionGrows` | endpoints/video_pipeline.go:3822-3849 | that holds of every impression injection |
| `VastInjection.InjectTrackingGrows` | endpoints/video_pipeline.go:3859-3899 | that holds of every tracking injection |
| `VastInjection.InjectImpressionAdds` | endpoints/video_pipeline.go:3822-3849 | afterwards the pixel is in the document if and only if it was, or an anchor was |
| `VastInjection.InjectImpressionIdempotent` | endpoints/video_pipeline.go:3826-3830 | injecting a URL again, under any id, changes nothing |
| `VastInjection.InjectTrackingHoldsExactly` | endpoints/video_pipeline.go:3863-3899 | any text, bracketed URLs included, is in the document after an injection of beacons if and only if it stood at a place the point does not cut, or stands in the inserted text and its surroundings |
| `VastInjection.InjectImpressionHoldsExactly` | endpoints/video_pipeline.go:3822-3849 | the same after an impression |
| `VastInjection.InjectTrackingAdds` | endpoints/video_pipeline.go:3863-3899 | a new beacon of the list is always in the document afterwards, any other if and only if it is not torn |
| `VastInjection.ImpressionKeepsUrl` | endpoints/video_pipeline.go:3822-3849 | no impression tears an http URL without an anchor inside or at its end |
| `VastInjection.TrackingKeepsUrl` | endpoints/video_pipeline.go:3863-3899 | no beacon tears one, for the anchors of beacons |
| `VastInjection.NoBracketIsSafe` | endpoints/video_pipeline.go:3838-3898 | URLs without an opening bracket are among those |
| `VastInjection.InjectTrackingIdempotent` | endpoints/video_pipeline.go:3863-3876 | injecting the same beacons again changes nothing if and only if the document and the list are such that the first time tears none of their URLs |
| `WrapperChain.ExtractURLs` | endpoints/demand_adapter.go:460-525 | the scanning loop returns the specified list of URLs |
| `WrapperChain.UrlsInside` | endpoints/demand_adapter.go:479-491 | every extracted URL is absolute and stands in the document |
| `WrapperChain.FollowChain` | endpoints/demand_adapter.go:390-416 | the chain loop visits, asks and collects what the recursive definition says |
| `WrapperChain.MergePixels` | endpoints/demand_adapter.go:419-425 | the merging loops inject all collected pixels in order |
| `WrapperChain.ResolveVASTWrapperChain` | endpoints/demand_adapter.go:384-426 | the result is the document the chain stops at with all collected pixels merged in |
| `WrapperChain.ChainBounds` | endpoints/demand_adapter.go:394-398 | at most `maxDepth` requests, one per wrapper read, starting at the input |
| `WrapperChain.ChainLink` | endpoints/demand_adapter.go:395-416 | each request asks for its wrapper's URI; a usable answer is the next document, any other ends the chain there |
| `WrapperChain.ChainStops` | endpoints/demand_adapter.go:394-416 | the chain ends early only at a document that is no wrapper, or at one whose request, the last, was unusable |
| `WrapperChain.ChainRunsOut` | endpoints/demand_adapter.go:394-416 | if every answer is again a wrapper the depth limit is used up |
| `WrapperChain.CollectInOrder` | endpoints/demand_adapter.go:400-402 | pixels are collected hop by hop |
| `WrapperChain.PixelsSurvive` | endpoints/demand_adapter.go:375-426 | for every oracle and depth: text is only inserted, and every pixel of any hop whose URL cannot be torn is in the result once its last document has an anchor |
| `WrapperChain.UnresolvedIsIdentity` | endpoints/demand_adapter.go:380-383 | a document whose chain cannot be followed comes back unchanged, its own pixels not repeated |
| `WrapperChain.MergedNotBlank` | endpoints/demand_adapter.go:419-425 | a resolution never turns a document blank |
| `Extraction.ReadsBoth` | endpoints/demand_adapter.go:460-491 | two texts that meet at a tag are read one after the other when the scan of the first leaves no element open |
| `PixelRoundTrip.ReadsPixel` | endpoints/demand_adapter.go:460-491 | what a pixel behind any text is read as, depending on how the scan of that text ends |
| `PixelRoundTrip.ReadAsExactly` | endpoints/demand_adapter.go:479-491 | it is read as its own URL if and only if the text does not end in the content of an element |
| `PixelRoundTrip.ParentTakesFirst` | endpoints/demand_adapter.go:494-525 | the first pixel of a TrackingEvents parent is lost; text in its place only if a URL stands between the two |
| `PixelRoundTrip.ReadsDocument` | endpoints/demand_adapter.go:494-525 | a document of any number of runs and TrackingEvents blocks, with text in between, yields every URL but the first of each block |
| `PixelRoundTrip.InjectImpressionThenExtract` | endpoints/video_pipeline.go:3822-3849 | extracting impressions after injecting one into any document, and exactly when the new one is among them |
| `PixelRoundTrip.InjectThenExtract` | endpoints/video_pipeline.go:3878-3898 | extracting beacons after injecting into any document: those before the point, what the first new one is read as, the other new ones, those behind |
| `PixelRoundTrip.BeaconsReadBackExactly` | endpoints/video_pipeline.go:3885-3898 | all new beacons come back if and only if they follow an existing one and nothing before is left open |
| `PixelRoundTrip.DanglingLosesFirst` | endpoints/demand_adapter.go:500-510 | a start tag without its bracket loses the first new beacon |
| `MergedPixels.CollectedClean` | endpoints/demand_adapter.go:479-491 | every URL the scanner yields is one that it can read back |
| `MergedPixels.ImpressionsReadBack` | endpoints/video_pipeline.go:3822-3849 | after any number of impressions injected one by one into any document the scanner reads those before the point, what the first new one is read as, the other new ones, those behind |
| `MergedPixels.BeaconsReadBack` | endpoints/demand_adapter.go:422-425 | the same of beacons injected one by one |
| `MergedPixels.MergedReadsBack` | endpoints/demand_adapter.go:384-426 | what the scanner reads of impressions and beacons from the merged document of any chain |
| `TornUrl.MergeTearsUrl` | endpoints/demand_adapter.go:419-425 | a wrapper chain that collects an impression URL holding `</linear>` and loses it to the next beacon |
| `TornUrl.BeaconTearsBeacon` | endpoints/video_pipeline.go:3885-3894 | a list of beacons of which one tears the other |
| `VastValidator.ValidateVASTAdM` | endpoints/video_pipeline.go:3471-3546 | the nested decoder loops return the verdict of the specification on every token sequence |
| `VastValidator.CheckForest` | endpoints/video_pipeline.go:3476-3545 | on the tokens of any list of trees the verdict is the one read off the trees |
| `VastValidator.AcceptsExactly` | endpoints/video_pipeline.go:3457-3470 | a single-root document is accepted if and only if its root is VAST and its first direct Ad has a direct InLine or Wrapper |
| `VastValidator.AcceptsBeyondRootExactly` | endpoints/video_pipeline.go:3494-3540 | more is accepted exactly when an Ad with a creative follows a VAST root that has none; never less |
| `VastValidator.AdBehindRoot` | endpoints/video_pipeline.go:3494-3540 | such a document |
| `VastValidator.AcceptedExtends` | endpoints/video_pipeline.go:3530-3537 | once a token prefix is accepted every extension is |
| `TagUri.InsertedUri` | endpoints/demand_adapter.go:428-457 | a tag URI without brackets is that of the document after an insertion if and only if it was and the point is not inside its element |
| `Decoration.DecoratedUri` | endpoints/video_pipeline.go:3623-3629 | the same of a document with the server's own pixels and beacons |
| `Decoration.ShownExactly` | endpoints/video_pipeline.go:3623-3629 | exactly which impression URLs the player reads of it |
| `Decoration.BillingPixelExactly` | endpoints/video_pipeline.go:3623-3628 | whether the billing URL is among them: for every document, and in plain terms where no insertion falls into an impression |
| `Decoration.HeldInLongerUrl` | endpoints/video_pipeline.go:3826-3830 | a billing URL that is the beginning of another impression is never injected |
| `VastResponse.AnswerExactly` | endpoints/video_pipeline.go:3607-3661 | the kind and the address of the answer to every bid, read off the text of its markup |
| `VastResponse.FiveHops` | endpoints/video_pipeline.go:3618-3640 | resolution asks for at most five documents, and for five if every answer is a wrapper |
| `VastResponse.BillingServedExactly` | endpoints/video_pipeline.go:3574-3661 | every answer to a bid carries its billing URL as a pixel, except exactly the documents that do not show it; and exactly when a bid is refused |
| `VastResponse.BillingPixelDropped` | endpoints/video_pipeline.go:3623-3628 | an empty document is served as it is |
| `VastResponse.WinNoticeChannel` | endpoints/video_pipeline.go:3574-3590 | the win notice is fired exactly for bids with markup; a bid without is answered with its win URL as tag URI or not at all |
| `VastResponse.FiredAndExposedExactly` | endpoints/video_pipeline.go:3578-3661 | a fired win URL is also handed out, as creative, tag URI or impression, if and only if the inputs leak it: the markup or billing URL is that URL, or the document to be served names or shows it |
| `VastResponse.FiredAndExposed` | endpoints/video_pipeline.go:3630-3649 | a bid whose markup is its win URL |
| `VastResponse.FiredAndNamed` | endpoints/video_pipeline.go:3614-3629 | wrapper markup that goes out with its win URL as tag URI |
| `VastResponse.FiredThoughRejected` | endpoints/video_pipeline.go:3578-3613 | a bid is notified and rejected exactly when it has a win URL and VAST markup that fails the check |
| `VastResponse.BrokenMarkupIsNotified` | endpoints/video_pipeline.go:3578-3613 | such a bid |
| `Auction.BeatsIsStrictTotal` | exchange/auction.go:154-195 | `bidBeats` is irreflexive, asymmetric, transitive, a weak order, and total between different stable keys |
| `Auction.NewAuction` | exchange/auction.go:115-146 | for every seat order the loops record per impression the leader, and per impression and seat the seat's bids |
| `Auction.LeaderPosition` | exchange/auction.go:123-128 | the leader beats every earlier bid on its impression and no later one beats it |
| `Auction.LeaderUnbeaten` | exchange/auction.go:123-128 | no bid on the impression beats the leader |
| `Auction.WinnerDominates` | exchange/auction.go:148-195 | the recorded winner against every bid on its impression, level by level: deal if preferred, price, seat weight, latency with 0 as infinity, stable key |
| `Auction.LessMeans` | exchange/auction.go:194 | the order of the stable keys is the one of the texts |
| `Auction.GroupIsSeatFilter` | exchange/auction.go:130-136 | `allBidsByBidder` holds each seat's bids on each impression in seat order, whatever the map order |
| `Auction.OrderIndependentExactly` | exchange/auction.go:108-128 | the winner is the same for all seat orders if and only if the unbeaten bids share a seat |
| `Auction.ColonFreeSeatsDecide` | exchange/auction.go:193-194 | seat names without a colon suffice for that |
| `Auction.ColonSeatsCollide` | exchange/auction.go:193-194 | two seats with colons in their names can share a stable key |
| `MultiBid.SortBids` | exchange/auction.go:216-218 | a rearrangement in which no bid outranks an earlier one, and no more |
| `MultiBid.BidLists.RankAndCut` | exchange/auction.go:211-231 | every list is ranked and cut at the limit, exactly the cut bids are nil |
| `MultiBid.BidLists.ValidateAndUpdateMultiBid` | exchange/auction.go:211-246 | and every seat keeps its bids that are not nil |
| `MultiBid.CutIsTop` | exchange/auction.go:216-229 | what stays is ranked and within the limit, nothing cut outranks it, nothing else is lost |
| `MultiBid.SurvivorsAreUncut` | exchange/auction.go:233-245 | a seat's list becomes its original minus the cut bids, in order |
| `MultiBid.WinnerTops` | exchange/auction.go:154-208 | a winner of the four-level comparison is outranked by nothing in its own list |
| `MultiBid.WinnerSafeExactly` | exchange/auction.go:194-229 | in one list a winner survives every ranking if and only if at most `limit` bids tie with it |
| `AuctionCut.FlatStandsFor` | exchange/auction.go:120-138 | the auction over bid pointers is the auction over the bids they point to |
| `AuctionCut.LeaderStandsFor` | exchange/auction.go:123-128 | the recorded pointer is that of the leader |
| `AuctionCut.ListsAreValid` | exchange/auction.go:130-136 | the auction hands the cut disjoint lists without nil bids |
| `AuctionCut.WinnerSurvivesExactly` | exchange/auction.go:115-246 | end to end: the recorded winner is not cut, for any order of the sorts, if and only if at most `limit` bids of its bidder on the impression tie with it |
| `AuctionCut.WinnerCut` | exchange/auction.go:194-229 | a winner that is cut although the sort leaves its list as it is |
| `StatsStore.VideoStatsStore.IncDimFill` | endpoints/video_pipeline.go:900-957 | the new state of all ten tables after a fill |
| `StatsStore.VideoStatsStore.IncDimImpression` | endpoints/video_pipeline.go:962-988 | the new state after an impression, and the cached labels returned |
| `StatsStore.VideoStatsStore.IncDimComplete` | endpoints/video_pipeline.go:991-1021 | the new state after a complete |
| `StatsStore.VideoStatsStore.EvictExpired` | endpoints/video_pipeline.go:802-808 | the cache keeps exactly the entries of the last thirty minutes |
| `StatsStore.VideoStatsStore.IncRequestBatch` | endpoints/video_pipeline.go:1025-1035 | the new state of the partner tables |
| `StatsStore.VideoStatsStore.IncFillBatch` | endpoints/video_pipeline.go:1039-1049 | the new state of the partner tables |
| `StatsStore.VideoStatsStore.IncImpressionBatch` | endpoints/video_pipeline.go:1088-1106 | the new state of the partner tables |
| `StatsStore.VideoStatsStore.IncComplete` | endpoints/video_pipeline.go:1130-1137 | a reader finds one more complete in the publisher's row and in the total, and every other row as it was |
| `StatsStore.VideoStatsStore.IncAdvertiserComplete` | endpoints/video_pipeline.go:1139-1146 | the same for an advertiser; nothing without one |
| `StatsStore.VideoStatsStore.ResetAll` | endpoints/video_pipeline.go:1200-1212 | everything is empty |
| `StatsStore.VideoStatsStore.SnapshotTotal` | endpoints/video_pipeline.go:1166-1192 | in any map order the total is the sum over publishers, except publisher revenue, which stays 0; and its completion rate |
| `StatsStore.Impression` | endpoints/video_pipeline.go:968-976 | one impression earns a thousandth of each CPM price |
| `StatsStore.FillSeen` | endpoints/video_pipeline.go:900-957 | a fill adds one opportunity to the seven rows of its own labels, with defaults only for empty ones, and is cached with its own prices, partners and time |
| `StatsStore.FillThenImpression` | endpoints/video_pipeline.go:900-988 | a fill and its impression: those rows earn a thousandth of the win price and of the floor, and no other row changes |
| `StatsStore.FillThenComplete` | endpoints/video_pipeline.go:991-1021 | a fill and its complete |
| `StatsStore.PartnersSeen` | endpoints/video_pipeline.go:1025-1106 | what a request, fill or impression adds to the partner rows, "unknown" for no publisher, and that nothing else changes |
| `StatsStore.EvictedExactly` | endpoints/video_pipeline.go:802-808 | a sweep drops an auction exactly when it was filled more than thirty minutes before |
| `StatsStore.CachedForHalfAnHour` | endpoints/video_pipeline.go:802-808 | for thirty minutes an auction keeps its labels and prices through any operations but a reset and its own refill |
| `StatsStore.TotalCredit` | endpoints/video_pipeline.go:853-860 | crediting one entry of a table adds exactly that to its total |
| `StatsStore.ApplyBalances` | endpoints/video_pipeline.go:900-1021 | every operation keeps the store balanced with a ledger that has no tables |
| `StatsStore.RunBalances` | endpoints/video_pipeline.go:900-1212 | after every run each cached auction is filed in all seven tables and all seven have the same totals of every counter |
| `TrackingRing.ExpandCompress` | endpoints/video_pipeline.go:530-593 | a record with its extras gives back the event in every field |
| `TrackingRing.TrackingStore.RecordEvent` | endpoints/video_pipeline.go:460-497 | recording appends to the history; ring and extras hold the live part of it and nothing else |
| `TrackingRing.TrackingStore.All` | endpoints/video_pipeline.go:499-528 | the last `capacity` events of the history, oldest first |
| `TrackingRing.RingStep` | endpoints/video_pipeline.go:474-496 | one write keeps every slot at its place in the history, also across the wrap |
| `Deduper.KeyHashIsText` | endpoints/video_pipeline.go:1374-1390 | the hash of a key is the FNV-1a hash of auction and bid with a colon between |
| `Deduper.ShardIsModulo` | endpoints/video_pipeline.go:1369-1372 | the shard is that hash modulo 64 |
| `Deduper.ShardOf` | endpoints/video_pipeline.go:1369-1390 | the masked hash is a shard index |
| `Deduper.ImpressionDeduper.SeenOrAdd` | endpoints/video_pipeline.go:1345-1354 | the shards behave as one map: whether the key was known, and the new map |
| `Deduper.ImpressionDeduper.CleanShard` | endpoints/video_pipeline.go:1358-1365 | one shard under its lock: exactly its entries before the cutoff are gone |
| `Deduper.ImpressionDeduper.CleanupBefore` | endpoints/video_pipeline.go:1356-1367 | left alone, the sweep of all shards removes exactly the entries before the cutoff |
| `Beacons.ShardSweepIsRun` | endpoints/video_pipeline.go:1356-1367 | cleaning a shard is a run of the sweeper steps that the next rows interleave |
| `Beacons.RunInv` | endpoints/video_pipeline.go:4369-4452 | the invariants behind the next rows hold after every interleaving |
| `Beacons.CountsAreSpaced` | endpoints/video_pipeline.go:4378-4389 | a key is counted again only more than 600 seconds after the beacon that counted |
| `Beacons.GapExactly` | endpoints/video_pipeline.go:1486 | with stalls of up to d seconds counts of one key are at least w seconds apart in all runs if and only if w is at most 601 - d |
| `Beacons.GapInSeconds` | endpoints/video_pipeline.go:1486 | the same in seconds |
| `Beacons.WindowExactly` | endpoints/video_pipeline.go:4376-4389 | more than 600 seconds apart in all runs if and only if no handler stalls |
| `Beacons.StalledBeaconCountsTwice` | endpoints/video_pipeline.go:4379-4385 | for every d a run that counts one key twice, 601 - d seconds apart |
| `Beacons.BillIsSound` | endpoints/video_pipeline.go:4442-4448 | a fired notice was stored, is gone from the table and was released by a counted impression of its key whose handler read the clock before its expiry |
| `Beacons.LatenessExactly` | endpoints/video_pipeline.go:4445 | with up to d seconds from clock to release every notice fires at most w seconds after its expiry in all runs if and only if w is at least d - 1 |
| `Beacons.ExpiryExactly` | endpoints/video_pipeline.go:4445 | before its expiry in all runs if and only if no handler takes any time |
| `Beacons.FiredWithinFiveMinutes` | endpoints/video_pipeline.go:1833-1836 | left alone a notice is fired by an impression exactly if that comes within 300 seconds |
| `Beacons.StalledHandlerFiresLate` | endpoints/video_pipeline.go:4442-4448 | for every d a run that fires d - 1 seconds late |
| `Beacons.LostUnexpiredExactly` | endpoints/video_pipeline.go:1480-1485 | exactly which steps take away a notice that has not expired |
| `Beacons.SweeperDropsFresh` | endpoints/video_pipeline.go:1480-1485 | a run in which the sweeper does |
| `Beacons.BillsAreSpaced` | endpoints/video_pipeline.go:4442-4448 | no stored notice fires twice, and two of one key come from two counted impressions |
| `Beacons.NextPartitioned` | endpoints/video_pipeline.go:1480-1485 | every stored notice is pending, fired or lost, and only one of these |
| `Requests.BooksKept` | endpoints/video_pipeline.go:1025-1049 | between resets requests grow by opportunities, unfilled and in-flight requests, for every partner and interleaving |
| `Requests.AccountsBalance` | endpoints/video_pipeline.go:1728-1744 | without a reset requests are opportunities plus unfilled plus in flight |
| `Requests.BooksAfterReset` | endpoints/video_pipeline.go:1200-1212 | after a reset exactly the requests that were in flight are missing |
| `Requests.ResetSafeExactly` | endpoints/video_pipeline.go:1200-1212 | until the next reset no partner can show more opportunities than requests if and only if none was waiting for demand at the reset |
| `Requests.ResetBreaksTheBooks` | endpoints/video_pipeline.go:1200-1212 | a run in which one does |
| `Requests.TotalsAgree` | endpoints/video_pipeline.go:1798-1869 | in every interleaving publishers and all seven dimension tables agree on opportunities, impressions and revenues, up to handlers between their two updates and events without labels |
| `Requests.TotalsAfterReset` | endpoints/video_pipeline.go:1200-1212 | after a reset exactly the handlers between their two updates leave a difference |
| `Requests.ImpressionReachesPartners` | endpoints/video_pipeline_fast.go:235-296 | an impression of a cached auction, both its steps, as the fill's own partners see it |
| `Requests.FillKeepsPartners` | endpoints/video_pipeline_fast.go:65-83 | the fill of a request is filed with the request's partners and its own data |
| `Notices.EmptyMarkupExactly` | endpoints/video_pipeline.go:3380-3412 | markup counts as absent exactly when it is one of seven placeholders, in any case, between blanks |
| `Notices.ClassifyExactly` | endpoints/video_pipeline.go:3435-3455 | what markup is taken for, read off its text |
| `Notices.EligibleExactly` | endpoints/video_pipeline.go:3305-3325 | which bids take part: markup or win URL, and the floor of the demand or of the source |
| `Notices.CandidatesInOrder` | endpoints/video_pipeline.go:3298-3310 | all bids of the response are considered, in its order |
| `Notices.ExtractWinningBid` | endpoints/video_pipeline.go:3276-3354 | the earliest of the best eligible bids; none exactly when no bid is eligible |
| `Notices.WinnerUnique` | endpoints/video_pipeline.go:3356-3364 | the response alone fixes it |
| `Notices.WinnerExactly` | endpoints/video_pipeline.go:3356-3364 | the winner has the highest price, among those the highest seat weight, and is the first such |
| `Notices.BidResponse.HandleNotices` | endpoints/video_pipeline.go:1811-1865 | which notices are fired and stored, and the rewritten response |
| `Notices.BidResponse.Blank` | endpoints/video_pipeline_fast.go:143-159 | the rewriting loops change exactly the bids they should |
| `Notices.MatchesExactly` | endpoints/video_pipeline.go:1847 | which bids the rewriting takes for the winner |
| `Notices.RewrittenBids` | endpoints/video_pipeline.go:1840-1863 | every bid of the response that goes out: what is taken for the winner loses its billing URL, and its win URL if there is markup; other bids keep both |
| `Notices.WinnerMatches` | endpoints/video_pipeline.go:1843 | the winning bid is among those taken for it, and has a win URL if it has no markup |
| `Delivery.BeaconsRun` | endpoints/video_pipeline.go:1811-1865 | what the handlers do to the table of notices is a run of the beacon machine |
| `Delivery.RunInv` | endpoints/video_pipeline.go:1798-1869 | what every ORTB and VAST handler keeps, in every interleaving with beacons and sweeper |
| `Delivery.BillingSource` | endpoints/video_pipeline.go:1832-1837 | every stored billing notice was stored by exactly one ORTB response, under its key and for its winning bid, and none by a VAST answer |
| `Delivery.SingleBillingChannel` | endpoints/video_pipeline.go:1829-1850 | in every run a sent winner carries no billing URL, and any URL is in the response, as a billing URL or in markup, if and only if another bid brought it or the winner's markup holds it |
| `Delivery.SingleWinChannel` | endpoints/video_pipeline.go:1819-1858 | in every run a sent winner carries its win URL exactly if it has no markup, and then the server has not fired it; otherwise any URL is in the response, as a win URL or in markup, if and only if another bid brought it or the winner's markup holds it |
| `Delivery.VastChannels` | endpoints/video_pipeline.go:3574-3661 | in every run exactly when a VAST answer exposes a fired win URL, and that it stores no billing notice |
| `Delivery.BilledOnce` | endpoints/video_pipeline_fast.go:303-307 | in every run a stored notice fires at most once, released by a handler that read the clock before its expiry |
| `Delivery.SharedUrlGoesOut` | endpoints/video_pipeline.go:1840-1850 | a response that goes out with the billing URL that is stored, in another bid |
| `Delivery.OwnMarkupGoesOut` | endpoints/video_pipeline.go:1844-1846 | a response that goes out with the URL that is fired and stored, in the winner's markup |
| `ConfigStore.RunInv` | endpoints/video_pipeline.go:283-384 | the invariant of edits, timers and saves over every interleaving |
| `ConfigStore.NeverBackwards` | endpoints/video_pipeline.go:283-345 | an older copy never replaces a newer one |
| `ConfigStore.QuietSavedExactly` | endpoints/video_pipeline.go:347-384 | with nothing pending storage holds the last edit if and only if a save that copied it was written; then it equals memory |
| `ConfigStore.QuietMeansSaved` | endpoints/video_pipeline.go:347-384 | with nothing pending and no failed write storage equals memory |
| `ConfigStore.StoredWasMemory` | endpoints/video_pipeline.go:320-345 | what is stored is memory as it was at some point of the run |
| `ConfigStore.EditsReachStorage` | endpoints/video_pipeline.go:347-384 | from any point of any run, letting timers and saves finish stores memory |
| `ConfigStore.FailedSaveIsNotRetried` | endpoints/video_pipeline.go:337-344 | a run that ends quiet and unsaved |
| `Demand.Collect` | endpoints/video_pipeline.go:1567-1606 | for every arrival order the fill has the highest price, there is none exactly when no source filled, and the counts add up |
| `Demand.OneKind` | endpoints/video_pipeline.go:1575-1592 | every message is a fill, a no-fill or an error |
| `Demand.ArrivalOrderIrrelevant` | endpoints/video_pipeline.go:1584-1588 | the price does not depend on the order |
| `Throttle.RunWithin` | exchange/bidder.go:883-906 | in every interleaving health stays between what its successes alone and its failures alone would give |
| `Throttle.WindowIs` | exchange/bidder.go:126-133 | a window that is not positive stands for a thousand |
| `Throttle.DisabledIsStill` | exchange/bidder.go:891-894 | with throttling off nothing is recorded |
| `Throttle.HealthBounded` | exchange/bidder.go:128-133 | from 0 it is in [0,1] and at most 1-(1-1/w)^f after f failures |
| `Throttle.NoEarlyThrottle` | exchange/bidder.go:908-924 | while 5f < w no request is throttled |
| `Throttle.RejectionCapped` | exchange/bidder.go:916-918 | the rejection probability never exceeds 0.9 |
| `Throttle.HeldBackExactly` | exchange/bidder.go:908-924 | a request is held back if and only if throttling is on and not simulated, health is at least 0.2 and the draw is below the ramp |
| `Throttle.RampIsLinear` | exchange/bidder.go:916-918 | the ramp is 0 at 0.2, 0.9 at 1 and linear |
| `Throttle.FailuresThrottle` | exchange/bidder.go:890-924 | a window of failures in a row from a healthy start makes draws below a third reject |
| `Throttle.UndisturbedStep` | exchange/bidder.go:895-905 | a check that nothing overtook moves health by at most 1/w, in its own direction |
| `Throttle.WrongWayExactly` | exchange/bidder.go:895-905 | in every run a success raises health if and only if it dropped below the decayed loaded value meanwhile, and the mirror image for a failure |
| `Throttle.WrongWayBy` | exchange/bidder.go:895-905 | of the stores between load and store only the last counts: exactly which ones turn a check the wrong way |
| `Throttle.StaleSuccessRaisesHealth` | exchange/bidder.go:902-905 | a run from a healthy start in which a success raises it |
| `Throttle.BidderAdapter.LogHealthCheck` | exchange/bidder.go:890-906 | left alone a check is one load and its store |
| `Adjustments.MergeForMediaType` | bidadjustment/build_rules.go:81-101 | every entry is the request's, else the account's |
| `Adjustments.Merge` | bidadjustment/build_rules.go:56-79 | that for all media types, and the nil cases |
| `Adjustments.ValidExactly` | bidadjustment/validate.go:51-70 | which adjustments are valid, with the bounds |
| `Adjustments.MergeKeepsValid` | bidadjustment/validate.go:10-70 | merging valid rule sets gives a valid one |
| `Adjustments.MergeAndValidate` | bidadjustment/build_rules.go:41-54 | the result validates, and a warning means that an input did not |
| `Adjustments.KeyInjective` | bidadjustment/build_rules.go:34 | delimiter-free names make the string key unique, whatever the deal id |
| `Adjustments.FiledByField` | bidadjustment/build_rules.go:15-27 | every rule is found under the media type of its field and under no other |
| `Adjustments.DelimitedNamesCollide` | bidadjustment/build_rules.go:34 | other names do not |
| `Adjustments.BuildRules` | bidadjustment/build_rules.go:15-38 | in any map order the rules hold all entries and only entries |
| `Adjustments.GetRule` | bidadjustment/apply.go:70-94 | the first of the patterns that has a key |
| `Adjustments.PatternsByRank` | bidadjustment/apply.go:67-86 | the patterns are exactly the rules that match a bid, most specific first |
| `Adjustments.EmptySlotNeverMatches` | bidadjustment/apply.go:71-86 | an unused slot never matches built rules |
| `Adjustments.Adjust` | bidadjustment/apply.go:67-94 | merging, building and looking up equals the lookup without strings |
| `AdjustedPrice.ApplyAll` | bidadjustment/apply.go:41-65 | the loop's price and currency, also on a failed conversion |
| `AdjustedPrice.PriceWithoutStatic` | bidadjustment/apply.go:47-61 | the price in closed form: the start times all multipliers, less each converted CPM times the multipliers behind it |
| `AdjustedPrice.PriceBehindStatic` | bidadjustment/apply.go:57-59 | from the last static price on, whatever came before |
| `AdjustedPrice.NeverRaises` | bidadjustment/apply.go:49-56 | a CPM never raises a price, a multiplier up to 1 neither |
| `AdjustedPrice.ValidKeepsSign` | bidadjustment/validate.go:51-70 | valid adjustments other than CPM never make a price negative |
| `AdjustedPrice.FailureKeepsLabel` | bidadjustment/apply.go:51-59 | the exact condition under which price and currency still belong together then |
| `AdjustedPrice.StuckLabel` | bidadjustment/apply.go:51-59 | a bid whose price and currency no longer do |
| `AdjustedPrice.RoundedNear` | bidadjustment/apply.go:62 | rounding to four places moves a price by at most half a step and keeps it non-negative |
| `AdjustedPrice.RoundedHalves` | bidadjustment/apply.go:62 | halves are rounded away from zero |
| `AdjustedPrice.FinishPositive` | bidadjustment/apply.go:32-38 | no deal bid ends negative and no other bid free |
| `PriceBuckets.GetPriceBucket` | exchange/price_granularity.go:14-55 | the loop finds the top maximum and the last range that holds the price |
| `PriceBuckets.DownIsTight` | exchange/price_granularity.go:35-78 | down: at most the price, within one increment, the top maximum above all ranges |
| `PriceBuckets.DownMonotone` | exchange/price_granularity.go:35-78 | down is monotone across ranges |
| `PriceBuckets.UpMonotoneExactly` | exchange/price_granularity.go:69-70 | up is monotone if and only if every range is a whole number of increments |
| `PriceBuckets.UpGoesDown` | exchange/price_granularity.go:69-70 | a higher price in a lower bucket |
| `PriceBuckets.BelowRanges` | exchange/price_granularity.go:46-52 | no bucket below the first range |
| `PriceBuckets.UpIsTight` | exchange/price_granularity.go:69-70 | up: at least the price and less than one increment above |
| `PriceBuckets.NearestIsNear` | exchange/price_granularity.go:61-62 | nearest: within half an increment |
| `PriceBuckets.TimeSplitIsNeighbour` | exchange/price_granularity.go:63-68 | a time split gives the lower or the upper bucket |
| `Currency.RateValue` | currency/rates.go:26-70 | what the lookup gives on a table whose nonzero entries agree, zero entries included, in any map order |
| `Currency.ErrorsExactly` | currency/rates.go:44-70 | which error is given, and 1 for one currency without any table |
| `Currency.RateIsWorthRatio` | currency/rates.go:44-70 | every derivation in every order gives the ratio of worths if and only if one exists and no entry that could answer is zero |
| `Currency.RatesCompose` | currency/rates.go:44-70 | rates compose and invert where no zero entry answers |
| `Currency.OrderIndependentExactly` | currency/rates.go:26-37 | on any table the derived rate is order-independent if and only if the rows agree |
| `Currency.AuctionRateIsWorthRatio` | currency/currency.go:7-42 | with the server's rates in use and any custom table, nil or empty ones included, a rate is found if and only if one of the two tables links the pair; which one answers, and that it is the ratio of worths unless a zero entry does |
| `Currency.CustomRatesOnly` | currency/currency.go:17-32 | without them the same of the custom table alone |
| `Currency.ZeroRateGivesNoNumber` | currency/rates.go:60-62 | the reciprocal of a zero entry |
| `PruneImps.PruneInPlace` | adapters/infoawarebidder.go:73-135 | the compacted prefix is the filtered and trimmed input in order, with its warnings; not updated means nothing dropped |
| `PruneImps.PruneAt` | adapters/infoawarebidder.go:78-122 | one element is trimmed in place and no other touched |
| `PruneImps.KeptIsSupported` | adapters/infoawarebidder.go:73-135 | a kept impression has only supported formats, at least one, exactly one for a single-format bidder, each as it came |
| `PruneImps.DroppedExactly` | adapters/infoawarebidder.go:99-122 | when an impression is dropped |
| `PruneImps.KeptLength` | adapters/infoawarebidder.go:124-134 | the length is kept exactly when nothing is dropped |

## Left out

- HTTP, gzip, JSON, SQL, ClickHouse metrics, bid reports and logging: input and output around foreign libraries.
- XML lexing: the validator starts from tokens, with elements closed as the decoder reports them.
- Non-ASCII documents: there lower-casing can move indices, which the code does not handle either.
- Floating point: rounding, infinities other than a zero divisor, NaN and number formatting; prices are reals, so the `MaxFloat64` bound of bidadjustment/validate.go:58 is not modelled.
- 64-bit overflow of counters, sequence numbers and nanosecond timestamps, and the time zone of a stored event.
- `resolveAuctionMacros` and `validateOutboundPublicURL`: substitution is a parameter that keeps the empty string, admission of notice URLs is security policy.
- `Delivery`: one answer per VAST handler and one response per ORTB handler; the parallel collection of several sources before it is `Demand`.
- `Decoration.ShownExactly`: the server's own URLs, which it escapes, and the billing URL are taken to be http URLs without `<`.
- `VastResponse.BillingServedExactly`: the same.
- `VastResponse.FiredAndExposedExactly`: the same, and the win URL is taken to hold no `<`; beacons of a document that repeat the win URL are not counted as exposing it.
- `firedNURLs`: the guard against firing the same win URL twice is not modelled.
- `ConfigStore`: a partly failed insert of the database path and the loss of a pending save at shutdown are not modelled; a save succeeds as a whole or fails as a whole.
- `incRequest`, `incFill` and the other single-table counters: no handler but the completes uses them.
- `MultiBid`: nested maps are one map keyed by impression and bidder, and bid pointers are numbers into an explicit heap; a negative bid limit, on which the code panics, is not modelled.
- `Adjustments`: aliasing between the account's inner maps and the merged request is not modelled, and merging into a nil inner map, on which the code panics, is excluded by `Mergeable`.
- With a single demand source `runDemandWaterfall` passes its answer through, which is not modelled.
- Demand sources that panic never answer; the collector is modelled for one message per source.
- The win notice of a VAST source that later loses the parallel collection is outside `VastResponse`, which models one source.
- Dashboard, login, cookie sync, privacy, device inference, macros and configuration loading: plumbing or finite tables that would only add easy members.
