/**
 * The VAST, ORTB and impression handlers as they update the statistics under interleaving: each
 * credits the partner tables and the dimension tables in two separate steps.
 */
module Requests {
  import S = StatsStore

  /** A handler between its steps. */
  datatype Task =
    | Waiting(pub: string, adv: string) // request counted, demand has not answered
    | Filled(fill: S.Fill)              // fill counted for the partners, not yet under its labels
    | Shown(key: S.DimKey)              // impression counted under its labels, not yet for the partners
    | Unlabelled                        // impression of an auction that is not cached

  datatype State = State(store: S.Store, tasks: map<string, Task>)

  datatype Action =
    | Request(id: string, pub: string, adv: string)   // incRequestBatch
    | NoFill(id: string)                              // demand failed or had no fill
    | FillPartners(id: string, fill: S.Fill)          // incFillBatch
    | FillDims(id: string, now: int)                  // incDimFill
    | ShowDims(id: string, auctionID: string)         // incDimImpression
    | ShowPartners(id: string)                        // incImpressionBatch with the cached labels
    | ShowFallback(id: string, pub: string, adv: string, priceCPM: real, floorCPM: real) // ... or from the placement
    | ShowNothing(id: string)                         // ... or not at all, when the placement is unknown
    | CompletePub(pub: string)
    | CompleteAdv(adv: string)
    | CompleteDims(auctionID: string)
    | Evict(now: int)
    | Reset

  function Begin(s: State, id: string, op: S.Op, t: Task): State {
    State(S.Apply(s.store, op), s.tasks[id := t])
  }

  function End(s: State, id: string, op: S.Op): State {
    State(S.Apply(s.store, op), s.tasks - {id})
  }

  /** The fill of a request is filed under the partners of its placement. */
  function Own(fill: S.Fill, t: Task): S.Fill
    requires t.Waiting?
  {
    fill.(publisherID := t.pub, advertiserID := t.adv)
  }

  /** The effect of an action; one that is not possible has none. */
  function Next(s: State, a: Action): State {
    match a
    case Request(id, pub, adv) => if id in s.tasks then s else Begin(s, id, S.RequestBatch(pub, adv), Waiting(pub, adv))
    case NoFill(id) => if id in s.tasks && s.tasks[id].Waiting? then s.(tasks := s.tasks - {id}) else s
    case FillPartners(id, fill) =>
      if id in s.tasks && s.tasks[id].Waiting?
      then Begin(s, id, S.FillBatch(s.tasks[id].pub, s.tasks[id].adv), Filled(Own(fill, s.tasks[id])))
      else s
    case FillDims(id, now) =>
      if id in s.tasks && s.tasks[id].Filled? then End(s, id, S.DimFill(s.tasks[id].fill, now)) else s
    case ShowDims(id, auctionID) =>
      if id in s.tasks then s
      else Begin(s, id, S.DimImpression(auctionID),
                 if auctionID != "" && auctionID in s.store.cache then Shown(s.store.cache[auctionID]) else Unlabelled)
    case ShowPartners(id) =>
      if id in s.tasks && s.tasks[id].Shown?
      then
        var k := s.tasks[id].key;
        End(s, id, S.ImpressionBatch(k.publisherID, k.advertiserID, k.priceCPM, k.publisherPriceCPM))
      else s
    case ShowFallback(id, pub, adv, price, floor) =>
      if id in s.tasks && s.tasks[id].Unlabelled? then End(s, id, S.ImpressionBatch(pub, adv, price, floor)) else s
    case ShowNothing(id) => if id in s.tasks && s.tasks[id].Unlabelled? then s.(tasks := s.tasks - {id}) else s
    case CompletePub(pub) => s.(store := S.Apply(s.store, S.Complete(pub)))
    case CompleteAdv(adv) => s.(store := S.Apply(s.store, S.AdvertiserComplete(adv)))
    case CompleteDims(auctionID) => s.(store := S.Apply(s.store, S.DimComplete(auctionID)))
    case Evict(now) => s.(store := S.Apply(s.store, S.Evict(now)))
    case Reset => s.(store := S.Apply(s.store, S.Reset))
  }

  const INIT := State(S.EMPTY, map[])

  function Run(s: State, actions: seq<Action>): State {
    if actions == [] then s else Next(Run(s, actions[..|actions| - 1]), actions[|actions| - 1])
  }

  ghost predicate NoReset(actions: seq<Action>) {
    forall i :: 0 <= i < |actions| ==> !actions[i].Reset?
  }

  // ---- requests and fills, partner by partner

  datatype Side = Publisher | Advertiser

  /** Does a handler for these partners count under `k` on this side? */
  predicate Under(pub: string, adv: string, side: Side, k: string) {
    match side
    case Publisher => S.OrElse(pub, "unknown") == k
    case Advertiser => adv != "" && adv == k
  }

  function TableOf(s: S.Store, side: Side): S.Table {
    match side
    case Publisher => s.byPub
    case Advertiser => s.byAdvertiser
  }

  /** The counters a reader finds under `k`. */
  function Row(s: State, side: Side, k: string): S.Stats {
    S.Row(TableOf(s.store, side), k)
  }

  /** The requests under `k` that are in flight. */
  ghost function InFlight(s: State, side: Side, k: string): set<string> {
    set id | id in s.tasks && s.tasks[id].Waiting? && Under(s.tasks[id].pub, s.tasks[id].adv, side, k)
  }

  /** How many requests under `k` the actions end without a fill. */
  function Unfilled(s: State, actions: seq<Action>, side: Side, k: string): nat {
    if actions == [] then 0
    else
      var front, a := actions[..|actions| - 1], actions[|actions| - 1];
      Unfilled(s, front, side, k) + if EndsUnfilled(Run(s, front), a, side, k) then 1 else 0
  }

  predicate EndsUnfilled(s: State, a: Action, side: Side, k: string) {
    a.NoFill? && a.id in s.tasks && s.tasks[a.id].Waiting? && Under(s.tasks[a.id].pub, s.tasks[a.id].adv, side, k)
  }

  /** One step of the partner tables; only the request and fill steps move these two counters. */
  lemma StepRow(s: State, a: Action, side: Side, k: string)
    requires !a.Reset?
    ensures var t, t' := Row(s, side, k), Row(Next(s, a), side, k);
            && t'.adRequests == t.adRequests + (if a.Request? && a.id !in s.tasks && Under(a.pub, a.adv, side, k) then 1 else 0)
            && t'.opportunities == t.opportunities
               + (if a.FillPartners? && a.id in InFlight(s, side, k) then 1 else 0)
  {
  }

  lemma FlightRemoved(s: State, s': State, id: string, side: Side, k: string)
    requires id in s.tasks && (forall i :: i != id ==> (i in s'.tasks <==> i in s.tasks))
    requires forall i :: i != id && i in s.tasks ==> s'.tasks[i] == s.tasks[i]
    requires id in s'.tasks ==> !s'.tasks[id].Waiting?
    ensures |InFlight(s, side, k)| == |InFlight(s', side, k)| + if id in InFlight(s, side, k) then 1 else 0
  {
    hide Under;
    if id in InFlight(s, side, k) {
      assert InFlight(s, side, k) == InFlight(s', side, k) + {id};
    } else {
      assert InFlight(s, side, k) == InFlight(s', side, k);
    }
  }

  lemma FlightAdded(s: State, s': State, id: string, t: Task, side: Side, k: string)
    requires id !in s.tasks && s'.tasks == s.tasks[id := t]
    ensures |InFlight(s', side, k)|
            == |InFlight(s, side, k)| + if t.Waiting? && Under(t.pub, t.adv, side, k) then 1 else 0
  {
    hide Under;
    FlightRemoved(s', s, id, side, k);
  }

  lemma SameFlights(s: State, s': State, side: Side, k: string)
    requires s'.tasks == s.tasks
    ensures InFlight(s', side, k) == InFlight(s, side, k)
  {
  }

  lemma StepFlights(s: State, a: Action, side: Side, k: string)
    ensures |InFlight(Next(s, a), side, k)|
            == |InFlight(s, side, k)|
               + (if a.Request? && a.id !in s.tasks && Under(a.pub, a.adv, side, k) then 1 else 0)
               - (if (a.FillPartners? || a.NoFill?) && a.id in InFlight(s, side, k) then 1 else 0)
  {
    hide S.Apply;
    var s' := Next(s, a);
    match a {
      case Request(id, pub, adv) =>
        if id !in s.tasks {
          FlightAdded(s, s', id, Waiting(pub, adv), side, k);
        }
      case ShowDims(id, auctionID) =>
        if id !in s.tasks {
          FlightAdded(s, s', id, s'.tasks[id], side, k);
        }
      case NoFill(id) => StepEnds(s, s', id, side, k);
      case FillPartners(id, _) => StepEnds(s, s', id, side, k);
      case FillDims(id, _) => StepEnds(s, s', id, side, k);
      case ShowPartners(id) => StepEnds(s, s', id, side, k);
      case ShowFallback(id, _, _, _, _) => StepEnds(s, s', id, side, k);
      case ShowNothing(id) => StepEnds(s, s', id, side, k);
      case _ => SameFlights(s, s', side, k);
    }
  }

  lemma StepEnds(s: State, s': State, id: string, side: Side, k: string)
    requires s'.tasks == s.tasks || (id in s.tasks && (s'.tasks == s.tasks - {id} || (id in s'.tasks && !s'.tasks[id].Waiting? && s'.tasks == s.tasks[id := s'.tasks[id]])))
    ensures |InFlight(s, side, k)| == |InFlight(s', side, k)|
            + if s'.tasks != s.tasks && id in InFlight(s, side, k) then 1 else 0
  {
    if s'.tasks == s.tasks {
      SameFlights(s, s', side, k);
    } else {
      FlightRemoved(s, s', id, side, k);
    }
  }

  /** Between resets: requests counted = opportunities + unfilled + in flight, up to what was there at the start. */
  lemma {:induction false} BooksKept(s: State, actions: seq<Action>, side: Side, k: string)
    requires NoReset(actions)
    ensures var t, t', s' := Row(s, side, k), Row(Run(s, actions), side, k), Run(s, actions);
            (t'.adRequests - t.adRequests) + |InFlight(s, side, k)|
            == (t'.opportunities - t.opportunities) + Unfilled(s, actions, side, k) + |InFlight(s', side, k)|
  {
    hide Next, InFlight, Row;
    if actions != [] {
      var front, a := actions[..|actions| - 1], actions[|actions| - 1];
      BooksKept(s, front, side, k);
      StepRow(Run(s, front), a, side, k);
      StepFlights(Run(s, front), a, side, k);
      UnfilledStep(Run(s, front), a, side, k);
    }
  }

  lemma UnfilledStep(s: State, a: Action, side: Side, k: string)
    ensures EndsUnfilled(s, a, side, k) <==> a.NoFill? && a.id in InFlight(s, side, k)
  {
  }

  /** Without a reset a partner's requests are its opportunities, its unfilled requests and those in flight. */
  lemma AccountsBalance(actions: seq<Action>, side: Side, k: string)
    requires NoReset(actions)
    ensures var s := Run(INIT, actions);
            var t := Row(s, side, k);
            && t.adRequests == t.opportunities + Unfilled(INIT, actions, side, k) + |InFlight(s, side, k)|
            && t.opportunities <= t.adRequests
  {
    hide Run, Unfilled;
    assert InFlight(INIT, side, k) == {};
    BooksKept(INIT, actions, side, k);
  }

  /** After a reset the requests that were in flight then are missing from the books, and only those. */
  lemma BooksAfterReset(before: seq<Action>, after: seq<Action>, side: Side, k: string)
    requires NoReset(after)
    ensures var s := Run(INIT, before);
            var s' := Run(Next(s, Reset), after);
            var t := Row(s', side, k);
            t.adRequests + |InFlight(s, side, k)|
            == t.opportunities + Unfilled(Next(s, Reset), after, side, k) + |InFlight(s', side, k)|
  {
    hide Run, Unfilled;
    var s := Run(INIT, before);
    SameFlights(s, Next(s, Reset), side, k);
    BooksKept(Next(s, Reset), after, side, k);
  }

  /** No row shows more opportunities than requests. */
  ghost predicate Covered(s: State) {
    forall side, k :: Row(s, side, k).opportunities <= Row(s, side, k).adRequests
  }

  predicate Idle(s: State) {
    forall id | id in s.tasks :: !s.tasks[id].Waiting?
  }

  /**
   * A reset is safe if and only if no request is waiting for demand: then, and only then, no
   * partner shows more opportunities than requests whatever happens until the next reset.
   */
  lemma ResetSafeExactly(before: seq<Action>)
    ensures var s := Run(INIT, before);
            (forall after :: NoReset(after) ==> Covered(Run(Next(s, Reset), after))) <==> Idle(s)
  {
    hide Run, Unfilled, Row;
    var s := Run(INIT, before);
    if Idle(s) {
      forall after, side, k | NoReset(after)
        ensures Row(Run(Next(s, Reset), after), side, k).opportunities <= Row(Run(Next(s, Reset), after), side, k).adRequests
      {
        assert InFlight(s, side, k) == {};
        BooksAfterReset(before, after, side, k);
      }
    } else {
      var id :| id in s.tasks && s.tasks[id].Waiting?;
      FillAfterReset(s, id);
    }
  }

  /** The fill of a request from before the reset. */
  lemma FillAfterReset(s: State, id: string)
    requires id in s.tasks && s.tasks[id].Waiting?
    ensures exists after :: NoReset(after) && !Covered(Run(Next(s, Reset), after))
  {
    hide Next;
    ResetRows(s);
    var fill := S.Fill("", "", 0.0, "", "", "", 0, "", "", 0.0, "", "", S.Prebid);
    var s0, after, k := Next(s, Reset), [FillPartners(id, fill)], S.OrElse(s.tasks[id].pub, "unknown");
    assert after[..0] == [] && Run(s0, []) == s0;
    assert Run(s0, after) == Next(s0, after[0]);
    StepRow(s0, after[0], Publisher, k);
    assert NoReset(after) && !Covered(Run(s0, after));
  }

  lemma ResetRows(s: State)
    ensures Next(s, Reset).tasks == s.tasks && forall side, k :: Row(Next(s, Reset), side, k) == S.ZERO
  {
  }

  /** A run in which a fill is left without its request. */
  lemma ResetBreaksTheBooks()
    ensures exists after :: NoReset(after) && !Covered(Run(Next(Run(INIT, [Request("r", "p", "")]), Reset), after))
  {
    var before := [Request("r", "p", "")];
    assert before[..0] == [] && Run(INIT, []) == INIT;
    assert Run(INIT, before) == Next(INIT, before[0]);
    FillAfterReset(Run(INIT, before), "r");
  }

  // ---- partner totals against dimension totals

  /** What the partner tables are ahead of the dimension tables because of a handler (negative: behind). */
  function Ahead(t: Task): S.Stats {
    match t
    case Filled(fill) => if fill.auctionID == "" then S.ZERO else S.OPPORTUNITY
    case Shown(k) => Negated(S.Impression(k.priceCPM, k.publisherPriceCPM))
    case _ => S.ZERO
  }

  function Negated(t: S.Stats): S.Stats {
    S.Stats(-t.adRequests, -t.opportunities, -t.impressions, -t.completes, -t.revenue, -t.publisherRevenue)
  }

  function AheadTable(s: State): S.Table {
    map id | id in s.tasks :: Ahead(s.tasks[id])
  }

  /** Opportunities, impressions and both revenues; requests and completes are counted on their own terms. */
  function Delivered(t: S.Stats): S.Stats {
    t.(adRequests := 0, completes := 0)
  }

  /** What an action credits to the partners alone: a fill without an auction id, an impression without labels. */
  function Loose(s: State, a: Action): S.Stats {
    if a.FillPartners? && a.id in s.tasks && s.tasks[a.id].Waiting? && a.fill.auctionID == "" then S.OPPORTUNITY
    else if a.ShowFallback? && a.id in s.tasks && s.tasks[a.id].Unlabelled? then S.Impression(a.priceCPM, a.floorCPM)
    else S.ZERO
  }

  function LooseTotal(s: State, actions: seq<Action>): S.Stats {
    if actions == [] then S.ZERO
    else
      var front := actions[..|actions| - 1];
      S.Add(LooseTotal(s, front), Loose(Run(s, front), actions[|actions| - 1]))
  }

  /** The totals a store stands for. */
  ghost function LedgerOf(s: S.Store): S.Ledger {
    S.Ledger(s.cache, S.Total(s.dims.bidder), S.Total(s.byPub), S.Total(s.byAdvertiser))
  }

  /** All seven dimension tables have one total, and every cached auction is filed. */
  ghost predicate Coherent(s: S.Store) {
    S.Balanced(s, LedgerOf(s))
  }

  lemma StepCoherent(s: S.Store, op: S.Op)
    requires Coherent(s)
    ensures Coherent(S.Apply(s, op)) && LedgerOf(S.Apply(s, op)) == S.Book(LedgerOf(s), op)
  {
    hide S.Apply, S.Book, S.Total;
    S.ApplyBalances(s, LedgerOf(s), op);
  }

  lemma {:induction false} RunCoherent(s: State, actions: seq<Action>)
    requires Coherent(s.store)
    ensures Coherent(Run(s, actions).store)
  {
    hide Coherent, S.Apply;
    if actions != [] {
      var front, a := actions[..|actions| - 1], actions[|actions| - 1];
      RunCoherent(s, front);
      NextCoherent(Run(s, front), a);
    }
  }

  /** The statistics operation of an action, if it has one. */
  function OpOf(s: State, a: Action): seq<S.Op> {
    match a
    case Request(id, pub, adv) => if id in s.tasks then [] else [S.RequestBatch(pub, adv)]
    case NoFill(_) => []
    case FillPartners(id, _) =>
      if id in s.tasks && s.tasks[id].Waiting? then [S.FillBatch(s.tasks[id].pub, s.tasks[id].adv)] else []
    case FillDims(id, now) => if id in s.tasks && s.tasks[id].Filled? then [S.DimFill(s.tasks[id].fill, now)] else []
    case ShowDims(id, auctionID) => if id in s.tasks then [] else [S.DimImpression(auctionID)]
    case ShowPartners(id) =>
      if id in s.tasks && s.tasks[id].Shown? then
        var k := s.tasks[id].key;
        [S.ImpressionBatch(k.publisherID, k.advertiserID, k.priceCPM, k.publisherPriceCPM)]
      else []
    case ShowFallback(id, pub, adv, price, floor) =>
      if id in s.tasks && s.tasks[id].Unlabelled? then [S.ImpressionBatch(pub, adv, price, floor)] else []
    case ShowNothing(_) => []
    case CompletePub(pub) => [S.Complete(pub)]
    case CompleteAdv(adv) => [S.AdvertiserComplete(adv)]
    case CompleteDims(auctionID) => [S.DimComplete(auctionID)]
    case Evict(now) => [S.Evict(now)]
    case Reset => [S.Reset]
  }

  lemma NextStore(s: State, a: Action)
    ensures var ops := OpOf(s, a);
            |ops| <= 1 && Next(s, a).store == if ops == [] then s.store else S.Apply(s.store, ops[0])
  {
    hide S.Apply;
  }

  lemma NextCoherent(s: State, a: Action)
    requires Coherent(s.store)
    ensures Coherent(Next(s, a).store)
  {
    hide Coherent, S.Apply, Next, OpOf;
    NextStore(s, a);
    if OpOf(s, a) != [] {
      StepCoherent(s.store, OpOf(s, a)[0]);
    }
  }

  lemma AheadRemoved(s: State, s': State, id: string)
    requires id in s.tasks && s'.tasks == s.tasks - {id}
    ensures S.Total(AheadTable(s)) == S.Add(Ahead(s.tasks[id]), S.Total(AheadTable(s')))
  {
    hide S.Total, S.Add, Ahead;
    S.TotalSplit(AheadTable(s), id);
    assert AheadTable(s) - {id} == AheadTable(s');
  }

  lemma AheadAdded(s: State, s': State, id: string)
    requires id !in s.tasks && id in s'.tasks && s'.tasks == s.tasks[id := s'.tasks[id]]
    ensures S.Total(AheadTable(s')) == S.Add(Ahead(s'.tasks[id]), S.Total(AheadTable(s)))
  {
    hide S.Total, S.Add, Ahead;
    assert s.tasks == s'.tasks - {id};
    AheadRemoved(s', s, id);
  }

  lemma AheadReplaced(s: State, s': State, id: string)
    requires id in s.tasks && id in s'.tasks && s'.tasks == s.tasks[id := s'.tasks[id]]
    ensures var rest := S.Total(AheadTable(s.(tasks := s.tasks - {id})));
            && S.Total(AheadTable(s)) == S.Add(Ahead(s.tasks[id]), rest)
            && S.Total(AheadTable(s')) == S.Add(Ahead(s'.tasks[id]), rest)
  {
    hide S.Total, S.Add, Ahead;
    var mid := s.(tasks := s.tasks - {id});
    AheadRemoved(s, mid, id);
    assert s'.tasks - {id} == mid.tasks;
    AheadRemoved(s', mid, id);
  }

  lemma AheadSame(s: State, s': State)
    requires s'.tasks == s.tasks
    ensures AheadTable(s') == AheadTable(s)
  {
    hide Ahead;
  }

  /** How far the publishers' totals are ahead of the dimensions' beyond what handlers in between explain. */
  function Surplus(pub: S.Stats, dim: S.Stats, ahead: S.Stats): S.Stats {
    Delivered(S.Add(pub, Negated(S.Add(dim, ahead))))
  }

  ghost function SurplusOf(s: State): S.Stats {
    Surplus(S.Total(s.store.byPub), S.Total(s.store.dims.bidder), S.Total(AheadTable(s)))
  }

  /** What an action adds to the publishers' total, to each dimension total and to what handlers explain. */
  datatype Move = Move(pub: S.Stats, dim: S.Stats, ahead: S.Stats)

  const STILL := Move(S.ZERO, S.ZERO, S.ZERO)

  function MoveOf(s: State, a: Action): Move {
    match a
    case Request(id, _, _) => if id in s.tasks then STILL else STILL.(pub := S.REQUEST)
    case FillPartners(id, fill) =>
      if id in s.tasks && s.tasks[id].Waiting?
      then Move(S.OPPORTUNITY, S.ZERO, if fill.auctionID == "" then S.ZERO else S.OPPORTUNITY)
      else STILL
    case FillDims(id, _) =>
      if id in s.tasks && s.tasks[id].Filled? && s.tasks[id].fill.auctionID != ""
      then Move(S.ZERO, S.OPPORTUNITY, Negated(S.OPPORTUNITY))
      else STILL
    case ShowDims(id, auctionID) =>
      if id !in s.tasks && auctionID != "" && auctionID in s.store.cache then
        var earned := Earned(s.store.cache[auctionID]);
        Move(S.ZERO, earned, Negated(earned))
      else STILL
    case ShowPartners(id) =>
      if id in s.tasks && s.tasks[id].Shown?
      then Move(Earned(s.tasks[id].key), S.ZERO, Earned(s.tasks[id].key)) else STILL
    case ShowFallback(id, _, _, price, floor) =>
      if id in s.tasks && s.tasks[id].Unlabelled? then STILL.(pub := S.Impression(price, floor)) else STILL
    case CompletePub(_) => STILL.(pub := S.COMPLETE)
    case CompleteDims(auctionID) =>
      if auctionID != "" && auctionID in s.store.cache then STILL.(dim := S.COMPLETE) else STILL
    case _ => STILL
  }

  function Earned(k: S.DimKey): S.Stats {
    S.Impression(k.priceCPM, k.publisherPriceCPM)
  }

  lemma AddZero(t: S.Stats)
    ensures S.Add(t, S.ZERO) == t == S.Add(S.ZERO, t)
  {
  }

  lemma TakeBack(x: S.Stats, t: S.Stats)
    ensures S.Add(S.Add(t, x), Negated(t)) == x == S.Add(S.Add(Negated(t), x), t)
    ensures S.Add(t, x) == S.Add(x, t)
  {
  }

  lemma MovesTables(s: State, a: Action)
    requires Coherent(s.store) && !a.Reset?
    ensures S.Total(Next(s, a).store.byPub) == S.Add(S.Total(s.store.byPub), MoveOf(s, a).pub)
    ensures S.Total(Next(s, a).store.dims.bidder) == S.Add(S.Total(s.store.dims.bidder), MoveOf(s, a).dim)
  {
    hide S.Total, S.Apply, Coherent, S.Add, S.KeyOf, S.Impression;
    var l, m := LedgerOf(s.store), MoveOf(s, a);
    NextStore(s, a);
    AddZero(l.pub);
    AddZero(l.dim);
    if OpOf(s, a) != [] {
      StepCoherent(s.store, OpOf(s, a)[0]);
      BookMoves(l, s, a);
    }
  }

  lemma BookMoves(l: S.Ledger, s: State, a: Action)
    requires l.cache == s.store.cache && OpOf(s, a) != [] && !a.Reset?
    ensures var l' := S.Book(l, OpOf(s, a)[0]);
            l'.pub == S.Add(l.pub, MoveOf(s, a).pub) && l'.dim == S.Add(l.dim, MoveOf(s, a).dim)
  {
    hide S.Add, S.KeyOf, S.Impression;
    AddZero(l.pub);
    AddZero(l.dim);
  }

  lemma MovesAhead(s: State, a: Action)
    ensures S.Total(AheadTable(Next(s, a))) == S.Add(S.Total(AheadTable(s)), MoveOf(s, a).ahead)
  {
    hide S.Total, S.Apply, S.Add, AheadTable, S.Impression, Negated;
    var s' := Next(s, a);
    var x, x' := S.Total(AheadTable(s)), S.Total(AheadTable(s'));
    AddZero(x);
    AddZero(x');
    if a.Request? || a.ShowDims? {
      if a.id !in s.tasks {
        AheadAdded(s, s', a.id);
        TakeBack(x, Ahead(s'.tasks[a.id]));
      } else {
        AheadSame(s, s');
      }
    } else if a.FillPartners? && a.id in s.tasks && s.tasks[a.id].Waiting? {
      AheadReplaced(s, s', a.id);
      var rest := S.Total(AheadTable(s.(tasks := s.tasks - {a.id})));
      AddZero(rest);
      TakeBack(rest, Ahead(s'.tasks[a.id]));
    } else if s'.tasks != s.tasks {
      var id :| id in s.tasks && s'.tasks == s.tasks - {id} && Ends(s, a, id);
      AheadRemoved(s, s', id);
      RemovedMove(s, a, id, x');
    } else {
      AheadSame(s, s');
    }
  }

  predicate Ends(s: State, a: Action, id: string) {
    && id in s.tasks
    && match a
       case NoFill(i) => i == id && s.tasks[id].Waiting?
       case FillDims(i, _) => i == id && s.tasks[id].Filled?
       case ShowPartners(i) => i == id && s.tasks[id].Shown?
       case ShowFallback(i, _, _, _, _) => i == id && s.tasks[id].Unlabelled?
       case ShowNothing(i) => i == id && s.tasks[id].Unlabelled?
       case _ => false
  }

  lemma RemovedMove(s: State, a: Action, id: string, rest: S.Stats)
    requires Ends(s, a, id)
    ensures S.Add(S.Add(Ahead(s.tasks[id]), rest), MoveOf(s, a).ahead) == rest
  {
    hide S.Impression, S.Add, Negated;
    AddZero(rest);
    TakeBack(rest, S.OPPORTUNITY);
    if s.tasks[id].Shown? {
      TakeBack(rest, Earned(s.tasks[id].key));
    }
  }

  lemma Cancels(t: S.Stats)
    ensures S.Add(t, Negated(t)) == S.ZERO
  {
  }

  lemma NothingDelivered()
    ensures Delivered(S.ZERO) == Delivered(S.REQUEST) == Delivered(S.COMPLETE) == S.ZERO
    ensures Delivered(S.OPPORTUNITY) == S.OPPORTUNITY
  {
  }

  lemma ImpressionDelivered(price: real, floor: real)
    ensures Delivered(S.Impression(price, floor)) == S.Impression(price, floor)
  {
  }

  /** Every action moves the totals alike, but for what it credits to the partners alone. */
  lemma MoveBalanced(s: State, a: Action)
    ensures var m := MoveOf(s, a);
            Delivered(m.pub) == Delivered(S.Add(S.Add(m.dim, m.ahead), Loose(s, a))) && Delivered(Loose(s, a)) == Loose(s, a)
  {
    hide S.Impression, S.Add, Negated, Delivered;
    var m := MoveOf(s, a);
    NothingDelivered();
    Cancels(S.OPPORTUNITY);
    Cancels(m.dim);
    AddZero(m.dim);
    AddZero(m.ahead);
    AddZero(S.ZERO);
    AddZero(S.OPPORTUNITY);
    AddZero(Loose(s, a));
    if a.ShowFallback? {
      ImpressionDelivered(a.priceCPM, a.floorCPM);
    }
  }

  lemma SurplusMoves(pub: S.Stats, dim: S.Stats, x: S.Stats, m: Move, loose: S.Stats)
    requires Delivered(m.pub) == Delivered(S.Add(S.Add(m.dim, m.ahead), loose))
    ensures Surplus(S.Add(pub, m.pub), S.Add(dim, m.dim), S.Add(x, m.ahead)) == S.Add(Surplus(pub, dim, x), Delivered(loose))
  {
  }

  lemma StepSurplus(s: State, a: Action)
    requires Coherent(s.store) && !a.Reset?
    ensures SurplusOf(Next(s, a)) == S.Add(SurplusOf(s), Loose(s, a))
  {
    hide S.Total, Next, Coherent, AheadTable, MoveOf, Loose, Surplus, S.Add, Delivered;
    MovesTables(s, a);
    MovesAhead(s, a);
    MoveBalanced(s, a);
    SurplusMoves(S.Total(s.store.byPub), S.Total(s.store.dims.bidder), S.Total(AheadTable(s)), MoveOf(s, a), Loose(s, a));
  }

  lemma {:induction false} SurplusKept(s: State, actions: seq<Action>)
    requires Coherent(s.store) && NoReset(actions)
    ensures SurplusOf(Run(s, actions)) == S.Add(SurplusOf(s), LooseTotal(s, actions))
  {
    hide Coherent, SurplusOf, Next, Loose;
    if actions != [] {
      var front, a := actions[..|actions| - 1], actions[|actions| - 1];
      SurplusKept(s, front);
      RunCoherent(s, front);
      StepSurplus(Run(s, front), a);
    }
  }

  lemma NoTotal()
    ensures S.Total(map[]) == S.ZERO
  {
  }

  lemma EmptyTotals(s: State)
    requires s.store == S.EMPTY
    ensures Coherent(s.store) && SurplusOf(s) == Surplus(S.ZERO, S.ZERO, S.Total(AheadTable(s)))
  {
    hide S.Total, Surplus, S.Balanced;
    S.EmptyBalances();
    NoTotal();
  }

  lemma SurplusMeans(pub: S.Stats, dim: S.Stats, x: S.Stats, x0: S.Stats, loose: S.Stats)
    requires Surplus(pub, dim, x) == S.Add(Surplus(S.ZERO, S.ZERO, x0), loose)
    ensures Delivered(S.Add(pub, x0)) == Delivered(S.Add(S.Add(dim, x), loose))
  {
  }

  /** From empty tables on: what handlers explain at the start and at the end, and what was credited alone. */
  lemma TotalsFrom(s: State, actions: seq<Action>)
    requires s.store == S.EMPTY && NoReset(actions)
    ensures var s' := Run(s, actions);
            var dim := S.Total(s'.store.dims.bidder);
            && S.AllTotal(s'.store.dims, dim)
            && Delivered(S.Add(S.Total(s'.store.byPub), S.Total(AheadTable(s))))
               == Delivered(S.Add(S.Add(dim, S.Total(AheadTable(s'))), LooseTotal(s, actions)))
  {
    hide S.Total, Run, AheadTable, LooseTotal, S.AllTotal, Surplus, Delivered, S.Add, NoReset;
    var s' := Run(s, actions);
    EmptyTotals(s);
    RunCoherent(s, actions);
    SurplusKept(s, actions);
    SurplusMeans(S.Total(s'.store.byPub), S.Total(s'.store.dims.bidder), S.Total(AheadTable(s')), S.Total(AheadTable(s)),
                 LooseTotal(s, actions));
  }

  /**
   * Without a reset, in every interleaving: the publishers' opportunities, impressions and revenues
   * are those of each of the seven dimension tables, plus what handlers between their two steps
   * have still to bring into line, plus fills without an auction id and impressions without labels.
   */
  lemma TotalsAgree(actions: seq<Action>)
    requires NoReset(actions)
    ensures var s := Run(INIT, actions);
            var dim := S.Total(s.store.dims.bidder);
            && S.AllTotal(s.store.dims, dim)
            && Delivered(S.Total(s.store.byPub))
               == Delivered(S.Add(S.Add(dim, S.Total(AheadTable(s))), LooseTotal(INIT, actions)))
  {
    hide S.Total, Run, LooseTotal, S.AllTotal, Delivered, S.Add, NoReset;
    TotalsFrom(INIT, actions);
    assert AheadTable(INIT) == map[];
    NoTotal();
    AddZero(S.Total(Run(INIT, actions).store.byPub));
  }

  /** After a reset the handlers that were between their two steps leave a difference for good, and only those. */
  lemma TotalsAfterReset(before: seq<Action>, after: seq<Action>)
    requires NoReset(after)
    ensures var s := Run(INIT, before);
            var s' := Run(Next(s, Reset), after);
            Delivered(S.Add(S.Total(s'.store.byPub), S.Total(AheadTable(s))))
            == Delivered(S.Add(S.Add(S.Total(s'.store.dims.bidder), S.Total(AheadTable(s'))),
                               LooseTotal(Next(s, Reset), after)))
  {
    hide S.Total, Run, LooseTotal, Delivered, S.Add, NoReset, AheadTable;
    var s := Run(INIT, before);
    AheadSame(s, Next(s, Reset));
    TotalsFrom(Next(s, Reset), after);
  }

  // ---- one impression, from its fill to the partners

  /**
   * An impression of a cached auction, both its steps: the rows of the fill's own publisher and
   * advertiser have one more impression and have earned a thousandth of the win price, and of the
   * floor for the publisher; no other partner row changes.
   */
  lemma ImpressionReachesPartners(s: State, f: S.Fill, born: int, id: string, pubRow: string)
    requires id !in s.tasks && f.auctionID != "" && f.auctionID in s.store.cache && s.store.cache[f.auctionID] == S.KeyOf(f, born)
    requires S.Labels(pubRow, f.publisherID, "unknown")
    ensures var s' := Next(Next(s, ShowDims(id, f.auctionID)), ShowPartners(id));
            var inc := S.Stats(0, 0, 1, 0, f.winPrice / 1000.0, f.floorCPM / 1000.0);
            && s'.tasks == s.tasks && S.OnlyRow(s.store.byPub, s'.store.byPub, pubRow, inc)
            && if f.advertiserID == "" then s'.store.byAdvertiser == s.store.byAdvertiser
               else S.OnlyRow(s.store.byAdvertiser, s'.store.byAdvertiser, f.advertiserID, inc)
  {
    hide S.Credit, S.OnlyRow, S.CreditDims, S.Partners, S.Labels;
    var inc := S.Stats(0, 0, 1, 0, f.winPrice / 1000.0, f.floorCPM / 1000.0);
    var s1 := Next(s, ShowDims(id, f.auctionID));
    var op := S.ImpressionBatch(f.publisherID, f.advertiserID, f.winPrice, f.floorCPM);
    assert S.PartnerCount(op, f.publisherID, f.advertiserID, inc);
    S.PartnersSeen(s1.store, op, f.publisherID, f.advertiserID, pubRow, inc);
    assert s1.tasks - {id} == s.tasks;
  }

  /** The fill of a request is filed with the partners of the request and with its own price and floor. */
  lemma FillKeepsPartners(s: State, id: string, pub: string, adv: string, fill: S.Fill, now: int)
    requires id !in s.tasks && fill.auctionID != ""
    ensures var s' := Next(Next(Next(s, Request(id, pub, adv)), FillPartners(id, fill)), FillDims(id, now));
            && s'.tasks == s.tasks && fill.auctionID in s'.store.cache
            && s'.store.cache[fill.auctionID] == S.KeyOf(fill.(publisherID := pub, advertiserID := adv), now)
  {
    hide S.Credit, S.FillDims, S.KeyOf, S.Partners;
    var s1 := Next(s, Request(id, pub, adv));
    var s2 := Next(s1, FillPartners(id, fill));
    assert s2.tasks[id] == Filled(fill.(publisherID := pub, advertiserID := adv));
    assert s2.tasks - {id} == s.tasks;
  }
}
