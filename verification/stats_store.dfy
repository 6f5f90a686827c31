/** The in-memory video statistics: two partner tables, seven dimension tables and the auction cache. */
module StatsStore {
  import opened Options

  // ---- counters and tables

  datatype Stats = Stats(adRequests: int, opportunities: int, impressions: int, completes: int,
                         revenue: real, publisherRevenue: real)

  const ZERO := Stats(0, 0, 0, 0, 0.0, 0.0)
  const REQUEST := ZERO.(adRequests := 1)
  const OPPORTUNITY := ZERO.(opportunities := 1)
  const COMPLETE := ZERO.(completes := 1)

  /** One impression earns a thousandth of each CPM price. */
  function Impression(priceCPM: real, publisherPriceCPM: real): (r: Stats)
    ensures r.impressions == 1 && r.adRequests == r.opportunities == r.completes == 0
    ensures 1000.0 * r.revenue == priceCPM && 1000.0 * r.publisherRevenue == publisherPriceCPM
  {
    ZERO.(impressions := 1, revenue := priceCPM / 1000.0, publisherRevenue := publisherPriceCPM / 1000.0)
  }

  function Add(a: Stats, b: Stats): Stats {
    Stats(a.adRequests + b.adRequests, a.opportunities + b.opportunities, a.impressions + b.impressions,
          a.completes + b.completes, a.revenue + b.revenue, a.publisherRevenue + b.publisherRevenue)
  }

  type Table = map<string, Stats>

  /** `getOrCreate` followed by counter updates. */
  function Credit(t: Table, k: string, d: Stats): Table {
    t[k := Add(if k in t then t[k] else ZERO, d)]
  }

  /** Counter updates on an entry that is only looked up. */
  function CreditIfPresent(t: Table, k: string, d: Stats): Table {
    if k in t then Credit(t, k, d) else t
  }

  /** What a reader finds under a key. */
  function Row(t: Table, k: string): Stats {
    if k in t then t[k] else ZERO
  }

  /** The row of `k` has grown by `d`, every other row reads as before. */
  ghost predicate OnlyRow(t: Table, t': Table, k: string, d: Stats) {
    && t'.Keys == t.Keys + {k}
    && Row(t', k) == Add(Row(t, k), d)
    && forall j :: j != k ==> Row(t', j) == Row(t, j)
  }

  ghost function Pick(t: Table): (k: string)
    requires t != map[]
    ensures k in t
  {
    var k :| k in t;
    k
  }

  ghost function Total(t: Table): Stats
    decreases |t|
  {
    if t == map[] then ZERO else Add(t[Pick(t)], Total(t - {Pick(t)}))
  }

  lemma AddSwap(a: Stats, b: Stats, c: Stats)
    ensures Add(a, Add(b, c)) == Add(b, Add(a, c)) == Add(Add(b, a), c) == Add(Add(b, c), a)
  {
  }

  lemma {:induction false} TotalSplit(t: Table, k: string)
    requires k in t
    ensures Total(t) == Add(t[k], Total(t - {k}))
    decreases |t|
  {
    hide Add, Pick;
    var k0 := Pick(t);
    if k0 != k {
      TotalSplit(t - {k0}, k);
      TotalSplit(t - {k}, k0);
      assert t - {k0} - {k} == t - {k} - {k0};
      AddSwap(t[k0], t[k], Total(t - {k0} - {k}));
    }
  }

  lemma TotalCredit(t: Table, k: string, d: Stats)
    ensures Total(Credit(t, k, d)) == Add(Total(t), d)
  {
    hide Add, Total;
    var t' := Credit(t, k, d);
    TotalSplit(t', k);
    if k in t {
      TotalSplit(t, k);
      assert t' - {k} == t - {k};
      AddSwap(d, t[k], Total(t - {k}));
    } else {
      assert t' - {k} == t;
      AddSwap(d, ZERO, Total(t));
      AddZero(Total(t));
    }
  }

  /** A credit as a reader of the table sees it. */
  lemma CreditSeen(t: Table, k: string, d: Stats)
    ensures OnlyRow(t, Credit(t, k, d), k, d) && Total(Credit(t, k, d)) == Add(Total(t), d)
  {
    hide Add, Total;
    TotalCredit(t, k, d);
  }

  lemma AddZero(a: Stats)
    ensures Add(a, ZERO) == Add(ZERO, a) == a
  {
  }

  // ---- one fill and the labels it is filed under

  datatype DemandType = VastTag | OpenRtb | Prebid

  datatype Fill = Fill(auctionID: string, bidder: string, winPrice: real,
                       appBundle: string, domain: string, country: string, deviceType: int,
                       placement: string, format: string, floorCPM: real,
                       publisherID: string, advertiserID: string, demand: DemandType)

  /** `auctionDimKey`. */
  datatype DimKey = DimKey(bidder: string, app: string, placement: string, country: string,
                           device: string, format: string, demandCh: string,
                           priceCPM: real, publisherPriceCPM: real,
                           publisherID: string, advertiserID: string, born: int)

  function OrElse(s: string, default: string): string {
    if s == "" then default else s
  }

  function DeviceTypeLabel(dt: int): string {
    match dt
    case 1 => "Mobile/Tablet"
    case 2 => "Desktop"
    case 3 => "CTV"
    case 4 => "Phone"
    case 5 => "Tablet"
    case 6 => "Connected Device"
    case 7 => "Set-Top Box"
    case _ => "Unknown"
  }

  function DemandChannelLabel(d: DemandType): string {
    match d
    case VastTag => "VAST Tag"
    case OpenRtb => "OpenRTB"
    case Prebid => "Prebid"
  }

  function KeyOf(f: Fill, now: int): (k: DimKey)
    ensures k.bidder != "" && k.app != "" && k.placement != "" && k.country != ""
    ensures k.device != "" && k.format != "" && k.demandCh != ""
  {
    DimKey(OrElse(f.bidder, "Unknown"), OrElse(OrElse(f.appBundle, f.domain), "(unknown)"),
           OrElse(f.placement, "(unknown)"), OrElse(f.country, "(unknown)"), DeviceTypeLabel(f.deviceType),
           OrElse(f.format, "(unknown)"), DemandChannelLabel(f.demand),
           f.winPrice, f.floorCPM, f.publisherID, f.advertiserID, now)
  }

  // ---- the store as a value, and what each operation does to it

  datatype Dims = Dims(bidder: Table, app: Table, placement: Table, country: Table,
                       device: Table, format: Table, demandCh: Table)

  datatype Store = Store(byPub: Table, byAdvertiser: Table, dims: Dims, cache: map<string, DimKey>)

  const NO_DIMS := Dims(map[], map[], map[], map[], map[], map[], map[])
  const EMPTY := Store(map[], map[], NO_DIMS, map[])

  datatype Op =
    | DimFill(fill: Fill, now: int)
    | DimImpression(auctionID: string)
    | DimComplete(auctionID: string)
    | Evict(now: int)
    | RequestBatch(pub: string, adv: string)
    | FillBatch(pub: string, adv: string)
    | ImpressionBatch(pub: string, adv: string, priceCPM: real, publisherPriceCPM: real)
    | Complete(pub: string)
    | AdvertiserComplete(adv: string)
    | Reset

  function FillDims(d: Dims, k: DimKey): Dims {
    Dims(Credit(d.bidder, k.bidder, OPPORTUNITY), Credit(d.app, k.app, OPPORTUNITY),
         Credit(d.placement, k.placement, OPPORTUNITY), Credit(d.country, k.country, OPPORTUNITY),
         Credit(d.device, k.device, OPPORTUNITY), Credit(d.format, k.format, OPPORTUNITY),
         Credit(d.demandCh, k.demandCh, OPPORTUNITY))
  }

  function CreditDims(d: Dims, k: DimKey, inc: Stats): Dims {
    Dims(CreditIfPresent(d.bidder, k.bidder, inc), CreditIfPresent(d.app, k.app, inc),
         CreditIfPresent(d.placement, k.placement, inc), CreditIfPresent(d.country, k.country, inc),
         CreditIfPresent(d.device, k.device, inc), CreditIfPresent(d.format, k.format, inc),
         CreditIfPresent(d.demandCh, k.demandCh, inc))
  }

  function Partners(s: Store, pub: string, adv: string, inc: Stats): Store {
    s.(byPub := Credit(s.byPub, OrElse(pub, "unknown"), inc),
       byAdvertiser := if adv != "" then Credit(s.byAdvertiser, adv, inc) else s.byAdvertiser)
  }

  /** Cache entries born more than 30 minutes before `now` are gone. */
  function Evicted(cache: map<string, DimKey>, now: int): map<string, DimKey> {
    map a | a in cache && cache[a].born >= now - 30 * 60 :: cache[a]
  }

  function Apply(s: Store, op: Op): Store {
    match op
    case DimFill(f, now) =>
      if f.auctionID == "" then s
      else s.(dims := FillDims(s.dims, KeyOf(f, now)), cache := s.cache[f.auctionID := KeyOf(f, now)])
    case DimImpression(a) =>
      if a == "" || a !in s.cache then s
      else
        var k := s.cache[a];
        s.(dims := CreditDims(s.dims, k, Impression(k.priceCPM, k.publisherPriceCPM)))
    case DimComplete(a) =>
      if a == "" || a !in s.cache then s else s.(dims := CreditDims(s.dims, s.cache[a], COMPLETE))
    case Evict(now) => s.(cache := Evicted(s.cache, now))
    case RequestBatch(pub, adv) => Partners(s, pub, adv, REQUEST)
    case FillBatch(pub, adv) => Partners(s, pub, adv, OPPORTUNITY)
    case ImpressionBatch(pub, adv, p, pp) => Partners(s, pub, adv, Impression(p, pp))
    case Complete(pub) => s.(byPub := Credit(s.byPub, OrElse(pub, "unknown"), COMPLETE))
    case AdvertiserComplete(adv) =>
      if adv == "" then s else s.(byAdvertiser := Credit(s.byAdvertiser, adv, COMPLETE))
    case Reset => EMPTY
  }

  // ---- the store as the mutex-guarded object

  class VideoStatsStore {
    var byPub: Table
    var byAdvertiser: Table
    var byBidder: Table
    var byApp: Table
    var byPlacement: Table
    var byCountry: Table
    var byDevice: Table
    var byFormat: Table
    var byDemandChannel: Table
    var auctionDims: map<string, DimKey>

    ghost function View(): Store
      reads this
    {
      Store(byPub, byAdvertiser,
            Dims(byBidder, byApp, byPlacement, byCountry, byDevice, byFormat, byDemandChannel), auctionDims)
    }

    constructor ()
      ensures View() == EMPTY
    {
      byPub, byAdvertiser, byBidder, byApp, byPlacement := map[], map[], map[], map[], map[];
      byCountry, byDevice, byFormat, byDemandChannel, auctionDims := map[], map[], map[], map[], map[];
    }

    method IncDimFill(f: Fill, now: int)
      modifies this
      ensures View() == Apply(old(View()), DimFill(f, now))
    {
      hide KeyOf, FillDims;
      if f.auctionID == "" {
        return;
      }
      var k := KeyOf(f, now);
      FillAll(k);
      auctionDims := auctionDims[f.auctionID := k];
    }

    /** The seven get-or-create updates of a fill. */
    method FillAll(k: DimKey)
      modifies this
      ensures View() == old(View()).(dims := FillDims(old(View()).dims, k))
    {
      hide Credit;
      byBidder := Credit(byBidder, k.bidder, OPPORTUNITY);
      byApp := Credit(byApp, k.app, OPPORTUNITY);
      byPlacement := Credit(byPlacement, k.placement, OPPORTUNITY);
      byCountry := Credit(byCountry, k.country, OPPORTUNITY);
      byDevice := Credit(byDevice, k.device, OPPORTUNITY);
      byFormat := Credit(byFormat, k.format, OPPORTUNITY);
      byDemandChannel := Credit(byDemandChannel, k.demandCh, OPPORTUNITY);
    }

    method IncDimImpression(auctionID: string) returns (dk: Option<DimKey>)
      modifies this
      ensures View() == Apply(old(View()), DimImpression(auctionID))
      ensures dk == if auctionID != "" && auctionID in auctionDims then Some(auctionDims[auctionID]) else None
    {
      if auctionID == "" || auctionID !in auctionDims {
        return None;
      }
      var k := auctionDims[auctionID];
      CreditAll(k, Impression(k.priceCPM, k.publisherPriceCPM));
      return Some(k);
    }

    method IncDimComplete(auctionID: string)
      modifies this
      ensures View() == Apply(old(View()), DimComplete(auctionID))
    {
      if auctionID != "" && auctionID in auctionDims {
        CreditAll(auctionDims[auctionID], COMPLETE);
      }
    }

    /** The seven guarded updates that an impression and a complete have in common. */
    method CreditAll(k: DimKey, inc: Stats)
      modifies this
      ensures View() == old(View()).(dims := CreditDims(old(View()).dims, k, inc))
    {
      hide CreditIfPresent;
      byBidder := CreditIfPresent(byBidder, k.bidder, inc);
      byApp := CreditIfPresent(byApp, k.app, inc);
      byPlacement := CreditIfPresent(byPlacement, k.placement, inc);
      byCountry := CreditIfPresent(byCountry, k.country, inc);
      byDevice := CreditIfPresent(byDevice, k.device, inc);
      byFormat := CreditIfPresent(byFormat, k.format, inc);
      byDemandChannel := CreditIfPresent(byDemandChannel, k.demandCh, inc);
    }

    /** The eviction loop of `save`. */
    method EvictExpired(now: int)
      modifies this
      ensures View() == Apply(old(View()), Evict(now))
    {
      var todo := auctionDims.Keys;
      var kept := auctionDims;
      while todo != {}
        invariant todo <= auctionDims.Keys
        invariant View() == old(View())
        invariant kept == map a | a in auctionDims && (a in todo || auctionDims[a].born >= now - 30 * 60) :: auctionDims[a]
        decreases |todo|
      {
        var a :| a in todo;
        todo := todo - {a};
        if auctionDims[a].born < now - 30 * 60 {
          kept := kept - {a};
        }
      }
      auctionDims := kept;
    }

    method IncRequestBatch(pub: string, adv: string)
      modifies this
      ensures View() == Apply(old(View()), RequestBatch(pub, adv))
    {
      CreditPartners(pub, adv, REQUEST);
    }

    method IncFillBatch(pub: string, adv: string)
      modifies this
      ensures View() == Apply(old(View()), FillBatch(pub, adv))
    {
      CreditPartners(pub, adv, OPPORTUNITY);
    }

    method IncImpressionBatch(pub: string, adv: string, priceCPM: real, publisherPriceCPM: real)
      modifies this
      ensures View() == Apply(old(View()), ImpressionBatch(pub, adv, priceCPM, publisherPriceCPM))
    {
      CreditPartners(pub, adv, Impression(priceCPM, publisherPriceCPM));
    }

    /** A reader finds one more complete under the publisher and in the total, and nothing else changed. */
    method IncComplete(pub: string)
      modifies this
      ensures View() == Apply(old(View()), Complete(pub))
      ensures View() == old(View()).(byPub := byPub)
      ensures OnlyRow(old(byPub), byPub, OrElse(pub, "unknown"), COMPLETE)
      ensures Total(byPub) == Add(old(Total(byPub)), COMPLETE)
    {
      hide Credit, OnlyRow, Total, Add, OrElse;
      CreditSeen(byPub, OrElse(pub, "unknown"), COMPLETE);
      byPub := Credit(byPub, OrElse(pub, "unknown"), COMPLETE);
    }

    /** The same for an advertiser; without one nothing changes. */
    method IncAdvertiserComplete(adv: string)
      modifies this
      ensures View() == Apply(old(View()), AdvertiserComplete(adv))
      ensures View() == old(View()).(byAdvertiser := byAdvertiser)
      ensures if adv == "" then byAdvertiser == old(byAdvertiser)
              else OnlyRow(old(byAdvertiser), byAdvertiser, adv, COMPLETE)
                   && Total(byAdvertiser) == Add(old(Total(byAdvertiser)), COMPLETE)
    {
      hide Credit, OnlyRow, Total, Add;
      if adv != "" {
        CreditSeen(byAdvertiser, adv, COMPLETE);
        byAdvertiser := Credit(byAdvertiser, adv, COMPLETE);
      }
    }

    method CreditPartners(pub: string, adv: string, inc: Stats)
      modifies this
      ensures View() == Partners(old(View()), pub, adv, inc)
    {
      var pubID := pub;
      if pubID == "" {
        pubID := "unknown";
      }
      byPub := Credit(byPub, pubID, inc);
      if adv != "" {
        byAdvertiser := Credit(byAdvertiser, adv, inc);
      }
    }

    method ResetAll()
      modifies this
      ensures View() == Apply(old(View()), Reset)
    {
      byPub := map[];
      byAdvertiser := map[];
      ResetDims();
      auctionDims := map[];
    }

    method ResetDims()
      modifies this
      ensures View() == old(View()).(dims := NO_DIMS)
    {
      byBidder := map[];
      byApp := map[];
      byPlacement := map[];
      byCountry := map[];
      byDevice := map[];
      byFormat := map[];
      byDemandChannel := map[];
    }

    /** The total of `snapshot`: a sum over publishers in map order, without publisher revenue; and its completion rate. */
    method SnapshotTotal() returns (t: Stats, vcr: real)
      ensures t == Capped(Total(byPub))
      ensures if t.impressions > 0 then vcr * t.impressions as real == 100.0 * t.completes as real else vcr == 0.0
    {
      hide Total, Add, Capped;
      t := ZERO;
      var todo := byPub.Keys;
      ghost var left := byPub;
      AddZero(Total(byPub));
      while todo != {}
        invariant left.Keys == todo && todo <= byPub.Keys
        invariant forall k :: k in left ==> left[k] == byPub[k]
        invariant t.publisherRevenue == 0.0
        invariant Capped(Add(t, Total(left))) == Capped(Total(byPub))
        decreases |todo|
      {
        var k :| k in todo;
        var v := byPub[k];
        TotalSplit(left, k);
        CappedStep(t, v, Total(left - {k}));
        t := Accumulate(t, v);
        todo := todo - {k};
        left := left - {k};
      }
      CappedEnd(t, left);
      vcr := if t.impressions > 0 then t.completes as real / t.impressions as real * 100.0 else 0.0;
    }
  }

  function Capped(t: Stats): Stats {
    t.(publisherRevenue := 0.0)
  }

  /** What `snapshot` adds for one publisher; its publisher revenue is not among it. */
  function Accumulate(t: Stats, v: Stats): Stats {
    Stats(t.adRequests + v.adRequests, t.opportunities + v.opportunities, t.impressions + v.impressions,
          t.completes + v.completes, t.revenue + v.revenue, t.publisherRevenue)
  }

  lemma CappedStep(t: Stats, v: Stats, rest: Stats)
    ensures Capped(Add(Accumulate(t, v), rest)) == Capped(Add(t, Add(v, rest)))
  {
  }

  lemma CappedEnd(t: Stats, none: Table)
    requires none == map[] && t.publisherRevenue == 0.0
    ensures Capped(Add(t, Total(none))) == t
  {
  }

  // ---- conservation over runs

  /** What a run amounts to, kept without any table: the cached auctions and three totals. */
  datatype Ledger = Ledger(cache: map<string, DimKey>, dim: Stats, pub: Stats, adv: Stats)

  function Book(l: Ledger, op: Op): Ledger {
    match op
    case DimFill(f, now) =>
      if f.auctionID == "" then l
      else l.(cache := l.cache[f.auctionID := KeyOf(f, now)], dim := Add(l.dim, OPPORTUNITY))
    case DimImpression(a) =>
      if a == "" || a !in l.cache then l
      else l.(dim := Add(l.dim, Impression(l.cache[a].priceCPM, l.cache[a].publisherPriceCPM)))
    case DimComplete(a) => if a == "" || a !in l.cache then l else l.(dim := Add(l.dim, COMPLETE))
    case Evict(now) => l.(cache := Evicted(l.cache, now))
    case RequestBatch(_, adv) => BookPartners(l, adv, REQUEST)
    case FillBatch(_, adv) => BookPartners(l, adv, OPPORTUNITY)
    case ImpressionBatch(_, adv, p, pp) => BookPartners(l, adv, Impression(p, pp))
    case Complete(_) => l.(pub := Add(l.pub, COMPLETE))
    case AdvertiserComplete(adv) => if adv == "" then l else l.(adv := Add(l.adv, COMPLETE))
    case Reset => Ledger(map[], ZERO, ZERO, ZERO)
  }

  function BookPartners(l: Ledger, adv: string, inc: Stats): Ledger {
    l.(pub := Add(l.pub, inc), adv := if adv != "" then Add(l.adv, inc) else l.adv)
  }

  function Run(ops: seq<Op>): Store {
    if ops == [] then EMPTY else Apply(Run(ops[..|ops| - 1]), ops[|ops| - 1])
  }

  function Books(ops: seq<Op>): Ledger {
    if ops == [] then Ledger(map[], ZERO, ZERO, ZERO) else Book(Books(ops[..|ops| - 1]), ops[|ops| - 1])
  }

  /** Every label of a cached auction has its entry in its table. */
  ghost predicate Filed(d: Dims, k: DimKey) {
    && k.bidder in d.bidder && k.app in d.app && k.placement in d.placement && k.country in d.country
    && k.device in d.device && k.format in d.format && k.demandCh in d.demandCh
  }

  ghost predicate AllTotal(d: Dims, t: Stats) {
    && Total(d.bidder) == t && Total(d.app) == t && Total(d.placement) == t && Total(d.country) == t
    && Total(d.device) == t && Total(d.format) == t && Total(d.demandCh) == t
  }

  ghost predicate Balanced(s: Store, l: Ledger) {
    && s.cache == l.cache
    && (forall a :: a in s.cache ==> Filed(s.dims, s.cache[a]))
    && AllTotal(s.dims, l.dim)
    && Total(s.byPub) == l.pub && Total(s.byAdvertiser) == l.adv
  }

  lemma FillDimsTotal(d: Dims, k: DimKey, t: Stats)
    requires AllTotal(d, t)
    ensures AllTotal(FillDims(d, k), Add(t, OPPORTUNITY)) && Filed(FillDims(d, k), k)
  {
    hide Total;
    TotalCredit(d.bidder, k.bidder, OPPORTUNITY);
    TotalCredit(d.app, k.app, OPPORTUNITY);
    TotalCredit(d.placement, k.placement, OPPORTUNITY);
    TotalCredit(d.country, k.country, OPPORTUNITY);
    TotalCredit(d.device, k.device, OPPORTUNITY);
    TotalCredit(d.format, k.format, OPPORTUNITY);
    TotalCredit(d.demandCh, k.demandCh, OPPORTUNITY);
  }

  lemma CreditDimsTotal(d: Dims, k: DimKey, inc: Stats, t: Stats)
    requires AllTotal(d, t) && Filed(d, k)
    ensures AllTotal(CreditDims(d, k, inc), Add(t, inc))
  {
    hide Total;
    TotalCredit(d.bidder, k.bidder, inc);
    TotalCredit(d.app, k.app, inc);
    TotalCredit(d.placement, k.placement, inc);
    TotalCredit(d.country, k.country, inc);
    TotalCredit(d.device, k.device, inc);
    TotalCredit(d.format, k.format, inc);
    TotalCredit(d.demandCh, k.demandCh, inc);
  }

  lemma PartnersTotal(s: Store, pub: string, adv: string, inc: Stats)
    ensures Total(Partners(s, pub, adv, inc).byPub) == Add(Total(s.byPub), inc)
    ensures Total(Partners(s, pub, adv, inc).byAdvertiser)
            == if adv != "" then Add(Total(s.byAdvertiser), inc) else Total(s.byAdvertiser)
  {
    hide Total;
    TotalCredit(s.byPub, OrElse(pub, "unknown"), inc);
    TotalCredit(s.byAdvertiser, adv, inc);
  }

  lemma ApplyBalances(s: Store, l: Ledger, op: Op)
    requires Balanced(s, l)
    ensures Balanced(Apply(s, op), Book(l, op))
  {
    hide Total, AllTotal, Add, KeyOf, Impression;
    match op
    case DimFill(f, now) =>
      FillDimsTotal(s.dims, KeyOf(f, now), l.dim);
    case DimImpression(a) =>
      if a in s.cache {
        CreditDimsTotal(s.dims, s.cache[a], Impression(s.cache[a].priceCPM, s.cache[a].publisherPriceCPM), l.dim);
      }
    case DimComplete(a) =>
      if a in s.cache {
        CreditDimsTotal(s.dims, s.cache[a], COMPLETE, l.dim);
      }
    case Evict(now) =>
    case RequestBatch(pub, adv) => PartnersTotal(s, pub, adv, REQUEST);
    case FillBatch(pub, adv) => PartnersTotal(s, pub, adv, OPPORTUNITY);
    case ImpressionBatch(pub, adv, p, pp) => PartnersTotal(s, pub, adv, Impression(p, pp));
    case Complete(pub) => TotalCredit(s.byPub, OrElse(pub, "unknown"), COMPLETE);
    case AdvertiserComplete(adv) => TotalCredit(s.byAdvertiser, adv, COMPLETE);
    case Reset => EmptyBalances();
  }

  lemma EmptyBalances()
    ensures Balanced(EMPTY, Ledger(map[], ZERO, ZERO, ZERO))
  {
  }

  /**
   * Conservation: after any sequence of operations, every cached auction is filed in all seven
   * tables, each of the seven has the ledger's total, and so have the two partner tables theirs.
   */
  lemma {:induction false} RunBalances(ops: seq<Op>)
    ensures Balanced(Run(ops), Books(ops))
  {
    if ops == [] {
      EmptyBalances();
    } else {
      RunBalances(ops[..|ops| - 1]);
      ApplyBalances(Run(ops[..|ops| - 1]), Books(ops[..|ops| - 1]), ops[|ops| - 1]);
    }
  }

  // ---- one auction as a reader of the tables sees it

  /** A given label is the one used, the default only stands in for none. */
  ghost predicate Labels(used: string, given: string, default: string) {
    (given != "" ==> used == given) && (given == "" ==> used == default)
  }

  /** The labels of a fill, each from its own field. */
  datatype Filing = Filing(bidder: string, app: string, placement: string, country: string, device: string, format: string,
                           demandCh: string)

  const DEVICES := ["Mobile/Tablet", "Desktop", "CTV", "Phone", "Tablet", "Connected Device", "Set-Top Box"]

  ghost predicate FiledAs(f: Fill, g: Filing) {
    && Labels(g.bidder, f.bidder, "Unknown")
    && (f.appBundle != "" ==> g.app == f.appBundle) && (f.appBundle == "" ==> Labels(g.app, f.domain, "(unknown)"))
    && Labels(g.placement, f.placement, "(unknown)") && Labels(g.country, f.country, "(unknown)")
    && Labels(g.format, f.format, "(unknown)")
    && g.device == (if 1 <= f.deviceType <= |DEVICES| then DEVICES[f.deviceType - 1] else "Unknown")
    && (f.demand.VastTag? ==> g.demandCh == "VAST Tag") && (f.demand.OpenRtb? ==> g.demandCh == "OpenRTB")
    && (f.demand.Prebid? ==> g.demandCh == "Prebid")
  }

  /** In each of the seven tables the row of its label has grown by `d`, and no other row. */
  ghost predicate GrownBy(d: Dims, d': Dims, g: Filing, inc: Stats) {
    && OnlyRow(d.bidder, d'.bidder, g.bidder, inc) && OnlyRow(d.app, d'.app, g.app, inc)
    && OnlyRow(d.placement, d'.placement, g.placement, inc) && OnlyRow(d.country, d'.country, g.country, inc)
    && OnlyRow(d.device, d'.device, g.device, inc) && OnlyRow(d.format, d'.format, g.format, inc)
    && OnlyRow(d.demandCh, d'.demandCh, g.demandCh, inc)
  }

  lemma KeyIsFiling(f: Fill, now: int, g: Filing)
    requires FiledAs(f, g)
    ensures var k := KeyOf(f, now);
            Filing(k.bidder, k.app, k.placement, k.country, k.device, k.format, k.demandCh) == g
  {
  }

  lemma RowTwice(t: Table, k: string, x: Stats, y: Stats)
    ensures OnlyRow(t, CreditIfPresent(Credit(t, k, x), k, y), k, Add(x, y))
  {
  }

  /** A fill adds one opportunity to the rows of its labels, and the auction is cached with the fill's own data. */
  lemma FillSeen(s: Store, f: Fill, now: int, g: Filing)
    requires f.auctionID != "" && FiledAs(f, g)
    ensures var s' := Apply(s, DimFill(f, now));
            && GrownBy(s.dims, s'.dims, g, Stats(0, 1, 0, 0, 0.0, 0.0))
            && s'.byPub == s.byPub && s'.byAdvertiser == s.byAdvertiser
            && s'.cache.Keys == s.cache.Keys + {f.auctionID} && (forall a :: a in s.cache && a != f.auctionID ==> s'.cache[a] == s.cache[a])
            && var k := s'.cache[f.auctionID];
               && k.priceCPM == f.winPrice && k.publisherPriceCPM == f.floorCPM && k.born == now
               && k.publisherID == f.publisherID && k.advertiserID == f.advertiserID
  {
    hide Credit, OnlyRow, FiledAs;
    KeyIsFiling(f, now, g);
    FillDimsSeen(s.dims, KeyOf(f, now));
    assert OPPORTUNITY == Stats(0, 1, 0, 0, 0.0, 0.0);
  }

  lemma FillDimsSeen(d: Dims, k: DimKey)
    ensures GrownBy(d, FillDims(d, k), Filing(k.bidder, k.app, k.placement, k.country, k.device, k.format, k.demandCh), OPPORTUNITY)
  {
    hide Credit, OnlyRow, Total, Add;
    CreditSeen(d.bidder, k.bidder, OPPORTUNITY);
    CreditSeen(d.app, k.app, OPPORTUNITY);
    CreditSeen(d.placement, k.placement, OPPORTUNITY);
    CreditSeen(d.country, k.country, OPPORTUNITY);
    CreditSeen(d.device, k.device, OPPORTUNITY);
    CreditSeen(d.format, k.format, OPPORTUNITY);
    CreditSeen(d.demandCh, k.demandCh, OPPORTUNITY);
  }

  lemma FilledDimsCredited(d: Dims, k: DimKey, inc: Stats)
    ensures GrownBy(d, CreditDims(FillDims(d, k), k, inc),
                    Filing(k.bidder, k.app, k.placement, k.country, k.device, k.format, k.demandCh), Add(OPPORTUNITY, inc))
  {
    hide Credit, CreditIfPresent, OnlyRow, Add;
    RowTwice(d.bidder, k.bidder, OPPORTUNITY, inc);
    RowTwice(d.app, k.app, OPPORTUNITY, inc);
    RowTwice(d.placement, k.placement, OPPORTUNITY, inc);
    RowTwice(d.country, k.country, OPPORTUNITY, inc);
    RowTwice(d.device, k.device, OPPORTUNITY, inc);
    RowTwice(d.format, k.format, OPPORTUNITY, inc);
    RowTwice(d.demandCh, k.demandCh, OPPORTUNITY, inc);
  }

  /**
   * A fill and its impression: in all seven tables the row of the fill's own label has one more
   * opportunity and impression and has earned a thousandth of the win price, and of the floor for
   * the publisher; no other row changes.
   */
  lemma FillThenImpression(s: Store, f: Fill, now: int, g: Filing)
    requires f.auctionID != "" && FiledAs(f, g)
    ensures var s' := Apply(Apply(s, DimFill(f, now)), DimImpression(f.auctionID));
            GrownBy(s.dims, s'.dims, g, Stats(0, 1, 1, 0, f.winPrice / 1000.0, f.floorCPM / 1000.0))
            && s'.byPub == s.byPub && s'.byAdvertiser == s.byAdvertiser
  {
    hide Credit, FiledAs, FillDims, CreditDims, GrownBy, Add;
    KeyIsFiling(f, now, g);
    FilledDimsCredited(s.dims, KeyOf(f, now), Impression(f.winPrice, f.floorCPM));
    Shown(f.winPrice, f.floorCPM);
  }

  /** A fill and its complete. */
  lemma FillThenComplete(s: Store, f: Fill, now: int, g: Filing)
    requires f.auctionID != "" && FiledAs(f, g)
    ensures var s' := Apply(Apply(s, DimFill(f, now)), DimComplete(f.auctionID));
            GrownBy(s.dims, s'.dims, g, Stats(0, 1, 0, 1, 0.0, 0.0))
  {
    hide Credit, FiledAs, FillDims, CreditDims, KeyOf, GrownBy, Add;
    KeyIsFiling(f, now, g);
    FilledDimsCredited(s.dims, KeyOf(f, now), COMPLETE);
    Completed();
  }

  lemma Shown(price: real, floor: real)
    ensures Add(OPPORTUNITY, Impression(price, floor)) == Stats(0, 1, 1, 0, price / 1000.0, floor / 1000.0)
  {
  }

  lemma Completed()
    ensures Add(OPPORTUNITY, COMPLETE) == Stats(0, 1, 0, 1, 0.0, 0.0)
  {
  }

  /** What a partner operation counts. */
  ghost predicate PartnerCount(op: Op, pub: string, adv: string, inc: Stats) {
    || (op == RequestBatch(pub, adv) && inc == Stats(1, 0, 0, 0, 0.0, 0.0))
    || (op == FillBatch(pub, adv) && inc == Stats(0, 1, 0, 0, 0.0, 0.0))
    || (exists p, q :: op == ImpressionBatch(pub, adv, p, q) && inc == Stats(0, 0, 1, 0, p / 1000.0, q / 1000.0))
  }

  /** A partner operation counts in the publisher's row, "unknown" without one, in the advertiser's if there is one, and nowhere else. */
  lemma PartnersSeen(s: Store, op: Op, pub: string, adv: string, pubRow: string, inc: Stats)
    requires PartnerCount(op, pub, adv, inc) && Labels(pubRow, pub, "unknown")
    ensures var s' := Apply(s, op);
            && OnlyRow(s.byPub, s'.byPub, pubRow, inc)
            && (if adv == "" then s'.byAdvertiser == s.byAdvertiser else OnlyRow(s.byAdvertiser, s'.byAdvertiser, adv, inc))
            && s'.dims == s.dims && s'.cache == s.cache
  {
    hide Credit, OnlyRow, Total, Add;
    CreditSeen(s.byPub, pubRow, inc);
    CreditSeen(s.byAdvertiser, adv, inc);
  }

  // ---- how long an auction stays cached

  /** The cache loses an auction exactly when it was filled more than half an hour before the sweep. */
  lemma EvictedExactly(s: Store, a: string, now: int)
    requires a in s.cache
    ensures var s' := Apply(s, Evict(now));
            && (a !in s'.cache <==> now > s.cache[a].born + 1800) && (a in s'.cache ==> s'.cache[a] == s.cache[a])
            && s'.dims == s.dims && s'.byPub == s.byPub && s'.byAdvertiser == s.byAdvertiser
  {
  }

  function RunFrom(s: Store, ops: seq<Op>): Store {
    if ops == [] then s else Apply(RunFrom(s, ops[..|ops| - 1]), ops[|ops| - 1])
  }

  /** Neither a reset, nor another fill of the auction, nor a sweep more than half an hour after `born`. */
  ghost predicate Spares(ops: seq<Op>, auctionID: string, born: int) {
    forall i :: 0 <= i < |ops| ==>
      match ops[i]
      case Reset => false
      case DimFill(f, _) => f.auctionID != auctionID
      case Evict(now) => now <= born + 1800
      case _ => true
  }

  /** For half an hour an auction keeps its labels and prices, whatever else is counted. */
  lemma {:induction false} CachedForHalfAnHour(s: Store, f: Fill, born: int, ops: seq<Op>)
    requires f.auctionID != "" && Spares(ops, f.auctionID, born)
    ensures var s' := RunFrom(Apply(s, DimFill(f, born)), ops);
            f.auctionID in s'.cache && s'.cache[f.auctionID] == KeyOf(f, born)
  {
    hide KeyOf, FillDims, CreditDims, Credit;
    if ops != [] {
      CachedForHalfAnHour(s, f, born, ops[..|ops| - 1]);
      KeyBorn(f, born);
    }
  }

  lemma KeyBorn(f: Fill, now: int)
    ensures KeyOf(f, now).born == now
  {
  }
}
