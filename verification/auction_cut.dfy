/** From the auction to the bid limit: whether the recorded winner of an impression survives the cut. */
module AuctionCut {
  import opened Options
  import opened Orders
  import opened Auction
  import opened MultiBid

  // ---- the auction over bid pointers

  type RefSeats = map<Bidder, Option<seq<Ref>>>

  datatype RefEntry = RefEntry(bidder: Bidder, ref: Ref)

  function RefsIn(seats: RefSeats, b: Bidder): seq<Ref> {
    if b in seats && seats[b].Some? then seats[b].value else []
  }

  function RefSeat(seats: RefSeats, b: Bidder): (r: seq<RefEntry>)
    ensures |r| == |RefsIn(seats, b)|
    ensures forall i :: 0 <= i < |r| ==> r[i] == RefEntry(b, RefsIn(seats, b)[i])
  {
    var refs := RefsIn(seats, b);
    seq(|refs|, i requires 0 <= i < |refs| => RefEntry(b, refs[i]))
  }

  /** The pointers in the order in which the loops meet them. */
  function RefFlat(order: seq<Bidder>, seats: RefSeats): seq<RefEntry> {
    if order == [] then [] else RefFlat(order[..|order| - 1], seats) + RefSeat(seats, order[|order| - 1])
  }

  predicate AllLive(es: seq<RefEntry>, h: Heap) {
    forall i :: 0 <= i < |es| ==> es[i].ref in h && h[es[i].ref].Some?
  }

  function ValueOf(e: RefEntry, h: Heap): Entry
    requires e.ref in h && h[e.ref].Some?
  {
    Entry(e.bidder, h[e.ref].value)
  }

  function Deref(es: seq<RefEntry>, h: Heap): (r: seq<Entry>)
    requires AllLive(es, h)
    ensures |r| == |es|
    ensures forall i :: 0 <= i < |es| ==> r[i] == ValueOf(es[i], h)
  {
    seq(|es|, i requires 0 <= i < |es| => ValueOf(es[i], h))
  }

  /** The pointer that `winningBids` holds for an impression. */
  function RefLeader(es: seq<RefEntry>, imp: string, h: Heap, r: Rules): (w: Option<RefEntry>)
    requires AllLive(es, h)
    ensures w.Some? ==> w.value in es && w.value.ref in h && h[w.value.ref].Some?
  {
    if es == [] then None
    else
      var front, e := es[..|es| - 1], es[|es| - 1];
      var prev := RefLeader(front, imp, h, r);
      if h[e.ref].value.impId == imp && (prev.None? || Beats(ValueOf(e, h), ValueOf(prev.value, h), r)) then Some(e)
      else prev
  }

  /** The list that `allBidsByBidder` holds for an impression and a bidder. */
  function RefGroup(es: seq<RefEntry>, imp: string, b: Bidder, h: Heap): seq<Ref>
    requires AllLive(es, h)
  {
    if es == [] then []
    else
      var e := es[|es| - 1];
      RefGroup(es[..|es| - 1], imp, b, h) + if e.bidder == b && h[e.ref].value.impId == imp then [e.ref] else []
  }

  /** The seats with the bids in place of the pointers. */
  function ValueSeats(seats: RefSeats, h: Heap): Seats
    requires forall b :: b in seats ==> Live(RefsIn(seats, b), h)
  {
    map b | b in seats ::
      if seats[b].None? then None else Some(Values(RefsIn(seats, b), h))
  }

  function Values(refs: seq<Ref>, h: Heap): (r: seq<Bid>)
    requires Live(refs, h)
    ensures |r| == |refs| && forall i :: 0 <= i < |r| ==> r[i] == h[refs[i]].value
  {
    seq(|refs|, i requires 0 <= i < |refs| && Live(refs, h) => h[refs[i]].value)
  }

  lemma {:induction false} FlatStandsFor(order: seq<Bidder>, seats: RefSeats, h: Heap)
    requires forall b :: b in seats ==> Live(RefsIn(seats, b), h)
    ensures AllLive(RefFlat(order, seats), h) && Deref(RefFlat(order, seats), h) == Flat(order, ValueSeats(seats, h))
  {
    if order != [] {
      var front, b := order[..|order| - 1], order[|order| - 1];
      FlatStandsFor(front, seats, h);
      SeatStandsFor(seats, b, h);
    }
  }

  lemma SeatStandsFor(seats: RefSeats, b: Bidder, h: Heap)
    requires forall c :: c in seats ==> Live(RefsIn(seats, c), h)
    ensures AllLive(RefSeat(seats, b), h) && Deref(RefSeat(seats, b), h) == SeatEntries(ValueSeats(seats, h), b)
  {
    if b in seats {
      assert Live(RefsIn(seats, b), h);
    }
  }

  /** The pointers stand for the bids of the auction: same leader, same groups. */
  lemma {:induction false} LeaderStandsFor(es: seq<RefEntry>, imp: string, h: Heap, r: Rules)
    requires AllLive(es, h)
    ensures var p, v := RefLeader(es, imp, h, r), Leader(Deref(es, h), imp, r);
            && (p.Some? <==> v.Some?)
            && (p.Some? ==> v.value == ValueOf(p.value, h))
  {
    hide Beats;
    if es != [] {
      var front := es[..|es| - 1];
      assert Deref(es, h)[..|es| - 1] == Deref(front, h);
      LeaderStandsFor(front, imp, h, r);
    }
  }

  lemma {:induction false} GroupStandsFor(es: seq<RefEntry>, imp: string, b: Bidder, h: Heap)
    requires AllLive(es, h)
    ensures var refs, bids := RefGroup(es, imp, b, h), Group(Deref(es, h), imp, b);
            |refs| == |bids| && Live(refs, h) && forall i :: 0 <= i < |refs| ==> h[refs[i]].value == bids[i]
  {
    if es != [] {
      var front := es[..|es| - 1];
      assert Deref(es, h)[..|es| - 1] == Deref(front, h);
      GroupStandsFor(front, imp, b, h);
    }
  }

  lemma {:induction false} GroupMembers(es: seq<RefEntry>, imp: string, b: Bidder, h: Heap, x: Ref)
    requires AllLive(es, h)
    ensures x in RefGroup(es, imp, b, h) <==> RefEntry(b, x) in es && h[x].value.impId == imp
  {
    if es != [] {
      var front := es[..|es| - 1];
      assert es == front + [es[|es| - 1]];
      GroupMembers(front, imp, b, h, x);
    }
  }

  /** No bid object is handed in twice. */
  ghost predicate Unaliased(es: seq<RefEntry>) {
    forall i, j :: 0 <= i < j < |es| ==> es[i].ref != es[j].ref
  }

  lemma {:induction false} GroupNoDup(es: seq<RefEntry>, imp: string, b: Bidder, h: Heap)
    requires AllLive(es, h) && Unaliased(es)
    ensures NoDup(RefGroup(es, imp, b, h))
  {
    if es != [] {
      var front, e := es[..|es| - 1], es[|es| - 1];
      GroupNoDup(front, imp, b, h);
      GroupMembers(front, imp, b, h, e.ref);
    }
  }

  /** `allBidsByBidder` holds exactly the non-empty groups. */
  ghost predicate ListsOf(lists: map<Slot, seq<Ref>>, es: seq<RefEntry>, h: Heap)
    requires AllLive(es, h)
  {
    && (forall imp, b :: (imp, b) in lists <==> RefGroup(es, imp, b, h) != [])
    && (forall imp, b :: (imp, b) in lists ==> lists[(imp, b)] == RefGroup(es, imp, b, h))
  }

  /** The lists of an auction are what the cut asks for: disjoint and without nil bids. */
  lemma ListsAreValid(lists: map<Slot, seq<Ref>>, es: seq<RefEntry>, h: Heap)
    requires AllLive(es, h) && Unaliased(es) && ListsOf(lists, es, h)
    ensures Disjoint(lists) && forall s :: s in lists ==> Live(lists[s], h)
  {
    hide RefGroup;
    forall s, t, x | s in lists && t in lists && x in lists[s] && x in lists[t]
      ensures s == t
    {
      assert lists[(s.0, s.1)] == lists[s] && lists[(t.0, t.1)] == lists[t];
      GroupMembers(es, s.0, s.1, h, x);
      GroupMembers(es, t.0, t.1, h, x);
      SameEntry(es, RefEntry(s.1, x), RefEntry(t.1, x));
    }
    forall s | s in lists
      ensures Live(lists[s], h)
    {
      assert lists[(s.0, s.1)] == lists[s];
      GroupStandsFor(es, s.0, s.1, h);
    }
  }

  lemma SameEntry(es: seq<RefEntry>, e: RefEntry, e': RefEntry)
    requires Unaliased(es) && e in es && e' in es && e.ref == e'.ref
    ensures e == e'
  {
    var i :| 0 <= i < |es| && es[i] == e;
    var j :| 0 <= j < |es| && es[j] == e';
    assert i == j;
  }

  // ---- the winner in its list

  /** The recorded winner is in its own list, and nothing there outranks it. */
  lemma LeaderTopsGroup(es: seq<RefEntry>, imp: string, h: Heap, r: Rules, w: RefEntry)
    requires AllLive(es, h) && RefLeader(es, imp, h, r) == Some(w)
    ensures var l := RefGroup(es, imp, w.bidder, h);
            w.ref in l && Live(l, h) && Tops(l, h[w.ref].value, h, r.preferDeals)
  {
    hide Beats, RefLeader, RefGroup, Leader;
    var l, vs := RefGroup(es, imp, w.bidder, h), Deref(es, h);
    LeaderStandsFor(es, imp, h, r);
    LeaderPosition(vs, imp, r);
    var p :| LeadsAt(vs, imp, r, p);
    LeaderUnbeaten(vs, imp, r, p);
    GroupMembers(es, imp, w.bidder, h, w.ref);
    GroupStandsFor(es, imp, w.bidder, h);
    var e := Entry(w.bidder, h[w.ref].value);
    forall i | 0 <= i < |l|
      ensures !Beats(Entry(w.bidder, h[l[i]].value), e, r)
    {
      GroupMembers(es, imp, w.bidder, h, l[i]);
      var k :| 0 <= k < |es| && es[k] == RefEntry(w.bidder, l[i]);
      assert vs[k] in vs && On(vs[k], imp);
    }
    WinnerTops(l, e, h, r);
  }

  /** One ranking per list: what a run of the first loop may come to. */
  ghost predicate Rankings(q: map<Slot, seq<Ref>>, lists: map<Slot, seq<Ref>>, h: Heap, preferDeals: bool) {
    q.Keys == lists.Keys && forall s :: s in lists ==> IsRanking(q[s], lists[s], h, preferDeals)
  }

  lemma {:induction false} RankingExists(l: seq<Ref>, h: Heap, preferDeals: bool)
    requires Live(l, h)
    ensures exists p :: IsRanking(p, l, h, preferDeals)
  {
    hide Outranks;
    if l == [] {
      assert IsRanking([], l, h, preferDeals);
    } else {
      var front, x := l[..|l| - 1], l[|l| - 1];
      RankingExists(front, h, preferDeals);
      var p :| IsRanking(p, front, h, preferDeals);
      var r := RankedInsert(p, x, h, preferDeals);
      assert l == front + [x];
      assert IsRanking(r, l, h, preferDeals);
    }
  }

  lemma RankedInsert(p: seq<Ref>, x: Ref, h: Heap, preferDeals: bool) returns (r: seq<Ref>)
    requires Live(p, h) && Ranked(p, h, preferDeals) && x in h && h[x].Some?
    ensures IsRanking(r, p + [x], h, preferDeals)
  {
    hide Outranks, Ranked;
    var k := |p|;
    while k > 0 && Outranks(h[x].value, h[p[k - 1]].value, preferDeals)
      invariant 0 <= k <= |p|
      invariant forall i :: k <= i < |p| ==> Outranks(h[x].value, h[p[i]].value, preferDeals)
    {
      k := k - 1;
    }
    r := p[..k] + [x] + p[k..];
    assert p == p[..k] + p[k..];
    InsertRanks(p, x, k, h, preferDeals);
  }

  ghost function SomeRanking(l: seq<Ref>, h: Heap, preferDeals: bool): (p: seq<Ref>)
    requires Live(l, h)
    ensures IsRanking(p, l, h, preferDeals)
  {
    RankingExists(l, h, preferDeals);
    var p :| IsRanking(p, l, h, preferDeals);
    p
  }

  /** What one list's ranking cuts, in the whole: no other list can cut the same bid. */
  lemma DroppedHere(w: Ref, s: Slot, q: map<Slot, seq<Ref>>, lists: map<Slot, seq<Ref>>, h: Heap, preferDeals: bool, limit: nat)
    requires Rankings(q, lists, h, preferDeals) && Disjoint(lists) && s in lists && w in lists[s] && NoDup(lists[s])
    ensures Dropped(w, q, limit) <==> w !in q[s][..Kept(limit, |q[s]|)]
  {
    hide Outranks, Ranked;
    var k := Kept(limit, |q[s]|);
    SameMembers(q[s], lists[s], w);
    assert q[s] == q[s][..k] + q[s][k..];
    if w in q[s][k..] {
      NoDupOnce(q[s], lists[s], w, k);
    }
    forall t | t in q && w in q[t][Kept(limit, |q[t]|)..]
      ensures t == s
    {
      assert w in q[t];
      SameMembers(q[t], lists[t], w);
    }
  }

  /**
   * End to end: the bid that the auction records as an impression's winner survives the bid limit,
   * whatever order the unstable sorts pick, if and only if at most `limit` bids of its bidder on the
   * impression tie with it.
   */
  lemma WinnerSurvivesExactly(order: seq<Bidder>, seats: RefSeats, h: Heap, r: Rules, limit: nat,
                              lists: map<Slot, seq<Ref>>, imp: string, w: RefEntry)
    requires limit > 0
    requires var es := RefFlat(order, seats);
             AllLive(es, h) && Unaliased(es) && ListsOf(lists, es, h) && RefLeader(es, imp, h, r) == Some(w)
    ensures (imp, w.bidder) in lists && Live(lists[(imp, w.bidder)], h) && w.ref in h && h[w.ref].Some?
    ensures (forall q :: Rankings(q, lists, h, r.preferDeals) ==> !Dropped(w.ref, q, limit))
            <==> Ties(lists[(imp, w.bidder)], h[w.ref].value, h, r.preferDeals) <= limit
  {
    hide Outranks, Ranked, RefLeader, RefGroup, Ties, Dropped, IsRanking, RefFlat, Tops, Disjoint, Kept;
    var es, s, pd := RefFlat(order, seats), (imp, w.bidder), r.preferDeals;
    LeaderTopsGroup(es, imp, h, r, w);
    ListsAreValid(lists, es, h);
    GroupNoDup(es, imp, w.bidder, h);
    var l := lists[s];
    var p := SomeRanking(l, h, pd);
    WinnerSafeExactly(p, l, w.ref, h, pd, limit);
    if forall q :: IsRanking(q, l, h, pd) ==> w.ref in q[..Kept(limit, |q|)] {
      forall q | Rankings(q, lists, h, pd)
        ensures !Dropped(w.ref, q, limit)
      {
        DroppedHere(w.ref, s, q, lists, h, pd, limit);
      }
    } else {
      var bad :| IsRanking(bad, l, h, pd) && w.ref !in bad[..Kept(limit, |bad|)];
      var q := map t | t in lists :: if t == s then bad else SomeRanking(lists[t], h, pd);
      DroppedHere(w.ref, s, q, lists, h, pd, limit);
      assert Rankings(q, lists, h, pd) && Dropped(w.ref, q, limit);
    }
  }

  // ---- a winner that is cut

  const HEAP: Heap := map[0 := Some(Bid("b", "1", 1.0, "")), 1 := Some(Bid("a", "1", 1.0, ""))]

  const PAIR: seq<RefEntry> := [RefEntry("x", 0), RefEntry("x", 1)]
  const PLAIN := Rules(false, map[], map[])

  lemma FlatOne(b: Bidder, seats: RefSeats)
    ensures RefFlat([b], seats) == RefSeat(seats, b)
  {
    hide RefSeat;
    assert [b][..0] == [] && RefFlat([], seats) == [];
  }

  lemma PairFlat()
    ensures RefFlat(["x"], map["x" := Some([0, 1])]) == PAIR && AllLive(PAIR, HEAP)
  {
    hide RefFlat;
    var seats: RefSeats := map["x" := Some([0, 1])];
    FlatOne("x", seats);
    assert RefsIn(seats, "x") == [0, 1];
  }

  lemma KeyOrder()
    ensures Less("x:a", "x:b")
  {
    assert "x:b"[1..] == ":b" && "x:a"[1..] == ":a";
    assert ":b"[1..] == "b" && ":a"[1..] == "a";
    assert Less("a", "b");
  }

  lemma PairLeader()
    ensures AllLive(PAIR, HEAP) && RefLeader(PAIR, "1", HEAP, PLAIN) == Some(PAIR[1])
  {
    hide Less;
    var x, y := PAIR[0], PAIR[1];
    assert PAIR[..1] == [x] && [x][..0] == [];
    assert RefLeader([x], "1", HEAP, PLAIN) == Some(x);
    KeyOrder();
    assert Key(ValueOf(x, HEAP)) == "x:b" && Key(ValueOf(y, HEAP)) == "x:a";
  }

  lemma PairLists()
    ensures AllLive(PAIR, HEAP) && ListsOf(map[("1", "x") := [0, 1]], PAIR, HEAP)
  {
    forall imp, b
      ensures RefGroup(PAIR, imp, b, HEAP) == if imp == "1" && b == "x" then [0, 1] else []
    {
      assert PAIR[..1] == [PAIR[0]] && PAIR[..1][..0] == [];
      assert RefGroup([], imp, b, HEAP) == [];
      assert RefGroup(PAIR[..1], imp, b, HEAP) == if imp == "1" && b == "x" then [0] else [];
    }
  }

  lemma PairRanking()
    ensures IsRanking([0, 1], [0, 1], HEAP, false)
  {
  }

  /**
   * Two bids of one bidder at one price, the one with the smaller id second: it is the winner, and a
   * limit of one cuts it although the sort leaves the list as it is.
   */
  lemma WinnerCut()
    ensures var es, lists := RefFlat(["x"], map["x" := Some([0, 1])]), map[("1", "x") := [0, 1]];
            && AllLive(es, HEAP) && RefLeader(es, "1", HEAP, PLAIN) == Some(RefEntry("x", 1))
            && ListsOf(lists, es, HEAP) && Rankings(lists, lists, HEAP, false) && Dropped(1, lists, 1)
  {
    hide RefLeader, RefFlat, IsRanking, ListsOf;
    PairFlat();
    PairLeader();
    PairLists();
    PairRanking();
    var lists: map<Slot, seq<Ref>> := map[("1", "x") := [0, 1]];
    assert lists[("1", "x")][1..] == [1];
    assert ("1", "x") in lists && Kept(1, 2) == 1;
  }
}
