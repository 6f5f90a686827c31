/** Winner selection over a Go map of seats, whose iteration order is arbitrary. */
module Auction {
  import opened Options
  import opened Orders

  type Bidder = string

  datatype Bid = Bid(id: string, impId: string, price: real, dealId: string)

  /** A bid together with the seat it came from. */
  datatype Entry = Entry(bidder: Bidder, bid: Bid)

  datatype Rules = Rules(preferDeals: bool, weights: map<Bidder, int>, latency: map<Bidder, int>)

  /** Seats as the exchange holds them; a seat may be nil. */
  type Seats = map<Bidder, Option<seq<Bid>>>

  // ---- the comparison

  /** Go's `<` on strings. */
  predicate Less(a: string, b: string) {
    b != [] && (a == [] || a[0] < b[0] || (a[0] == b[0] && Less(a[1..], b[1..])))
  }

  function Key(e: Entry): string {
    e.bidder + ":" + e.bid.id
  }

  function Lookup(m: map<Bidder, int>, b: Bidder): int {
    if b in m then m[b] else 0
  }

  /** `bidBeats`: deals if preferred, then price, seat weight, latency (0 is unknown), stable key. */
  predicate Beats(n: Entry, c: Entry, r: Rules) {
    if r.preferDeals && (n.bid.dealId == "") != (c.bid.dealId == "") then c.bid.dealId == ""
    else if n.bid.price != c.bid.price then n.bid.price > c.bid.price
    else
      var newW, curW := Lookup(r.weights, n.bidder), Lookup(r.weights, c.bidder);
      if newW != curW then newW > curW
      else
        var newL, curL := Lookup(r.latency, n.bidder), Lookup(r.latency, c.bidder);
        if newL != curL then
          if newL == 0 then false else if curL == 0 then true else newL < curL
        else Less(Key(n), Key(c))
  }

  lemma {:induction false} LessTrans(a: string, b: string, c: string)
    requires Less(a, b) && Less(b, c)
    ensures Less(a, c)
  {
    if a != [] && a[0] == b[0] == c[0] {
      LessTrans(a[1..], b[1..], c[1..]);
    }
  }

  lemma {:induction false} LessTotal(a: string, b: string)
    ensures !(Less(a, b) && Less(b, a))
    ensures Less(a, b) || Less(b, a) || a == b
  {
    if a != [] && b != [] && a[0] == b[0] {
      LessTotal(a[1..], b[1..]);
      assert a == [a[0]] + a[1..] && b == [b[0]] + b[1..];
    }
  }

  lemma {:induction false} LessIrreflexive(a: string)
    ensures !Less(a, a)
  {
    LessTotal(a, a);
  }

  /** `bidBeats` is a strict order on all bids, and a total one between different stable keys. */
  lemma BeatsIsStrictTotal(x: Entry, y: Entry, z: Entry, r: Rules)
    ensures !Beats(x, x, r)
    ensures !(Beats(x, y, r) && Beats(y, x, r))
    ensures Beats(x, y, r) && Beats(y, z, r) ==> Beats(x, z, r)
    ensures Beats(x, y, r) ==> Beats(x, z, r) || Beats(z, y, r)
    ensures Key(x) != Key(y) ==> Beats(x, y, r) || Beats(y, x, r)
    ensures !Beats(x, y, r) && !Beats(y, x, r) ==> Key(x) == Key(y) && x.bid.price == y.bid.price
  {
    hide Key, Less;
    LessIrreflexive(Key(x));
    LessTotal(Key(x), Key(y));
    LessTotal(Key(y), Key(z));
    LessTotal(Key(x), Key(z));
    if Less(Key(x), Key(y)) && Less(Key(y), Key(z)) {
      LessTrans(Key(x), Key(y), Key(z));
    }
    if Less(Key(z), Key(x)) && Less(Key(x), Key(y)) {
      LessTrans(Key(z), Key(x), Key(y));
    }
  }

  // ---- newAuction

  /** `order` is one possible iteration order of the seat map. */
  ghost predicate Iterates(order: seq<Bidder>, seats: Seats) {
    Enumerates(order, seats.Keys)
  }

  function BidsIn(seats: Seats, b: Bidder): seq<Bid> {
    if b in seats && seats[b].Some? then seats[b].value else []
  }

  function SeatEntries(seats: Seats, b: Bidder): (r: seq<Entry>)
    ensures |r| == |BidsIn(seats, b)|
    ensures forall i :: 0 <= i < |r| ==> r[i] == Entry(b, BidsIn(seats, b)[i])
  {
    var bids := BidsIn(seats, b);
    seq(|bids|, i requires 0 <= i < |bids| => Entry(b, bids[i]))
  }

  /** All bids in the order in which the loops meet them. */
  function Flat(order: seq<Bidder>, seats: Seats): seq<Entry> {
    if order == [] then []
    else Flat(order[..|order| - 1], seats) + SeatEntries(seats, order[|order| - 1])
  }

  /** The leader of an impression after the bids `es` have been met. */
  function Leader(es: seq<Entry>, imp: string, r: Rules): Option<Entry> {
    if es == [] then None
    else
      var e, prev := es[|es| - 1], Leader(es[..|es| - 1], imp, r);
      if e.bid.impId == imp && (prev.None? || Beats(e, prev.value, r)) then Some(e) else prev
  }

  /** The bids of one seat on one impression, in the order met. */
  function Group(es: seq<Entry>, imp: string, b: Bidder): seq<Bid> {
    if es == [] then []
    else
      var e := es[|es| - 1];
      Group(es[..|es| - 1], imp, b) + if e.bidder == b && e.bid.impId == imp then [e.bid] else []
  }

  ghost predicate Records(es: seq<Entry>, r: Rules, winning: map<string, Entry>, all: map<(string, Bidder), seq<Bid>>) {
    && (forall imp :: imp in winning <==> Leader(es, imp, r).Some?)
    && (forall imp :: imp in winning ==> Leader(es, imp, r) == Some(winning[imp]))
    && (forall imp, b :: (imp, b) in all <==> Group(es, imp, b) != [])
    && (forall imp, b :: (imp, b) in all ==> all[(imp, b)] == Group(es, imp, b))
  }

  lemma RecordsStep(es: seq<Entry>, e: Entry, r: Rules, winning: map<string, Entry>, all: map<(string, Bidder), seq<Bid>>)
    requires Records(es, r, winning, all)
    ensures var imp, slot := e.bid.impId, (e.bid.impId, e.bidder);
            var win' := if imp !in winning || Beats(e, winning[imp], r) then winning[imp := e] else winning;
            var all' := all[slot := (if slot in all then all[slot] else []) + [e.bid]];
            Records(es + [e], r, win', all')
  {
    hide Beats, Leader, Group;
    forall imp: string
      ensures Leader(es + [e], imp, r)
              == if On(e, imp) && (Leader(es, imp, r).None? || Beats(e, Leader(es, imp, r).value, r)) then Some(e)
                 else Leader(es, imp, r)
    {
      LeaderStep(es, e, imp, r);
    }
    forall imp: string, b: Bidder
      ensures Group(es + [e], imp, b) == Group(es, imp, b) + if e.bidder == b && On(e, imp) then [e.bid] else []
    {
      GroupStep(es, e, imp, b);
    }
  }

  lemma LeaderStep(es: seq<Entry>, e: Entry, imp: string, r: Rules)
    ensures Leader(es + [e], imp, r)
            == if On(e, imp) && (Leader(es, imp, r).None? || Beats(e, Leader(es, imp, r).value, r)) then Some(e)
               else Leader(es, imp, r)
  {
    hide Beats;
    assert (es + [e])[..|es|] == es;
  }

  lemma GroupStep(es: seq<Entry>, e: Entry, imp: string, b: Bidder)
    ensures Group(es + [e], imp, b) == Group(es, imp, b) + if e.bidder == b && On(e, imp) then [e.bid] else []
  {
    assert (es + [e])[..|es|] == es;
  }

  method NewAuction(order: seq<Bidder>, seats: Seats, r: Rules)
    returns (winning: map<string, Entry>, all: map<(string, Bidder), seq<Bid>>)
    requires Iterates(order, seats)
    ensures Records(Flat(order, seats), r, winning, all)
  {
    hide Beats, Records, Leader, Group, Less;
    winning, all := map[], map[];
    RecordsNothing(r);
    for i := 0 to |order|
      invariant Records(Flat(order[..i], seats), r, winning, all)
    {
      var bidder := order[i];
      ghost var base, mine := Flat(order[..i], seats), SeatEntries(seats, bidder);
      assert order[..i + 1][..i] == order[..i];
      if seats[bidder].Some? {
        var bids := seats[bidder].value;
        assert base + mine[..0] == base;
        for j := 0 to |bids|
          invariant Records(base + mine[..j], r, winning, all)
        {
          var e := Entry(bidder, bids[j]);
          RecordsStep(base + mine[..j], e, r, winning, all);
          assert base + mine[..j + 1] == base + mine[..j] + [e];
          var imp, slot := e.bid.impId, (e.bid.impId, bidder);
          if imp !in winning || Beats(e, winning[imp], r) {
            winning := winning[imp := e];
          }
          if slot in all {
            all := all[slot := all[slot] + [e.bid]];
          } else {
            all := all[slot := [] + [e.bid]];
          }
        }
        assert mine[..|bids|] == mine;
      } else {
        assert base + mine == base;
      }
    }
    assert order[..|order|] == order;
  }

  lemma RecordsNothing(r: Rules)
    ensures Records(Flat([], map[]), r, map[], map[])
    ensures forall seats :: Flat([], seats) == Flat([], map[])
  {
  }

  // ---- the leader is the earliest unbeaten bid

  ghost predicate On(e: Entry, imp: string) {
    e.bid.impId == imp
  }

  /** `e` is a bid on `imp` that no bid on `imp` beats. */
  ghost predicate Unbeaten(es: seq<Entry>, e: Entry, imp: string, r: Rules) {
    e in es && On(e, imp) && forall x :: x in es && On(x, imp) ==> !Beats(x, e, r)
  }

  ghost predicate LeadsAt(es: seq<Entry>, imp: string, r: Rules, p: int) {
    && 0 <= p < |es| && Leader(es, imp, r) == Some(es[p]) && On(es[p], imp)
    && (forall i :: 0 <= i < p && On(es[i], imp) ==> Beats(es[p], es[i], r))
    && (forall i :: p <= i < |es| && On(es[i], imp) ==> !Beats(es[i], es[p], r))
  }

  lemma {:induction false} LeaderPosition(es: seq<Entry>, imp: string, r: Rules)
    ensures Leader(es, imp, r).None? <==> forall i :: 0 <= i < |es| ==> !On(es[i], imp)
    ensures Leader(es, imp, r).Some? ==> exists p :: LeadsAt(es, imp, r, p)
  {
    hide Beats;
    if es != [] {
      var front, last := es[..|es| - 1], |es| - 1;
      LeaderPosition(front, imp, r);
      if Leader(front, imp, r).None? {
        assert On(es[last], imp) ==> LeadsAt(es, imp, r, last) by {
          BeatsIsStrictTotal(es[last], es[last], es[last], r);
        }
      } else {
        var p :| LeadsAt(front, imp, r, p);
        if On(es[last], imp) && Beats(es[last], es[p], r) {
          forall i | 0 <= i <= last && On(es[i], imp)
            ensures i < last ==> Beats(es[last], es[i], r)
            ensures i == last ==> !Beats(es[i], es[last], r)
          {
            BeatsIsStrictTotal(es[last], es[p], es[i], r);
          }
          assert LeadsAt(es, imp, r, last);
        } else {
          assert LeadsAt(es, imp, r, p);
        }
      }
    }
  }

  lemma LeaderUnbeaten(es: seq<Entry>, imp: string, r: Rules, p: nat)
    requires LeadsAt(es, imp, r, p)
    ensures Unbeaten(es, es[p], imp, r)
  {
    hide Beats;
    forall x | x in es && On(x, imp)
      ensures !Beats(x, es[p], r)
    {
      BeatsIsStrictTotal(x, es[p], x, r);
    }
  }

  // ---- the four levels, read off the winner

  /** Of two texts the first is smaller: at their first difference, or because it is a proper beginning. */
  lemma {:induction false} LessMeans(a: string, b: string)
    ensures Less(a, b) <==> exists n :: Smaller(a, b, n)
  {
    if a == [] || b == [] {
      assert b != [] && a == [] ==> Smaller(a, b, 0);
    } else {
      LessMeans(a[1..], b[1..]);
      if a[0] < b[0] {
        assert Smaller(a, b, 0);
      } else if a[0] == b[0] {
        if Less(a[1..], b[1..]) {
          var n :| Smaller(a[1..], b[1..], n);
          assert a[..n + 1] == [a[0]] + a[1..][..n] && b[..n + 1] == [b[0]] + b[1..][..n];
          assert Smaller(a, b, n + 1);
        }
        if exists n :: Smaller(a, b, n) {
          var n :| Smaller(a, b, n);
          assert a[1..][..n - 1] == a[..n][1..] && b[1..][..n - 1] == b[..n][1..];
          assert Smaller(a[1..], b[1..], n - 1);
        }
      } else {
        forall n
          ensures !Smaller(a, b, n)
        {
          if 0 < n <= |a| && n <= |b| && a[..n] == b[..n] {
            SameFirst(a, b, n);
          }
        }
      }
    }
  }

  lemma SameFirst(a: string, b: string, n: int)
    requires 0 < n <= |a| && n <= |b| && a[..n] == b[..n]
    ensures a[0] == b[0]
  {
    assert a[..n][0] == b[..n][0];
  }

  ghost predicate Smaller(a: string, b: string, n: int) {
    0 <= n <= |a| && n < |b| && a[..n] == b[..n] && (n == |a| || a[n] < b[n])
  }

  /** The weight or latency of a seat; absent is 0. */
  ghost predicate Reads(m: map<Bidder, int>, b: Bidder, v: int) {
    (b in m ==> v == m[b]) && (b !in m ==> v == 0)
  }

  /** Not slower, where an unknown latency of 0 is slower than any other. */
  ghost predicate NotSlower(l: int, k: int) {
    k == 0 || (l != 0 && l <= k)
  }

  /** What is promised of a winner against any other bid, level by level. */
  ghost predicate Dominates(w: Entry, x: Entry, r: Rules, wWeight: int, xWeight: int, wLatency: int, xLatency: int) {
    var sameClass := !r.preferDeals || (w.bid.dealId == "") == (x.bid.dealId == "");
    && (r.preferDeals && x.bid.dealId != "" ==> w.bid.dealId != "")
    && (sameClass ==> w.bid.price >= x.bid.price)
    && (sameClass && w.bid.price == x.bid.price ==> wWeight >= xWeight)
    && (sameClass && w.bid.price == x.bid.price && wWeight == xWeight ==> NotSlower(wLatency, xLatency))
    && (sameClass && w.bid.price == x.bid.price && wWeight == xWeight && wLatency == xLatency ==>
          !exists n :: Smaller(x.bidder + ":" + x.bid.id, w.bidder + ":" + w.bid.id, n))
  }

  /**
   * The recorded winner of an impression against every bid on it, in the documented order: deals if
   * they are preferred, price, seat weight, latency, stable key.
   */
  lemma WinnerDominates(es: seq<Entry>, r: Rules, winning: map<string, Entry>, all: map<(string, Bidder), seq<Bid>>,
                        imp: string, x: Entry, wWeight: int, xWeight: int, wLatency: int, xLatency: int)
    requires Records(es, r, winning, all) && imp in winning && x in es && x.bid.impId == imp
    requires Reads(r.weights, winning[imp].bidder, wWeight) && Reads(r.weights, x.bidder, xWeight)
    requires Reads(r.latency, winning[imp].bidder, wLatency) && Reads(r.latency, x.bidder, xLatency)
    ensures winning[imp] in es && winning[imp].bid.impId == imp
    ensures Dominates(winning[imp], x, r, wWeight, xWeight, wLatency, xLatency)
  {
    hide Less, Leader, Group, Smaller;
    var w := winning[imp];
    LeaderPosition(es, imp, r);
    var p :| LeadsAt(es, imp, r, p);
    LeaderUnbeaten(es, imp, r, p);
    assert !Beats(x, w, r);
    LessMeans(Key(x), Key(w));
  }

  // ---- what is in the flattened seats, whatever the order

  ghost predicate StandsAt(es: seq<Entry>, mine: seq<Entry>, at: nat) {
    at + |mine| <= |es| && forall k :: 0 <= k < |mine| ==> es[at + k] == mine[k]
  }

  /** Only the block `[at, at + n)` of `es` holds bids of `b`. */
  ghost predicate OnlyThere(es: seq<Entry>, b: Bidder, at: nat, n: nat) {
    forall i :: 0 <= i < |es| && es[i].bidder == b ==> at <= i < at + n
  }

  /** A seat's bids form one block of the flattening. */
  lemma {:induction false} BlockOf(order: seq<Bidder>, seats: Seats, b: Bidder) returns (at: nat)
    requires NoDup(order) && b in order
    ensures StandsAt(Flat(order, seats), SeatEntries(seats, b), at)
    ensures OnlyThere(Flat(order, seats), b, at, |SeatEntries(seats, b)|)
    ensures order[0] == b ==> at == 0
  {
    hide SeatEntries, StandsAt, OnlyThere;
    var front, last := order[..|order| - 1], order[|order| - 1];
    var es, tail := Flat(front, seats), SeatEntries(seats, last);
    if b == last {
      at := |es|;
      NoBlock(front, seats, b);
      BlockAtEnd(es, tail, b);
    } else {
      at := BlockOf(front, seats, b);
      BlockStays(es, SeatEntries(seats, b), tail, b, last, at);
    }
  }

  lemma BlockAtEnd(es: seq<Entry>, mine: seq<Entry>, b: Bidder)
    requires OnlyThere(es, b, 0, 0)
    ensures StandsAt(es + mine, mine, |es|) && OnlyThere(es + mine, b, |es|, |mine|)
  {
  }

  lemma BlockStays(es: seq<Entry>, mine: seq<Entry>, tail: seq<Entry>, b: Bidder, other: Bidder, at: nat)
    requires StandsAt(es, mine, at) && OnlyThere(es, b, at, |mine|)
    requires other != b && forall i :: 0 <= i < |tail| ==> tail[i].bidder == other
    ensures StandsAt(es + tail, mine, at) && OnlyThere(es + tail, b, at, |mine|)
  {
  }

  lemma {:induction false} NoBlock(order: seq<Bidder>, seats: Seats, b: Bidder)
    requires b !in order
    ensures OnlyThere(Flat(order, seats), b, 0, 0)
  {
    hide SeatEntries;
    if order != [] {
      NoBlock(order[..|order| - 1], seats, b);
    }
  }

  lemma FlatMembers(order: seq<Bidder>, seats: Seats, e: Entry)
    requires Iterates(order, seats)
    ensures e in Flat(order, seats) <==> e.bid in BidsIn(seats, e.bidder)
  {
    hide SeatEntries, Flat;
    var es, mine := Flat(order, seats), SeatEntries(seats, e.bidder);
    if e.bidder in order {
      var at := BlockOf(order, seats, e.bidder);
      if e in es {
        var i :| 0 <= i < |es| && es[i] == e;
        assert es[at + (i - at)] == mine[i - at];
      }
      if e.bid in BidsIn(seats, e.bidder) {
        var k :| 0 <= k < |mine| && mine[k].bid == e.bid;
        assert es[at + k] == e;
      }
    } else {
      NoBlock(order, seats, e.bidder);
    }
  }

  /** Every bid of a seat is recorded under its impression and seat, in the seat's own order. */
  lemma {:induction false} GroupIsSeatFilter(order: seq<Bidder>, seats: Seats, imp: string, b: Bidder)
    requires NoDup(order)
    ensures Group(Flat(order, seats), imp, b) == if b in order then Group(SeatEntries(seats, b), imp, b) else []
  {
    if order != [] {
      var front, last := order[..|order| - 1], order[|order| - 1];
      GroupIsSeatFilter(front, seats, imp, b);
      GroupConcat(Flat(front, seats), SeatEntries(seats, last), imp, b);
      if b != last {
        GroupOfOthers(SeatEntries(seats, last), imp, b);
      }
    }
  }

  lemma {:induction false} GroupConcat(xs: seq<Entry>, ys: seq<Entry>, imp: string, b: Bidder)
    ensures Group(xs + ys, imp, b) == Group(xs, imp, b) + Group(ys, imp, b)
  {
    if ys == [] {
      assert xs + ys == xs;
    } else {
      assert (xs + ys)[..|xs + ys| - 1] == xs + ys[..|ys| - 1];
      GroupConcat(xs, ys[..|ys| - 1], imp, b);
    }
  }

  lemma {:induction false} GroupOfOthers(es: seq<Entry>, imp: string, b: Bidder)
    requires forall i :: 0 <= i < |es| ==> es[i].bidder != b
    ensures Group(es, imp, b) == []
  {
    if es != [] {
      GroupOfOthers(es[..|es| - 1], imp, b);
    }
  }

  // ---- when the iteration order matters

  /** All unbeaten bids of the impression come from one seat. */
  ghost predicate OneSeat(seats: Seats, order: seq<Bidder>, imp: string, r: Rules) {
    var es := Flat(order, seats);
    forall x, y :: Unbeaten(es, x, imp, r) && Unbeaten(es, y, imp, r) ==> x.bidder == y.bidder
  }

  lemma UnbeatenSame(o: seq<Bidder>, o': seq<Bidder>, seats: Seats, e: Entry, imp: string, r: Rules)
    requires Iterates(o, seats) && Iterates(o', seats)
    ensures Unbeaten(Flat(o, seats), e, imp, r) <==> Unbeaten(Flat(o', seats), e, imp, r)
  {
    hide Beats;
    forall x: Entry
      ensures x in Flat(o, seats) <==> x in Flat(o', seats)
    {
      FlatMembers(o, seats, x);
      FlatMembers(o', seats, x);
    }
  }

  ghost predicate AheadBeaten(mine: seq<Entry>, k: int, imp: string, r: Rules) {
    0 <= k < |mine| && forall i :: 0 <= i < k && On(mine[i], imp) ==> Beats(mine[k], mine[i], r)
  }

  /** Where the leader stands within its own seat: ahead of it, only bids that it beats. */
  lemma LeaderInSeat(order: seq<Bidder>, seats: Seats, imp: string, r: Rules, p: nat) returns (k: nat)
    requires Iterates(order, seats) && LeadsAt(Flat(order, seats), imp, r, p)
    ensures var e, mine := Flat(order, seats)[p], SeatEntries(seats, Flat(order, seats)[p].bidder);
            AheadBeaten(mine, k, imp, r) && mine[k] == e
  {
    hide Beats, SeatEntries, Flat;
    var es := Flat(order, seats);
    var mine := SeatEntries(seats, es[p].bidder);
    FlatMembers(order, seats, es[p]);
    var at := BlockOf(order, seats, es[p].bidder);
    k := p - at;
    assert es[at + k] == mine[k];
    forall i | 0 <= i < k && On(mine[i], imp)
      ensures Beats(mine[k], mine[i], r)
    {
      assert es[at + i] == mine[i];
    }
  }

  lemma SeatLeaderUnique(mine: seq<Entry>, k: nat, k': nat, imp: string, r: Rules)
    requires AheadBeaten(mine, k, imp, r) && AheadBeaten(mine, k', imp, r)
    requires Unbeaten(mine, mine[k], imp, r) && Unbeaten(mine, mine[k'], imp, r)
    ensures k == k'
  {
    hide Beats;
  }

  lemma UnbeatenInSeat(order: seq<Bidder>, seats: Seats, e: Entry, imp: string, r: Rules)
    requires Iterates(order, seats) && Unbeaten(Flat(order, seats), e, imp, r)
    ensures Unbeaten(SeatEntries(seats, e.bidder), e, imp, r)
  {
    hide Beats, Flat, SeatEntries;
    var mine := SeatEntries(seats, e.bidder);
    FlatMembers(order, seats, e);
    var k :| 0 <= k < |mine| && mine[k].bid == e.bid;
    assert mine[k] == e;
    forall x | x in mine && On(x, imp)
      ensures !Beats(x, e, r)
    {
      FlatMembers(order, seats, x);
    }
  }

  lemma OneSeatDecides(o: seq<Bidder>, o': seq<Bidder>, seats: Seats, imp: string, r: Rules)
    requires Iterates(o, seats) && Iterates(o', seats) && OneSeat(seats, o, imp, r)
    ensures Leader(Flat(o, seats), imp, r) == Leader(Flat(o', seats), imp, r)
  {
    hide Beats, Flat, SeatEntries, Leader;
    var es, es' := Flat(o, seats), Flat(o', seats);
    LeaderPosition(es, imp, r);
    LeaderPosition(es', imp, r);
    forall x: Entry
      ensures x in es <==> x in es'
    {
      FlatMembers(o, seats, x);
      FlatMembers(o', seats, x);
    }
    if Leader(es, imp, r).Some? {
      var p :| LeadsAt(es, imp, r, p);
      assert es[p] in es';
      var q :| LeadsAt(es', imp, r, q);
      LeaderUnbeaten(es, imp, r, p);
      LeaderUnbeaten(es', imp, r, q);
      UnbeatenSame(o, o', seats, es'[q], imp, r);
      UnbeatenInSeat(o, seats, es[p], imp, r);
      UnbeatenInSeat(o, seats, es'[q], imp, r);
      var k := LeaderInSeat(o, seats, imp, r, p);
      var k' := LeaderInSeat(o', seats, imp, r, q);
      SeatLeaderUnique(SeatEntries(seats, es[p].bidder), k, k', imp, r);
    } else {
      assert forall i :: 0 <= i < |es'| ==> es'[i] in es;
    }
  }

  /** A seat that is iterated first keeps the lead if one of its bids is unbeaten. */
  lemma FirstSeatLeads(order: seq<Bidder>, seats: Seats, e: Entry, imp: string, r: Rules)
    requires Iterates(order, seats) && order != [] && order[0] == e.bidder
    requires Unbeaten(Flat(order, seats), e, imp, r)
    ensures Leader(Flat(order, seats), imp, r).Some?
    ensures Leader(Flat(order, seats), imp, r).value.bidder == e.bidder
  {
    hide Beats, Flat, SeatEntries, Leader;
    var es := Flat(order, seats);
    LeaderPosition(es, imp, r);
    var i :| 0 <= i < |es| && es[i] == e;
    var p :| LeadsAt(es, imp, r, p);
    var at := BlockOf(order, seats, e.bidder);
    var mine := SeatEntries(seats, e.bidder);
    assert es[at + p] == mine[p];
  }

  /**
   * The winner of an impression is the same for every iteration order of the seat map if and only
   * if its unbeaten bids all belong to one seat.
   */
  lemma OrderIndependentExactly(order: seq<Bidder>, seats: Seats, imp: string, r: Rules)
    requires Iterates(order, seats)
    ensures (forall o :: Iterates(o, seats) ==>
               Leader(Flat(o, seats), imp, r) == Leader(Flat(order, seats), imp, r))
            <==> OneSeat(seats, order, imp, r)
  {
    hide Beats;
    if OneSeat(seats, order, imp, r) {
      forall o | Iterates(o, seats)
        ensures Leader(Flat(o, seats), imp, r) == Leader(Flat(order, seats), imp, r)
      {
        OneSeatDecides(order, o, seats, imp, r);
      }
    } else {
      var es := Flat(order, seats);
      var x, y :| Unbeaten(es, x, imp, r) && Unbeaten(es, y, imp, r) && x.bidder != y.bidder;
      var o := SeatFirst(order, seats, x, imp, r);
      var o' := SeatFirst(order, seats, y, imp, r);
    }
  }

  lemma SeatFirst(order: seq<Bidder>, seats: Seats, e: Entry, imp: string, r: Rules) returns (o: seq<Bidder>)
    requires Iterates(order, seats) && Unbeaten(Flat(order, seats), e, imp, r)
    ensures Iterates(o, seats)
    ensures Leader(Flat(o, seats), imp, r).Some? && Leader(Flat(o, seats), imp, r).value.bidder == e.bidder
  {
    hide Beats, Flat;
    FlatMembers(order, seats, e);
    assert e.bidder in order;
    var i :| 0 <= i < |order| && order[i] == e.bidder;
    o := ToFront(order, i);
    ToFrontEnumerates(order, seats.Keys, i);
    UnbeatenSame(order, o, seats, e, imp, r);
    FirstSeatLeads(o, seats, e, imp, r);
  }

  ghost predicate ColonFree(b: Bidder) {
    ':' !in b
  }

  lemma KeyNamesSeat(x: Entry, y: Entry)
    requires Key(x) == Key(y) && ColonFree(x.bidder) && ColonFree(y.bidder)
    ensures x.bidder == y.bidder
  {
    assert Key(x)[|x.bidder|] == ':' && Key(y)[|y.bidder|] == ':';
    assert forall i :: 0 <= i < |x.bidder| ==> Key(x)[i] == x.bidder[i];
    assert forall i :: 0 <= i < |y.bidder| ==> Key(y)[i] == y.bidder[i];
    assert |x.bidder| == |y.bidder|;
  }

  /** Seat names without a colon are enough, even when a seat repeats a bid id. */
  lemma ColonFreeSeatsDecide(order: seq<Bidder>, o: seq<Bidder>, seats: Seats, imp: string, r: Rules)
    requires Iterates(order, seats) && Iterates(o, seats)
    requires forall b :: b in seats ==> ColonFree(b)
    ensures Leader(Flat(o, seats), imp, r) == Leader(Flat(order, seats), imp, r)
  {
    hide Beats, Key;
    var es := Flat(order, seats);
    forall x, y | Unbeaten(es, x, imp, r) && Unbeaten(es, y, imp, r)
      ensures x.bidder == y.bidder
    {
      BeatsIsStrictTotal(x, y, x, r);
      FlatMembers(order, seats, x);
      FlatMembers(order, seats, y);
      KeyNamesSeat(x, y);
    }
    OneSeatDecides(order, o, seats, imp, r);
  }

  /** With a colon in a seat name two seats can share a stable key, and map order picks the winner. */
  lemma ColonSeatsCollide()
    ensures var seats: Seats := map["a" := Some([Bid("b:c", "1", 1.0, "")]), "a:b" := Some([Bid("c", "1", 1.0, "")])];
            !OneSeat(seats, ["a", "a:b"], "1", Rules(false, map[], map[]))
  {
    var x, y := Entry("a", Bid("b:c", "1", 1.0, "")), Entry("a:b", Bid("c", "1", 1.0, ""));
    var seats: Seats := map["a" := Some([x.bid]), "a:b" := Some([y.bid])];
    var order, r := ["a", "a:b"], Rules(false, map[], map[]);
    var es := Flat(order, seats);
    assert order[..1] == ["a"] && ["a"][..0] == [];
    assert SeatEntries(seats, "a") == [x] && SeatEntries(seats, "a:b") == [y];
    assert Flat(["a"], seats) == [] + [x];
    assert es == [x] + [y];
    assert Key(x) == Key(y) == "a:b:c";
    LessIrreflexive("a:b:c");
    assert Unbeaten(es, x, "1", r) && Unbeaten(es, y, "1", r);
  }
}
