/** Ranking and cutting each bidder's bids on an impression, through pointers shared with the seats. */
module MultiBid {
  import opened Options
  import opened Orders
  import opened Auction

  /** The identity of a `PbsOrtbBid`; its inner bid pointer is nil once the bid has been cut. */
  type Ref = nat
  type Heap = map<Ref, Option<Bid>>
  type Slot = (string, Bidder)

  /** `isNewWinningBid`. */
  predicate Outranks(x: Bid, y: Bid, preferDeals: bool) {
    if preferDeals && (x.dealId == "") != (y.dealId == "") then y.dealId == "" else x.price > y.price
  }

  predicate Live(refs: seq<Ref>, h: Heap) {
    forall i :: 0 <= i < |refs| ==> refs[i] in h && h[refs[i]].Some?
  }

  ghost predicate Ranked(p: seq<Ref>, h: Heap, preferDeals: bool)
    requires Live(p, h)
  {
    forall i, j :: 0 <= i < j < |p| ==> !Outranks(h[p[j]].value, h[p[i]].value, preferDeals)
  }

  /** All that `sort.Slice` promises: a rearrangement in which no bid outranks an earlier one. */
  ghost predicate IsRanking(p: seq<Ref>, l: seq<Ref>, h: Heap, preferDeals: bool) {
    multiset(p) == multiset(l) && Live(p, h) && Ranked(p, h, preferDeals)
  }

  lemma SameMembers(p: seq<Ref>, l: seq<Ref>, x: Ref)
    requires multiset(p) == multiset(l)
    ensures x in p <==> x in l
  {
    assert x in p <==> x in multiset(p);
    assert x in l <==> x in multiset(l);
  }

  lemma InsertRanks(p: seq<Ref>, x: Ref, k: nat, h: Heap, preferDeals: bool)
    requires Live(p, h) && Ranked(p, h, preferDeals) && x in h && h[x].Some? && k <= |p|
    requires forall i :: k <= i < |p| ==> Outranks(h[x].value, h[p[i]].value, preferDeals)
    requires k > 0 ==> !Outranks(h[x].value, h[p[k - 1]].value, preferDeals)
    ensures Live(p[..k] + [x] + p[k..], h) && Ranked(p[..k] + [x] + p[k..], h, preferDeals)
  {
    var r := p[..k] + [x] + p[k..];
    forall i | 0 <= i < k
      ensures !Outranks(h[x].value, h[p[i]].value, preferDeals)
    {
      assert i == k - 1 || !Outranks(h[p[k - 1]].value, h[p[i]].value, preferDeals);
    }
    forall i, j | 0 <= i < j < |r|
      ensures !Outranks(h[r[j]].value, h[r[i]].value, preferDeals)
    {
      hide Outranks;
      OutranksAsymmetric(h[r[i]].value, h[r[j]].value, preferDeals);
      assert i > k ==> !Outranks(h[p[j - 1]].value, h[p[i - 1]].value, preferDeals);
    }
  }

  lemma OutranksAsymmetric(x: Bid, y: Bid, preferDeals: bool)
    ensures !(Outranks(x, y, preferDeals) && Outranks(y, x, preferDeals))
  {
  }

  method Insert(p: seq<Ref>, x: Ref, h: Heap, preferDeals: bool) returns (r: seq<Ref>)
    requires Live(p, h) && Ranked(p, h, preferDeals) && x in h && h[x].Some?
    ensures IsRanking(r, p + [x], h, preferDeals)
  {
    hide Ranked, Outranks;
    var k := |p|;
    while k > 0 && Outranks(h[x].value, h[p[k - 1]].value, preferDeals)
      invariant 0 <= k <= |p|
      invariant forall i :: k <= i < |p| ==> Outranks(h[x].value, h[p[i]].value, preferDeals)
    {
      k := k - 1;
    }
    r := p[..k] + [x] + p[k..];
    assert p == p[..k] + p[k..];
    InsertRanks(p, x, k, h, preferDeals);
  }

  method SortBids(l: seq<Ref>, h: Heap, preferDeals: bool) returns (p: seq<Ref>)
    requires Live(l, h)
    ensures IsRanking(p, l, h, preferDeals)
  {
    p := [];
    for i := 0 to |l|
      invariant IsRanking(p, l[..i], h, preferDeals)
    {
      assert l[..i + 1] == l[..i] + [l[i]];
      p := Insert(p, l[i], h, preferDeals);
    }
    assert l[..|l|] == l;
  }

  /** How many bids of a list stay; a limit of 0 means no limit. */
  function Kept(limit: nat, n: nat): (r: nat)
    ensures r <= n
  {
    if limit != 0 && n > limit then limit else n
  }

  /** Nils the bids from index `limit` on. */
  method ClearTail(p: seq<Ref>, limit: nat, h: Heap) returns (h': Heap)
    requires Live(p, h) && limit <= |p|
    ensures h'.Keys == h.Keys
    ensures forall x :: x in h ==> h'[x] == if x in p[limit..] then None else h[x]
  {
    h' := h;
    for i := limit to |p|
      invariant h'.Keys == h.Keys
      invariant forall x :: x in h ==> h'[x] == if x in p[limit..i] then None else h[x]
    {
      h' := h'[p[i] := None];
      assert p[limit..i + 1] == p[limit..i] + [p[i]];
    }
    assert p[limit..|p|] == p[limit..];
  }

  function Survivors(refs: seq<Ref>, h: Heap): seq<Ref>
    requires forall i :: 0 <= i < |refs| ==> refs[i] in h
  {
    if refs == [] then []
    else
      var last := refs[|refs| - 1];
      Survivors(refs[..|refs| - 1], h) + if h[last].Some? then [last] else []
  }

  method Compact(refs: seq<Ref>, h: Heap) returns (r: seq<Ref>)
    requires forall i :: 0 <= i < |refs| ==> refs[i] in h
    ensures r == Survivors(refs, h)
  {
    r := [];
    for i := 0 to |refs|
      invariant r == Survivors(refs[..i], h)
    {
      assert refs[..i + 1][..i] == refs[..i];
      if h[refs[i]].Some? {
        r := r + [refs[i]];
      }
    }
    assert refs[..|refs|] == refs;
  }

  lemma {:induction false} AllSurvive(refs: seq<Ref>, h: Heap)
    requires Live(refs, h)
    ensures Survivors(refs, h) == refs
  {
    if refs != [] {
      AllSurvive(refs[..|refs| - 1], h);
      assert refs == refs[..|refs| - 1] + [refs[|refs| - 1]];
    }
  }

  ghost predicate Dropped(x: Ref, rankings: map<Slot, seq<Ref>>, limit: nat) {
    exists s :: s in rankings && x in rankings[s][Kept(limit, |rankings[s]|)..]
  }

  /** No bid stands in two lists. */
  ghost predicate Disjoint(lists: map<Slot, seq<Ref>>) {
    forall s, t, x :: s in lists && t in lists && x in lists[s] && x in lists[t] ==> s == t
  }

  /** What has been cut so far came from other lists. */
  lemma NoneDropped(s: Slot, rankings: map<Slot, seq<Ref>>, lists: map<Slot, seq<Ref>>, limit: nat, x: Ref)
    requires s in lists && s !in rankings && x in lists[s] && rankings.Keys <= lists.Keys && Disjoint(lists)
    requires forall t :: t in rankings ==> multiset(rankings[t]) == multiset(lists[t])
    ensures !Dropped(x, rankings, limit)
  {
    forall t | t in rankings
      ensures x !in rankings[t]
    {
      SameMembers(rankings[t], lists[t], x);
    }
  }

  lemma RankingMoves(p: seq<Ref>, l: seq<Ref>, h: Heap, h0: Heap, preferDeals: bool)
    requires IsRanking(p, l, h, preferDeals)
    requires forall i :: 0 <= i < |l| ==> l[i] in h0 && l[i] in h && h0[l[i]] == h[l[i]]
    ensures IsRanking(p, l, h0, preferDeals)
  {
    forall i | 0 <= i < |p|
      ensures p[i] in h0 && h0[p[i]] == h[p[i]]
    {
      SameMembers(p, l, p[i]);
    }
  }

  lemma DroppedGrows(rankings: map<Slot, seq<Ref>>, s: Slot, p: seq<Ref>, limit: nat)
    requires s !in rankings
    ensures forall x :: Dropped(x, rankings[s := p], limit)
                        <==> Dropped(x, rankings, limit) || x in p[Kept(limit, |p|)..]
  {
    var rankings' := rankings[s := p];
    forall x: Ref
      ensures Dropped(x, rankings', limit) <==> Dropped(x, rankings, limit) || x in p[Kept(limit, |p|)..]
    {
      assert rankings'[s] == p;
      assert forall t :: t in rankings ==> t in rankings' && rankings'[t] == rankings[t];
    }
  }

  /** The lists in `rankings` have been ranked and cut, the others are as they were. */
  ghost predicate Progress(lists0: map<Slot, seq<Ref>>, heap0: Heap, lists: map<Slot, seq<Ref>>, heap: Heap,
                           rankings: map<Slot, seq<Ref>>, preferDeals: bool, limit: nat) {
    && lists.Keys == lists0.Keys && rankings.Keys <= lists0.Keys && heap.Keys == heap0.Keys
    && (forall s :: s in rankings ==> IsRanking(rankings[s], lists0[s], heap0, preferDeals))
    && (forall s :: s in lists ==>
          lists[s] == if s in rankings then rankings[s][..Kept(limit, |rankings[s]|)] else lists0[s])
    && (forall x :: x in heap ==> heap[x] == if Dropped(x, rankings, limit) then None else heap0[x])
  }

  lemma StillLive(lists0: map<Slot, seq<Ref>>, heap0: Heap, lists: map<Slot, seq<Ref>>, heap: Heap,
                  rankings: map<Slot, seq<Ref>>, preferDeals: bool, limit: nat, s: Slot)
    requires Progress(lists0, heap0, lists, heap, rankings, preferDeals, limit)
    requires Disjoint(lists0) && s in lists0 && s !in rankings && Live(lists0[s], heap0)
    ensures lists[s] == lists0[s] && Live(lists0[s], heap)
    ensures forall i :: 0 <= i < |lists0[s]| ==> heap[lists0[s][i]] == heap0[lists0[s][i]]
  {
    hide IsRanking, Dropped;
    assert forall t :: t in rankings ==> multiset(rankings[t]) == multiset(lists0[t]) by {
      RankingsPermute(lists0, heap0, rankings, preferDeals);
    }
    forall i | 0 <= i < |lists0[s]|
      ensures heap[lists0[s][i]] == heap0[lists0[s][i]]
    {
      NoneDropped(s, rankings, lists0, limit, lists0[s][i]);
    }
  }

  lemma RankingsPermute(lists0: map<Slot, seq<Ref>>, heap0: Heap, rankings: map<Slot, seq<Ref>>, preferDeals: bool)
    requires rankings.Keys <= lists0.Keys
    requires forall s :: s in rankings ==> IsRanking(rankings[s], lists0[s], heap0, preferDeals)
    ensures forall s :: s in rankings ==> multiset(rankings[s]) == multiset(lists0[s])
  {
  }

  lemma ProgressStep(lists0: map<Slot, seq<Ref>>, heap0: Heap, lists: map<Slot, seq<Ref>>, heap: Heap,
                     rankings: map<Slot, seq<Ref>>, preferDeals: bool, limit: nat, s: Slot, p: seq<Ref>, heap': Heap)
    requires Progress(lists0, heap0, lists, heap, rankings, preferDeals, limit)
    requires Disjoint(lists0) && s in lists0 && s !in rankings && Live(lists0[s], heap0)
    requires IsRanking(p, lists0[s], heap, preferDeals)
    requires heap'.Keys == heap.Keys
    requires forall x :: x in heap ==> heap'[x] == if x in p[Kept(limit, |p|)..] then None else heap[x]
    ensures Progress(lists0, heap0, lists[s := p[..Kept(limit, |p|)]], heap', rankings[s := p], preferDeals, limit)
  {
    hide IsRanking, Dropped, Kept;
    StillLive(lists0, heap0, lists, heap, rankings, preferDeals, limit, s);
    RankingMoves(p, lists0[s], heap, heap0, preferDeals);
    DroppedGrows(rankings, s, p, limit);
  }

  class BidLists {
    var heap: Heap
    var lists: map<Slot, seq<Ref>>
    var seats: map<Bidder, Option<seq<Ref>>>

    /** No bid is nil and no bid stands in two lists. */
    ghost predicate Valid()
      reads this
    {
      && Disjoint(lists)
      && (forall s :: s in lists ==> Live(lists[s], heap))
      && (forall b :: b in seats && seats[b].Some? ==> Live(seats[b].value, heap))
    }

    /** The first loop: rank every list, cut it at the limit and nil what is cut. */
    method RankAndCut(preferDeals: bool, limit: nat) returns (snipped: bool, ghost rankings: map<Slot, seq<Ref>>)
      requires Valid()
      modifies this`heap, this`lists
      ensures rankings.Keys == lists.Keys
      ensures Progress(old(lists), old(heap), lists, heap, rankings, preferDeals, limit)
      ensures !snipped ==> heap == old(heap)
    {
      hide IsRanking, Progress, Disjoint;
      snipped := false;
      rankings := map[];
      ghost var lists0, heap0 := lists, heap;
      NoProgress(lists, heap, preferDeals, limit);
      var todo := lists.Keys;
      while todo != {}
        invariant todo <= lists0.Keys && lists.Keys == lists0.Keys
        invariant rankings.Keys == lists0.Keys - todo
        invariant Progress(lists0, heap0, lists, heap, rankings, preferDeals, limit)
        invariant !snipped ==> heap == heap0
        decreases |todo|
      {
        var s :| s in todo;
        todo := todo - {s};
        StillLive(lists0, heap0, lists, heap, rankings, preferDeals, limit, s);
        var top := SortBids(lists[s], heap, preferDeals);
        RankingLive(top, lists[s], heap, preferDeals);
        ghost var before := heap;
        if limit != 0 && |top| > limit {
          heap := ClearTail(top, limit, heap);
          snipped := true;
        }
        ProgressStep(lists0, heap0, lists, before, rankings, preferDeals, limit, s, top, heap);
        lists := lists[s := if limit != 0 && |top| > limit then top[..limit] else top];
        rankings := rankings[s := top];
      }
    }

    /** `validateAndUpdateMultiBid`. */
    method ValidateAndUpdateMultiBid(preferDeals: bool, limit: nat) returns (ghost rankings: map<Slot, seq<Ref>>)
      requires Valid()
      modifies this
      ensures rankings.Keys == lists.Keys
      ensures Progress(old(lists), old(heap), lists, heap, rankings, preferDeals, limit)
      ensures seats.Keys == old(seats).Keys
      ensures forall b :: b in seats ==>
                seats[b] == if old(seats)[b].None? then None else Some(Survivors(old(seats)[b].value, heap))
    {
      hide Progress;
      var snipped;
      snipped, rankings := RankAndCut(preferDeals, limit);
      ProgressKeepsCells(old(lists), old(heap), lists, heap, rankings, preferDeals, limit);
      ghost var heap1, lists1 := heap, lists;
      var todo := if snipped then seats.Keys else {};
      if !snipped {
        forall b | b in seats && seats[b].Some?
          ensures Survivors(seats[b].value, heap) == seats[b].value
        {
          AllSurvive(seats[b].value, heap);
        }
      }
      while todo != {}
        invariant heap == heap1 && lists == lists1
        invariant todo <= seats.Keys && seats.Keys == old(seats).Keys
        invariant forall b :: b in seats ==>
                    seats[b] == if old(seats)[b].None? || b in todo then old(seats)[b]
                                else Some(Survivors(old(seats)[b].value, heap))
        decreases |todo|
      {
        var b :| b in todo;
        todo := todo - {b};
        if seats[b].Some? {
          var bids := Compact(seats[b].value, heap);
          seats := seats[b := Some(bids)];
        }
      }
    }
  }

  lemma NoProgress(lists: map<Slot, seq<Ref>>, heap: Heap, preferDeals: bool, limit: nat)
    ensures Progress(lists, heap, lists, heap, map[], preferDeals, limit)
  {
  }

  lemma RankingLive(p: seq<Ref>, l: seq<Ref>, h: Heap, preferDeals: bool)
    requires IsRanking(p, l, h, preferDeals)
    ensures Live(p, h) && p[..|p|] == p && p[|p|..] == []
  {
  }

  lemma ProgressKeepsCells(lists0: map<Slot, seq<Ref>>, heap0: Heap, lists: map<Slot, seq<Ref>>, heap: Heap,
                           rankings: map<Slot, seq<Ref>>, preferDeals: bool, limit: nat)
    requires Progress(lists0, heap0, lists, heap, rankings, preferDeals, limit)
    ensures heap.Keys == heap0.Keys
  {
  }

  // ---- which bids survive

  /** A seat keeps exactly its bids that were not cut, in their original order. */
  lemma {:induction false} SurvivorsAreUncut(refs: seq<Ref>, lists0: map<Slot, seq<Ref>>, heap0: Heap,
                                             lists: map<Slot, seq<Ref>>, heap: Heap,
                                             rankings: map<Slot, seq<Ref>>, preferDeals: bool, limit: nat)
    requires Live(refs, heap0)
    requires Progress(lists0, heap0, lists, heap, rankings, preferDeals, limit)
    ensures (forall i :: 0 <= i < |refs| ==> refs[i] in heap) && Survivors(refs, heap) == Uncut(refs, rankings, limit)
  {
    hide IsRanking, Dropped;
    if refs != [] {
      SurvivorsAreUncut(refs[..|refs| - 1], lists0, heap0, lists, heap, rankings, preferDeals, limit);
    }
  }

  ghost function Uncut(refs: seq<Ref>, rankings: map<Slot, seq<Ref>>, limit: nat): seq<Ref> {
    if refs == [] then []
    else
      var last := refs[|refs| - 1];
      Uncut(refs[..|refs| - 1], rankings, limit) + if Dropped(last, rankings, limit) then [] else [last]
  }

  /** After the cut: ranked, within the limit, and nothing that was cut outranks what stayed. */
  lemma CutIsTop(p: seq<Ref>, l: seq<Ref>, h: Heap, preferDeals: bool, limit: nat)
    requires IsRanking(p, l, h, preferDeals)
    ensures var kept, cut := p[..Kept(limit, |p|)], p[Kept(limit, |p|)..];
            && Live(kept, h) && Live(cut, h) && Ranked(kept, h, preferDeals)
            && (limit > 0 ==> |kept| <= limit)
            && multiset(kept) + multiset(cut) == multiset(l)
            && (forall i, j :: 0 <= i < |kept| && 0 <= j < |cut| ==>
                  !Outranks(h[cut[j]].value, h[kept[i]].value, preferDeals))
  {
    var k := Kept(limit, |p|);
    assert p == p[..k] + p[k..];
    assert forall j :: 0 <= j < |p[k..]| ==> p[k..][j] == p[k + j];
  }

  // ---- the overall winner under the limit

  /** Ties of `w` in a list, `w` itself included. */
  ghost function Ties(p: seq<Ref>, w: Bid, h: Heap, preferDeals: bool): nat
    requires Live(p, h)
  {
    if p == [] then 0
    else Ties(p[..|p| - 1], w, h, preferDeals) + if Tied(h[p[|p| - 1]].value, w, preferDeals) then 1 else 0
  }

  ghost predicate Tied(x: Bid, y: Bid, preferDeals: bool) {
    !Outranks(x, y, preferDeals) && !Outranks(y, x, preferDeals)
  }

  /** Nothing in the list outranks `w`. */
  ghost predicate Tops(p: seq<Ref>, w: Bid, h: Heap, preferDeals: bool)
    requires Live(p, h)
  {
    forall i :: 0 <= i < |p| ==> !Outranks(h[p[i]].value, w, preferDeals)
  }

  /** The winner of the four-level comparison is outranked by nothing. */
  lemma WinnerTops(p: seq<Ref>, w: Entry, h: Heap, r: Rules)
    requires Live(p, h) && forall i :: 0 <= i < |p| ==> !Beats(Entry(w.bidder, h[p[i]].value), w, r)
    ensures Tops(p, w.bid, h, r.preferDeals)
  {
  }

  /** In a ranking the bids that tie with an unbeaten one form a prefix. */
  lemma {:induction false} TiesArePrefix(p: seq<Ref>, w: Bid, h: Heap, preferDeals: bool)
    requires Live(p, h) && Ranked(p, h, preferDeals) && Tops(p, w, h, preferDeals)
    ensures Ties(p, w, h, preferDeals) <= |p|
    ensures forall i :: 0 <= i < |p| ==> (Tied(h[p[i]].value, w, preferDeals) <==> i < Ties(p, w, h, preferDeals))
  {
    if p != [] {
      var front, last := p[..|p| - 1], |p| - 1;
      TiesArePrefix(front, w, h, preferDeals);
      if last > 0 && Tied(h[p[last]].value, w, preferDeals) {
        assert !Outranks(h[p[last]].value, h[p[last - 1]].value, preferDeals);
        assert Tied(h[front[last - 1]].value, w, preferDeals);
      }
      assert forall i :: 0 <= i < last ==> p[i] == front[i];
    }
  }

  /** With no more ties than the limit allows, every ranking keeps the winner. */
  lemma WinnerKept(p: seq<Ref>, k: nat, h: Heap, preferDeals: bool, limit: nat)
    requires Live(p, h) && Ranked(p, h, preferDeals) && k < |p| && limit > 0
    requires Tops(p, h[p[k]].value, h, preferDeals)
    requires Ties(p, h[p[k]].value, h, preferDeals) <= limit
    ensures k < Kept(limit, |p|)
  {
    TiesArePrefix(p, h[p[k]].value, h, preferDeals);
  }

  /** With more ties than that, some ranking of the same list cuts it. */
  lemma WinnerCuttable(p: seq<Ref>, k: nat, l: seq<Ref>, h: Heap, preferDeals: bool, limit: nat) returns (p': seq<Ref>)
    requires IsRanking(p, l, h, preferDeals) && k < |p| && limit > 0
    requires Tops(p, h[p[k]].value, h, preferDeals)
    requires Ties(p, h[p[k]].value, h, preferDeals) > limit
    ensures IsRanking(p', l, h, preferDeals) && p[k] in p'[Kept(limit, |p'|)..]
  {
    var w := h[p[k]].value;
    var t := Ties(p, w, h, preferDeals) - 1;
    TiesArePrefix(p, w, h, preferDeals);
    p' := p[k := p[t]][t := p[k]];
    assert multiset(p') == multiset(p);
    forall i, j | 0 <= i < j < |p'|
      ensures !Outranks(h[p'[j]].value, h[p'[i]].value, preferDeals)
    {
      assert p'[i] == p[if i == t then k else if i == k then t else i];
      assert p'[j] == p[if j == t then k else if j == k then t else j];
    }
    assert p'[Kept(limit, |p'|)..][t - Kept(limit, |p'|)] == p[k];
  }

  lemma {:induction false} TiesRemove(q: seq<Ref>, j: nat, w: Bid, h: Heap, preferDeals: bool)
    requires Live(q, h) && j < |q|
    ensures Live(q[..j] + q[j + 1..], h)
    ensures Ties(q, w, h, preferDeals)
            == Ties(q[..j] + q[j + 1..], w, h, preferDeals) + if Tied(h[q[j]].value, w, preferDeals) then 1 else 0
  {
    hide Tied;
    var n, less := |q| - 1, q[..j] + q[j + 1..];
    if j == n {
      assert less == q[..n];
    } else {
      TiesRemove(q[..n], j, w, h, preferDeals);
      assert q[..n][..j] + q[..n][j + 1..] == less[..|less| - 1];
      assert less[|less| - 1] == q[n];
    }
  }

  lemma RemoveOne(p: seq<Ref>, q: seq<Ref>) returns (j: nat)
    requires multiset(p) == multiset(q) && p != []
    ensures j < |q| && q[j] == p[|p| - 1]
    ensures multiset(p[..|p| - 1]) == multiset(q[..j] + q[j + 1..])
  {
    var x := p[|p| - 1];
    assert p == p[..|p| - 1] + [x];
    SameMembers(p, q, x);
    j :| 0 <= j < |q| && q[j] == x;
    assert q == q[..j] + [x] + q[j + 1..];
    calc {
      multiset(p[..|p| - 1]) + multiset{x};
      multiset(p);
      multiset(q);
      multiset(q[..j] + q[j + 1..]) + multiset{x};
    }
    Cancel(multiset(p[..|p| - 1]), multiset(q[..j] + q[j + 1..]), x);
  }

  lemma Cancel(a: multiset<Ref>, b: multiset<Ref>, x: Ref)
    requires a + multiset{x} == b + multiset{x}
    ensures a == b
  {
    assert (a + multiset{x}) - multiset{x} == a;
    assert (b + multiset{x}) - multiset{x} == b;
  }

  lemma {:induction false} TiesPermute(p: seq<Ref>, q: seq<Ref>, w: Bid, h: Heap, preferDeals: bool)
    requires Live(p, h) && Live(q, h) && multiset(p) == multiset(q)
    ensures Ties(p, w, h, preferDeals) == Ties(q, w, h, preferDeals)
  {
    hide Tied;
    if p == [] {
      assert |multiset(q)| == |multiset(p)| == 0;
    } else {
      var j := RemoveOne(p, q);
      TiesRemove(q, j, w, h, preferDeals);
      TiesPermute(p[..|p| - 1], q[..j] + q[j + 1..], w, h, preferDeals);
    }
  }

  /**
   * A winner of its list is safe from the bid limit, whatever order the unstable sort picks, if and
   * only if no more than `limit` bids of the list tie with it.
   */
  lemma WinnerSafeExactly(p: seq<Ref>, l: seq<Ref>, w: Ref, h: Heap, preferDeals: bool, limit: nat)
    requires IsRanking(p, l, h, preferDeals) && NoDup(l) && w in l && Live(l, h) && limit > 0
    requires Tops(l, h[w].value, h, preferDeals)
    ensures (forall q :: IsRanking(q, l, h, preferDeals) ==> w in q[..Kept(limit, |q|)])
            <==> Ties(l, h[w].value, h, preferDeals) <= limit
  {
    hide Outranks;
    if Ties(l, h[w].value, h, preferDeals) <= limit {
      forall q | IsRanking(q, l, h, preferDeals)
        ensures w in q[..Kept(limit, |q|)]
      {
        TopsPermute(q, l, h[w].value, h, preferDeals);
        SameMembers(q, l, w);
        var k :| 0 <= k < |q| && q[k] == w;
        TiesPermute(q, l, h[w].value, h, preferDeals);
        WinnerKept(q, k, h, preferDeals, limit);
        assert q[..Kept(limit, |q|)][k] == w;
      }
    } else {
      TopsPermute(p, l, h[w].value, h, preferDeals);
      SameMembers(p, l, w);
      var k :| 0 <= k < |p| && p[k] == w;
      TiesPermute(p, l, h[w].value, h, preferDeals);
      var q := WinnerCuttable(p, k, l, h, preferDeals, limit);
      NoDupOnce(q, l, w, Kept(limit, |q|));
    }
  }

  lemma TopsPermute(q: seq<Ref>, l: seq<Ref>, w: Bid, h: Heap, preferDeals: bool)
    requires Live(q, h) && Live(l, h) && multiset(q) == multiset(l) && Tops(l, w, h, preferDeals)
    ensures Tops(q, w, h, preferDeals)
  {
    forall i | 0 <= i < |q|
      ensures !Outranks(h[q[i]].value, w, preferDeals)
    {
      SameMembers(q, l, q[i]);
    }
  }

  lemma {:induction false} NoDupMultiset(l: seq<Ref>, x: Ref)
    requires NoDup(l)
    ensures multiset(l)[x] <= 1
  {
    if l != [] {
      var front := l[..|l| - 1];
      assert l == front + [l[|l| - 1]];
      NoDupMultiset(front, x);
      assert x == l[|l| - 1] ==> x !in front;
    }
  }

  lemma NoDupOnce(q: seq<Ref>, l: seq<Ref>, w: Ref, k: nat)
    requires multiset(q) == multiset(l) && NoDup(l) && k <= |q| && w in q[k..]
    ensures w !in q[..k]
  {
    NoDupMultiset(l, w);
    assert q == q[..k] + q[k..];
    assert multiset(q)[w] == multiset(q[..k])[w] + multiset(q[k..])[w];
    assert w in multiset(q[k..]);
    assert w in q[..k] <==> w in multiset(q[..k]);
  }
}
