/** Bid adjustments: merging rule sets, filing them under string keys and looking them up by priority. */
module Adjustments {
  import opened Options

  datatype Adjustment = Adjustment(kind: string, value: real, currency: string)

  /** By deal; a nil slice is `None`. */
  type Deals = map<string, Option<seq<Adjustment>>>

  /** By bidder; a nil inner map is `None`. */
  type Bidders = map<string, Option<Deals>>

  datatype RuleSet = RuleSet(banner: Option<Bidders>, audio: Option<Bidders>, native: Option<Bidders>,
                             videoInstream: Option<Bidders>, videoOutstream: Option<Bidders>, wildCard: Option<Bidders>)

  const WILDCARD := "*"

  /** What a rule is filed under. */
  datatype Triple = Triple(media: string, bidder: string, deal: string)

  function MediaOf(rs: RuleSet, media: string): Option<Bidders> {
    if media == "banner" then rs.banner
    else if media == "audio" then rs.audio
    else if media == "native" then rs.native
    else if media == "video-instream" then rs.videoInstream
    else if media == "video-outstream" then rs.videoOutstream
    else if media == WILDCARD then rs.wildCard
    else None
  }

  function DealsOf(bs: Option<Bidders>, bidder: string): Deals {
    if bs.Some? && bidder in bs.value && bs.value[bidder].Some? then bs.value[bidder].value else map[]
  }

  function EntryIn(bs: Option<Bidders>, bidder: string, deal: string): Option<Option<seq<Adjustment>>> {
    var deals := DealsOf(bs, bidder);
    if deal in deals then Some(deals[deal]) else None
  }

  function Entry(rs: RuleSet, t: Triple): Option<Option<seq<Adjustment>>> {
    EntryIn(MediaOf(rs, t.media), t.bidder, t.deal)
  }

  /** The entry of a field under a bidder and a deal. */
  ghost predicate Holds(bs: Option<Bidders>, bidder: string, deal: string, adjs: Option<seq<Adjustment>>) {
    && bs.Some? && bidder in bs.value && bs.value[bidder].Some?
    && deal in bs.value[bidder].value && bs.value[bidder].value[deal] == adjs
  }

  /** Every rule is found under the media type of the field it was given in, and under no other. */
  lemma FiledByField(rs: RuleSet, t: Triple, adjs: Option<seq<Adjustment>>)
    ensures Entry(rs, t) == Some(adjs) <==>
            || (t.media == "banner" && Holds(rs.banner, t.bidder, t.deal, adjs))
            || (t.media == "audio" && Holds(rs.audio, t.bidder, t.deal, adjs))
            || (t.media == "native" && Holds(rs.native, t.bidder, t.deal, adjs))
            || (t.media == "video-instream" && Holds(rs.videoInstream, t.bidder, t.deal, adjs))
            || (t.media == "video-outstream" && Holds(rs.videoOutstream, t.bidder, t.deal, adjs))
            || (t.media == "*" && Holds(rs.wildCard, t.bidder, t.deal, adjs))
  {
  }

  // ---- merging

  /** The account's entries go into a request's inner map, so that map must exist. */
  predicate Mergeable(req: Option<Bidders>, acct: Option<Bidders>) {
    req.Some? && acct.Some? ==>
      forall b | b in req.value && b in acct.value :: req.value[b].Some? || DealsOf(acct, b) == map[]
  }

  ghost predicate MergedFrom(r: Option<Bidders>, req: Option<Bidders>, acct: Option<Bidders>) {
    && (forall b, d :: EntryIn(r, b, d) == if EntryIn(req, b, d).Some? then EntryIn(req, b, d) else EntryIn(acct, b, d))
    && (r.Some? ==> forall b :: b in r.value ==>
          && ((req.Some? && b in req.value) || (acct.Some? && b in acct.value))
          && (r.value[b].None? ==>
                (req.Some? && b in req.value && req.value[b].None?) || (acct.Some? && b in acct.value && acct.value[b].None?)))
  }

  method MergeDeals(req: Deals, acct: Deals) returns (r: Deals)
    ensures r == acct + req
  {
    r := req;
    var todo := acct.Keys;
    while todo != {}
      invariant todo <= acct.Keys
      invariant r == (map d | d in acct && d !in todo :: acct[d]) + req
      decreases |todo|
    {
      var d :| d in todo;
      todo := todo - {d};
      if d !in r {
        r := r[d := acct[d]];
      }
    }
  }

  /** What one bidder's entry becomes. */
  function MergedBidder(req: Bidders, acct: Bidders, b: string): Option<Deals>
    requires b in acct
  {
    if b !in req then acct[b]
    else if req[b].None? then None
    else if acct[b].None? then req[b]
    else Some(acct[b].value + req[b].value)
  }

  method MergeForMediaType(req: Option<Bidders>, acct: Option<Bidders>) returns (r: Option<Bidders>)
    requires Mergeable(req, acct)
    ensures MergedFrom(r, req, acct)
  {
    if req.Some? && acct.None? {
      return req;
    }
    if req.None? && acct.Some? {
      return acct;
    }
    if acct.None? {
      return req;
    }
    var merged := MergeBidders(req.value, acct.value);
    r := Some(merged);
    MergedMapFits(req.value, acct.value);
  }

  /** The loop of `mergeForMediaType`. */
  method MergeBidders(req: Bidders, acct: Bidders) returns (merged: Bidders)
    requires Mergeable(Some(req), Some(acct))
    ensures merged == MergedMap(req, acct, {})
  {
    merged := req;
    var todo := acct.Keys;
    NothingMerged(req, acct);
    while todo != {}
      invariant todo <= acct.Keys
      invariant merged == MergedMap(req, acct, todo)
      decreases |todo|
    {
      var b :| b in todo;
      MergedMapStep(req, acct, todo, b);
      todo := todo - {b};
      if b in merged {
        var mine, theirs := DealsOf(Some(merged), b), DealsOf(Some(acct), b);
        if theirs != map[] {
          mine := MergeDeals(mine, theirs);
          merged := merged[b := Some(mine)];
        }
      } else {
        merged := merged[b := acct[b]];
      }
    }
  }

  /** The request's bidders with the account's merged in, except those in `todo`. */
  ghost function MergedMap(req: Bidders, acct: Bidders, todo: set<string>): Bidders {
    req + map b | b in acct && b !in todo :: MergedBidder(req, acct, b)
  }

  lemma NothingMerged(req: Bidders, acct: Bidders)
    ensures MergedMap(req, acct, acct.Keys) == req
  {
  }

  lemma MergedMapStep(req: Bidders, acct: Bidders, todo: set<string>, b: string)
    requires b in todo && b in acct && Mergeable(Some(req), Some(acct))
    ensures var m := MergedMap(req, acct, todo);
            && (b in m <==> b in req) && (b in m ==> m[b] == req[b])
            && MergedMap(req, acct, todo - {b}) == m[b := MergedBidder(req, acct, b)]
            && (b in req && DealsOf(Some(acct), b) == map[] ==> MergedBidder(req, acct, b) == req[b])
  {
    var theirs := DealsOf(Some(acct), b);
    if b in req && req[b].Some? && theirs == map[] {
      assert theirs + req[b].value == req[b].value;
    }
  }

  lemma MergedMapFits(req: Bidders, acct: Bidders)
    requires Mergeable(Some(req), Some(acct))
    ensures MergedFrom(Some(MergedMap(req, acct, {})), Some(req), Some(acct))
  {
    var r := Some(MergedMap(req, acct, {}));
    forall b: string, d: string
      ensures EntryIn(r, b, d)
              == if EntryIn(Some(req), b, d).Some? then EntryIn(Some(req), b, d) else EntryIn(Some(acct), b, d)
    {
      MergedEntryIn(req, acct, b, d);
    }
  }

  lemma MergedEntryIn(req: Bidders, acct: Bidders, b: string, d: string)
    requires Mergeable(Some(req), Some(acct))
    ensures EntryIn(Some(MergedMap(req, acct, {})), b, d)
            == if EntryIn(Some(req), b, d).Some? then EntryIn(Some(req), b, d) else EntryIn(Some(acct), b, d)
  {
  }

  ghost predicate MergeableSets(req: RuleSet, acct: RuleSet) {
    && Mergeable(req.banner, acct.banner) && Mergeable(req.audio, acct.audio) && Mergeable(req.native, acct.native)
    && Mergeable(req.videoInstream, acct.videoInstream) && Mergeable(req.videoOutstream, acct.videoOutstream)
    && Mergeable(req.wildCard, acct.wildCard)
  }

  ghost predicate MergedSets(r: RuleSet, req: RuleSet, acct: RuleSet) {
    && MergedFrom(r.banner, req.banner, acct.banner) && MergedFrom(r.audio, req.audio, acct.audio)
    && MergedFrom(r.native, req.native, acct.native)
    && MergedFrom(r.videoInstream, req.videoInstream, acct.videoInstream)
    && MergedFrom(r.videoOutstream, req.videoOutstream, acct.videoOutstream)
    && MergedFrom(r.wildCard, req.wildCard, acct.wildCard)
  }

  /** `merge`: the request's rules, with the account's where the request has none. */
  method Merge(req: Option<RuleSet>, acct: Option<RuleSet>) returns (r: Option<RuleSet>)
    requires req.Some? && acct.Some? ==> MergeableSets(req.value, acct.value)
    ensures req.None? ==> r == acct
    ensures acct.None? ==> r == req
    ensures req.Some? && acct.Some? ==> r.Some? && MergedSets(r.value, req.value, acct.value)
  {
    hide MergedFrom, Mergeable;
    if req.None? {
      return acct;
    }
    if acct.None? {
      return req;
    }
    var banner := MergeForMediaType(req.value.banner, acct.value.banner);
    var native := MergeForMediaType(req.value.native, acct.value.native);
    var audio := MergeForMediaType(req.value.audio, acct.value.audio);
    var videoInstream := MergeForMediaType(req.value.videoInstream, acct.value.videoInstream);
    var videoOutstream := MergeForMediaType(req.value.videoOutstream, acct.value.videoOutstream);
    var wildCard := MergeForMediaType(req.value.wildCard, acct.value.wildCard);
    r := Some(RuleSet(banner, audio, native, videoInstream, videoOutstream, wildCard));
  }

  // ---- validation

  predicate ValidAdjustment(a: Adjustment) {
    if a.kind == "cpm" || a.kind == "static" then a.currency != "" && a.value >= 0.0
    else if a.kind == "multiplier" then 0.0 <= a.value < 100.0
    else false
  }

  /** A known kind with a value from 0; a price needs a currency, a multiplier stays below 100. */
  lemma ValidExactly(a: Adjustment)
    ensures ValidAdjustment(a) <==>
            && a.kind in {"cpm", "static", "multiplier"} && a.value >= 0.0
            && (a.kind != "multiplier" ==> a.currency != "") && (a.kind == "multiplier" ==> a.value < 100.0)
  {
  }

  predicate ValidSlice(adj: Option<seq<Adjustment>>) {
    adj.Some? && forall a | a in adj.value :: ValidAdjustment(a)
  }

  predicate ValidForMediaType(bs: Option<Bidders>) {
    bs.Some? ==>
      && (forall b | b in bs.value :: bs.value[b].Some?)
      && (forall b | b in bs.value :: forall d | d in DealsOf(bs, b) :: ValidSlice(DealsOf(bs, b)[d]))
  }

  predicate Validate(rs: RuleSet) {
    && ValidForMediaType(rs.banner) && ValidForMediaType(rs.audio) && ValidForMediaType(rs.videoInstream)
    && ValidForMediaType(rs.videoOutstream) && ValidForMediaType(rs.native) && ValidForMediaType(rs.wildCard)
  }

  lemma MergedValid(r: Option<Bidders>, req: Option<Bidders>, acct: Option<Bidders>)
    requires MergedFrom(r, req, acct) && ValidForMediaType(req) && ValidForMediaType(acct)
    ensures ValidForMediaType(r)
  {
    hide ValidSlice;
    if r.Some? {
      forall b, d | b in r.value && d in DealsOf(r, b)
        ensures ValidSlice(DealsOf(r, b)[d])
      {
        assert EntryIn(r, b, d) == Some(DealsOf(r, b)[d]);
        assert EntryIn(req, b, d).Some? ==> EntryIn(req, b, d).value == DealsOf(req, b)[d];
        assert EntryIn(acct, b, d).Some? ==> EntryIn(acct, b, d).value == DealsOf(acct, b)[d];
      }
    }
  }

  /** Merging two valid rule sets gives a valid one. */
  lemma MergeKeepsValid(r: RuleSet, req: RuleSet, acct: RuleSet)
    requires MergedSets(r, req, acct) && Validate(req) && Validate(acct)
    ensures Validate(r)
  {
    hide MergedFrom, ValidForMediaType;
    MergedValid(r.banner, req.banner, acct.banner);
    MergedValid(r.audio, req.audio, acct.audio);
    MergedValid(r.native, req.native, acct.native);
    MergedValid(r.videoInstream, req.videoInstream, acct.videoInstream);
    MergedValid(r.videoOutstream, req.videoOutstream, acct.videoOutstream);
    MergedValid(r.wildCard, req.wildCard, acct.wildCard);
  }

  /** `Merge`: a merged rule set that does not validate is dropped with a warning. */
  method MergeAndValidate(req: Option<RuleSet>, acct: Option<RuleSet>) returns (r: Option<RuleSet>, warned: bool)
    requires req.Some? && acct.Some? ==> MergeableSets(req.value, acct.value)
    ensures r.Some? ==> Validate(r.value)
    ensures warned ==> r.None? && ((req.Some? && !Validate(req.value)) || (acct.Some? && !Validate(acct.value)))
    ensures !warned && req.Some? && acct.Some? ==> r.Some? && MergedSets(r.value, req.value, acct.value)
    ensures !warned && (req.None? || acct.None?) ==> r == if req.None? then acct else req
  {
    hide MergedSets, Validate;
    r := Merge(req, acct);
    warned := r.Some? && !Validate(r.value);
    if warned {
      if req.Some? && acct.Some? && Validate(req.value) && Validate(acct.value) {
        MergeKeepsValid(r.value, req.value, acct.value);
      }
      r := None;
    }
  }

  // ---- string keys

  type Rules = map<string, Option<seq<Adjustment>>>

  function Key(t: Triple): string {
    t.media + "|" + t.bidder + "|" + t.deal
  }

  predicate DelimiterFree(s: string) {
    forall i :: 0 <= i < |s| ==> s[i] != '|'
  }

  lemma SplitUnique(a: string, b: string, a': string, b': string)
    requires DelimiterFree(a) && DelimiterFree(a') && a + "|" + b == a' + "|" + b'
    ensures a == a' && b == b'
  {
    var s, s' := a + "|" + b, a' + "|" + b';
    assert s[|a|] == '|' && s'[|a'|] == '|';
    assert forall i :: 0 <= i < |a| ==> s[i] == a[i];
    assert forall i :: 0 <= i < |a'| ==> s'[i] == a'[i];
    assert |a| == |a'|;
    assert s[..|a|] == a && s'[..|a|] == a';
    assert s[|a| + 1..] == b && s'[|a| + 1..] == b';
  }

  /** Deal ids may contain the delimiter; media types and bidder names may not. */
  lemma KeyInjective(t: Triple, u: Triple)
    requires Key(t) == Key(u)
    requires DelimiterFree(t.media) && DelimiterFree(u.media) && DelimiterFree(t.bidder) && DelimiterFree(u.bidder)
    ensures t == u
  {
    assert Key(t) == t.media + "|" + (t.bidder + "|" + t.deal);
    assert Key(u) == u.media + "|" + (u.bidder + "|" + u.deal);
    SplitUnique(t.media, t.bidder + "|" + t.deal, u.media, u.bidder + "|" + u.deal);
    SplitUnique(t.bidder, t.deal, u.bidder, u.deal);
  }

  /** Without that restriction two rules can share a key, and map order decides which one is kept. */
  lemma DelimitedNamesCollide(deal: string)
    ensures Key(Triple("banner", "a|b", deal)) == Key(Triple("banner", "a", "b|" + deal))
    ensures Triple("banner", "a|b", deal) != Triple("banner", "a", "b|" + deal)
  {
    assert "banner" + "|" + "a|b" + "|" + deal == "banner" + "|" + "a" + "|" + ("b|" + deal);
  }

  // ---- building the rules

  /** `rules` holds the entries of `done` and nothing else. */
  ghost predicate Covers(rules: Rules, done: set<Triple>, rs: RuleSet) {
    && (forall t :: t in done ==> Entry(rs, t).Some? && Key(t) in rules)
    && (forall k :: k in rules ==> exists t :: t in done && Key(t) == k && Entry(rs, t) == Some(rules[k]))
  }

  lemma CoversAdd(rules: Rules, done: set<Triple>, rs: RuleSet, t: Triple)
    requires Covers(rules, done, rs) && Entry(rs, t).Some?
    ensures Covers(rules[Key(t) := Entry(rs, t).value], done + {t}, rs)
  {
    hide Key, Entry;
    var rules' := rules[Key(t) := Entry(rs, t).value];
    forall k | k in rules'
      ensures exists u :: u in done + {t} && Key(u) == k && Entry(rs, u) == Some(rules'[k])
    {
      if k == Key(t) {
        assert t in done + {t};
      } else {
        var u :| u in done && Key(u) == k && Entry(rs, u) == Some(rules[k]);
        assert u in done + {t};
      }
    }
  }

  method BuildRulesForMediaType(media: string, rs: RuleSet, rules: Rules, ghost done: set<Triple>)
    returns (rules': Rules, ghost done': set<Triple>)
    requires Covers(rules, done, rs)
    ensures Covers(rules', done', rs) && done <= done'
    ensures forall t :: Entry(rs, t).Some? && t.media == media ==> t in done'
  {
    hide Key, Covers;
    rules', done' := rules, done;
    var bs := MediaOf(rs, media);
    var bidders := if bs.Some? then bs.value.Keys else {};
    while bidders != {}
      invariant Covers(rules', done', rs) && done <= done'
      invariant bs.Some? ==> bidders <= bs.value.Keys
      invariant bs.None? ==> bidders == {}
      invariant forall t :: Entry(rs, t).Some? && t.media == media && t.bidder !in bidders ==> t in done'
      decreases |bidders|
    {
      var b :| b in bidders;
      bidders := bidders - {b};
      var entries := DealsOf(bs, b);
      var deals := entries.Keys;
      while deals != {}
        invariant Covers(rules', done', rs) && done <= done'
        invariant deals <= entries.Keys
        invariant forall t :: (Entry(rs, t).Some? && t.media == media && t.bidder !in bidders
                               && (t.bidder == b ==> t.deal !in deals)) ==> t in done'
        decreases |deals|
      {
        var d :| d in deals;
        deals := deals - {d};
        var t := Triple(media, b, d);
        CoversAdd(rules', done', rs, t);
        rules', done' := rules'[Key(t) := entries[d]], done' + {t};
      }
    }
  }

  /** The rules hold every entry of the rule set under its key, and nothing else. */
  ghost predicate Built(rules: Rules, rs: RuleSet) {
    && (forall t :: Entry(rs, t).Some? ==> Key(t) in rules)
    && (forall k :: k in rules ==> exists t :: Key(t) == k && Entry(rs, t) == Some(rules[k]))
  }

  method BuildRules(rs: RuleSet) returns (rules: Rules)
    ensures Built(rules, rs)
  {
    hide Covers, Built;
    ghost var all: set<Triple>;
    rules, all := map[], {};
    CoversNothing(rs);
    rules, all := BuildRulesForMediaType("banner", rs, rules, all);
    rules, all := BuildRulesForMediaType("audio", rs, rules, all);
    rules, all := BuildRulesForMediaType("native", rs, rules, all);
    rules, all := BuildRulesForMediaType("video-instream", rs, rules, all);
    rules, all := BuildRulesForMediaType("video-outstream", rs, rules, all);
    rules, all := BuildRulesForMediaType(WILDCARD, rs, rules, all);
    CoversAll(rules, all, rs);
  }

  lemma CoversAll(rules: Rules, all: set<Triple>, rs: RuleSet)
    requires Covers(rules, all, rs) && forall t :: Entry(rs, t).Some? ==> t in all
    ensures Built(rules, rs)
  {
    hide Key, Entry;
    forall k | k in rules
      ensures exists t :: Key(t) == k && Entry(rs, t) == Some(rules[k])
    {
      var t :| t in all && Key(t) == k && Entry(rs, t) == Some(rules[k]);
    }
  }

  lemma CoversNothing(rs: RuleSet)
    ensures Covers(map[], {}, rs)
  {
  }

  // ---- looking up

  /** The patterns that may apply to a bid, most specific first. */
  function Patterns(bidType: string, bidder: string, deal: string): seq<Triple> {
    if deal != "" then
      [Triple(bidType, bidder, deal), Triple(bidType, bidder, WILDCARD), Triple(bidType, WILDCARD, deal),
       Triple(WILDCARD, bidder, deal), Triple(bidType, WILDCARD, WILDCARD), Triple(WILDCARD, bidder, WILDCARD),
       Triple(WILDCARD, WILDCARD, deal), Triple(WILDCARD, WILDCARD, WILDCARD)]
    else
      [Triple(bidType, bidder, WILDCARD), Triple(bidType, WILDCARD, WILDCARD),
       Triple(WILDCARD, bidder, WILDCARD), Triple(WILDCARD, WILDCARD, WILDCARD)]
  }

  predicate Matches(t: Triple, bidType: string, bidder: string, deal: string) {
    && (t.media == bidType || t.media == WILDCARD)
    && (t.bidder == bidder || t.bidder == WILDCARD)
    && ((t.deal == deal && deal != "") || t.deal == WILDCARD)
  }

  /** Fewer wildcards first; among as many, a named media type counts before a named bidder, and that before a named deal. */
  function Rank(t: Triple): nat {
    var m, b, d := if t.media == WILDCARD then 1 else 0, if t.bidder == WILDCARD then 1 else 0, if t.deal == WILDCARD then 1 else 0;
    8 * (m + b + d) + 4 * m + 2 * b + d
  }

  /** The ranks of the patterns. */
  function Ranks(deal: string): seq<nat> {
    if deal != "" then [0, 9, 10, 12, 19, 21, 22, 31] else [9, 19, 21, 31]
  }

  lemma PatternAt(bidType: string, bidder: string, deal: string, i: nat)
    requires bidType != WILDCARD && bidder != WILDCARD && deal != WILDCARD
    requires i < |Patterns(bidType, bidder, deal)|
    ensures var t := Patterns(bidType, bidder, deal)[i];
            Matches(t, bidType, bidder, deal) && Rank(t) == Ranks(deal)[i]
  {
  }

  lemma PatternFor(bidType: string, bidder: string, deal: string, t: Triple) returns (i: nat)
    requires Matches(t, bidType, bidder, deal)
    ensures i < |Patterns(bidType, bidder, deal)| && Patterns(bidType, bidder, deal)[i] == t
  {
    if deal != "" {
      i := if t.media != WILDCARD then
             if t.bidder != WILDCARD then if t.deal != WILDCARD then 0 else 1 else if t.deal != WILDCARD then 2 else 4
           else
             if t.bidder != WILDCARD then if t.deal != WILDCARD then 3 else 5 else if t.deal != WILDCARD then 6 else 7;
    } else {
      i := if t.media != WILDCARD then if t.bidder != WILDCARD then 0 else 1
           else if t.bidder != WILDCARD then 2 else 3;
    }
  }

  /** The patterns are exactly the rules that match the bid, in strictly ascending rank. */
  lemma PatternsByRank(bidType: string, bidder: string, deal: string)
    requires bidType != WILDCARD && bidder != WILDCARD && deal != WILDCARD
    ensures var ts := Patterns(bidType, bidder, deal);
            && (forall t :: t in ts <==> Matches(t, bidType, bidder, deal))
            && (forall i, j :: 0 <= i < j < |ts| ==> Rank(ts[i]) < Rank(ts[j]))
  {
    hide Matches, Rank;
    var ts := Patterns(bidType, bidder, deal);
    forall i | 0 <= i < |ts|
      ensures Matches(ts[i], bidType, bidder, deal) && Rank(ts[i]) == Ranks(deal)[i]
    {
      PatternAt(bidType, bidder, deal, i);
    }
    forall t | Matches(t, bidType, bidder, deal)
      ensures t in ts
    {
      var i := PatternFor(bidType, bidder, deal, t);
      assert ts[i] in ts;
    }
  }

  /** The first pattern that has an entry. */
  function FirstEntry(rs: RuleSet, ts: seq<Triple>): Option<Option<seq<Adjustment>>> {
    if ts == [] then None else if Entry(rs, ts[0]).Some? then Entry(rs, ts[0]) else FirstEntry(rs, ts[1..])
  }

  function FirstKey(rules: Rules, ts: seq<Triple>): Option<Option<seq<Adjustment>>> {
    if ts == [] then None else if Key(ts[0]) in rules then Some(rules[Key(ts[0])]) else FirstKey(rules, ts[1..])
  }

  function Keys(ts: seq<Triple>): (r: seq<string>)
    ensures |r| == |ts|
    ensures forall i :: 0 <= i < |ts| ==> r[i] == Key(ts[i])
  {
    seq(|ts|, i requires 0 <= i < |ts| => Key(ts[i]))
  }

  /** `get`: scans eight slots, of which a bid without a deal leaves the last four empty. */
  method GetRule(rules: Rules, bidType: string, bidder: string, deal: string) returns (r: Option<Option<seq<Adjustment>>>)
    ensures var found := FirstKey(rules, Patterns(bidType, bidder, deal));
            r == if found.Some? then found else if deal == "" && "" in rules then Some(rules[""]) else None
  {
    hide Key;
    var ts := Patterns(bidType, bidder, deal);
    var slots := Keys(ts);
    if deal == "" {
      slots := slots + ["", "", "", ""];
    }
    for i := 0 to 8
      invariant |slots| == 8 && |ts| == if deal == "" then 4 else 8
      invariant forall j :: 0 <= j < |ts| ==> slots[j] == Key(ts[j])
      invariant forall j :: |ts| <= j < 8 ==> slots[j] == ""
      invariant FirstKey(rules, ts) == FirstKey(rules, if i <= |ts| then ts[i..] else [])
      invariant i > |ts| ==> "" !in rules
    {
      if slots[i] in rules {
        return Some(rules[slots[i]]);
      }
      assert i < |ts| ==> ts[i..][1..] == ts[i + 1..];
    }
    return None;
  }

  /** No built key is empty, so unused slots never match. */
  lemma EmptySlotNeverMatches(rules: Rules, rs: RuleSet)
    requires Built(rules, rs)
    ensures "" !in rules
  {
  }

  ghost predicate CleanNames(rs: RuleSet) {
    forall t :: Entry(rs, t).Some? ==> DelimiterFree(t.bidder)
  }

  /** Through the keys a pattern finds its own entry and no other. */
  lemma KeyFindsEntry(rules: Rules, rs: RuleSet, t: Triple)
    requires Built(rules, rs) && CleanNames(rs)
    requires DelimiterFree(t.media) && DelimiterFree(t.bidder)
    ensures Entry(rs, t) == if Key(t) in rules then Some(rules[Key(t)]) else None
  {
    hide Key, DelimiterFree;
    if Key(t) in rules {
      var u :| Key(u) == Key(t) && Entry(rs, u) == Some(rules[Key(t)]);
      MediaDelimiterFree(rs, u);
      KeyInjective(t, u);
    }
  }

  lemma MediaDelimiterFree(rs: RuleSet, t: Triple)
    requires Entry(rs, t).Some?
    ensures DelimiterFree(t.media)
  {
  }

  lemma {:induction false} LookupsAgree(rules: Rules, rs: RuleSet, ts: seq<Triple>)
    requires Built(rules, rs) && CleanNames(rs)
    requires forall i :: 0 <= i < |ts| ==> DelimiterFree(ts[i].media) && DelimiterFree(ts[i].bidder)
    ensures FirstKey(rules, ts) == FirstEntry(rs, ts)
  {
    hide Key, DelimiterFree, Built;
    if ts != [] {
      KeyFindsEntry(rules, rs, ts[0]);
      LookupsAgree(rules, rs, ts[1..]);
    }
  }

  /** The lookup without strings: the request's entry, else the account's, most specific pattern first. */
  function Structured(req: RuleSet, acct: RuleSet, ts: seq<Triple>): Option<Option<seq<Adjustment>>> {
    if ts == [] then None
    else if Entry(req, ts[0]).Some? then Entry(req, ts[0])
    else if Entry(acct, ts[0]).Some? then Entry(acct, ts[0])
    else Structured(req, acct, ts[1..])
  }

  lemma MergedEntry(r: RuleSet, req: RuleSet, acct: RuleSet, t: Triple)
    requires MergedSets(r, req, acct)
    ensures Entry(r, t) == if Entry(req, t).Some? then Entry(req, t) else Entry(acct, t)
  {
    hide EntryIn;
  }

  lemma {:induction false} StructuredIsFirst(r: RuleSet, req: RuleSet, acct: RuleSet, ts: seq<Triple>)
    requires MergedSets(r, req, acct)
    ensures FirstEntry(r, ts) == Structured(req, acct, ts)
  {
    hide Entry, MergedSets;
    if ts != [] {
      MergedEntry(r, req, acct, ts[0]);
      StructuredIsFirst(r, req, acct, ts[1..]);
    }
  }

  /** Merge, build, look up: the strings in between change nothing. */
  method Adjust(req: RuleSet, acct: RuleSet, bidType: string, bidder: string, deal: string)
    returns (r: Option<Option<seq<Adjustment>>>)
    requires MergeableSets(req, acct) && CleanNames(req) && CleanNames(acct)
    requires DelimiterFree(bidType) && DelimiterFree(bidder)
    ensures r == Structured(req, acct, Patterns(bidType, bidder, deal))
  {
    hide MergedSets, Built, Entry, DelimiterFree;
    var merged := Merge(Some(req), Some(acct));
    forall t | Entry(merged.value, t).Some?
      ensures DelimiterFree(t.bidder)
    {
      MergedEntry(merged.value, req, acct, t);
    }
    var rules := BuildRules(merged.value);
    EmptySlotNeverMatches(rules, merged.value);
    r := GetRule(rules, bidType, bidder, deal);
    WildcardDelimiterFree();
    LookupsAgree(rules, merged.value, Patterns(bidType, bidder, deal));
    StructuredIsFirst(merged.value, req, acct, Patterns(bidType, bidder, deal));
  }

  lemma WildcardDelimiterFree()
    ensures DelimiterFree(WILDCARD)
  {
  }
}
