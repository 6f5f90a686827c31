/** Choosing the winning bid of a response and deciding who fires its win and billing notices. */
module Notices {
  import opened Options
  import opened Text
  import opened VastInjection

  // ---- markup

  predicate IsEmptyAdM(adm: string) {
    var trim := TrimSpace(adm);
    || trim == "" || trim == "0"
    || EqualFold(trim, "null") || EqualFold(trim, "none") || EqualFold(trim, "empty")
    || EqualFold(trim, "n/a") || EqualFold(trim, "na")
  }

  function NormalizeAdM(adm: string): string {
    if IsEmptyAdM(adm) then "" else adm
  }

  datatype Creative = IsVast | IsUri | IsMedia | IsEmpty

  function ClassifyAdM(adm: string): Creative {
    if IsEmptyAdM(adm) then IsEmpty
    else if IndexFold(if |adm| > 512 then adm[..512] else adm, "<vast") != -1 then IsVast
    else if "http" <= TrimSpace(adm) then IsUri
    else IsMedia
  }

  // ---- markup, read off the text

  /** Words that stand for no markup, in any case. */
  const PLACEHOLDERS := {"", "0", "null", "none", "empty", "n/a", "na"}

  /** The text is `word` between blanks. */
  ghost predicate Between(adm: string, l: string, word: string, r: string) {
    Blank(l) && Blank(r) && adm == l + word + r
  }

  lemma TrimParts(s: string)
    ensures exists l, r :: Between(s, l, TrimSpace(s), r)
  {
    hide TrimSpace, TrimLeft, TrimRight, Blank;
    var t := TrimLeft(s);
    var w := TrimRight(t);
    var l, r := s[..|s| - |t|], t[|w|..];
    LeftBlank(s);
    RightBlank(t);
    TrimSpaceIs(s);
    ThreeParts(s, t, w);
    assert Between(s, l, w, r);
  }

  lemma ThreeParts(s: string, t: string, w: string)
    requires |t| <= |s| && t == s[|s| - |t|..] && |w| <= |t| && w == t[..|w|]
    ensures s == s[..|s| - |t|] + w + t[|w|..]
  {
    assert t == w + t[|w|..];
    assert s == s[..|s| - |t|] + t;
  }

  lemma {:induction false} LeftBlank(s: string)
    ensures Blank(s[..|s| - |TrimLeft(s)|])
  {
    if s != "" && IsSpace(s[0]) {
      LeftBlank(s[1..]);
      var rest := s[1..];
      assert s[..|s| - |TrimLeft(s)|] == [s[0]] + rest[..|rest| - |TrimLeft(rest)|];
    }
  }

  lemma {:induction false} RightBlank(s: string)
    ensures Blank(s[|TrimRight(s)|..])
  {
    if s != "" && IsSpace(s[|s| - 1]) {
      var front := s[..|s| - 1];
      RightBlank(front);
      assert s[|TrimRight(s)|..] == front[|TrimRight(front)|..] + [s[|s| - 1]];
    }
  }

  lemma {:induction false} BlankTrims(l: string, x: string)
    requires Blank(l) && (x == "" || !IsSpace(x[0]))
    ensures TrimLeft(l + x) == x
  {
    if l == "" {
      assert l + x == x;
    } else {
      assert (l + x)[1..] == l[1..] + x;
      BlankTrims(l[1..], x);
    }
  }

  lemma {:induction false} TrimsBlank(x: string, r: string)
    requires Blank(r) && (x == "" || !IsSpace(x[|x| - 1]))
    ensures TrimRight(x + r) == x
  {
    if r == "" {
      assert x + r == x;
    } else {
      assert (x + r)[..|x + r| - 1] == x + r[..|r| - 1];
      TrimsBlank(x, r[..|r| - 1]);
    }
  }

  /** Text between blanks trims to itself. */
  lemma TrimBetween(l: string, w: string, r: string)
    requires Blank(l) && Blank(r) && w != "" && !IsSpace(w[0]) && !IsSpace(w[|w| - 1])
    ensures TrimSpace(l + w + r) == w
  {
    hide Contains, TrimLeft, TrimRight, IsSpace;
    assert l + w + r == l + (w + r);
    assert (w + r)[0] == w[0];
    BlankTrims(l, w + r);
    TrimsBlank(w, r);
  }

  /** Markup counts as absent if and only if it is a placeholder between blanks. */
  lemma EmptyMarkupExactly(adm: string)
    ensures NormalizeAdM(adm) == "" <==> exists l, w, r :: Between(adm, l, w, r) && Lower(w) in PLACEHOLDERS
    ensures NormalizeAdM(adm) == "" || NormalizeAdM(adm) == adm
  {
    hide TrimSpace, Blank;
    var t := TrimSpace(adm);
    TrimParts(adm);
    var l0, r0 :| Between(adm, l0, t, r0);
    LowerZero(t);
    if exists l, w, r :: Between(adm, l, w, r) && Lower(w) in PLACEHOLDERS {
      var l, w, r :| Between(adm, l, w, r) && Lower(w) in PLACEHOLDERS;
      PlaceholderTrims(adm, l, w, r);
    }
  }

  lemma LowerZero(t: string)
    ensures t == "0" <==> Lower(t) == "0"
    ensures t == "" <==> Lower(t) == ""
  {
    if Lower(t) == "0" {
      assert Lower(t)[0] == LowerChar(t[0]);
    }
    assert Lower("0") == "0";
  }

  lemma PlaceholderTrims(adm: string, l: string, w: string, r: string)
    requires Between(adm, l, w, r) && Lower(w) in PLACEHOLDERS
    ensures Lower(TrimSpace(adm)) in PLACEHOLDERS
  {
    if w == "" {
      BothBlank(l, r);
      assert adm == l + r;
      TrimSpaceBlank(adm);
    } else {
      assert |w| == |Lower(w)|;
      assert Lower(w)[0] == LowerChar(w[0]) && Lower(w)[|w| - 1] == LowerChar(w[|w| - 1]);
      TrimBetween(l, w, r);
    }
  }

  lemma BothBlank(l: string, r: string)
    requires Blank(l) && Blank(r)
    ensures Blank(l + r)
  {
  }

  ghost predicate VastAt(adm: string, i: int) {
    0 <= i && i + 5 <= |adm| && i + 5 <= 512 && Lower(adm[i..i + 5]) == "<vast"
  }

  /** A VAST root opens within the first 512 characters. */
  ghost predicate OpensVast(adm: string) {
    exists i :: VastAt(adm, i)
  }

  ghost predicate HttpAt(adm: string, n: int) {
    0 <= n <= |adm| - 4 && Blank(adm[..n]) && adm[n..n + 4] == "http"
  }

  /** The text begins with http behind its blanks. */
  ghost predicate StartsHttp(adm: string) {
    exists n :: HttpAt(adm, n)
  }

  lemma OpensVastExactly(adm: string)
    ensures OpensVast(adm) <==> IndexFold(if |adm| > 512 then adm[..512] else adm, "<vast") != -1
  {
    hide IndexFold;
    var probe := if |adm| > 512 then adm[..512] else adm;
    if OpensVast(adm) {
      var i :| VastAt(adm, i);
      assert probe[i..i + 5] == adm[i..i + 5];
      assert Lower(probe)[i..i + 5] == Lower(probe[i..i + 5]);
      assert At(Lower(probe), "<vast", i);
    }
    if Contains(Lower(probe), "<vast") {
      var i :| 0 <= i <= |probe| && At(Lower(probe), "<vast", i);
      assert probe[i..i + 5] == adm[i..i + 5];
      assert Lower(probe)[i..i + 5] == Lower(probe[i..i + 5]);
      assert VastAt(adm, i);
    }
  }

  lemma StartsHttpExactly(adm: string)
    ensures StartsHttp(adm) <==> "http" <= TrimSpace(adm)
  {
    hide HttpAt, TrimSpace;
    if StartsHttp(adm) {
      var n :| HttpAt(adm, n);
      HttpTrims(adm, n);
    }
    if "http" <= TrimSpace(adm) {
      TrimParts(adm);
      var l, r :| Between(adm, l, TrimSpace(adm), r);
      HttpBehind(adm, l, TrimSpace(adm), r);
    }
  }

  lemma HttpTrims(adm: string, n: int)
    requires HttpAt(adm, n)
    ensures "http" <= TrimSpace(adm)
  {
    hide TrimLeft, TrimSpace, Blank;
    var x := adm[n..];
    assert adm == adm[..n] + x && x[..4] == "http" && x[0] == 'h';
    BlankTrims(adm[..n], x);
    TrimmedHttp(adm, x);
  }

  lemma HttpBehind(adm: string, l: string, t: string, r: string)
    requires Between(adm, l, t, r) && "http" <= t
    ensures HttpAt(adm, |l|)
  {
    hide Blank;
    assert adm[..|l|] == l && adm[|l|..|l| + 4] == t[..4];
  }

  /** Trimming on the right leaves what does not end in a blank. */
  lemma TrimmedHttp(adm: string, x: string)
    requires TrimLeft(adm) == x && "http" <= x
    ensures "http" <= TrimSpace(adm)
  {
    hide Contains, TrimLeft;
    assert x == "http" + x[4..];
    KeepsHttp("http", x[4..]);
  }

  lemma {:induction false} KeepsHttp(h: string, y: string)
    requires h != "" && !IsSpace(h[|h| - 1])
    ensures h <= TrimRight(h + y)
  {
    if y == "" {
      assert h + y == h;
    } else {
      assert (h + y)[..|h + y| - 1] == h + y[..|y| - 1];
      KeepsHttp(h, y[..|y| - 1]);
    }
  }

  /** What markup is taken for, read off its text. */
  lemma ClassifyExactly(adm: string)
    ensures ClassifyAdM(adm) == if NormalizeAdM(adm) == "" then IsEmpty
                                else if OpensVast(adm) then IsVast
                                else if StartsHttp(adm) then IsUri
                                else IsMedia
  {
    hide IndexFold, TrimSpace, OpensVast, StartsHttp;
    OpensVastExactly(adm);
    StartsHttpExactly(adm);
    NotEmptyNotBlank(adm);
  }

  lemma NotEmptyNotBlank(adm: string)
    ensures NormalizeAdM(adm) == "" <==> IsEmptyAdM(adm)
  {
    hide Contains;
    if adm == "" {
      assert TrimSpace(adm) == "";
    }
  }

  // ---- the winning bid of a response

  datatype Bid = Bid(id: string, adm: string, nurl: string, burl: string, price: real)

  datatype SeatBid = SeatBid(seat: string, bids: seq<Bid>)

  datatype Config = Config(floorCPM: real, demandFloorCPM: real, hasDemandUrl: bool, seatWeights: map<string, real>)

  function MinPrice(cfg: Config): real {
    if cfg.demandFloorCPM > 0.0 && cfg.hasDemandUrl then cfg.demandFloorCPM else cfg.floorCPM
  }

  function Weight(cfg: Config, seat: string): real {
    if seat in cfg.seatWeights then cfg.seatWeights[seat] else 1.0
  }

  /** A bid and where it stands in the response. */
  datatype Candidate = Candidate(si: nat, bi: nat, seat: string, bid: Bid)

  predicate Eligible(c: Candidate, cfg: Config) {
    && !(NormalizeAdM(c.bid.adm) == "" && c.bid.nurl == "")
    && !(MinPrice(cfg) > 0.0 && c.bid.price < MinPrice(cfg))
  }

  /** The floor that applies: the demand's own where there is a demand URL and it is set, else the source's. */
  ghost predicate FloorIs(cfg: Config, floor: real) {
    && (cfg.hasDemandUrl && cfg.demandFloorCPM > 0.0 ==> floor == cfg.demandFloorCPM)
    && (!cfg.hasDemandUrl || cfg.demandFloorCPM <= 0.0 ==> floor == cfg.floorCPM)
  }

  /** A bid takes part if and only if it has markup or a win URL and does not fall short of a positive floor. */
  lemma EligibleExactly(c: Candidate, cfg: Config, floor: real)
    requires FloorIs(cfg, floor)
    ensures Eligible(c, cfg) <==>
            && (c.bid.nurl != "" || !exists l, w, r :: Between(c.bid.adm, l, w, r) && Lower(w) in PLACEHOLDERS)
            && (floor <= 0.0 || c.bid.price >= floor)
  {
    hide NormalizeAdM;
    EmptyMarkupExactly(c.bid.adm);
  }

  /** The winner has the highest price of the bids that take part, among those the highest seat weight, and is the first such. */
  lemma WinnerExactly(cs: seq<Candidate>, cfg: Config, w: int, i: int)
    requires Wins(cs, cfg, w) && 0 <= i < |cs| && Eligible(cs[i], cfg)
    ensures cs[w].bid.price >= cs[i].bid.price
    ensures cs[w].bid.price == cs[i].bid.price ==> SeatWeight(cfg, cs[w].seat) >= SeatWeight(cfg, cs[i].seat)
    ensures cs[w].bid.price == cs[i].bid.price && SeatWeight(cfg, cs[w].seat) == SeatWeight(cfg, cs[i].seat) ==> w <= i
  {
    hide Eligible;
  }

  /** The configured weight of a seat, 1 without one. */
  ghost function SeatWeight(cfg: Config, seat: string): (r: real)
    ensures seat in cfg.seatWeights ==> r == cfg.seatWeights[seat]
    ensures seat !in cfg.seatWeights ==> r == 1.0
  {
    Weight(cfg, seat)
  }

  predicate BidBetter(price: real, weight: real, pos: int, bestPrice: real, bestWeight: real, bestPos: int) {
    if price != bestPrice then price > bestPrice
    else if weight != bestWeight then weight > bestWeight
    else pos < bestPos
  }

  /** Higher price, or equal price and higher seat weight. */
  predicate Outbids(x: Candidate, y: Candidate, cfg: Config) {
    x.bid.price > y.bid.price || (x.bid.price == y.bid.price && Weight(cfg, x.seat) > Weight(cfg, y.seat))
  }

  function SeatCandidates(seats: seq<SeatBid>, si: nat, n: nat): (r: seq<Candidate>)
    requires si < |seats| && n <= |seats[si].bids|
    ensures |r| == n
    ensures forall i :: 0 <= i < n ==> r[i] == Candidate(si, i, seats[si].seat, seats[si].bids[i])
  {
    seq(n, i requires 0 <= i < n => Candidate(si, i, seats[si].seat, seats[si].bids[i]))
  }

  /** The bids of the first `n` seats in response order. */
  function Candidates(seats: seq<SeatBid>, n: nat): (r: seq<Candidate>)
    requires n <= |seats|
    ensures forall i :: 0 <= i < |r| ==>
              && r[i].si < n && r[i].bi < |seats[r[i].si].bids|
              && seats[r[i].si].seat == r[i].seat && seats[r[i].si].bids[r[i].bi] == r[i].bid
  {
    if n == 0 then [] else Candidates(seats, n - 1) + SeatCandidates(seats, n - 1, |seats[n - 1].bids|)
  }

  /** Every bid of the response is a candidate, and the candidates are in the order of the response. */
  lemma {:induction false} CandidatesInOrder(seats: seq<SeatBid>, n: nat, si: nat, bi: nat)
    requires n <= |seats|
    ensures forall i, j :: 0 <= i < j < |Candidates(seats, n)| ==>
              var x, y := Candidates(seats, n)[i], Candidates(seats, n)[j];
              x.si < y.si || (x.si == y.si && x.bi < y.bi)
    ensures si < n && bi < |seats[si].bids| ==> Candidate(si, bi, seats[si].seat, seats[si].bids[bi]) in Candidates(seats, n)
  {
    if n > 0 {
      CandidatesInOrder(seats, n - 1, si, bi);
      var front, mine := Candidates(seats, n - 1), SeatCandidates(seats, n - 1, |seats[n - 1].bids|);
      if si == n - 1 && bi < |seats[si].bids| {
        assert mine[bi] in front + mine;
      }
    }
  }

  /** `w` is eligible, nothing eligible outbids it, and it outbids everything eligible before it. */
  ghost predicate Wins(cs: seq<Candidate>, cfg: Config, w: int) {
    && 0 <= w < |cs| && Eligible(cs[w], cfg)
    && (forall i :: 0 <= i < |cs| && Eligible(cs[i], cfg) ==> !Outbids(cs[i], cs[w], cfg))
    && (forall i :: 0 <= i < w && Eligible(cs[i], cfg) ==> Outbids(cs[w], cs[i], cfg))
  }

  /** The state of the selection loop after the candidates `cs`. */
  ghost predicate Selected(cs: seq<Candidate>, cfg: Config, best: Option<Candidate>, bestPos: int) {
    if best.None? then forall i :: 0 <= i < |cs| ==> !Eligible(cs[i], cfg)
    else Wins(cs, cfg, bestPos - 1) && cs[bestPos - 1] == best.value
  }

  lemma SelectedStep(cs: seq<Candidate>, c: Candidate, cfg: Config, best: Option<Candidate>, bestPos: int)
    requires Selected(cs, cfg, best, bestPos)
    ensures var pos := |cs| + 1;
            var take := Eligible(c, cfg) &&
                        (best.None? || BidBetter(c.bid.price, Weight(cfg, c.seat), pos,
                                                 best.value.bid.price, Weight(cfg, best.value.seat), bestPos));
            Selected(cs + [c], cfg, if take then Some(c) else best, if take then pos else bestPos)
  {
    hide Eligible, Weight;
    var cs' := cs + [c];
    assert forall i :: 0 <= i < |cs| ==> cs'[i] == cs[i];
  }

  /** `extractWinningBid`: the earliest of the best bids; `None` is its no-fill error. */
  method ExtractWinningBid(seats: seq<SeatBid>, cfg: Config) returns (best: Option<Candidate>)
    ensures best.None? <==> forall c :: c in Candidates(seats, |seats|) ==> !Eligible(c, cfg)
    ensures best.Some? ==> exists w :: Wins(Candidates(seats, |seats|), cfg, w) && Candidates(seats, |seats|)[w] == best.value
  {
    hide Eligible, Selected, BidBetter, Weight;
    best := None;
    var bestPos, pos := 0, 0;
    NoneSelected(cfg);
    for si := 0 to |seats|
      invariant pos == |Candidates(seats, si)|
      invariant Selected(Candidates(seats, si), cfg, best, bestPos)
    {
      ghost var base := Candidates(seats, si);
      var seat, bids := seats[si].seat, seats[si].bids;
      assert base + SeatCandidates(seats, si, 0) == base;
      for bi := 0 to |bids|
        invariant pos == |base| + bi
        invariant Selected(base + SeatCandidates(seats, si, bi), cfg, best, bestPos)
      {
        var c := Candidate(si, bi, seat, bids[bi]);
        ghost var met := base + SeatCandidates(seats, si, bi);
        SelectedStep(met, c, cfg, best, bestPos);
        assert met + [c] == base + SeatCandidates(seats, si, bi + 1);
        pos := pos + 1;
        if Eligible(c, cfg) {
          if best.None? || BidBetter(c.bid.price, Weight(cfg, c.seat), pos,
                                     best.value.bid.price, Weight(cfg, best.value.seat), bestPos) {
            best, bestPos := Some(c), pos;
          }
        }
      }
    }
    SelectedEnd(Candidates(seats, |seats|), cfg, best, bestPos);
  }

  lemma NoneSelected(cfg: Config)
    ensures Selected([], cfg, None, 0)
  {
  }

  lemma SelectedEnd(cs: seq<Candidate>, cfg: Config, best: Option<Candidate>, bestPos: int)
    requires Selected(cs, cfg, best, bestPos)
    ensures best.None? <==> forall c :: c in cs ==> !Eligible(c, cfg)
    ensures best.Some? ==> exists w :: Wins(cs, cfg, w) && cs[w] == best.value
  {
    hide Eligible;
    if best.Some? {
      assert Wins(cs, cfg, bestPos - 1);
      assert cs[bestPos - 1] in cs;
    } else {
      assert forall c :: c in cs ==> exists i :: 0 <= i < |cs| && cs[i] == c;
    }
  }

  /** The response alone fixes the winner. */
  lemma WinnerUnique(cs: seq<Candidate>, cfg: Config, w: int, w': int)
    requires Wins(cs, cfg, w) && Wins(cs, cfg, w')
    ensures w == w'
  {
    hide Eligible, Weight;
  }

  // ---- ORTB responses: the server keeps the billing notice

  /** Whether the rewriting loop takes bid `b` of `seat` for the winner. */
  predicate Matches(b: Bid, seat: string, win: Candidate) {
    b.id == win.bid.id && (win.seat == "" || seat == win.seat)
  }

  function Rewrite(b: Bid, seat: string, win: Candidate): Bid {
    var b' := b.(adm := NormalizeAdM(b.adm));
    if Matches(b, seat, win)
    then b'.(burl := "", nurl := if NormalizeAdM(win.bid.adm) != "" then "" else b.nurl)
    else b'
  }

  ghost predicate Rewritten(before: seq<SeatBid>, after: seq<SeatBid>, win: Candidate) {
    && |after| == |before|
    && (forall si :: 0 <= si < |before| ==> after[si].seat == before[si].seat && |after[si].bids| == |before[si].bids|)
    && (forall si, bi :: 0 <= si < |before| && 0 <= bi < |before[si].bids| ==>
          after[si].bids[bi] == Rewrite(before[si].bids[bi], before[si].seat, win))
  }

  class BidResponse {
    var seatBids: seq<SeatBid>

    /** The in-place loops at the end of the notice handling. */
    method Blank(win: Candidate)
      modifies this
      ensures Rewritten(old(seatBids), seatBids, win)
    {
      hide Rewrite;
      for si := 0 to |seatBids|
        invariant |seatBids| == |old(seatBids)|
        invariant Rewritten(old(seatBids)[..si], seatBids[..si], win)
        invariant seatBids[si..] == old(seatBids)[si..]
      {
        var seat, bids := seatBids[si].seat, seatBids[si].bids;
        assert seatBids[si] == seatBids[si..][0] == old(seatBids)[si..][0] == old(seatBids)[si];
        ghost var original := bids;
        for bi := 0 to |bids|
          invariant |bids| == |original|
          invariant forall j :: 0 <= j < bi ==> bids[j] == Rewrite(original[j], seat, win)
          invariant forall j :: bi <= j < |bids| ==> bids[j] == original[j]
        {
          bids := bids[bi := Rewrite(bids[bi], seat, win)];
        }
        ghost var was := seatBids;
        seatBids := seatBids[si := SeatBid(seat, bids)];
        assert seatBids[..si] == was[..si] && seatBids[si + 1..] == was[si..][1..];
        RewrittenStep(old(seatBids), seatBids, si, win);
      }
      assert seatBids[..|seatBids|] == seatBids && old(seatBids)[..|seatBids|] == old(seatBids);
    }

    /**
     * The notice handling of the ORTB endpoint. `resolve` substitutes the auction macros. `fired`
     * is the win notice the server sends, `stored` the billing notice it keeps for the beacon.
     */
    method HandleNotices(cfg: Config, resolve: string -> string)
      returns (win: Option<Candidate>, fired: Option<string>, stored: Option<string>)
      modifies this
      ensures win.None? ==> seatBids == old(seatBids) && fired.None? && stored.None?
      ensures win.Some? ==>
                && Rewritten(old(seatBids), seatBids, win.value)
                && fired == NonEmpty(if NormalizeAdM(win.value.bid.adm) != "" then resolve(win.value.bid.nurl) else "")
                && stored == NonEmpty(resolve(win.value.bid.burl))
      ensures win.None? <==> forall c :: c in Candidates(old(seatBids), |old(seatBids)|) ==> !Eligible(c, cfg)
      ensures win.Some? ==>
                exists w :: Wins(Candidates(old(seatBids), |old(seatBids)|), cfg, w) &&
                            Candidates(old(seatBids), |old(seatBids)|)[w] == win.value
    {
      win := ExtractWinningBid(seatBids, cfg);
      fired, stored := None, None;
      if win.None? {
        return;
      }
      var resolvedNURL, resolvedBURL := resolve(win.value.bid.nurl), resolve(win.value.bid.burl);
      var hasAdM := NormalizeAdM(win.value.bid.adm) != "";
      if resolvedNURL != "" && hasAdM {
        fired := Some(resolvedNURL);
      }
      if resolvedBURL != "" {
        stored := Some(resolvedBURL);
      }
      Blank(win.value);
    }
  }

  function NonEmpty(url: string): Option<string> {
    if url == "" then None else Some(url)
  }

  lemma RewrittenStep(before: seq<SeatBid>, after: seq<SeatBid>, si: nat, win: Candidate)
    requires si < |before| == |after| && Rewritten(before[..si], after[..si], win)
    requires after[si].seat == before[si].seat && |after[si].bids| == |before[si].bids|
    requires forall j :: 0 <= j < |before[si].bids| ==> after[si].bids[j] == Rewrite(before[si].bids[j], before[si].seat, win)
    ensures Rewritten(before[..si + 1], after[..si + 1], win)
  {
    hide Rewrite;
    assert before[..si + 1] == before[..si] + [before[si]];
    assert after[..si + 1] == after[..si] + [after[si]];
  }

  /** Taken for the winner is a bid with its id, from its seat if the winner names one. */
  lemma MatchesExactly(b: Bid, seat: string, win: Candidate)
    ensures b.id != win.bid.id ==> !Matches(b, seat, win)
    ensures b.id == win.bid.id && seat == win.seat ==> Matches(b, seat, win)
    ensures b.id == win.bid.id && seat != win.seat ==> (Matches(b, seat, win) <==> win.seat == "")
  {
  }

  /** The response that goes out, bid by bid: what is taken for the winner, and what is not. */
  lemma RewrittenBids(before: seq<SeatBid>, after: seq<SeatBid>, win: Candidate, si: nat, bi: nat)
    requires Rewritten(before, after, win) && si < |before| && bi < |before[si].bids|
    ensures si < |after| && bi < |after[si].bids|
    ensures var b, b' := before[si].bids[bi], after[si].bids[bi];
            && b'.price == b.price && b'.id == b.id && b'.adm == NormalizeAdM(b.adm)
            && (Matches(b, before[si].seat, win) ==>
                  b'.burl == "" && b'.nurl == if NormalizeAdM(win.bid.adm) != "" then "" else b.nurl)
            && (!Matches(b, before[si].seat, win) ==> b'.burl == b.burl && b'.nurl == b.nurl)
  {
    hide IsEmptyAdM, NormalizeAdM;
  }

  /** The winning bid is where the response has it, and is taken for the winner. */
  lemma WinnerMatches(before: seq<SeatBid>, cfg: Config, w: int)
    requires Wins(Candidates(before, |before|), cfg, w)
    ensures var win := Candidates(before, |before|)[w];
            && win.si < |before| && win.bi < |before[win.si].bids|
            && before[win.si].bids[win.bi] == win.bid && Matches(win.bid, before[win.si].seat, win)
            && (NormalizeAdM(win.bid.adm) == "" ==> win.bid.nurl != "")
  {
    hide IsEmptyAdM;
  }
}
