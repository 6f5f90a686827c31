/** Following a VAST wrapper chain and carrying every hop's pixels into the last document. */
module WrapperChain {
  import opened Options
  import opened Text
  import opened VastInjection

  // ---- reading a document

  /** The inside of a CDATA section; a missing end mark is tolerated. */
  function StripCData(t: string): (r: string)
    requires "<![CDATA[" <= t
    ensures Contains(t, r)
  {
    var inner := t[|"<![CDATA["|..];
    var body := if |inner| >= 3 && inner[|inner| - 3..] == "]]>" then inner[..|inner| - 3] else inner;
    assert At(t, body, |"<![CDATA["|);
    body
  }

  /** The text of an element, with blanks and a CDATA section stripped. */
  function Unwrap(raw: string): (r: string)
    ensures Contains(raw, r)
  {
    var t := TrimSpace(raw);
    if "<![CDATA[" <= t then
      ContainsTrans(raw, t, StripCData(t));
      ContainsTrans(raw, StripCData(t), TrimSpace(StripCData(t)));
      TrimSpace(StripCData(t))
    else t
  }

  /** `extractVASTAdTagURI`: the first tag URI of a Wrapper, or "". */
  function TagURI(vast: string): string {
    var low := Lower(vast);
    var start := IndexFold(vast, "<vastadtaguri");
    if IndexFold(vast, "<wrapper") == -1 || start == -1 then ""
    else
      var gt := IndexFrom(vast, ">", start);
      if gt == -1 then ""
      else
        var end := IndexFrom(low, "</vastadtaguri", gt + 1);
        if end == -1 then "" else TrimSpace(Unwrap(vast[gt + 1..end]))
  }

  /** Content bounds of the first `tag` element at or after `from` (`tag` in lower case). */
  function NextElement(vast: string, tag: string, from: nat): (r: Option<(nat, nat)>)
    requires from <= |vast|
    ensures r.Some? ==> from < r.value.0 <= r.value.1 <= |vast|
  {
    var low := Lower(vast);
    var start := IndexFrom(low, "<" + tag, from);
    if start == -1 then None
    else
      var gt := IndexFrom(vast, ">", start);
      if gt == -1 then None
      else
        var end := IndexFrom(low, "</" + tag, gt + 1);
        if end == -1 then None else Some((gt + 1, end))
  }

  function IfHttp(raw: string): seq<string> {
    if "http" <= raw then [raw] else []
  }

  /** The pixel URLs of all `tag` elements found from index `from` on. */
  function Urls(vast: string, tag: string, from: nat): seq<string>
    requires from <= |vast|
    decreases |vast| - from
  {
    var el := NextElement(vast, tag, from);
    if el.None? then []
    else IfHttp(Unwrap(vast[el.value.0..el.value.1])) + Urls(vast, tag, el.value.1)
  }

  /** `extractImpressionURLs` for tag "impression", `extractTrackingURLs` for tag "tracking". */
  method ExtractURLs(vast: string, tag: string) returns (urls: seq<string>)
    ensures urls == Urls(vast, tag, 0)
  {
    hide NextElement, Unwrap;
    urls := [];
    var search := 0;
    while true
      invariant 0 <= search <= |vast|
      invariant Urls(vast, tag, 0) == urls + Urls(vast, tag, search)
      decreases |vast| - search
    {
      var el := NextElement(vast, tag, search);
      if el.None? {
        break;
      }
      urls := urls + IfHttp(Unwrap(vast[el.value.0..el.value.1]));
      search := el.value.1;
    }
  }

  lemma SliceInside(s: string, lo: nat, hi: nat)
    requires lo <= hi <= |s|
    ensures Contains(s, s[lo..hi])
  {
    assert At(s, s[lo..hi], lo);
  }

  /** Every URL a document yields stands in that document. */
  lemma {:induction false} UrlsInside(vast: string, tag: string, from: nat, u: string)
    requires from <= |vast| && u in Urls(vast, tag, from)
    ensures "http" <= u && Contains(vast, u)
    decreases |vast| - from
  {
    hide NextElement, Unwrap, Contains;
    var el := NextElement(vast, tag, from).value;
    var raw := vast[el.0..el.1];
    if u in IfHttp(Unwrap(raw)) {
      SliceInside(vast, el.0, el.1);
      ContainsTrans(vast, raw, u);
    } else {
      UrlsInside(vast, tag, el.1, u);
    }
  }

  // ---- following the chain

  datatype Fetched = Failed | Body(text: string)

  predicate Usable(answer: Fetched)
    ensures Usable(answer) ==> answer.Body?
  {
    answer.Body? && TrimSpace(answer.text) != ""
  }

  /** What one resolution visits: the wrappers it read, the URIs it asked for, where it stopped. */
  datatype Chain = Chain(wrappers: seq<string>, asked: seq<string>, last: string)

  /** `fetch(i, uri)` is the answer to the i-th request of this resolution. */
  function Follow(fetch: (nat, string) -> Fetched, doc: string, budget: nat, hop: nat): Chain
    decreases budget
  {
    var uri := TagURI(doc);
    if budget == 0 || uri == "" then Chain([], [], doc)
    else
      var next := fetch(hop, uri);
      if !Usable(next) then Chain([doc], [uri], doc)
      else
        var rest := Follow(fetch, next.text, budget - 1, hop + 1);
        Chain([doc] + rest.wrappers, [uri] + rest.asked, rest.last)
  }

  function Collect(docs: seq<string>, tag: string): seq<string> {
    if docs == [] then [] else Collect(docs[..|docs| - 1], tag) + Urls(docs[|docs| - 1], tag, 0)
  }

  function WithImpressions(doc: string, urls: seq<string>): string {
    if urls == [] then doc
    else InjectImpression(WithImpressions(doc, urls[..|urls| - 1]), urls[|urls| - 1], "")
  }

  /** Merged beacons all become "start" events, whatever event the wrapper had them on. */
  function WithTrackings(doc: string, urls: seq<string>): string {
    if urls == [] then doc
    else InjectTracking(WithTrackings(doc, urls[..|urls| - 1]), [Tracking("start", urls[|urls| - 1])])
  }

  function Merged(c: Chain): string {
    WithTrackings(WithImpressions(c.last, Collect(c.wrappers, "impression")), Collect(c.wrappers, "tracking"))
  }

  /** A depth limit of zero or less follows nothing. */
  function Budget(maxDepth: int): nat {
    if maxDepth < 0 then 0 else maxDepth
  }

  ghost predicate Resolves(c: Chain, wrappers: seq<string>, asked: seq<string>, ahead: Chain) {
    c == Chain(wrappers + ahead.wrappers, asked + ahead.asked, ahead.last)
  }

  lemma ResolvesStart(c: Chain)
    ensures Resolves(c, [], [], c)
    ensures forall tag :: Collect([], tag) == []
  {
  }

  lemma ResolvesStep(c: Chain, wrappers: seq<string>, asked: seq<string>, ahead: Chain)
    requires Resolves(c, wrappers, asked, ahead) && ahead.wrappers != [] && ahead.asked != []
    ensures Resolves(c, wrappers + [ahead.wrappers[0]], asked + [ahead.asked[0]],
                     Chain(ahead.wrappers[1..], ahead.asked[1..], ahead.last))
  {
  }

  lemma ResolvesDone(c: Chain, wrappers: seq<string>, asked: seq<string>, last: string)
    requires Resolves(c, wrappers, asked, Chain([], [], last))
    ensures c == Chain(wrappers, asked, last)
  {
  }

  lemma CollectAppend(docs: seq<string>, doc: string, tag: string)
    ensures Collect(docs + [doc], tag) == Collect(docs, tag) + Urls(doc, tag, 0)
  {
    assert (docs + [doc])[..|docs|] == docs;
  }

  /** The first loop of `resolveVASTWrapperChain`: follow tag URIs, collecting pixels on the way. */
  method FollowChain(fetch: (nat, string) -> Fetched, vastXML: string, maxDepth: int)
    returns (current: string, impressions: seq<string>, trackings: seq<string>)
    ensures var chain := Follow(fetch, vastXML, Budget(maxDepth), 0);
            && current == chain.last
            && impressions == Collect(chain.wrappers, "impression")
            && trackings == Collect(chain.wrappers, "tracking")
  {
    hide Urls, TagURI, Usable, Collect, Resolves;
    impressions, trackings, current := [], [], vastXML;
    ghost var chain := Follow(fetch, vastXML, Budget(maxDepth), 0);
    ghost var wrappers: seq<string>, asked: seq<string> := [], [];
    ResolvesStart(chain);
    var depth := 0;
    while depth < maxDepth
      invariant 0 <= depth <= Budget(maxDepth)
      invariant Resolves(chain, wrappers, asked, Follow(fetch, current, Budget(maxDepth) - depth, depth))
      invariant impressions == Collect(wrappers, "impression")
      invariant trackings == Collect(wrappers, "tracking")
    {
      ghost var ahead := Follow(fetch, current, Budget(maxDepth) - depth, depth);
      var tagURI := TagURI(current);
      if tagURI == "" {
        break;
      }
      var imps := ExtractURLs(current, "impression");
      var tracks := ExtractURLs(current, "tracking");
      CollectAppend(wrappers, current, "impression");
      CollectAppend(wrappers, current, "tracking");
      ResolvesStep(chain, wrappers, asked, ahead);
      impressions := impressions + imps;
      trackings := trackings + tracks;
      wrappers, asked := wrappers + [current], asked + [tagURI];
      var next := fetch(depth, tagURI);
      if !Usable(next) {
        ResolvesDone(chain, wrappers, asked, current);
        return;
      }
      current := next.text;
      depth := depth + 1;
    }
    ResolvesDone(chain, wrappers, asked, current);
  }

  /** Its last two loops: inject what was collected into the document it stopped at. */
  method MergePixels(doc: string, impressions: seq<string>, trackings: seq<string>) returns (result: string)
    ensures result == WithTrackings(WithImpressions(doc, impressions), trackings)
  {
    result := doc;
    for i := 0 to |impressions|
      invariant result == WithImpressions(doc, impressions[..i])
    {
      assert impressions[..i + 1][..i] == impressions[..i];
      result := InjectImpression(result, impressions[i], "");
    }
    assert impressions[..|impressions|] == impressions;
    ghost var mid := result;
    for i := 0 to |trackings|
      invariant result == WithTrackings(mid, trackings[..i])
    {
      assert trackings[..i + 1][..i] == trackings[..i];
      result := InjectVASTTracking(result, [Tracking("start", trackings[i])]);
    }
    assert trackings[..|trackings|] == trackings;
  }

  method ResolveVASTWrapperChain(fetch: (nat, string) -> Fetched, vastXML: string, maxDepth: int)
    returns (result: string)
    ensures result == Merged(Follow(fetch, vastXML, Budget(maxDepth), 0))
  {
    var current, impressions, trackings := FollowChain(fetch, vastXML, maxDepth);
    result := MergePixels(current, impressions, trackings);
  }

  // ---- what a resolution guarantees

  /** At most `budget` requests, one per wrapper read, the first wrapper being the input. */
  lemma {:induction false} ChainBounds(fetch: (nat, string) -> Fetched, doc: string, budget: nat, hop: nat)
    ensures var c := Follow(fetch, doc, budget, hop);
            && |c.asked| == |c.wrappers| <= budget
            && (if c.wrappers == [] then c.last == doc else c.wrappers[0] == doc)
    decreases budget
  {
    hide TagURI, Usable;
    var uri := TagURI(doc);
    if budget != 0 && uri != "" && Usable(fetch(hop, uri)) {
      ChainBounds(fetch, fetch(hop, uri).text, budget - 1, hop + 1);
    }
  }

  /**
   * Request `i` asks for the tag URI of wrapper `i`. A usable answer is the next document of the
   * chain; any other answer ends the chain at wrapper `i`, the last valid document.
   */
  lemma {:induction false} ChainLink(fetch: (nat, string) -> Fetched, doc: string, budget: nat, hop: nat, i: nat)
    requires i < |Follow(fetch, doc, budget, hop).asked|
    ensures var c := Follow(fetch, doc, budget, hop);
            && i < |c.wrappers|
            && c.asked[i] == TagURI(c.wrappers[i]) != ""
            && var answer := fetch(hop + i, c.asked[i]);
               if Usable(answer)
               then answer.text == (if i + 1 < |c.wrappers| then c.wrappers[i + 1] else c.last)
               else i + 1 == |c.wrappers| && c.last == c.wrappers[i]
    decreases budget
  {
    hide TagURI, Usable;
    var uri := TagURI(doc);
    if i > 0 || Usable(fetch(hop, uri)) {
      var next := fetch(hop, uri).text;
      ChainBounds(fetch, next, budget - 1, hop + 1);
      if i > 0 {
        ChainLink(fetch, next, budget - 1, hop + 1, i - 1);
        ChainShift(fetch, doc, budget, hop, i);
      }
    }
  }

  lemma ChainShift(fetch: (nat, string) -> Fetched, doc: string, budget: nat, hop: nat, i: nat)
    requires 0 < i < |Follow(fetch, doc, budget, hop).asked| && budget > 0 && Usable(fetch(hop, TagURI(doc)))
    ensures var c := Follow(fetch, doc, budget, hop);
            var rest := Follow(fetch, fetch(hop, TagURI(doc)).text, budget - 1, hop + 1);
            && |c.wrappers| == |rest.wrappers| + 1 && c.last == rest.last
            && c.asked[i] == rest.asked[i - 1]
            && forall j :: 0 < j < |c.wrappers| ==> c.wrappers[j] == rest.wrappers[j - 1]
  {
    hide TagURI, Usable;
  }

  /** The chain stops early only at a document that is no wrapper or whose request was not usable. */
  lemma {:induction false} ChainStops(fetch: (nat, string) -> Fetched, doc: string, budget: nat, hop: nat)
    ensures var c := Follow(fetch, doc, budget, hop);
            || |c.asked| == budget
            || TagURI(c.last) == ""
            || var n := |c.asked| - 1;
               n >= 0 && n < |c.wrappers| && c.last == c.wrappers[n] && !Usable(fetch(hop + n, c.asked[n]))
    decreases budget
  {
    hide TagURI, Usable;
    var uri := TagURI(doc);
    if budget != 0 && uri != "" && Usable(fetch(hop, uri)) {
      ChainStops(fetch, fetch(hop, uri).text, budget - 1, hop + 1);
      var rest := Follow(fetch, fetch(hop, uri).text, budget - 1, hop + 1);
      if rest.asked != [] {
        ChainShift(fetch, doc, budget, hop, |rest.asked|);
      }
    }
  }

  /** If every answer is again a wrapper, the depth limit is used up. */
  lemma {:induction false} ChainRunsOut(fetch: (nat, string) -> Fetched, doc: string, budget: nat, hop: nat)
    requires TagURI(doc) != "" && forall h, u :: Usable(fetch(h, u)) && TagURI(fetch(h, u).text) != ""
    ensures |Follow(fetch, doc, budget, hop).asked| == budget
    decreases budget
  {
    hide TagURI, Usable;
    if budget != 0 {
      ChainRunsOut(fetch, fetch(hop, TagURI(doc)).text, budget - 1, hop + 1);
    }
  }

  // ---- the merged document

  lemma {:induction false} WithImpressionsGrows(doc: string, urls: seq<string>)
    ensures OnlyGrows(doc, WithImpressions(doc, urls))
  {
    if urls == [] {
      OnlyGrowsRefl(doc);
    } else {
      var front := urls[..|urls| - 1];
      WithImpressionsGrows(doc, front);
      InjectImpressionGrows(WithImpressions(doc, front), urls[|urls| - 1], "");
      OnlyGrowsTrans(doc, WithImpressions(doc, front), WithImpressions(doc, urls));
    }
  }

  lemma {:induction false} WithTrackingsGrows(doc: string, urls: seq<string>)
    ensures OnlyGrows(doc, WithTrackings(doc, urls))
  {
    if urls == [] {
      OnlyGrowsRefl(doc);
    } else {
      var front := urls[..|urls| - 1];
      WithTrackingsGrows(doc, front);
      InjectTrackingGrows(WithTrackings(doc, front), [Tracking("start", urls[|urls| - 1])]);
      OnlyGrowsTrans(doc, WithTrackings(doc, front), WithTrackings(doc, urls));
    }
  }

  lemma {:induction false} WithImpressionsHolds(doc: string, urls: seq<string>, u: string)
    requires HasImpressionAnchor(doc) && u in urls && "http" <= u && ImpressionSafe(u)
    ensures Contains(WithImpressions(doc, urls), u)
  {
    hide ImpressionSafe, Contains, InjectImpression, HasImpressionAnchor, OnlyGrows;
    var front, last := urls[..|urls| - 1], urls[|urls| - 1];
    var mid := WithImpressions(doc, front);
    WithImpressionsGrows(doc, front);
    GrowsKeepsAnchors(doc, mid);
    if u == last {
      InjectImpressionAdds(mid, u, "");
    } else {
      WithImpressionsHolds(doc, front, u);
      ImpressionKeepsUrl(mid, last, "", u);
    }
  }

  /** The only beacon of a list is there afterwards. */
  lemma OneTrackingAdds(doc: string, u: string)
    requires HasTrackingAnchor(doc) && u != ""
    ensures Contains(InjectTracking(doc, [Tracking("start", u)]), u)
  {
    hide Contains, TrackingPoint, Stays;
    var ev := Tracking("start", u);
    assert [ev][..0] == [] && Fresh(doc, []) == [];
    InjectTrackingAdds(doc, [ev], ev);
  }

  lemma {:induction false} WithTrackingsKeeps(doc: string, urls: seq<string>, u: string)
    requires Contains(doc, u) && "http" <= u && TrackingSafe(u)
    ensures Contains(WithTrackings(doc, urls), u)
  {
    hide TrackingSafe, Contains, InjectTracking;
    if urls != [] {
      var front := urls[..|urls| - 1];
      WithTrackingsKeeps(doc, front, u);
      TrackingKeepsUrl(WithTrackings(doc, front), [Tracking("start", urls[|urls| - 1])], u);
    }
  }

  lemma {:induction false} WithTrackingsHolds(doc: string, urls: seq<string>, u: string)
    requires HasTrackingAnchor(doc) && u in urls && "http" <= u && TrackingSafe(u)
    ensures Contains(WithTrackings(doc, urls), u)
  {
    hide TrackingSafe, Contains, InjectTracking, HasTrackingAnchor, OnlyGrows;
    var front, last := urls[..|urls| - 1], urls[|urls| - 1];
    var mid := WithTrackings(doc, front);
    WithTrackingsGrows(doc, front);
    GrowsKeepsAnchors(doc, mid);
    if u == last {
      OneTrackingAdds(mid, u);
    } else {
      WithTrackingsHolds(doc, front, u);
      TrackingKeepsUrl(mid, [Tracking("start", last)], u);
    }
  }

  lemma {:induction false} CollectHolds(docs: seq<string>, tag: string, doc: string, u: string)
    requires doc in docs && u in Urls(doc, tag, 0)
    ensures u in Collect(docs, tag)
  {
    hide Urls;
    if doc != docs[|docs| - 1] {
      CollectHolds(docs[..|docs| - 1], tag, doc, u);
    }
  }

  /** Pixels are collected hop by hop. */
  lemma {:induction false} CollectInOrder(xs: seq<string>, ys: seq<string>, tag: string)
    ensures Collect(xs + ys, tag) == Collect(xs, tag) + Collect(ys, tag)
  {
    hide Urls;
    if ys == [] {
      assert xs + ys == xs;
    } else {
      assert (xs + ys)[..|xs + ys| - 1] == xs + ys[..|ys| - 1];
      CollectInOrder(xs, ys[..|ys| - 1], tag);
    }
  }

  /**
   * The law of wrapper resolution, for every oracle and depth: the result is the document the
   * chain stopped at with text only inserted, and a pixel of any wrapper on the way is in it as
   * soon as that document offers an anchor for its kind, provided that its URL cannot be torn by the
   * injections that follow: impressions by impressions and beacons, beacons by beacons.
   */
  lemma PixelsSurvive(fetch: (nat, string) -> Fetched, vastXML: string, maxDepth: int, wrapper: string, u: string)
    requires wrapper in Follow(fetch, vastXML, Budget(maxDepth), 0).wrappers
    requires TrackingSafe(u)
    ensures var c := Follow(fetch, vastXML, Budget(maxDepth), 0);
            && OnlyGrows(c.last, Merged(c))
            && (u in Urls(wrapper, "impression", 0) && ImpressionSafe(u) && HasImpressionAnchor(c.last) ==> Contains(Merged(c), u))
            && (u in Urls(wrapper, "tracking", 0) && HasTrackingAnchor(c.last) ==> Contains(Merged(c), u))
  {
    hide Urls, InjectImpression, InjectTracking, Follow, ImpressionSafe, TrackingSafe, HasImpressionAnchor, HasTrackingAnchor,
      Contains, OnlyGrows;
    var c := Follow(fetch, vastXML, Budget(maxDepth), 0);
    var imps, tracks := Collect(c.wrappers, "impression"), Collect(c.wrappers, "tracking");
    var mid := WithImpressions(c.last, imps);
    WithImpressionsGrows(c.last, imps);
    WithTrackingsGrows(mid, tracks);
    OnlyGrowsTrans(c.last, mid, Merged(c));
    GrowsKeepsAnchors(c.last, mid);
    if u in Urls(wrapper, "impression", 0) && ImpressionSafe(u) && HasImpressionAnchor(c.last) {
      UrlsInside(wrapper, "impression", 0, u);
      CollectHolds(c.wrappers, "impression", wrapper, u);
      WithImpressionsHolds(c.last, imps, u);
      WithTrackingsKeeps(mid, tracks, u);
    }
    if u in Urls(wrapper, "tracking", 0) && HasTrackingAnchor(c.last) {
      UrlsInside(wrapper, "tracking", 0, u);
      CollectHolds(c.wrappers, "tracking", wrapper, u);
      WithTrackingsHolds(mid, tracks, u);
    }
  }

  lemma {:induction false} ChainLastNotBlank(fetch: (nat, string) -> Fetched, doc: string, budget: nat, hop: nat)
    requires TrimSpace(doc) != ""
    ensures TrimSpace(Follow(fetch, doc, budget, hop).last) != ""
    decreases budget
  {
    hide TagURI, TrimSpace;
    var uri := TagURI(doc);
    if budget != 0 && uri != "" && Usable(fetch(hop, uri)) {
      ChainLastNotBlank(fetch, fetch(hop, uri).text, budget - 1, hop + 1);
    }
  }

  /** A resolution never returns a blank document for one that is not blank. */
  lemma MergedNotBlank(fetch: (nat, string) -> Fetched, doc: string, budget: nat, hop: nat)
    requires TrimSpace(doc) != ""
    ensures TrimSpace(Merged(Follow(fetch, doc, budget, hop))) != ""
  {
    hide TrimSpace, Follow;
    var c := Follow(fetch, doc, budget, hop);
    var imps, tracks := Collect(c.wrappers, "impression"), Collect(c.wrappers, "tracking");
    var mid := WithImpressions(c.last, imps);
    ChainLastNotBlank(fetch, doc, budget, hop);
    WithImpressionsGrows(c.last, imps);
    WithTrackingsGrows(mid, tracks);
    GrowsNotBlank(c.last, mid);
    GrowsNotBlank(mid, WithTrackings(mid, tracks));
  }

  // ---- a chain that goes nowhere changes nothing

  lemma {:induction false} KnownPixelsAddNothing(doc: string, imps: seq<string>, tracks: seq<string>)
    requires forall u :: u in imps || u in tracks ==> Contains(doc, u)
    ensures WithTrackings(WithImpressions(doc, imps), tracks) == doc
    decreases |imps| + |tracks|
  {
    if tracks != [] {
      KnownPixelsAddNothing(doc, imps, tracks[..|tracks| - 1]);
      NothingFresh(doc, [Tracking("start", tracks[|tracks| - 1])]);
    } else if imps != [] {
      KnownPixelsAddNothing(doc, imps[..|imps| - 1], tracks);
    }
  }

  /**
   * A document that is no wrapper, a depth limit that is used up, and a first hop that cannot be
   * fetched all give back exactly the input: its own pixels are not injected a second time.
   */
  lemma UnresolvedIsIdentity(fetch: (nat, string) -> Fetched, vastXML: string, maxDepth: int)
    requires maxDepth <= 0 || TagURI(vastXML) == "" || !Usable(fetch(0, TagURI(vastXML)))
    ensures Merged(Follow(fetch, vastXML, Budget(maxDepth), 0)) == vastXML
  {
    hide TagURI, Urls, Usable, InjectImpression, InjectTracking;
    var c := Follow(fetch, vastXML, Budget(maxDepth), 0);
    assert c.last == vastXML && (c.wrappers == [] || c.wrappers == [vastXML]);
    forall tag, u | u in Collect(c.wrappers, tag)
      ensures Contains(vastXML, u)
    {
      assert Collect([vastXML], tag) == Collect([], tag) + Urls(vastXML, tag, 0);
      UrlsInside(vastXML, tag, 0, u);
    }
    KnownPixelsAddNothing(vastXML, Collect(c.wrappers, "impression"), Collect(c.wrappers, "tracking"));
  }
}
