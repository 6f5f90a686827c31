/** Merging pixels into a finished VAST document by text insertion. */
module VastInjection {
  import opened Options
  import opened Text

  // ---- where a pixel goes

  ghost predicate HasTag(doc: string, tag: string) {
    Contains(Lower(doc), tag)
  }

  ghost predicate HasImpressionAnchor(doc: string) {
    HasTag(doc, "</impression>") || HasTag(doc, "</inline>") || HasTag(doc, "</wrapper>")
  }

  ghost predicate HasTrackingAnchor(doc: string) {
    HasTag(doc, "</tracking>") || HasTag(doc, "</linear>") || HasTag(doc, "</wrapper>")
  }

  ghost predicate ClosingTag(tag: string) {
    TagShaped(tag) && tag[0] == '<' && tag[|tag| - 1] == '>'
  }

  lemma ClosingTags()
    ensures ClosingTag("</impression>") && ClosingTag("</inline>") && ClosingTag("</wrapper>")
    ensures ClosingTag("</tracking>") && ClosingTag("</linear>")
  {
  }

  /** After the last occurrence of a closing tag, or before the first one: a tag boundary. */
  lemma ClosingTagBoundary(doc: string, tag: string, i: int)
    requires ClosingTag(tag) && At(Lower(doc), tag, i)
    ensures TagBoundary(doc, i) && TagBoundary(doc, i + |tag|)
  {
    assert Lower(doc)[i..i + |tag|][0] == Lower(doc)[i];
    assert Lower(doc)[i..i + |tag|][|tag| - 1] == Lower(doc)[i + |tag| - 1];
  }

  function ImpressionPoint(doc: string): (r: Option<nat>)
    ensures r.Some? <==> HasImpressionAnchor(doc)
    ensures r.Some? ==> TagBoundary(doc, r.value)
  {
    ClosingTags();
    var last := LastIndexFold(doc, "</impression>");
    if last != -1 then
      ClosingTagBoundary(doc, "</impression>", last);
      Some(last + |"</impression>"|)
    else
      BeforeFirst(doc, "</inline>", "</wrapper>")
  }

  /** Before the first `tag`, else before the first `other`. */
  function BeforeFirst(doc: string, tag: string, other: string): (r: Option<nat>)
    requires ClosingTag(tag) && ClosingTag(other)
    ensures r.Some? <==> HasTag(doc, tag) || HasTag(doc, other)
    ensures r.Some? ==> TagBoundary(doc, r.value)
  {
    var i := IndexFold(doc, tag);
    var j := IndexFold(doc, other);
    if i != -1 then
      ClosingTagBoundary(doc, tag, i);
      Some(i)
    else if j != -1 then
      ClosingTagBoundary(doc, other, j);
      Some(j)
    else
      None
  }

  ghost predicate FirstAt(doc: string, tag: string, p: int) {
    At(Lower(doc), tag, p) && forall i :: 0 <= i < p ==> !At(Lower(doc), tag, i)
  }

  ghost predicate LastEndsAt(doc: string, tag: string, p: int) {
    At(Lower(doc), tag, p - |tag|) && forall i :: p - |tag| < i ==> !At(Lower(doc), tag, i)
  }

  /** Impressions stay together; a document without any gets its first one at the end of its ad. */
  lemma ImpressionPlacement(doc: string)
    requires HasImpressionAnchor(doc)
    ensures var p := ImpressionPoint(doc).value;
            if HasTag(doc, "</impression>") then LastEndsAt(doc, "</impression>", p)
            else if HasTag(doc, "</inline>") then FirstAt(doc, "</inline>", p)
            else FirstAt(doc, "</wrapper>", p)
  {
    hide Contains, At, IndexFold, LastIndexFold;
    ClosingTags();
  }

  // ---- pixel elements

  /** An element that carries one pixel URL in a CDATA section. */
  function Element(name: string, attrs: string, url: string): (r: string)
    ensures Contains(r, url)
  {
    var start, cdata, close := "<" + name + attrs, "<![CDATA[" + url + "]]>", "</" + name + ">";
    ContainsByParts("<![CDATA[", url, "]]>");
    ContainsByParts(start + ">", cdata, close);
    ContainsTrans(start + ">" + cdata + close, cdata, url);
    start + ">" + cdata + close
  }

  // ---- impressions

  function ImpressionTag(url: string, id: string): (r: string)
    ensures Contains(r, url)
  {
    Element("Impression", if id != "" then " id=\"" + id + "\"" else "", url)
  }

  /** `injectVASTImpressionWithID`; an empty `id` gives `injectVASTImpression`. */
  function InjectImpression(vast: string, url: string, id: string): string {
    if url == "" || Contains(vast, url) then vast
    else
      var p := ImpressionPoint(vast);
      if p.Some? then Insert(vast, p.value, ImpressionTag(url, id)) else vast
  }

  // ---- tracking events

  datatype Tracking = Tracking(event: string, url: string)

  function TrackingTag(t: Tracking): (r: string)
    ensures Contains(r, t.url)
  {
    Element("Tracking", " event=\"" + t.event + "\"", t.url)
  }

  /** The events that name a URL the document does not hold yet. */
  function Fresh(vast: string, events: seq<Tracking>): seq<Tracking> {
    if events == [] then []
    else
      var ev := events[|events| - 1];
      Fresh(vast, events[..|events| - 1]) + if ev.url == "" || Contains(vast, ev.url) then [] else [ev]
  }

  function Block(events: seq<Tracking>): string {
    if events == [] then "" else Block(events[..|events| - 1]) + TrackingTag(events[|events| - 1])
  }

  /** Where a tracking block goes, and whether it needs its own `TrackingEvents` parent there. */
  function TrackingPoint(doc: string): (r: Option<(nat, bool)>)
    ensures r.Some? <==> HasTrackingAnchor(doc)
    ensures r.Some? ==> TagBoundary(doc, r.value.0)
  {
    ClosingTags();
    var last := LastIndexFold(doc, "</tracking>");
    if last != -1 then
      ClosingTagBoundary(doc, "</tracking>", last);
      Some((last + |"</tracking>"|, false))
    else
      var p := BeforeFirst(doc, "</linear>", "</wrapper>");
      if p.Some? then Some((p.value, true)) else None
  }

  /** A tracking block extends an existing one, or comes with its own parent. */
  lemma TrackingPlacement(doc: string)
    requires HasTrackingAnchor(doc)
    ensures var (p, wrap) := TrackingPoint(doc).value;
            if HasTag(doc, "</tracking>") then LastEndsAt(doc, "</tracking>", p) && !wrap
            else wrap && if HasTag(doc, "</linear>") then FirstAt(doc, "</linear>", p) else FirstAt(doc, "</wrapper>", p)
  {
    hide Contains, At, IndexFold, LastIndexFold;
    ClosingTags();
  }

  function Wrapped(block: string, wrap: bool): string {
    if wrap then "<TrackingEvents>" + block + "</TrackingEvents>" else block
  }

  /** What `injectVASTTracking` computes. */
  function InjectTracking(vast: string, events: seq<Tracking>): string {
    var unseen := Fresh(vast, events);
    var p := TrackingPoint(vast);
    if unseen == [] || p.None? then vast
    else Insert(vast, p.value.0, Wrapped(Block(unseen), p.value.1))
  }

  method InjectVASTTracking(vast: string, events: seq<Tracking>) returns (r: string)
    ensures r == InjectTracking(vast, events)
  {
    hide Contains, TrackingTag, TrackingPoint;
    var filtered: seq<Tracking> := [];
    for i := 0 to |events|
      invariant filtered == Fresh(vast, events[..i])
    {
      assert events[..i + 1][..i] == events[..i];
      if events[i].url != "" && !Contains(vast, events[i].url) {
        filtered := filtered + [events[i]];
      }
    }
    assert events[..|events|] == events;
    if |filtered| == 0 {
      return vast;
    }
    var block := "";
    for i := 0 to |filtered|
      invariant block == Block(filtered[..i])
    {
      assert filtered[..i + 1][..i] == filtered[..i];
      block := block + TrackingTag(filtered[i]);
    }
    assert filtered[..|filtered|] == filtered;
    var p := TrackingPoint(vast);
    if p.None? {
      return vast;
    }
    return Insert(vast, p.value.0, Wrapped(block, p.value.1));
  }

  // ---- what an injection can and cannot do to a document

  /** Characters are only added, and no URL-like text and no tag is ever broken up. */
  ghost predicate OnlyGrows(doc: string, r: string) {
    && Subsequence(doc, r)
    && (forall u :: (BracketFree(u) || TagShaped(u)) && Contains(doc, u) ==> Contains(r, u))
    && (forall tag :: TagShaped(tag) && HasTag(doc, tag) ==> HasTag(r, tag))
  }

  lemma OnlyGrowsRefl(doc: string)
    ensures OnlyGrows(doc, doc)
  {
    SubsequenceRefl(doc);
  }

  lemma OnlyGrowsTrans(a: string, b: string, c: string)
    requires OnlyGrows(a, b) && OnlyGrows(b, c)
    ensures OnlyGrows(a, c)
  {
    SubsequenceTrans(a, b, c);
  }

  lemma BoundaryInsertGrows(doc: string, p: nat, t: string)
    requires TagBoundary(doc, p)
    ensures OnlyGrows(doc, Insert(doc, p, t))
  {
    var r := Insert(doc, p, t);
    InsertIsSupersequence(doc, p, t);
    forall u | (BracketFree(u) || TagShaped(u)) && Contains(doc, u)
      ensures Contains(r, u)
    {
      BoundaryInsertKeeps(doc, p, t, u);
    }
    LowerInsert(doc, p, t);
    forall tag | TagShaped(tag) && HasTag(doc, tag)
      ensures HasTag(r, tag)
    {
      BoundaryInsertKeeps(Lower(doc), p, Lower(t), tag);
    }
  }

  lemma InjectImpressionGrows(vast: string, url: string, id: string)
    ensures OnlyGrows(vast, InjectImpression(vast, url, id))
  {
    OnlyGrowsRefl(vast);
    var p := ImpressionPoint(vast);
    if p.Some? {
      BoundaryInsertGrows(vast, p.value, ImpressionTag(url, id));
    }
  }

  lemma InjectTrackingGrows(vast: string, events: seq<Tracking>)
    ensures OnlyGrows(vast, InjectTracking(vast, events))
  {
    OnlyGrowsRefl(vast);
    var p := TrackingPoint(vast);
    if p.Some? {
      BoundaryInsertGrows(vast, p.value.0, Wrapped(Block(Fresh(vast, events)), p.value.1));
    }
  }

  /** The pixel lands in the document exactly when it was there or an anchor was. */
  lemma InjectImpressionAdds(vast: string, url: string, id: string)
    requires url != ""
    ensures Contains(InjectImpression(vast, url, id), url) <==> Contains(vast, url) || HasImpressionAnchor(vast)
  {
    var p := ImpressionPoint(vast);
    if p.Some? {
      var tag := ImpressionTag(url, id);
      ContainsByParts(vast[..p.value], tag, vast[p.value..]);
      ContainsTrans(Insert(vast, p.value, tag), tag, url);
    }
  }

  lemma InjectImpressionIdempotent(vast: string, url: string, id: string, id': string)
    ensures var once := InjectImpression(vast, url, id);
            InjectImpression(once, url, id') == once
  {
    if url != "" {
      InjectImpressionAdds(vast, url, id);
    }
  }

  lemma {:induction false} BlockHolds(events: seq<Tracking>, ev: Tracking)
    requires ev in events
    ensures Contains(Block(events), ev.url)
  {
    hide TrackingTag, Contains;
    var front, last := events[..|events| - 1], events[|events| - 1];
    if ev == last {
      ContainsByParts(Block(front), TrackingTag(last), "");
      assert Block(front) + TrackingTag(last) + "" == Block(events);
      ContainsTrans(Block(events), TrackingTag(last), ev.url);
    } else {
      BlockHolds(front, ev);
      ContainsByParts("", Block(front), TrackingTag(last));
      assert "" + Block(front) + TrackingTag(last) == Block(events);
      ContainsTrans(Block(events), Block(front), ev.url);
    }
  }

  lemma {:induction false} FreshMembers(vast: string, events: seq<Tracking>, ev: Tracking)
    ensures ev in Fresh(vast, events) <==> ev in events && ev.url != "" && !Contains(vast, ev.url)
  {
    if events != [] {
      FreshMembers(vast, events[..|events| - 1], ev);
      assert events == events[..|events| - 1] + [events[|events| - 1]];
    }
  }

  /** The new events keep the order of the list. */
  lemma {:induction false} FreshInOrder(vast: string, xs: seq<Tracking>, ys: seq<Tracking>)
    ensures Fresh(vast, xs + ys) == Fresh(vast, xs) + Fresh(vast, ys)
  {
    hide Contains;
    if ys == [] {
      assert xs + ys == xs;
    } else {
      assert (xs + ys)[..|xs + ys| - 1] == xs + ys[..|ys| - 1];
      FreshInOrder(vast, xs, ys[..|ys| - 1]);
    }
  }

  lemma InjectTrackingAddsFresh(vast: string, events: seq<Tracking>, ev: Tracking)
    requires HasTrackingAnchor(vast) && ev in Fresh(vast, events)
    ensures Contains(InjectTracking(vast, events), ev.url)
  {
    var block := Block(Fresh(vast, events));
    var p := TrackingPoint(vast).value;
    var text := Wrapped(block, p.1);
    BlockHolds(Fresh(vast, events), ev);
    if p.1 {
      ContainsByParts("<TrackingEvents>", block, "</TrackingEvents>");
      ContainsTrans(text, block, ev.url);
    }
    ContainsByParts(vast[..p.0], text, vast[p.0..]);
    ContainsTrans(InjectTracking(vast, events), text, ev.url);
  }

  /** The text that a list of beacons adds to a document; none without an anchor or a new beacon. */
  function BeaconText(vast: string, events: seq<Tracking>): string {
    var p := TrackingPoint(vast);
    if p.None? || Fresh(vast, events) == [] then "" else Wrapped(Block(Fresh(vast, events)), p.value.1)
  }

  lemma {:induction false} BlockBrackets(events: seq<Tracking>)
    requires events != []
    ensures var b := Block(events);
            b != "" && b[0] == '<' && b[|b| - 1] == '>'
  {
    hide Contains;
    if |events| > 1 {
      BlockBrackets(events[..|events| - 1]);
    } else {
      assert Block(events[..0]) == "";
    }
  }

  /** `u` stands in a document or comes to stand in it when `t` is inserted at `p`, and is not torn. */
  ghost predicate Stays(doc: string, p: nat, t: string, u: string)
    requires p <= |doc| && u != ""
  {
    !Cut(doc, p, u) || Contains(Around(doc, p, t, u), u)
  }

  /**
   * What an injection of beacons leaves of any text, bracketed URLs included: where a block is
   * inserted, the text is missing afterwards if and only if every place it stood at is cut by the
   * insertion point and it does not stand in the block or across its borders.
   */
  lemma InjectTrackingHoldsExactly(vast: string, events: seq<Tracking>, u: string)
    requires u != ""
    ensures Contains(InjectTracking(vast, events), u)
            <==> if BeaconText(vast, events) == "" then Contains(vast, u)
                 else Stays(vast, TrackingPoint(vast).value.0, BeaconText(vast, events), u)
  {
    hide TrackingPoint, Fresh, Block, Contains, Cut, Around;
    var p, t := TrackingPoint(vast), BeaconText(vast, events);
    if p.Some? && Fresh(vast, events) != [] {
      BlockBrackets(Fresh(vast, events));
      InsertHoldsExactly(vast, p.value.0, t, u);
    }
  }

  /** The same of an impression. */
  lemma InjectImpressionHoldsExactly(vast: string, url: string, id: string, u: string)
    requires u != ""
    ensures Contains(InjectImpression(vast, url, id), u)
            <==> if url == "" || Contains(vast, url) || ImpressionPoint(vast).None? then Contains(vast, u)
                 else Stays(vast, ImpressionPoint(vast).value, ImpressionTag(url, id), u)
  {
    hide ImpressionPoint, Contains, Cut, Around;
    var p := ImpressionPoint(vast);
    if p.Some? && url != "" && !Contains(vast, url) {
      InsertHoldsExactly(vast, p.value, ImpressionTag(url, id), u);
    }
  }

  /**
   * Every beacon of the list is in the result once there is an anchor to hang the block on, unless
   * its URL was there already and is torn by the other beacons.
   */
  lemma InjectTrackingAdds(vast: string, events: seq<Tracking>, ev: Tracking)
    requires HasTrackingAnchor(vast) && ev in events && ev.url != ""
    ensures Contains(InjectTracking(vast, events), ev.url)
            <==> BeaconText(vast, events) == "" || Stays(vast, TrackingPoint(vast).value.0, BeaconText(vast, events), ev.url)
    ensures ev in Fresh(vast, events) ==> Contains(InjectTracking(vast, events), ev.url)
  {
    hide TrackingPoint, Contains, Cut, Around, Block, Stays;
    InjectTrackingHoldsExactly(vast, events, ev.url);
    FreshMembers(vast, events, ev);
    if ev in Fresh(vast, events) {
      InjectTrackingAddsFresh(vast, events, ev);
    } else if Fresh(vast, events) != [] {
      BlockBrackets(Fresh(vast, events));
    }
  }

  lemma {:induction false} NothingFresh(vast: string, events: seq<Tracking>)
    requires forall ev :: ev in events && ev.url != "" ==> Contains(vast, ev.url)
    ensures Fresh(vast, events) == []
  {
    if events != [] {
      NothingFresh(vast, events[..|events| - 1]);
    }
  }

  /** A beacon that is missing from a document with an anchor changes it. */
  lemma MissingIsInjected(doc: string, events: seq<Tracking>, ev: Tracking)
    requires HasTrackingAnchor(doc) && ev in events && ev.url != "" && !Contains(doc, ev.url)
    ensures InjectTracking(doc, events) != doc
  {
    hide TrackingPoint, Contains;
    FreshMembers(doc, events, ev);
    InjectTrackingAddsFresh(doc, events, ev);
  }

  lemma NothingMissing(doc: string, events: seq<Tracking>)
    requires forall ev :: ev in events && ev.url != "" ==> Contains(doc, ev.url)
    ensures InjectTracking(doc, events) == doc
  {
    hide Contains;
    NothingFresh(doc, events);
  }

  /** A list of beacons leaves every URL of its own in place. */
  ghost predicate NoneTorn(vast: string, events: seq<Tracking>) {
    BeaconText(vast, events) != "" ==>
      forall ev :: ev in events && ev.url != "" ==>
        Stays(vast, TrackingPoint(vast).value.0, BeaconText(vast, events), ev.url)
  }

  /** Injecting the same beacons again changes nothing if and only if the first time tears none of their URLs. */
  lemma InjectTrackingIdempotent(vast: string, events: seq<Tracking>)
    ensures var once := InjectTracking(vast, events);
            InjectTracking(once, events) == once <==> NoneTorn(vast, events)
  {
    hide TrackingPoint, Contains, InjectTracking, HasTrackingAnchor, Stays, BeaconText, Fresh;
    var once := InjectTracking(vast, events);
    if HasTrackingAnchor(vast) {
      AnchorStays(vast, events);
      if NoneTorn(vast, events) {
        forall ev | ev in events && ev.url != ""
          ensures Contains(once, ev.url)
        {
          InjectTrackingAdds(vast, events, ev);
        }
        NothingMissing(once, events);
      } else {
        var ev :| ev in events && ev.url != "" && !Stays(vast, TrackingPoint(vast).value.0, BeaconText(vast, events), ev.url);
        InjectTrackingAdds(vast, events, ev);
        MissingIsInjected(once, events, ev);
      }
    } else {
      NoAnchorNoChange(vast, events);
      NoAnchorNoText(vast, events);
    }
  }

  lemma NoAnchorNoText(vast: string, events: seq<Tracking>)
    requires !HasTrackingAnchor(vast)
    ensures BeaconText(vast, events) == ""
  {
    hide Contains;
  }

  lemma GrowsKeepsAnchors(doc: string, r: string)
    requires OnlyGrows(doc, r)
    ensures HasImpressionAnchor(doc) ==> HasImpressionAnchor(r)
    ensures HasTrackingAnchor(doc) ==> HasTrackingAnchor(r)
  {
    hide Contains, Lower, TagShaped;
    ClosingTags();
  }

  lemma AnchorStays(vast: string, events: seq<Tracking>)
    requires HasTrackingAnchor(vast)
    ensures HasTrackingAnchor(InjectTracking(vast, events))
  {
    hide HasTrackingAnchor, InjectTracking, OnlyGrows;
    InjectTrackingGrows(vast, events);
    GrowsKeepsAnchors(vast, InjectTracking(vast, events));
  }

  lemma NoAnchorNoChange(vast: string, events: seq<Tracking>)
    requires !HasTrackingAnchor(vast)
    ensures InjectTracking(vast, events) == vast
  {
    hide Contains;
  }

  // ---- URLs that cannot be torn

  /** Ends with at least two characters of the tag, but not with the whole of it. */
  ghost predicate EndsInto(u: string, tag: string) {
    exists n :: 2 <= n < |tag| && n <= |u| && u[|u| - n..] == tag[..n]
  }

  /**
   * No insertion behind the last `last`, or before the first `first` or `other`, can tear the URL: it
   * has none of them inside and does not end on its way into the latter two.
   */
  ghost predicate Untearable(u: string, last: string, first: string, other: string) {
    var low := Lower(u);
    && (forall i :: At(low, last, i) ==> i + |last| == |u|)
    && !Contains(low, first) && !Contains(low, other) && !EndsInto(low, first) && !EndsInto(low, other)
  }

  ghost predicate ImpressionSafe(u: string) {
    Untearable(u, "</impression>", "</inline>", "</wrapper>")
  }

  ghost predicate TrackingSafe(u: string) {
    Untearable(u, "</tracking>", "</linear>", "</wrapper>")
  }

  lemma LowerPart(doc: string, u: string, i: int, tag: string, k: int)
    requires At(doc, u, i) && At(Lower(doc), tag, k) && i <= k && k + |tag| <= i + |u|
    ensures At(Lower(u), tag, k - i)
  {
    var j := k - i;
    var here := Lower(u)[j..j + |tag|];
    forall n | 0 <= n < |tag|
      ensures here[n] == tag[n]
    {
      AtChar(doc, u, i, k + n);
      AtChar(Lower(doc), tag, k, k + n);
    }
    assert here == tag;
  }

  /** Behind the end of a tag without an h: an http URL is cut there only if the tag is inside it. */
  lemma BehindTagUncut(doc: string, p: int, tag: string, u: string, i: int)
    requires At(doc, u, i) && "http" <= u && 'h' !in tag && At(Lower(doc), tag, p - |tag|)
    requires forall k :: At(Lower(u), tag, k) ==> k + |tag| == |u|
    ensures !(i < p < i + |u|)
  {
    if i < p < i + |u| {
      if p - |tag| < i {
        AtChar(doc, u, i, i);
        AtChar(Lower(doc), tag, p - |tag|, i);
      } else {
        LowerPart(doc, u, i, tag, p - |tag|);
      }
    }
  }

  /** Before a tag: only if the tag is inside it or it ends in the tag. */
  lemma BeforeTagUncut(doc: string, p: int, tag: string, u: string, i: int)
    requires At(doc, u, i) && At(Lower(doc), tag, p) && !Contains(Lower(u), tag) && !EndsInto(Lower(u), tag)
    ensures !(i < p < i + |u| - 1)
  {
    if i < p < i + |u| - 1 {
      if p + |tag| <= i + |u| {
        LowerPart(doc, u, i, tag, p);
      } else {
        EndsInTag(doc, p, tag, u, i);
      }
    }
  }

  lemma EndsInTag(doc: string, p: int, tag: string, u: string, i: int)
    requires At(doc, u, i) && At(Lower(doc), tag, p) && i < p < i + |u| - 1 && i + |u| < p + |tag|
    ensures EndsInto(Lower(u), tag)
  {
    var n := i + |u| - p;
    var tail := Lower(u)[|u| - n..];
    forall k | 0 <= k < n
      ensures tail[k] == tag[k]
    {
      AtChar(doc, u, i, p + k);
      AtChar(Lower(doc), tag, p, p + k);
    }
    assert tail == tag[..n];
  }

  /** A text that ends in the `<` before which something is inserted ends in the `<` of what is inserted. */
  lemma EndsInBracket(doc: string, p: nat, t: string, u: string, i: int)
    requires At(doc, u, i) && i + |u| == p + 1 && p < |doc| && doc[p] == '<' && t != "" && t[0] == '<'
    ensures Contains(Insert(doc, p, t), u)
  {
    var r := Insert(doc, p, t);
    forall k | 0 <= k < |u|
      ensures r[i..i + |u|][k] == u[k]
    {
      AtChar(doc, u, i, i + k);
    }
    assert r[i..i + |u|] == u;
    assert At(r, u, i);
  }

  lemma SafeInsert(doc: string, p: nat, t: string, u: string, last: string, first: string, other: string)
    requires p <= |doc| && "http" <= u && Contains(doc, u) && Untearable(u, last, first, other)
    requires t != "" && t[0] == '<' && 'h' !in last && ClosingTag(first) && ClosingTag(other)
    requires At(Lower(doc), last, p - |last|) || At(Lower(doc), first, p) || At(Lower(doc), other, p)
    ensures Contains(Insert(doc, p, t), u)
  {
    hide Insert;
    var i :| 0 <= i <= |doc| && At(doc, u, i);
    if i < p < i + |u| {
      if At(Lower(doc), last, p - |last|) {
        BehindTagUncut(doc, p, last, u, i);
      } else {
        var tag := if At(Lower(doc), first, p) then first else other;
        BeforeTagUncut(doc, p, tag, u, i);
        AtChar(Lower(doc), tag, p, p);
        EndsInBracket(doc, p, t, u, i);
      }
    } else {
      InsertKeepsOccurrence(doc, p, t, u, i);
    }
  }

  /** No impression tears an http URL that is safe from impressions ... */
  lemma ImpressionKeepsUrl(vast: string, url: string, id: string, u: string)
    requires "http" <= u && Contains(vast, u) && ImpressionSafe(u)
    ensures Contains(InjectImpression(vast, url, id), u)
  {
    hide Contains, Untearable, ImpressionPoint, HasTag, Insert;
    var p := ImpressionPoint(vast);
    if p.Some? && url != "" && !Contains(vast, url) {
      ClosingTags();
      ImpressionPlacement(vast);
      TagsWithoutH();
      TagOpens(url, id);
      SafeInsert(vast, p.value, ImpressionTag(url, id), u, "</impression>", "</inline>", "</wrapper>");
    }
  }

  /** ... and no beacon one that is safe from beacons. */
  lemma TrackingKeepsUrl(vast: string, events: seq<Tracking>, u: string)
    requires "http" <= u && Contains(vast, u) && TrackingSafe(u)
    ensures Contains(InjectTracking(vast, events), u)
  {
    hide Contains, Untearable, TrackingPoint, HasTag, Insert, Fresh, Block;
    var p := TrackingPoint(vast);
    if p.Some? && Fresh(vast, events) != [] {
      ClosingTags();
      TrackingPlacement(vast);
      TagsWithoutH();
      BlockBrackets(Fresh(vast, events));
      SafeInsert(vast, p.value.0, BeaconText(vast, events), u, "</tracking>", "</linear>", "</wrapper>");
    }
  }

  lemma TagsWithoutH()
    ensures 'h' !in "</impression>" && 'h' !in "</tracking>"
  {
  }

  lemma TagOpens(url: string, id: string)
    ensures var t := ImpressionTag(url, id);
            t != "" && t[0] == '<'
  {
  }

  /** URLs without an opening bracket are safe from both. */
  lemma NoBracketIsSafe(u: string)
    requires '<' !in u
    ensures ImpressionSafe(u) && TrackingSafe(u)
  {
    ClosingTags();
    UntearableWithout(u, "</impression>", "</inline>", "</wrapper>");
    UntearableWithout(u, "</tracking>", "</linear>", "</wrapper>");
  }

  lemma UntearableWithout(u: string, last: string, first: string, other: string)
    requires '<' !in u && ClosingTag(last) && ClosingTag(first) && ClosingTag(other)
    ensures Untearable(u, last, first, other)
  {
    hide Contains, EndsInto;
    LacksTag(u, last);
    LacksTag(u, first);
    LacksTag(u, other);
    EndsElsewhere(u, first);
    EndsElsewhere(u, other);
  }

  lemma LacksTag(u: string, tag: string)
    requires '<' !in u && ClosingTag(tag)
    ensures (forall i :: !At(Lower(u), tag, i)) && !Contains(Lower(u), tag)
  {
    forall i
      ensures !At(Lower(u), tag, i)
    {
      if At(Lower(u), tag, i) {
        AtChar(Lower(u), tag, i, i);
      }
    }
  }

  lemma EndsElsewhere(u: string, tag: string)
    requires '<' !in u && ClosingTag(tag)
    ensures !EndsInto(Lower(u), tag)
  {
    forall n | 2 <= n < |tag| && n <= |u|
      ensures Lower(u)[|u| - n..] != tag[..n]
    {
      assert Lower(u)[|u| - n..][0] == LowerChar(u[|u| - n]) != '<' == tag[..n][0];
    }
  }
}
