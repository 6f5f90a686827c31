/** Reading back the pixels that are merged into a document one after the other. */
module MergedPixels {
  import opened Options
  import opened Text
  import opened VastInjection
  import opened WrapperChain
  import opened Extraction
  import opened PixelRoundTrip

  // ---- impressions one after the other

  /** A URL to inject as an impression, and its id. */
  datatype Item = Item(url: string, id: string)

  function WithPixels(doc: string, items: seq<Item>): string {
    if items == [] then doc
    else
      var last := items[|items| - 1];
      InjectImpression(WithPixels(doc, items[..|items| - 1]), last.url, last.id)
  }

  /** The items that were not in the document when their turn came. */
  function NewPixels(doc: string, items: seq<Item>): seq<Pixel> {
    if items == [] then []
    else
      var front, last := items[..|items| - 1], items[|items| - 1];
      NewPixels(doc, front)
      + if last.url == "" || Contains(WithPixels(doc, front), last.url) then [] else [ImpressionPixel(last.url, last.id)]
  }

  const IMP := "Impression"
  const IMP_END := "</impression>"

  /** The end tag of a pixel element, in lower case. */
  function EndTag(name: string): string {
    Lower("</" + name + ">")
  }

  /** A run of pixels before text without their end tag ends with the last one of the document. */
  lemma RunEndsLast(pre: string, name: string, ps: seq<Pixel>, post: string)
    requires ps != [] && ElementName(name) && !HasTag(post, EndTag(name))
    ensures LastIndexFold(pre + Elements(name, ps) + post, EndTag(name)) == |pre + Elements(name, ps)| - |EndTag(name)| >= 0
  {
    hide Elements, LastIndexFold, Contains, ElementName;
    var head, tag := pre + Elements(name, ps), "</" + name + ">";
    var doc, n := head + post, |head| - |tag|;
    RunEnd(name, ps);
    assert head[n..] == tag by {
      assert Elements(name, ps)[|Elements(name, ps)| - |tag|..] == head[n..];
    }
    assert doc[n..n + |tag|] == head[n..];
    LowerSlice(doc, n, n + |tag|);
    assert At(Lower(doc), EndTag(name), n);
    FoundAt(Lower(doc), EndTag(name), n);
    forall i | n < i
      ensures !At(Lower(doc), EndTag(name), i)
    {
      NoLaterEnd(head, name, post, i);
    }
  }

  lemma LowerSlice(s: string, lo: nat, hi: nat)
    requires lo <= hi <= |s|
    ensures Lower(s)[lo..hi] == Lower(s[lo..hi])
  {
  }

  /** Text that ends with `tag` still does with other text before it. */
  ghost predicate EndsWith(s: string, tag: string) {
    |s| >= |tag| && s[|s| - |tag|..] == tag
  }

  lemma EndsBehindText(x: string, s: string, tag: string)
    requires EndsWith(s, tag)
    ensures EndsWith(x + s, tag)
  {
    assert (x + s)[|x + s| - |tag|..] == s[|s| - |tag|..];
  }

  lemma {:induction false} RunEnd(name: string, ps: seq<Pixel>)
    requires ps != []
    ensures EndsWith(Elements(name, ps), "</" + name + ">")
  {
    hide EndsWith, ElementOf;
    var px, tag := ps[0], "</" + name + ">";
    ElementEnd(name, px);
    EndsBehindText(px.lead, ElementOf(name, px), tag);
    if |ps| > 1 {
      RunEnd(name, ps[1..]);
      EndsBehindText(px.lead + ElementOf(name, px), Elements(name, ps[1..]), tag);
    } else {
      assert Elements(name, ps[1..]) == "";
      assert px.lead + ElementOf(name, px) + "" == px.lead + ElementOf(name, px);
    }
  }

  lemma ElementEnd(name: string, px: Pixel)
    ensures EndsWith(ElementOf(name, px), "</" + name + ">")
  {
    hide ElementOf, Head;
    ElementParts(name, px);
    assert EndsWith("</" + name + ">", "</" + name + ">");
    EndsBehindText(Head(name, px), "</" + name + ">", "</" + name + ">");
  }

  lemma NoLaterEnd(head: string, name: string, post: string, i: int)
    requires ElementName(name) && !HasTag(post, EndTag(name))
    requires var tag := "</" + name + ">";
             |head| >= |tag| && head[|head| - |tag|..] == tag && i > |head| - |tag|
    ensures !At(Lower(head + post), EndTag(name), i)
  {
    hide Contains;
    var tag := "</" + name + ">";
    if i < |head| {
      assert (head + post)[i] == head[|head| - |tag|..][i - (|head| - |tag|)];
      NoMark(head + post, EndTag(name), i);
    } else {
      LowerConcat(head, post);
      AtRight(Lower(head), Lower(post), EndTag(name), i - |head|);
      NowhereAt(Lower(post), EndTag(name), i - |head|);
    }
  }

  lemma NowhereAt(s: string, pat: string, i: int)
    requires !Contains(s, pat)
    ensures !At(s, pat, i)
  {
  }

  lemma ImpressionEnd()
    ensures EndTag(IMP) == IMP_END && |IMP_END| == 13
  {
  }

  /** Behind the point where impressions go, no impression ends. */
  lemma NoneBehindPoint(doc: string)
    requires HasImpressionAnchor(doc)
    ensures !HasTag(doc[ImpressionPoint(doc).value..], IMP_END)
  {
    hide ImpressionPoint, FirstAt;
    var p := ImpressionPoint(doc).value;
    ImpressionPlacement(doc);
    var pre, post := doc[..p], doc[p..];
    assert doc == pre + post;
    LowerConcat(pre, post);
    forall i | 0 <= i <= |post|
      ensures !At(Lower(post), IMP_END, i)
    {
      AtRight(Lower(pre), Lower(post), IMP_END, i);
      assert !At(Lower(doc), IMP_END, p + i);
    }
  }

  lemma PointIs(doc: string, n: int)
    requires LastIndexFold(doc, IMP_END) == n && n != -1
    ensures ImpressionPoint(doc) == Some(n + 13) && HasImpressionAnchor(doc)
  {
    hide LastIndexFold, Contains;
  }

  /** All new impressions stand side by side at the point of the first, in their order. */
  lemma {:induction false} PixelsStand(doc: string, items: seq<Item>)
    requires HasImpressionAnchor(doc)
    ensures var p := ImpressionPoint(doc).value;
            WithPixels(doc, items) == doc[..p] + Elements(IMP, NewPixels(doc, items)) + doc[p..]
  {
    hide ImpressionPoint, HasImpressionAnchor, Contains, Elements, HasTag;
    var p := ImpressionPoint(doc).value;
    if items == [] {
      NoRun();
      assert doc == doc[..p] + "" + doc[p..];
    } else {
      var front, last := items[..|items| - 1], items[|items| - 1];
      PixelsStand(doc, front);
      NextStands(doc, front, last);
      assert NewPixels(doc, front) + [] == NewPixels(doc, front);
    }
  }

  lemma NoRun()
    ensures Elements(IMP, []) == ""
  {
  }

  /** Behind a run of new impressions is where the next one goes. */
  lemma NextPoint(doc: string, ps: seq<Pixel>)
    requires HasImpressionAnchor(doc)
    ensures var p := ImpressionPoint(doc).value;
            var v, n := doc[..p] + Elements(IMP, ps) + doc[p..], |doc[..p] + Elements(IMP, ps)|;
            HasImpressionAnchor(v) && ImpressionPoint(v) == Some(n) && v[..n] == doc[..p] + Elements(IMP, ps) && v[n..] == doc[p..]
  {
    hide ImpressionPoint, HasImpressionAnchor, Elements, HasTag, LastIndexFold, EndTag, ElementName;
    var p := ImpressionPoint(doc).value;
    if ps == [] {
      NoRun();
      assert doc[..p] + "" + doc[p..] == doc && doc[..p] + "" == doc[..p];
    } else {
      NoneBehindPoint(doc);
      ImpressionName();
      ImpressionEnd();
      RunEndsLast(doc[..p], IMP, ps, doc[p..]);
      PointIs(doc[..p] + Elements(IMP, ps) + doc[p..], |doc[..p] + Elements(IMP, ps)| - 13);
    }
  }

  lemma NextStands(doc: string, front: seq<Item>, last: Item)
    requires HasImpressionAnchor(doc)
    requires var p := ImpressionPoint(doc).value;
             WithPixels(doc, front) == doc[..p] + Elements(IMP, NewPixels(doc, front)) + doc[p..]
    ensures var p, v, ps := ImpressionPoint(doc).value, WithPixels(doc, front), NewPixels(doc, front);
            InjectImpression(v, last.url, last.id)
            == if last.url == "" || Contains(v, last.url) then v
               else doc[..p] + Elements(IMP, ps + [ImpressionPixel(last.url, last.id)]) + doc[p..]
  {
    hide ImpressionPoint, HasImpressionAnchor, Contains, Elements, NewPixels, WithPixels, ElementOf;
    var p, v, ps, px := ImpressionPoint(doc).value, WithPixels(doc, front), NewPixels(doc, front), ImpressionPixel(last.url, last.id);
    if last.url != "" && !Contains(v, last.url) {
      NextPoint(doc, ps);
      InjectImpressionIs(v, last.url, last.id);
      ElementsAppend(IMP, ps, px);
      assert doc[..p] + (Elements(IMP, ps) + ElementOf(IMP, px)) == doc[..p] + Elements(IMP, ps) + ElementOf(IMP, px);
    }
  }

  lemma CleanAppend(name: string, ps: seq<Pixel>, px: Pixel)
    requires Clean(name, ps) && CleanPixel(name, px) && OpensNone(px.lead, Lower(name))
    ensures Clean(name, ps + [px])
  {
    hide CleanPixel, OpensNone, Lower;
  }

  lemma ItemClean(item: Item)
    requires CleanUrl(item.url, "impression") && BracketFree(item.id)
    ensures CleanPixel(IMP, ImpressionPixel(item.url, item.id)) && OpensNone("", Lower(IMP))
  {
    hide CleanUrl;
    ImpressionName();
    EmptyOpensNone("impression");
  }

  lemma {:induction false} NewAreClean(doc: string, items: seq<Item>)
    requires forall i :: 0 <= i < |items| && items[i].url != "" ==> CleanUrl(items[i].url, "impression") && BracketFree(items[i].id)
    ensures Clean(IMP, NewPixels(doc, items))
  {
    hide Contains, CleanUrl, Clean, WithPixels, BracketFree, CleanPixel, OpensNone;
    if items == [] {
      NoneClean();
    } else {
      var front, last := items[..|items| - 1], items[|items| - 1];
      NewAreClean(doc, front);
      var ps := NewPixels(doc, front);
      if last.url == "" || Contains(WithPixels(doc, front), last.url) {
        assert ps + [] == ps;
      } else {
        ItemClean(last);
        CleanAppend(IMP, ps, ImpressionPixel(last.url, last.id));
      }
    }
  }

  lemma NoneClean()
    ensures Clean(IMP, [])
  {
  }

  /** What the scanner reads of a document into which impressions were injected one after the other. */
  function ReadAfter(doc: string, items: seq<Item>): seq<string> {
    var p, ps := ImpressionPoint(doc), NewPixels(doc, items);
    if p.None? || ps == [] then Urls(doc, "impression", 0)
    else
      var pre, post := doc[..p.value], doc[p.value..];
      Urls(pre, "impression", 0) + ReadAs(pre, IMP, ps[0]) + UrlsOf(ps[1..]) + Urls(post, "impression", 0)
  }

  /** Exactly: those before the point, what the first new one is read as, the other new ones, those behind. */
  lemma ImpressionsReadBack(doc: string, items: seq<Item>)
    requires forall i :: 0 <= i < |items| && items[i].url != "" ==> CleanUrl(items[i].url, "impression") && BracketFree(items[i].id)
    ensures Urls(WithPixels(doc, items), "impression", 0) == ReadAfter(doc, items)
  {
    hide Urls, Contains, CleanUrl, NewPixels, WithPixels, ReadAs, HasImpressionAnchor, ImpressionPoint, Clean, ElementName;
    var p, ps := ImpressionPoint(doc), NewPixels(doc, items);
    if p.None? {
      NoAnchorNoPixels(doc, items);
    } else {
      PixelsStand(doc, items);
      if ps == [] {
        NoRun();
        assert doc == doc[..p.value] + "" + doc[p.value..];
      } else {
        NewAreClean(doc, items);
        ImpressionName();
        NewLead(doc, items);
        ReadsAround(doc[..p.value], IMP, ps, doc[p.value..]);
        assert doc[..p.value] + "" == doc[..p.value];
      }
    }
  }

  lemma {:induction false} NewLead(doc: string, items: seq<Item>)
    ensures forall i :: 0 <= i < |NewPixels(doc, items)| ==> NewPixels(doc, items)[i].lead == ""
  {
    hide Contains;
    if items != [] {
      NewLead(doc, items[..|items| - 1]);
    }
  }

  lemma {:induction false} NoAnchorNoPixels(doc: string, items: seq<Item>)
    requires !HasImpressionAnchor(doc)
    ensures WithPixels(doc, items) == doc
  {
    hide Contains, HasImpressionAnchor;
    if items != [] {
      NoAnchorNoPixels(doc, items[..|items| - 1]);
    }
  }

  // ---- beacons one after the other

  /** The beacons that were not in the document when their turn came. */
  function NewBeacons(doc: string, urls: seq<string>): seq<Tracking> {
    if urls == [] then []
    else
      var front, u := urls[..|urls| - 1], urls[|urls| - 1];
      NewBeacons(doc, front) + if u == "" || Contains(WithTrackings(doc, front), u) then [] else [Tracking("start", u)]
  }

  const END := "</tracking>"

  lemma TrackingEnd()
    ensures EndTag(NAME) == END && |END| == 11
  {
  }

  /** Behind the block no tracking ends. */
  lemma NoneBehindBlock(doc: string)
    requires HasTrackingAnchor(doc)
    ensures var (p, wrap) := TrackingPoint(doc).value;
            !HasTag(BehindBlock(wrap, doc[p..]), END)
  {
    hide TrackingPoint, FirstAt;
    var (p, wrap) := TrackingPoint(doc).value;
    TrackingPlacement(doc);
    var pre, post := doc[..p], doc[p..];
    assert doc == pre + post;
    LowerConcat(pre, post);
    forall i
      ensures !At(Lower(post), END, i)
    {
      if 0 <= i {
        AtRight(Lower(pre), Lower(post), END, i);
        assert 0 <= p + i <= |doc| ==> !At(Lower(doc), END, p + i);
      }
    }
    if wrap {
      NoEndInParentEnd(post);
    } else {
      assert BehindBlock(wrap, post) == post;
    }
  }

  lemma NoEndInParentEnd(post: string)
    requires forall i :: !At(Lower(post), END, i)
    ensures !HasTag(PARENT_END + post, END)
  {
    var x := PARENT_END + post;
    LowerConcat(PARENT_END, post);
    forall i | 0 <= i <= |x|
      ensures !At(Lower(x), END, i)
    {
      if i == 0 {
        assert Lower(x)[10] == 'e';
        if At(Lower(x), END, 0) {
          AtChar(Lower(x), END, 0, 10);
        }
      } else if i < 17 {
        assert x[i] == PARENT_END[i];
        NoMark(x, END, i);
      } else {
        AtRight(Lower(PARENT_END), Lower(post), END, i - 17);
      }
    }
  }

  lemma BehindRun(doc: string, n: int)
    requires LastIndexFold(doc, END) == n && n != -1
    ensures TrackingPoint(doc) == Some((n + 11, false)) && HasTrackingAnchor(doc)
  {
    hide LastIndexFold, Contains;
  }

  /** The document with the new beacons in one block, in their order. */
  function OneBlock(doc: string, p: nat, wrap: bool, events: seq<Tracking>): string
    requires p <= |doc|
  {
    BeforeBlock(doc, p, wrap) + Elements(NAME, AsPixels(events)) + BehindBlock(wrap, doc[p..])
  }

  lemma {:induction false} BeaconsStand(doc: string, urls: seq<string>)
    requires HasTrackingAnchor(doc)
    ensures var (p, wrap) := TrackingPoint(doc).value;
            var events := NewBeacons(doc, urls);
            WithTrackings(doc, urls) == if events == [] then doc else OneBlock(doc, p, wrap, events)
  {
    hide TrackingPoint, HasTrackingAnchor, Contains, OneBlock, InjectTracking;
    if urls != [] {
      var front, u := urls[..|urls| - 1], urls[|urls| - 1];
      BeaconsStand(doc, front);
      var v, events := WithTrackings(doc, front), NewBeacons(doc, front);
      if u == "" || Contains(v, u) {
        NotInjected(v, u);
        assert events + [] == events;
      } else if events == [] {
        FirstBeacon(doc, u);
        assert events + [Tracking("start", u)] == [Tracking("start", u)];
      } else {
        NextBeacon(doc, events, u);
      }
    }
  }

  lemma NotInjected(v: string, u: string)
    requires u == "" || Contains(v, u)
    ensures InjectTracking(v, [Tracking("start", u)]) == v
  {
    hide Contains;
    assert [Tracking("start", u)][..0] == [] && Fresh(v, []) == [];
  }

  lemma FreshOne(v: string, u: string)
    requires u != "" && !Contains(v, u)
    ensures Fresh(v, [Tracking("start", u)]) == [Tracking("start", u)]
  {
    hide Contains;
    assert [Tracking("start", u)][..0] == [] && Fresh(v, []) == [];
  }

  lemma FirstBeacon(doc: string, u: string)
    requires HasTrackingAnchor(doc) && u != "" && !Contains(doc, u)
    ensures var (p, wrap) := TrackingPoint(doc).value;
            InjectTracking(doc, [Tracking("start", u)]) == OneBlock(doc, p, wrap, [Tracking("start", u)])
  {
    hide TrackingPoint, HasTrackingAnchor, Contains, Fresh, InjectTracking, Elements, AsPixels;
    FreshOne(doc, u);
    InjectTrackingIs(doc, [Tracking("start", u)]);
  }

  lemma NextBeacon(doc: string, events: seq<Tracking>, u: string)
    requires HasTrackingAnchor(doc) && events != [] && u != ""
    requires var (p, wrap) := TrackingPoint(doc).value;
             !Contains(OneBlock(doc, p, wrap, events), u)
    ensures var (p, wrap) := TrackingPoint(doc).value;
            InjectTracking(OneBlock(doc, p, wrap, events), [Tracking("start", u)])
            == OneBlock(doc, p, wrap, events + [Tracking("start", u)])
  {
    hide TrackingPoint, HasTrackingAnchor, Contains, Elements, HasTag, LastIndexFold, BeforeBlock, BehindBlock,
      InjectTracking, Fresh, ElementOf, EndTag, ElementName, Mark;
    var (p, wrap) := TrackingPoint(doc).value;
    var ev, ps := Tracking("start", u), AsPixels(events);
    var pre, run, post := BeforeBlock(doc, p, wrap), Elements(NAME, ps), BehindBlock(wrap, doc[p..]);
    var v := pre + run + post;
    TrackingName();
    TrackingEnd();
    NoneBehindBlock(doc);
    RunEndsLast(pre, NAME, ps, post);
    BehindRun(v, |pre + run| - 11);
    FreshOne(v, u);
    InjectTrackingIs(v, [ev]);
    var px := AsPixels([ev])[0];
    assert AsPixels([ev]) == [px] && AsPixels(events + [ev]) == ps + [px];
    ElementsAppend(NAME, ps, px);
    OneElement(px);
    PlainBlock(v, |pre + run|);
    assert v[..|pre + run|] == pre + run && v[|pre + run|..] == post;
    assert (pre + run) + ElementOf(NAME, px) + post == pre + (run + ElementOf(NAME, px)) + post;
  }

  lemma PlainBlock(v: string, p: nat)
    requires p <= |v|
    ensures BeforeBlock(v, p, false) == v[..p] && BehindBlock(false, v[p..]) == v[p..]
  {
  }

  lemma OneElement(px: Pixel)
    requires px.lead == ""
    ensures Elements(NAME, [px]) == ElementOf(NAME, px)
  {
    hide ElementOf;
    assert Elements(NAME, [px][1..]) == "";
    assert "" + ElementOf(NAME, px) + "" == ElementOf(NAME, px);
  }

  /** What the scanner reads of a document into which beacons were injected one after the other. */
  function BeaconsAfter(doc: string, urls: seq<string>): seq<string> {
    var at, ps := TrackingPoint(doc), AsPixels(NewBeacons(doc, urls));
    if at.None? || ps == [] then Urls(doc, TAG, 0)
    else
      var (p, wrap) := at.value;
      Urls(doc[..p], TAG, 0) + ReadAs(BeforeBlock(doc, p, wrap), NAME, ps[0]) + UrlsOf(ps[1..]) + Urls(doc[p..], TAG, 0)
  }

  lemma {:induction false} NewBeaconsClean(doc: string, urls: seq<string>)
    requires forall i :: 0 <= i < |urls| && urls[i] != "" ==> CleanUrl(urls[i], TAG)
    ensures Clean(NAME, AsPixels(NewBeacons(doc, urls)))
  {
    hide Contains, CleanUrl;
    TrackingName();
    if urls != [] {
      var front, u := urls[..|urls| - 1], urls[|urls| - 1];
      NewBeaconsClean(doc, front);
      EmptyOpensNone(TAG);
      assert AsPixels(NewBeacons(doc, front)) == AsPixels(NewBeacons(doc, urls))[..|NewBeacons(doc, front)|];
      forall i | 0 <= i < |NewBeacons(doc, urls)|
        ensures CleanPixel(NAME, AsPixels(NewBeacons(doc, urls))[i]) && OpensNone(AsPixels(NewBeacons(doc, urls))[i].lead, TAG)
      {
        if i < |NewBeacons(doc, front)| {
          assert AsPixels(NewBeacons(doc, front))[i] == AsPixels(NewBeacons(doc, urls))[i];
        }
      }
    }
  }

  lemma BeaconsReadBack(doc: string, urls: seq<string>)
    requires forall i :: 0 <= i < |urls| && urls[i] != "" ==> CleanUrl(urls[i], TAG)
    ensures Urls(WithTrackings(doc, urls), TAG, 0) == BeaconsAfter(doc, urls)
  {
    hide Urls, Contains, CleanUrl, NewBeacons, WithTrackings, ReadAs, HasTrackingAnchor, TrackingPoint, Clean, UrlsOf, Elements,
      BeforeBlock, BehindBlock;
    var at, events := TrackingPoint(doc), NewBeacons(doc, urls);
    if at.None? {
      NoAnchorNoBeacons(doc, urls);
    } else {
      BeaconsStand(doc, urls);
      if events != [] {
        var (p, wrap) := at.value;
        NewBeaconsClean(doc, urls);
        BlockReads(doc);
        BehindBlockReads(wrap, doc[p..]);
        ReadsBlock(BeforeBlock(doc, p, wrap), AsPixels(events), BehindBlock(wrap, doc[p..]));
      }
    }
  }

  lemma {:induction false} NoAnchorNoBeacons(doc: string, urls: seq<string>)
    requires !HasTrackingAnchor(doc)
    ensures WithTrackings(doc, urls) == doc
  {
    hide HasTrackingAnchor, InjectTracking;
    if urls != [] {
      NoAnchorNoBeacons(doc, urls[..|urls| - 1]);
      NoAnchorNoChange(doc, [Tracking("start", urls[|urls| - 1])]);
    }
  }

  // ---- text beside the elements that are read

  /** Inserted text that neither opens nor closes a `tag` element and ends with an end tag. */
  ghost predicate Beside(t: string, tag: string, end: string) {
    && OpensNone(t, tag) && Lacks(Lower(t), "</" + tag) && t != "" && t[0] == '<'
    && EndTagShaped(end) && |t| > |end| && t[|t| - |end|..] == end
    && exists i :: 0 <= i < |t| - |end| && t[i] == '>'
  }

  lemma BesideEnds(t: string, tag: string, end: string)
    requires Beside(t, tag, end)
    ensures t != "" && t[|t| - 1] == '>'
  {
    assert t[|t| - 1] == t[|t| - |end|..][|end| - 1];
  }

  /** Between elements it changes nothing of what is read. */
  lemma BesideReads(pre: string, t: string, post: string, tag: string, end: string)
    requires tag != "" && BracketFree(tag) && Beside(t, tag, end) && Meets(pre, post) && TailOf(pre, tag, 0) == Closed
    ensures Urls(pre + t + post, tag, 0) == Urls(pre, tag, 0) + Urls(post, tag, 0) == Urls(pre + post, tag, 0)
  {
    hide Urls, TailOf, Beside, OpensNone, BracketFree;
    BesideEnds(t, tag, end);
    assert OpensNone(t, tag) && t[0] == '<' by {
      BesideOpens(t, tag, end);
    }
    NothingOpens(t, tag);
    ReadsBoth(pre, post, tag);
    ReadsBoth(t, post, tag);
    ReadsBoth(pre, t + post, tag);
    assert pre + t + post == pre + (t + post);
  }

  lemma BesideOpens(t: string, tag: string, end: string)
    requires Beside(t, tag, end)
    ensures OpensNone(t, tag) && t[0] == '<'
  {
  }

  /** What is read behind a point inside an element: from its end tag on. */
  function Beyond(post: string, tag: string): seq<string> {
    var e := IndexFrom(Lower(post), "</" + tag, 0);
    if e == -1 then [] else Urls(post, tag, e)
  }

  /** What is read before and behind a point, without the element the point is in. */
  function ReadOutside(doc: string, p: nat, tag: string): seq<string>
    requires p <= |doc|
  {
    Urls(doc[..p], tag, 0) + if TailOf(doc[..p], tag, 0) == Closed then Urls(doc[p..], tag, 0) else Beyond(doc[p..], tag)
  }

  /** The element that is open behind `pre` goes on over the inserted text. */
  lemma CrossedElement(pre: string, t: string, post: string, tag: string, end: string, k: nat) returns (at: nat)
    requires Mark("<" + tag) && Mark("</" + tag) && Beside(t, tag, end)
    requires k <= |pre| && NextElement(pre, tag, k).None? && OpenAfter(pre, tag, k) != Closed
    ensures at <= |pre + t| - |end|
    ensures var e := IndexFrom(Lower(post), "</" + tag, 0);
            NextElement(pre + t + post, tag, k) == if e == -1 then None else Some((at, |pre + t| + e))
  {
    hide IndexFrom, At;
    var head, doc, low := pre + t, pre + t + post, Lower(pre + t) + Lower(post);
    LowerConcat(pre, t);
    LowerConcat(head, post);
    BesideEnds(t, tag, end);
    var s := IndexFrom(Lower(pre), "<" + tag, k);
    IndexLeft(Lower(pre), Lower(t), "<" + tag, k);
    IndexLeft(Lower(head), Lower(post), "<" + tag, k);
    var gt := IndexFrom(pre, ">", s);
    if gt == -1 {
      var q := FirstIn(t, end);
      NoGt(pre, t, s, q);
      IndexLeft(head, post, ">", s);
      at := |pre| + q + 1;
    } else {
      IndexLeft(pre, t, ">", s);
      IndexLeft(head, post, ">", s);
      at := gt + 1;
    }
    NoClose(pre, t, tag, at);
    CloseBehind(head, post, tag, at);
  }

  /** The first bracket of inserted text comes before its end tag. */
  lemma FirstIn(t: string, end: string) returns (q: nat)
    requires |t| > |end| && exists i :: 0 <= i < |t| - |end| && t[i] == '>'
    ensures q < |t| - |end| && t[q] == '>' && forall i :: 0 <= i < q ==> t[i] != '>'
  {
    var i :| 0 <= i < |t| - |end| && t[i] == '>';
    q := 0;
    while t[q] != '>'
      invariant 0 <= q <= i && forall j :: 0 <= j < q ==> t[j] != '>'
      decreases i - q
    {
      q := q + 1;
    }
  }

  /** With none in `head` from `at` on, the next end tag is the first one behind it. */
  lemma CloseBehind(head: string, post: string, tag: string, at: nat)
    requires Mark("</" + tag) && head != "" && head[|head| - 1] == '>' && at <= |head|
    requires IndexFrom(Lower(head), "</" + tag, at) == -1
    ensures var e := IndexFrom(Lower(post), "</" + tag, 0);
            IndexFrom(Lower(head) + Lower(post), "</" + tag, at) == if e == -1 then -1 else |head| + e
  {
    hide IndexFrom, At;
    LowerMeets(head, post);
    forall i | at <= i < |head|
      ensures !At(Lower(head) + Lower(post), "</" + tag, i)
    {
      AtConcat(Lower(head), Lower(post), "</" + tag, i);
      NotBefore(Lower(post), "</" + tag, i - |head|);
    }
    IndexSkips(Lower(head) + Lower(post), "</" + tag, at, |head|);
    IndexRight(Lower(head), Lower(post), "</" + tag, 0);
  }

  /** A URL without `<` is read after the insertion if and only if it is read outside the element it falls into. */
  lemma InsertedReads(pre: string, t: string, post: string, tag: string, end: string, u: string)
    requires tag != "" && BracketFree(tag) && Beside(t, tag, end) && Meets(pre, post) && '<' !in u
    ensures u in Urls(pre + t + post, tag, 0) <==> u in ReadOutside(pre + post, |pre|, tag)
  {
    hide Urls, TailOf, Beside, BracketFree, Beyond;
    assert (pre + post)[..|pre|] == pre && (pre + post)[|pre|..] == post;
    if TailOf(pre, tag, 0) == Closed {
      BesideReads(pre, t, post, tag, end);
    } else {
      OpenReads(pre, t, post, tag, end, u);
    }
  }

  lemma OpenReads(pre: string, t: string, post: string, tag: string, end: string, u: string)
    requires tag != "" && BracketFree(tag) && Beside(t, tag, end) && TailOf(pre, tag, 0) != Closed && '<' !in u
    ensures u in Urls(pre + t + post, tag, 0) <==> u in Urls(pre, tag, 0) || u in Beyond(post, tag)
  {
    hide Urls, TailOf, Beside, BracketFree, NextElement, OpenAfter, Mark, Beyond, IndexFrom, EndTagShaped;
    OpeningMark(tag);
    var k := ScanLeft(pre, t + post, tag, 0);
    assert pre + (t + post) == pre + t + post;
    var at := CrossedElement(pre, t, post, tag, end, k);
    BesideTail(pre, t, tag, end);
    CrossedReads(pre + t, post, tag, end, k, at, u);
  }

  lemma BesideTail(pre: string, t: string, tag: string, end: string)
    requires Beside(t, tag, end)
    ensures EndTagShaped(end) && |pre + t| > |end| && (pre + t)[|pre + t| - |end|..] == end
  {
    assert (pre + t)[|pre + t| - |end|..] == t[|t| - |end|..];
  }

  lemma SplitContent(head: string, post: string, end: string, at: nat, e: nat)
    requires |head| >= |end| && head[|head| - |end|..] == end && at <= |head| - |end| && e <= |post|
    ensures (head + post)[at..|head| + e] == head[at..|head| - |end|] + end + post[..e]
  {
    var n := |head| - |end|;
    assert head == head[..n] + end;
    assert head[at..] == head[at..n] + end;
    assert (head + post)[at..|head| + e] == head[at..] + post[..e];
  }

  lemma CrossedReads(head: string, post: string, tag: string, end: string, k: nat, at: nat, u: string)
    requires EndTagShaped(end) && |head| > |end| && head[|head| - |end|..] == end && at <= |head| - |end| && '<' !in u
    requires var e := IndexFrom(Lower(post), "</" + tag, 0);
             k <= |head| && NextElement(head + post, tag, k) == if e == -1 then None else Some((at, |head| + e))
    ensures u in Urls(head + post, tag, k) <==> u in Beyond(post, tag)
  {
    hide NextElement, Unwrap, IndexFrom, EndTagShaped;
    var e := IndexFrom(Lower(post), "</" + tag, 0);
    if e != -1 {
      SplitContent(head, post, end, at, e);
      UnwrapKeeps(head[at..|head| - |end|], end, post[..e]);
      ScanRight(head, post, tag, e);
    }
  }

  // ---- impressions and beacons do not disturb each other

  /** Beacons without `<` in URL or event. */
  ghost predicate PlainEvents(events: seq<Tracking>) {
    forall i :: 0 <= i < |events| ==> '<' !in events[i].url && '<' !in events[i].event
  }

  /** The mark is not that of a `name` element, nor of a CDATA section. */
  ghost predicate OtherMark(name: string, pat: string) {
    && name != "" && name[0] != '/' && |pat| > 2 && Mark(pat)
    && if pat[1] == '/' then pat[2] != LowerChar(name[0]) else pat[1] != LowerChar(name[0]) && pat[1] != '!'
  }

  lemma ElementLacksMark(name: string, px: Pixel, pat: string)
    requires OtherMark(name, pat) && '<' !in name && '<' !in px.attrs && '<' !in px.url
    ensures Lacks(Lower(ElementOf(name, px)), pat)
  {
    hide Mark, Lacks, Lower;
    var start, body, close := "<" + name + px.attrs + ">", "<![CDATA[" + px.url + "]]>", "</" + name + ">";
    assert Piece(start) && Piece(body) && Piece(close);
    Differs(start, pat, 1);
    Differs(body, pat, 1);
    Differs(close, pat, if pat[1] == '/' then 2 else 1);
    PieceLacks(start, pat);
    PieceLacks(body, pat);
    PieceLacks(close, pat);
    LowerConcat(start, body);
    LowerMeets(start, body);
    LacksConcat(Lower(start), Lower(body), pat);
    LowerConcat(start + body, close);
    LowerMeets(start + body, close);
    LacksConcat(Lower(start + body), Lower(close), pat);
  }

  /** Pixels side by side, without `<` in what they carry. */
  ghost predicate PlainPixels(ps: seq<Pixel>) {
    forall i :: 0 <= i < |ps| ==> ps[i].lead == "" && '<' !in ps[i].attrs && '<' !in ps[i].url
  }

  lemma {:induction false} RunLacksMark(name: string, ps: seq<Pixel>, pat: string)
    requires OtherMark(name, pat) && '<' !in name && PlainPixels(ps)
    ensures Lacks(Lower(Elements(name, ps)), pat)
  {
    hide Mark, Lacks, ElementOf, Lower;
    if ps == [] {
      BracketFreeLacks("", pat);
    } else {
      var el, rest := ElementOf(name, ps[0]), Elements(name, ps[1..]);
      RunLacksMark(name, ps[1..], pat);
      ElementLacksMark(name, ps[0], pat);
      EndsWithGt(name, ps[0]);
      assert "" + el + rest == el + rest;
      LowerConcat(el, rest);
      LowerMeets(el, rest);
      LacksConcat(Lower(el), Lower(rest), pat);
    }
  }

  function BlockEnd(wrap: bool): string {
    if wrap then PARENT_END else "</Tracking>"
  }

  lemma ParentLacks(pat: string)
    requires OtherMark(NAME, pat)
    ensures Lacks(Lower(PARENT), pat) && Lacks(Lower(PARENT_END), pat)
  {
    hide Mark, Lacks, Lower;
    assert Piece(PARENT) && Piece(PARENT_END);
    Differs(PARENT, pat, 1);
    Differs(PARENT_END, pat, if pat[1] == '/' then 2 else 1);
    PieceLacks(PARENT, pat);
    PieceLacks(PARENT_END, pat);
  }

  lemma WrappedLacks(events: seq<Tracking>, wrap: bool, pat: string)
    requires PlainEvents(events) && events != [] && OtherMark(NAME, pat)
    ensures Lacks(Lower(Wrapped(Block(events), wrap)), pat)
  {
    hide Mark, Lacks, Lower, Block, Elements;
    var block := Block(events);
    BlockIsRun(events);
    RunLacksMark(NAME, AsPixels(events), pat);
    BlockBrackets(events);
    if wrap {
      ParentLacks(pat);
      LowerConcat(PARENT, block);
      LowerMeets(PARENT, block);
      LacksConcat(Lower(PARENT), Lower(block), pat);
      LowerConcat(PARENT + block, PARENT_END);
      LowerMeets(PARENT + block, PARENT_END);
      LacksConcat(Lower(PARENT + block), Lower(PARENT_END), pat);
    }
  }

  lemma ImpressionMarks()
    ensures Mark("<" + "impression") && Mark("</" + "impression") && BracketFree("impression")
    ensures OtherMark(NAME, "<" + "impression") && OtherMark(NAME, "</" + "impression")
  {
    assert ("<" + "impression")[1..] == "impression" && ("</" + "impression")[1..] == "/impression";
  }

  /** Text that begins with a tag and ends with an end tag behind another bracket. */
  ghost predicate TagText(t: string, end: string) {
    && t != "" && t[0] == '<' && EndTagShaped(end) && |t| > |end| && t[|t| - |end|..] == end
    && exists i :: 0 <= i < |t| - |end| && t[i] == '>'
  }

  lemma BesideText(t: string, tag: string, end: string)
    requires TagText(t, end) && Lacks(Lower(t), "<" + tag) && Lacks(Lower(t), "</" + tag)
    ensures Beside(t, tag, end)
  {
    hide Lacks, Lower;
  }

  /** A block of beacons neither opens nor closes an element of another name. */
  lemma BlockBeside(events: seq<Tracking>, wrap: bool, tag: string)
    requires PlainEvents(events) && events != [] && OtherMark(NAME, "<" + tag) && OtherMark(NAME, "</" + tag)
    ensures Beside(Wrapped(Block(events), wrap), tag, BlockEnd(wrap))
  {
    hide Lacks, Lower, OtherMark, TagText, Wrapped, Block, PlainEvents, Beside;
    WrappedLacks(events, wrap, "<" + tag);
    WrappedLacks(events, wrap, "</" + tag);
    BlockText(events, wrap);
    BesideText(Wrapped(Block(events), wrap), tag, BlockEnd(wrap));
  }

  lemma BlockText(events: seq<Tracking>, wrap: bool)
    requires events != []
    ensures TagText(Wrapped(Block(events), wrap), BlockEnd(wrap))
  {
    hide Block, Elements, AsPixels;
    BlockIsRun(events);
    RunText(NAME, AsPixels(events));
    var run, t := Block(events), Wrapped(Block(events), wrap);
    if wrap {
      assert t[15] == PARENT[15] == '>';
      assert t[|t| - 17..] == PARENT_END;
    } else {
      assert "</" + NAME + ">" == "</Tracking>";
    }
  }

  /** So does a run of impressions. */
  lemma RunBeside(ps: seq<Pixel>, tag: string)
    requires PlainPixels(ps) && ps != [] && OtherMark(IMP, "<" + tag) && OtherMark(IMP, "</" + tag)
    ensures Beside(Elements(IMP, ps), tag, "</Impression>")
  {
    hide Lacks, Lower, OtherMark, TagText, Elements, Beside;
    RunLacksMark(IMP, ps, "<" + tag);
    RunLacksMark(IMP, ps, "</" + tag);
    RunText(IMP, ps);
    assert "</" + IMP + ">" == "</Impression>";
    BesideText(Elements(IMP, ps), tag, "</Impression>");
  }

  lemma RunText(name: string, ps: seq<Pixel>)
    requires ps != [] && ps[0].lead == "" && name != "" && name[|name| - 1] != ']'
    ensures TagText(Elements(name, ps), "</" + name + ">")
  {
    hide Elements;
    RunEnd(name, ps);
    RunHasGt(name, ps);
    RunOpens(name, ps);
  }

  lemma RunOpens(name: string, ps: seq<Pixel>)
    requires ps != [] && ps[0].lead == ""
    ensures Elements(name, ps) != "" && Elements(name, ps)[0] == '<'
  {
    hide Contains;
  }

  lemma {:induction false} RunHasGt(name: string, ps: seq<Pixel>)
    requires ps != [] && ps[0].lead == ""
    ensures var run := Elements(name, ps);
            exists i :: 0 <= i < |run| - |name| - 3 && run[i] == '>'
  {
    hide Contains;
    var px, rest := ps[0], Elements(name, ps[1..]);
    var i := 1 + |name| + |px.attrs|;
    ElementParts(name, px);
    assert ElementOf(name, px)[i] == '>';
    assert Elements(name, ps)[i] == '>';
  }

  // ---- the merged document of a chain

  lemma TrimmedEnd(s: string)
    ensures TrimSpace(s) != "" ==> !IsSpace(TrimSpace(s)[|TrimSpace(s)| - 1])
  {
    hide Contains, IsSpace, TrimLeft;
  }

  lemma UnwrapTrimmed(raw: string)
    ensures Unwrap(raw) != "" ==> !IsSpace(Unwrap(raw)[|Unwrap(raw)| - 1])
  {
    hide TrimSpace, StripCData, IsSpace, Contains;
    TrimmedEnd(raw);
    if "<![CDATA[" <= TrimSpace(raw) {
      TrimmedEnd(StripCData(TrimSpace(raw)));
    }
  }

  /** Text inside a slice without the mark is without it. */
  lemma SliceLacks(doc: string, lo: nat, hi: nat, u: string, pat: string)
    requires lo <= hi <= |doc| && |pat| > 0 && Contains(doc[lo..hi], u) && forall i :: lo <= i < hi ==> !At(Lower(doc), pat, i)
    ensures Lacks(Lower(u), pat)
  {
    var s := doc[lo..hi];
    var j :| 0 <= j <= |s| && At(s, u, j);
    forall i
      ensures !At(Lower(u), pat, i)
    {
      if At(Lower(u), pat, i) {
        InSlice(doc, lo, hi, u, j, pat, i);
      }
    }
  }

  lemma InSlice(doc: string, lo: nat, hi: nat, u: string, j: int, pat: string, i: int)
    requires lo <= hi <= |doc| && |pat| > 0 && At(doc[lo..hi], u, j) && At(Lower(u), pat, i)
    ensures lo <= lo + j + i < hi && At(Lower(doc), pat, lo + j + i)
  {
    var n := lo + j + i;
    forall k | 0 <= k < |pat|
      ensures Lower(doc)[n + k] == pat[k]
    {
      AtChar(doc[lo..hi], u, j, j + i + k);
      AtChar(Lower(u), pat, i, i + k);
    }
    assert Lower(doc)[n..n + |pat|] == pat;
  }

  lemma ElementLacks(doc: string, tag: string, from: nat)
    requires from <= |doc| && NextElement(doc, tag, from).Some?
    ensures var el := NextElement(doc, tag, from).value;
            forall i :: el.0 <= i < el.1 ==> !At(Lower(doc), "</" + tag, i)
  {
    hide IndexFrom, At;
  }

  /** Every URL the scanner yields is one that it can read back. */
  lemma {:induction false} CollectedClean(doc: string, tag: string, from: nat, u: string)
    requires from <= |doc| && u in Urls(doc, tag, from)
    ensures CleanUrl(u, tag)
    decreases |doc| - from
  {
    hide NextElement, Unwrap, Contains, Lacks, IsSpace;
    var el := NextElement(doc, tag, from).value;
    var raw := doc[el.0..el.1];
    if u in IfHttp(Unwrap(raw)) {
      UnwrapTrimmed(raw);
      ElementLacks(doc, tag, from);
      SliceLacks(doc, el.0, el.1, u, "</" + tag);
    } else {
      CollectedClean(doc, tag, el.1, u);
    }
  }

  lemma {:induction false} AllCollectedClean(docs: seq<string>, tag: string, u: string)
    requires u in Collect(docs, tag)
    ensures CleanUrl(u, tag)
  {
    hide Urls, CleanUrl;
    var last := docs[|docs| - 1];
    if u in Urls(last, tag, 0) {
      CollectedClean(last, tag, 0, u);
    } else {
      AllCollectedClean(docs[..|docs| - 1], tag, u);
    }
  }

  function AsItems(urls: seq<string>): (r: seq<Item>)
    ensures |r| == |urls| && forall i :: 0 <= i < |r| ==> r[i] == Item(urls[i], "")
  {
    seq(|urls|, i requires 0 <= i < |urls| => Item(urls[i], ""))
  }

  lemma {:induction false} PixelsAreImpressions(doc: string, urls: seq<string>)
    ensures WithPixels(doc, AsItems(urls)) == WithImpressions(doc, urls)
  {
    hide InjectImpression;
    if urls != [] {
      var front := urls[..|urls| - 1];
      PixelsAreImpressions(doc, front);
      assert AsItems(urls)[..|urls| - 1] == AsItems(front);
    }
  }

  /** The impressions read after beacons were injected one after the other. */
  function ImpressionsBeside(doc: string, urls: seq<string>): seq<string> {
    if TrackingPoint(doc).None? || NewBeacons(doc, urls) == [] then Urls(doc, "impression", 0)
    else ReadOutside(doc, TrackingPoint(doc).value.0, "impression")
  }

  lemma {:induction false} NewBeaconsPlain(doc: string, urls: seq<string>)
    requires forall i :: 0 <= i < |urls| ==> '<' !in urls[i]
    ensures PlainEvents(NewBeacons(doc, urls))
  {
    hide Contains, WithTrackings;
    if urls != [] {
      NewBeaconsPlain(doc, urls[..|urls| - 1]);
    }
  }

  lemma BlockAsInsert(doc: string, p: nat, wrap: bool, events: seq<Tracking>)
    requires p <= |doc|
    ensures OneBlock(doc, p, wrap, events) == doc[..p] + Wrapped(Block(events), wrap) + doc[p..]
  {
    hide Block, Elements, AsPixels;
    BlockIsRun(events);
  }

  lemma BesideBeacons(doc: string, urls: seq<string>, u: string)
    requires '<' !in u && forall i :: 0 <= i < |urls| ==> '<' !in urls[i]
    ensures u in Urls(WithTrackings(doc, urls), "impression", 0) <==> u in ImpressionsBeside(doc, urls)
  {
    hide Urls, NewBeacons, WithTrackings, HasTrackingAnchor, TrackingPoint, OneBlock, Beside, ReadOutside, PlainEvents, Block;
    var events := NewBeacons(doc, urls);
    if TrackingPoint(doc).None? {
      NoAnchorNoBeacons(doc, urls);
    } else {
      var (p, wrap) := TrackingPoint(doc).value;
      BeaconsStand(doc, urls);
      if events != [] {
        NewBeaconsPlain(doc, urls);
        BlockAsInsert(doc, p, wrap, events);
        ImpressionMarks();
        BlockBeside(events, wrap, "impression");
        BoundaryMeets(doc, p);
        InsertedReads(doc[..p], Wrapped(Block(events), wrap), doc[p..], "impression", BlockEnd(wrap), u);
        assert doc[..p] + doc[p..] == doc;
      }
    }
  }

  lemma BoundaryMeets(doc: string, p: nat)
    requires TagBoundary(doc, p)
    ensures Meets(doc[..p], doc[p..])
  {
  }

  /**
   * What the scanner reads back from the merged document of any chain: the impressions of the last
   * document with all new collected ones at one point, less what a block of beacons falls into; and
   * the beacons with all new collected ones in one block, less the first if the block has a parent.
   */
  lemma MergedReadsBack(c: Chain)
    ensures var imps, tracks := Collect(c.wrappers, "impression"), Collect(c.wrappers, "tracking");
            var mid := WithImpressions(c.last, imps);
            && Urls(mid, "impression", 0) == ReadAfter(c.last, AsItems(imps))
            && Urls(Merged(c), "tracking", 0) == BeaconsAfter(mid, tracks)
            && ((forall i :: 0 <= i < |tracks| ==> '<' !in tracks[i]) ==>
                  forall u :: '<' !in u ==>
                    (u in Urls(Merged(c), "impression", 0) <==> u in ImpressionsBeside(mid, tracks)))
  {
    hide Urls, ReadAfter, BeaconsAfter, ImpressionsBeside, WithImpressions, WithTrackings, Collect, CleanUrl;
    var imps, tracks := Collect(c.wrappers, "impression"), Collect(c.wrappers, "tracking");
    var mid := WithImpressions(c.last, imps);
    forall i | 0 <= i < |imps|
      ensures CleanUrl(imps[i], "impression")
    {
      AllCollectedClean(c.wrappers, "impression", imps[i]);
    }
    forall i | 0 <= i < |tracks|
      ensures CleanUrl(tracks[i], TAG)
    {
      AllCollectedClean(c.wrappers, "tracking", tracks[i]);
    }
    PixelsAreImpressions(c.last, imps);
    ImpressionsReadBack(c.last, AsItems(imps));
    BeaconsReadBack(mid, tracks);
    if forall i :: 0 <= i < |tracks| ==> '<' !in tracks[i] {
      forall u | '<' !in u
        ensures u in Urls(Merged(c), "impression", 0) <==> u in ImpressionsBeside(mid, tracks)
      {
        BesideBeacons(mid, tracks, u);
      }
    }
  }
}
