/** The server's own pixels in a demand's document: what the player then reads of it. */
module Decoration {
  import opened Options
  import opened Text
  import opened VastInjection
  import opened WrapperChain
  import opened Extraction
  import opened PixelRoundTrip
  import opened MergedPixels
  import opened TagUri

  /** Our impression pixel, the billing pixel and our beacons, merged into a document. */
  function Decorate(vast: string, impressionURL: string, burl: string, events: seq<Tracking>): string {
    var v := InjectImpression(vast, impressionURL, "");
    var v' := if burl != "" then InjectImpression(v, burl, "burl") else v;
    InjectTracking(v', events)
  }

  function Items(impressionURL: string, burl: string): seq<Item> {
    [Item(impressionURL, ""), Item(burl, "burl")]
  }

  /** The document with our impression and the billing pixel, before the beacons. */
  function WithOurs(vast: string, impressionURL: string, burl: string): string {
    WithPixels(vast, Items(impressionURL, burl))
  }

  lemma DecorateIs(vast: string, impressionURL: string, burl: string, events: seq<Tracking>)
    ensures Decorate(vast, impressionURL, burl, events) == InjectTracking(WithOurs(vast, impressionURL, burl), events)
  {
    hide InjectTracking, Contains, ImpressionPoint;
    var one, two := Item(impressionURL, ""), Item(burl, "burl");
    assert [one, two][..1] == [one] && [one][..0] == [];
    assert WithPixels(vast, []) == vast;
    assert WithPixels(vast, [one]) == InjectImpression(vast, impressionURL, "");
  }

  /** A URL that the scanner can read and that holds no tag; an empty one stands for none. */
  ghost predicate PlainUrl(u: string) {
    u == "" || ("http" <= u && !IsSpace(u[|u| - 1]) && '<' !in u)
  }

  lemma PlainIsClean(u: string)
    requires PlainUrl(u) && u != ""
    ensures CleanUrl(u, "impression")
  {
    ImpressionMarks();
    forall i
      ensures !At(Lower(u), "</" + "impression", i)
    {
      NoMark(u, "</" + "impression", i);
    }
  }

  // ---- impressions

  /** The impression URLs of the decorated document, as far as they hold no tag. */
  function Shown(vast: string, impressionURL: string, burl: string, events: seq<Tracking>): seq<string> {
    var v := WithOurs(vast, impressionURL, burl);
    if BeaconText(v, events) == "" then ReadAfter(vast, Items(impressionURL, burl))
    else ReadOutside(v, TrackingPoint(v).value.0, "impression")
  }

  lemma {:induction false} FreshPlain(vast: string, events: seq<Tracking>)
    requires PlainEvents(events)
    ensures PlainEvents(Fresh(vast, events))
  {
    hide Contains;
    if events != [] {
      FreshPlain(vast, events[..|events| - 1]);
    }
  }

  lemma TrackingInserts(v: string, events: seq<Tracking>)
    ensures BeaconText(v, events) == "" ==> InjectTracking(v, events) == v
    ensures BeaconText(v, events) != "" ==>
              && TrackingPoint(v).Some? && Fresh(v, events) != []
              && var (q, wrap) := TrackingPoint(v).value;
                 InjectTracking(v, events) == v[..q] + Wrapped(Block(Fresh(v, events)), wrap) + v[q..]
  {
    hide TrackingPoint, Fresh, Block, Contains;
    if Fresh(v, events) != [] {
      BlockBrackets(Fresh(v, events));
    }
  }

  /** For every document: a URL without tags is read from the decorated one if and only if it is among those. */
  lemma ShownExactly(vast: string, impressionURL: string, burl: string, events: seq<Tracking>, u: string)
    requires PlainUrl(impressionURL) && PlainUrl(burl) && PlainEvents(events) && '<' !in u
    ensures u in Urls(Decorate(vast, impressionURL, burl, events), "impression", 0) <==> u in Shown(vast, impressionURL, burl, events)
  {
    hide Urls, ReadAfter, ReadOutside, TrackingPoint, BeaconText, InjectTracking, Decorate, Fresh, Block, PlainEvents, WithOurs,
      Beside, PlainUrl, CleanUrl;
    var v := WithOurs(vast, impressionURL, burl);
    DecorateIs(vast, impressionURL, burl, events);
    OursReadBack(vast, impressionURL, burl);
    TrackingInserts(v, events);
    if BeaconText(v, events) != "" {
      var (q, wrap) := TrackingPoint(v).value;
      FreshPlain(v, events);
      ImpressionMarks();
      BlockBeside(Fresh(v, events), wrap, "impression");
      BoundaryMeets(v, q);
      InsertedReads(v[..q], Wrapped(Block(Fresh(v, events)), wrap), v[q..], "impression", BlockEnd(wrap), u);
      assert v[..q] + v[q..] == v;
    }
  }

  lemma OursReadBack(vast: string, impressionURL: string, burl: string)
    requires PlainUrl(impressionURL) && PlainUrl(burl)
    ensures Urls(WithOurs(vast, impressionURL, burl), "impression", 0) == ReadAfter(vast, Items(impressionURL, burl))
  {
    hide Urls, ReadAfter, CleanUrl, PlainUrl;
    if impressionURL != "" {
      PlainIsClean(impressionURL);
    }
    if burl != "" {
      PlainIsClean(burl);
    }
    assert BracketFree("") && BracketFree("burl");
    ImpressionsReadBack(vast, Items(impressionURL, burl));
  }

  // ---- when no insertion falls into an impression

  /** Neither our pixels nor our beacons go inside an impression element. */
  ghost predicate Tidy(vast: string, impressionURL: string, burl: string, events: seq<Tracking>) {
    var v := WithOurs(vast, impressionURL, burl);
    && (ImpressionPoint(vast).Some? ==> TailOf(vast[..ImpressionPoint(vast).value], "impression", 0) == Closed)
    && (BeaconText(v, events) != "" ==> TailOf(v[..TrackingPoint(v).value.0], "impression", 0) == Closed)
  }

  lemma SplitReads(doc: string, p: nat)
    requires TagBoundary(doc, p) && TailOf(doc[..p], "impression", 0) == Closed
    ensures Urls(doc, "impression", 0) == Urls(doc[..p], "impression", 0) + Urls(doc[p..], "impression", 0)
            == ReadOutside(doc, p, "impression")
  {
    hide Urls, TailOf;
    ImpressionMarks();
    BoundaryMeets(doc, p);
    ReadsBoth(doc[..p], doc[p..], "impression");
    assert doc[..p] + doc[p..] == doc;
  }

  lemma TidyReadAfter(vast: string, items: seq<Item>, u: string)
    requires ImpressionPoint(vast).Some? ==> TailOf(vast[..ImpressionPoint(vast).value], "impression", 0) == Closed
    ensures u in ReadAfter(vast, items)
            <==> u in Urls(vast, "impression", 0) || (HasImpressionAnchor(vast) && u in UrlsOf(NewPixels(vast, items)))
  {
    hide Urls, TailOf, ImpressionPoint, HasImpressionAnchor, NewPixels;
    var p, ps := ImpressionPoint(vast), NewPixels(vast, items);
    ImpressionName();
    if p.Some? {
      SplitReads(vast, p.value);
      if ps != [] {
        assert ReadAs(vast[..p.value], IMP, ps[0]) == [ps[0].url];
      }
    }
  }

  /** Our pixels that are new: the impression unless it is there, the billing pixel unless it is by then. */
  lemma NewOurs(vast: string, impressionURL: string, burl: string, u: string)
    requires u != ""
    ensures u in UrlsOf(NewPixels(vast, Items(impressionURL, burl)))
            <==> || (u == impressionURL && !Contains(vast, u))
                 || (u == burl && !Contains(InjectImpression(vast, impressionURL, ""), u))
  {
    hide Contains, InjectImpression;
    var one, two := Item(impressionURL, ""), Item(burl, "burl");
    assert [one, two][..1] == [one] && [one][..0] == [];
    assert WithPixels(vast, []) == vast && NewPixels(vast, []) == [];
    assert WithPixels(vast, [one]) == InjectImpression(vast, impressionURL, "");
    var first := if impressionURL == "" || Contains(vast, impressionURL) then [] else [ImpressionPixel(impressionURL, "")];
    assert NewPixels(vast, [one]) == [] + first == first;
    var ps := NewPixels(vast, [one, two]);
    UrlsOfMember(ps, u);
  }

  lemma {:induction false} UrlsOfMember(ps: seq<Pixel>, u: string)
    ensures u in UrlsOf(ps) <==> exists i :: 0 <= i < |ps| && ps[i].url == u
  {
    if ps != [] {
      UrlsOfMember(ps[1..], u);
      if exists i :: 0 <= i < |ps| && ps[i].url == u {
        var i :| 0 <= i < |ps| && ps[i].url == u;
        if i > 0 {
          assert ps[1..][i - 1].url == u;
        }
      }
      if exists i :: 0 <= i < |ps[1..]| && ps[1..][i].url == u {
        var i :| 0 <= i < |ps[1..]| && ps[1..][i].url == u;
        assert ps[i + 1].url == u;
      }
    }
  }

  /**
   * The billing pixel, in every document: the player reads the billing URL if and only if it is among
   * those shown. In a tidy document that is if and only if the document had it as an impression, or
   * has an anchor for impressions and did not hold the URL in another way, inside a longer one for
   * example.
   */
  lemma BillingPixelExactly(vast: string, impressionURL: string, burl: string, events: seq<Tracking>)
    requires PlainUrl(impressionURL) && PlainUrl(burl) && PlainEvents(events) && burl != ""
    ensures var billed := burl in Urls(Decorate(vast, impressionURL, burl, events), "impression", 0);
            && (billed <==> burl in Shown(vast, impressionURL, burl, events))
            && (Tidy(vast, impressionURL, burl, events) ==>
                  (billed <==> || burl in Urls(vast, "impression", 0)
                               || (HasImpressionAnchor(vast) && NotYetHeld(vast, impressionURL, burl))))
  {
    hide Urls, TailOf, ImpressionPoint, TrackingPoint, HasImpressionAnchor, NewPixels, Decorate, BeaconText, WithOurs, InjectImpression,
      Contains, PlainEvents, ReadAfter, ReadOutside;
    var v := WithOurs(vast, impressionURL, burl);
    ShownExactly(vast, impressionURL, burl, events, burl);
    OursReadBack(vast, impressionURL, burl);
    TrackingInserts(v, events);
    if Tidy(vast, impressionURL, burl, events) {
      if BeaconText(v, events) != "" {
        SplitReads(v, TrackingPoint(v).value.0);
      }
      TidyReadAfter(vast, Items(impressionURL, burl), burl);
      NewOurs(vast, impressionURL, burl, burl);
    }
  }

  /** When its turn comes the billing URL stands nowhere in the document, or only because it is our impression's. */
  ghost predicate NotYetHeld(vast: string, impressionURL: string, burl: string) {
    !Contains(InjectImpression(vast, impressionURL, ""), burl) || (burl == impressionURL && !Contains(vast, burl))
  }

  /** It happens: a billing URL that is the beginning of an impression the document has is never read. */
  lemma HeldInLongerUrl(a: string, b: string)
    requires PlainUrl(a) && a != "" && PlainUrl(a + b) && b != ""
    ensures var vast := ElementOf("Impression", Pixel("", "", a + b));
            && HasImpressionAnchor(vast) && Contains(vast, a)
            && Decorate(vast, "", a, []) == vast && Urls(vast, "impression", 0) == [a + b]
  {
    hide Urls, TailOf, Contains, CleanUrl, ElementName;
    var px := Pixel("", "", a + b);
    var vast := ElementOf("Impression", px);
    PlainIsClean(a + b);
    ImpressionName();
    EmptyOpensNone("impression");
    NothingOpens("", "impression");
    ReadsPixel("", "Impression", px);
    assert "" + vast == vast;
    assert "" + a + b == a + b;
    ContainsByParts("", a, b);
    ContainsTrans(vast, a + b, a);
    ImpressionEnds(px);
    assert Fresh(vast, []) == [];
  }

  lemma ImpressionEnds(px: Pixel)
    ensures HasImpressionAnchor(ElementOf("Impression", px))
  {
    hide Contains;
    var el := ElementOf("Impression", px);
    ElementEnd("Impression", px);
    var n := |el| - 13;
    assert el[n..n + 13] == "</" + "Impression" + ">";
    LowerSlice(el, n, n + 13);
    assert Lower("</" + "Impression" + ">") == IMP_END;
    StandsAt(Lower(el), IMP_END, n);
    FoundAt(Lower(el), IMP_END, n);
  }

  // ---- the tag URI

  /** Our pixels and beacons go outside the tag URI element. */
  predicate UriUntouched(vast: string, impressionURL: string, burl: string, events: seq<Tracking>) {
    var v := WithOurs(vast, impressionURL, burl);
    && (v != vast && ImpressionPoint(vast).Some? ==> !InsideUri(vast, ImpressionPoint(vast).value))
    && (BeaconText(v, events) != "" ==> !InsideUri(v, TrackingPoint(v).value.0))
  }

  lemma {:induction false} NewPlain(vast: string, items: seq<Item>)
    requires forall i :: 0 <= i < |items| ==> '<' !in items[i].url && '<' !in items[i].id
    ensures PlainPixels(NewPixels(vast, items))
  {
    hide Contains, WithPixels;
    if items != [] {
      NewPlain(vast, items[..|items| - 1]);
    }
  }

  lemma OursUri(vast: string, impressionURL: string, burl: string, u: string)
    requires PlainUrl(impressionURL) && PlainUrl(burl) && u != "" && '<' !in u
    ensures var v := WithOurs(vast, impressionURL, burl);
            TagURI(v) == u <==>
            TagURI(vast) == u && (v != vast && ImpressionPoint(vast).Some? ==> !InsideUri(vast, ImpressionPoint(vast).value))
  {
    hide TagURI, ImpressionPoint, HasImpressionAnchor, NewPixels, InsideUri, WithPixels, Elements, Foreign;
    var items, at := Items(impressionURL, burl), ImpressionPoint(vast);
    if at.None? {
      NoAnchorNoPixels(vast, items);
    } else {
      var p, ps := at.value, NewPixels(vast, items);
      PixelsStand(vast, items);
      assert vast[..p] + vast[p..] == vast;
      if ps == [] {
        NoRun();
        assert vast[..p] + "" + vast[p..] == vast;
      } else {
        NewPlain(vast, items);
        RunForeign(ps);
        BoundaryMeets(vast, p);
        RunOpens(IMP, ps);
        assert WithPixels(vast, items) != vast by {
          assert |WithPixels(vast, items)| > |vast|;
        }
        InsertedUri(vast[..p], Elements(IMP, ps), vast[p..], "</Impression>", u);
      }
    }
  }

  lemma RunForeign(ps: seq<Pixel>)
    requires PlainPixels(ps) && ps != []
    ensures Foreign(Elements(IMP, ps), "</Impression>") && ps[0].lead == ""
  {
    hide Mark, Lacks, OtherMark, Elements;
    UriMarks();
    RunBeside(ps, URI_TAG);
    RunLacksMark(IMP, ps, WRAPPER);
  }

  lemma BlockForeign(events: seq<Tracking>, wrap: bool)
    requires PlainEvents(events) && events != []
    ensures Foreign(Wrapped(Block(events), wrap), BlockEnd(wrap))
  {
    hide Mark, Lacks, OtherMark, Block;
    UriMarks();
    BlockBeside(events, wrap, URI_TAG);
    WrappedLacks(events, wrap, WRAPPER);
  }

  /** A URI without tags is that of the decorated document if and only if it was, and nothing goes into its element. */
  lemma DecoratedUri(vast: string, impressionURL: string, burl: string, events: seq<Tracking>, u: string)
    requires PlainUrl(impressionURL) && PlainUrl(burl) && PlainEvents(events) && u != "" && '<' !in u
    ensures TagURI(Decorate(vast, impressionURL, burl, events)) == u
            <==> TagURI(vast) == u && UriUntouched(vast, impressionURL, burl, events)
  {
    hide TagURI, ImpressionPoint, TrackingPoint, InsideUri, WithOurs, Decorate, BeaconText, InjectTracking, Fresh, Block, PlainEvents,
      Foreign, PlainUrl;
    var v := WithOurs(vast, impressionURL, burl);
    DecorateIs(vast, impressionURL, burl, events);
    OursUri(vast, impressionURL, burl, u);
    TrackingInserts(v, events);
    if BeaconText(v, events) != "" {
      var (q, wrap) := TrackingPoint(v).value;
      FreshPlain(v, events);
      BlockForeign(Fresh(v, events), wrap);
      BoundaryMeets(v, q);
      InsertedUri(v[..q], Wrapped(Block(Fresh(v, events)), wrap), v[q..], BlockEnd(wrap), u);
      assert v[..q] + v[q..] == v;
    }
  }
}
