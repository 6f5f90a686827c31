/** A wrapper chain that loses a pixel it collected: the URL holds the anchor of a later injection. */
module TornUrl {
  import opened Options
  import opened Text
  import opened VastInjection
  import opened WrapperChain
  import opened Extraction
  import opened PixelRoundTrip
  import opened MergedPixels
  import TagUri

  const LINEAR := "</linear>"
  const LAST := "</InLine>"

  /** The collected impression URL is `a</linear>b`, the collected beacon `v`. */
  ghost predicate Parts(a: string, b: string, v: string) {
    && "http:" <= a && BracketFree(a) && BracketFree(b) && b != "" && !IsSpace(b[|b| - 1])
    && "http:" <= v && BracketFree(v) && !IsSpace(v[|v| - 1]) && '?' in v && '?' !in a && '?' !in b
  }

  function ImpressionPx(a: string, b: string): Pixel {
    Pixel("", "", a + LINEAR + b)
  }

  function BeaconPx(v: string): Pixel {
    Pixel("", " event=\"start\"", v)
  }

  function HeadText(): string {
    "<Wrapper>" + "<VASTAdTagURI>http://n" + "</VASTAdTagURI>"
  }

  function TheWrapper(a: string, b: string, v: string): string {
    HeadText() + ElementOf("Impression", ImpressionPx(a, b)) + ElementOf("Tracking", BeaconPx(v))
  }

  // ---- texts of a few pieces

  /** Pieces none of which starts with the mark. */
  lemma PairLacks(p: string, q: string, pat: string)
    requires Mark(pat) && Lacks(Lower(p), pat) && Piece(q) && !(pat <= Lower(q))
    ensures Lacks(Lower(p + q), pat)
  {
    hide Mark, Lacks;
    PieceLacks(q, pat);
    LowerConcat(p, q);
    LowerMeets(p, q);
    LacksConcat(Lower(p), Lower(q), pat);
  }

  lemma Marks()
    ensures Mark("<" + "impression") && Mark("</" + "impression") && Mark("<" + "tracking") && Mark("</" + "tracking")
    ensures Mark("</linear") && OtherMark(NAME, "</linear")
    ensures OtherMark(NAME, "<" + "impression") && OtherMark(NAME, "</" + "impression")
  {
    ImpressionMarks();
    TrackingName();
  }

  lemma HeadLacks(pat: string)
    requires Mark(pat) && |pat| > 2 && (pat[1] == 'i' || pat[1] == 't')
    ensures Lacks(Lower(HeadText()), pat)
  {
    hide Mark, Lacks, Lower;
    var x, y, z := "<Wrapper>", "<VASTAdTagURI>http://n", "</VASTAdTagURI>";
    assert Piece(x) && Piece(y) && Piece(z);
    Differs(x, pat, 1);
    Differs(y, pat, 1);
    Differs(z, pat, 1);
    PieceLacks(x, pat);
    PairLacks(x, y, pat);
    PairLacks(x + y, z, pat);
  }

  /** The text of the impression up to the anchor in its URL ... */
  function Front(a: string): string {
    "<Impression>" + ("<![CDATA[" + a)
  }

  /** ... and from there on. */
  function Back(b: string): string {
    LINEAR + b + "]]>" + "</Impression>"
  }

  lemma ImpressionIs(a: string, b: string)
    ensures ElementOf("Impression", ImpressionPx(a, b)) == Front(a) + Back(b)
  {
    hide Contains;
    assert "<" + "Impression" + "" + ">" == "<Impression>" && "</" + "Impression" + ">" == "</Impression>";
    assert "<![CDATA[" + (a + LINEAR + b) + "]]>" == ("<![CDATA[" + a) + (LINEAR + b + "]]>");
  }

  lemma FrontLacks(a: string, pat: string)
    requires BracketFree(a) && Mark(pat) && |pat| > 2 && (pat[1] == 't' || pat[1] == '/')
    ensures Lacks(Lower(Front(a)), pat)
  {
    hide Mark, Lacks, Lower;
    var x, y := "<Impression>", "<![CDATA[" + a;
    assert Piece(x) && Piece(y);
    Differs(x, pat, 1);
    Differs(y, pat, 1);
    PieceLacks(x, pat);
    PairLacks(x, y, pat);
  }

  lemma BackLacks(b: string, pat: string)
    requires BracketFree(b) && Mark(pat) && |pat| > 2 && (pat[1] == 't' || (pat[1] == '/' && pat[2] == 't'))
    ensures Lacks(Lower(Back(b)), pat)
  {
    hide Mark, Lacks, Lower;
    var x, y := LINEAR + b + "]]>", "</Impression>";
    assert Piece(x) && Piece(y);
    Differs(x, pat, if pat[1] == '/' then 2 else 1);
    Differs(y, pat, if pat[1] == '/' then 2 else 1);
    PieceLacks(x, pat);
    PairLacks(x, y, pat);
  }

  lemma BackMeets(a: string, b: string)
    ensures Meets(Front(a), Back(b)) && Back(b) != "" && Back(b)[0] == '<' && Back(b)[|Back(b)| - 1] == '>'
  {
  }

  // ---- what the chain collects

  lemma UrlClean(a: string, b: string, v: string)
    requires Parts(a, b, v)
    ensures CleanUrl(a + LINEAR + b, "impression") && CleanUrl(v, "tracking")
  {
    var u, pat := a + LINEAR + b, "</" + "impression";
    Marks();
    BracketFreeLacks(v, "</" + "tracking");
    BracketFreeLacks(a, pat);
    Differs(LINEAR + b, pat, 2);
    PairLacks(a, LINEAR + b, pat);
    assert u == a + (LINEAR + b);
    assert u[..4] == a[..4] == "http";
  }

  lemma WrapperUrls(a: string, b: string, v: string)
    requires Parts(a, b, v)
    ensures Urls(TheWrapper(a, b, v), "impression", 0) == [a + LINEAR + b]
    ensures Urls(TheWrapper(a, b, v), "tracking", 0) == [v]
  {
    hide Urls, TailOf, Element, Lacks, CleanUrl, Mark, ElementName, HeadText, Front, Back, Lower, BracketFree, OtherMark;
    var px, bx := ImpressionPx(a, b), BeaconPx(v);
    var head, imp, bea := HeadText(), ElementOf("Impression", px), ElementOf("Tracking", bx);
    Marks();
    UrlClean(a, b, v);
    ImpressionName();
    TrackingName();
    Words(v);
    HeadLacks("<" + "impression");
    NothingOpens(head, "impression");
    ReadsPixel(head, "Impression", px);
    ElementLacksMark(NAME, bx, "<" + "impression");
    NothingOpens(bea, "impression");
    EndsWithGt("Impression", px);
    ReadsBoth(head + imp, bea, "impression");
    HeadLacks("<" + "tracking");
    NothingOpens(head, "tracking");
    FrontLacks(a, "<" + "tracking");
    BackLacks(b, "<" + "tracking");
    ImpressionIs(a, b);
    BackMeets(a, b);
    LowerConcat(Front(a), Back(b));
    LowerMeets(Front(a), Back(b));
    LacksConcat(Lower(Front(a)), Lower(Back(b)), "<" + "tracking");
    NothingOpens(imp, "tracking");
    ReadsBoth(head, imp, "tracking");
    ReadsPixel(head + imp, "Tracking", bx);
  }

  lemma Words(v: string)
    requires BracketFree(v)
    ensures BracketFree("impression") && BracketFree("tracking") && '<' !in v && '<' !in " event=\"start\"" && '<' !in NAME
    ensures BracketFree("") && BracketFree(" event=\"start\"")
  {
  }

  /** The wrapper names another document. */
  lemma WrapperFollows(a: string, b: string, v: string)
    ensures TagURI(TheWrapper(a, b, v)) == "http://n"
  {
    hide TagURI, ElementOf;
    var open, close := "<VASTAdTagURI>", "</VASTAdTagURI";
    var post := ">" + ElementOf("Impression", ImpressionPx(a, b)) + ElementOf("Tracking", BeaconPx(v));
    assert Lower(open) == "<" + TagUri.URI_TAG + ">" && Lower(close) == "</" + TagUri.URI_TAG;
    WrapperTag();
    assert !IsSpace("http://n"[7]);
    TagUri.NamesUri("<Wrapper>", open, "http://n", close, post);
    assert HeadText() == "<Wrapper>" + (open + "http://n" + close) + ">";
    assert TheWrapper(a, b, v) == "<Wrapper>" + (open + "http://n" + close) + post;
  }

  lemma WrapperTag()
    ensures Contains(Lower("<Wrapper>"), TagUri.WRAPPER) && OpensNone("<Wrapper>", TagUri.URI_TAG)
  {
    TagUri.UriMarks();
    assert Lower("<Wrapper>") == "<wrapper>";
    assert At(Lower("<Wrapper>"), TagUri.WRAPPER, 0);
    Differs("<Wrapper>", "<" + TagUri.URI_TAG, 1);
    assert Piece("<Wrapper>");
    PieceLacks("<Wrapper>", "<" + TagUri.URI_TAG);
  }

  /** The document it names is no wrapper, and has an anchor for impressions. */
  lemma LastEnds()
    ensures TagURI(LAST) == "" && Usable(Body(LAST)) && HasImpressionAnchor(LAST) && ImpressionPoint(LAST) == Some(0)
  {
    hide IndexFrom, TrimSpace, At;
    TagUri.UriMarks();
    assert Piece(LAST) && Lower(LAST) == "</inline>";
    Differs(LAST, TagUri.WRAPPER, 1);
    PieceLacks(LAST, TagUri.WRAPPER);
    TagUri.LacksHolds(Lower(LAST), TagUri.WRAPPER);
    TagUri.TagURIIs(LAST);
    LastNotBlank(LAST);
    LastPoint();
  }

  lemma LastNotBlank(s: string)
    requires s == LAST
    ensures TrimSpace(s) != ""
  {
    hide TrimLeft, TrimRight, Contains;
  }

  lemma LastPoint()
    ensures HasImpressionAnchor(LAST) && ImpressionPoint(LAST) == Some(0)
  {
    hide LastIndexFold, IndexFold, Contains;
    assert Lower(LAST) == "</inline>";
    SelfAt("</inline>");
    FoundAt(Lower(LAST), "</inline>", 0);
    forall i | 0 <= i <= |LAST|
      ensures !At(Lower(LAST), "</impression>", i)
    {
      TooShort(Lower(LAST), "</impression>", i);
    }
    NotThere(Lower(LAST), "</impression>");
  }

  lemma TooShort(s: string, pat: string, i: int)
    requires |s| < |pat|
    ensures !At(s, pat, i)
  {
  }

  lemma NotThere(s: string, pat: string)
    requires forall i | 0 <= i <= |s| :: !At(s, pat, i)
    ensures !Contains(s, pat)
  {
  }

  // ---- the merge

  /** The document with the impression: the only `</linear>` in it is the one in the URL. */
  lemma MidMarks(a: string, b: string)
    requires BracketFree(a) && BracketFree(b)
    ensures var x, y := Front(a), Back(b) + LAST;
            && Lacks(Lower(x), "</linear") && LINEAR <= y && Lacks(Lower(y[1..]), "</linear")
            && Lacks(Lower(x + y), "</" + "tracking") && Meets(x, y)
  {
    hide Lacks, Mark, Lower, OtherMark, Front, Meets;
    var x, y := Front(a), Back(b) + LAST;
    Marks();
    FrontLacks(a, "</linear");
    FrontLacks(a, "</" + "tracking");
    BackLacks(b, "</" + "tracking");
    BackText(b);
    MeetsAt(x, y);
    LastLacks(b);
    LowerConcat(x, y);
    LowerMeets(x, y);
    LacksConcat(Lower(x), Lower(y), "</" + "tracking");
    TailLacks(b);
  }

  lemma BackText(b: string)
    ensures var y := Back(b) + LAST;
            LINEAR <= y && y[0] == '<' && y[1..] == "/linear>" + b + "]]>" + "</Impression>" + LAST
  {
    var y := Back(b) + LAST;
    assert y == LINEAR + (b + "]]>" + "</Impression>" + LAST);
    assert LINEAR[1..] == "/linear>";
    assert y[1..] == LINEAR[1..] + (b + "]]>" + "</Impression>" + LAST);
  }

  lemma MeetsAt(x: string, y: string)
    requires y != "" && y[0] == '<'
    ensures Meets(x, y)
  {
  }

  lemma LastLacks(b: string)
    requires Lacks(Lower(Back(b)), "</" + "tracking")
    ensures Lacks(Lower(Back(b) + LAST), "</" + "tracking")
  {
    hide Lacks, Mark, Lower, Back, OtherMark;
    Marks();
    assert Piece(LAST);
    Differs(LAST, "</" + "tracking", 2);
    PairLacks(Back(b), LAST, "</" + "tracking");
  }

  lemma TailLacks(b: string)
    requires BracketFree(b)
    ensures Lacks(Lower("/linear>" + b + "]]>" + "</Impression>" + LAST), "</linear")
  {
    hide Lower, Mark, OtherMark;
    var x := "/linear>" + b + "]]>";
    Marks();
    forall i
      ensures !At(Lower(x), "</linear", i)
    {
      if 0 <= i < 8 {
        assert x[i] == "/linear>"[i];
      } else if 8 + |b| <= i < |x| {
        assert x[i] == "]]>"[i - 8 - |b|];
      }
      NoMark(x, "</linear", i);
    }
    assert Piece("</Impression>") && Piece(LAST);
    Differs("</Impression>", "</linear", 2);
    Differs(LAST, "</linear", 2);
    PairLacks(x, "</Impression>", "</linear");
    PairLacks(x + "</Impression>", LAST, "</linear");
  }

  /** A `</linear` in `x` and `y` together can only be the one at the beginning of `y`. */
  lemma OnlyMark(x: string, y: string, p: int)
    requires Lacks(Lower(x), "</linear") && Meets(x, y) && y != "" && Lacks(Lower(y[1..]), "</linear")
    requires At(Lower(x + y), "</linear", p)
    ensures p == |x|
  {
    Marks();
    LowerConcat(x, y);
    LowerMeets(x, y);
    AtConcat(Lower(x), Lower(y), "</linear", p);
    if p > |x| {
      assert y == y[..1] + y[1..];
      LowerConcat(y[..1], y[1..]);
      AtRight(Lower(y[..1]), Lower(y[1..]), "</linear", p - |x| - 1);
    }
  }

  lemma NoTag(doc: string, tag: string, pat: string)
    requires Lacks(Lower(doc), pat) && pat <= tag
    ensures !HasTag(doc, tag)
  {
    forall i | 0 <= i <= |doc|
      ensures !At(Lower(doc), tag, i)
    {
      if At(Lower(doc), tag, i) {
        AtPrefix(Lower(doc), tag, pat, i);
      }
    }
  }

  lemma LinearAt(x: string, y: string)
    requires LINEAR <= y
    ensures At(Lower(x + y), LINEAR, |x|) && HasTag(x + y, LINEAR)
  {
    LowerConcat(x, y);
    assert Lower(y)[..9] == Lower(y[..9]) == LINEAR by {
      assert y[..9] == LINEAR && Lower(LINEAR) == LINEAR;
    }
    TagUri.StandsAt(Lower(y), LINEAR, 0);
    AtRight(Lower(x), Lower(y), LINEAR, 0);
    FoundAt(Lower(x + y), LINEAR, |x|);
  }

  /** So the beacon goes into the URL. */
  lemma MidPoint(a: string, b: string)
    requires BracketFree(a) && BracketFree(b)
    ensures var x, y := Front(a), Back(b) + LAST;
            TrackingPoint(x + y) == Some((|x|, true))
  {
    hide TrackingPoint, HasTag, At, Lacks, Lower, Front, Back;
    var x, y := Front(a), Back(b) + LAST;
    MidMarks(a, b);
    NoTag(x + y, "</tracking>", "</" + "tracking");
    LinearAt(x, y);
    TrackingPlacement(x + y);
    var p := TrackingPoint(x + y).value.0;
    AtPrefix(Lower(x + y), LINEAR, "</linear", p);
    OnlyMark(x, y, p);
  }

  lemma FirstMerge(a: string, b: string)
    requires "http:" <= a
    ensures InjectImpression(LAST, a + LINEAR + b, "") == Front(a) + (Back(b) + LAST)
  {
    hide Contains, ImpressionPoint, HasImpressionAnchor, TagURI, Usable, Front, Back;
    var u := a + LINEAR + b;
    assert u[4] == a[4] == "http:"[4] == ':' && ':' !in LAST;
    CharMissing(LAST, u, ':');
    LastEnds();
    InjectImpressionIs(LAST, u, "");
    ImpressionIs(a, b);
    assert LAST[..0] == "" && LAST[0..] == LAST;
  }

  lemma NoQuestion(a: string, b: string)
    requires '?' !in a && '?' !in b
    ensures '?' !in Front(a) + (Back(b) + LAST)
  {
  }

  lemma SecondMerge(a: string, b: string, v: string)
    requires Parts(a, b, v)
    ensures var x, y := Front(a), Back(b) + LAST;
            InjectTracking(x + y, [Tracking("start", v)]) == x + Wrapped(Block([Tracking("start", v)]), true) + y
  {
    hide Contains, TrackingPoint, Block, Fresh, BracketFree, IsSpace, HasTrackingAnchor;
    var x, y := Front(a), Back(b) + LAST;
    NoQuestion(a, b);
    CharMissing(x + y, v, '?');
    FreshOne(x + y, v);
    MidPoint(a, b);
    assert (x + y)[..|x|] == x && (x + y)[|x|..] == y;
  }

  /** Behind the insertion the anchor follows a `>`, and the URL's part before it does not end with one. */
  lemma Torn(a: string, b: string, x: string, z: string, y: string)
    requires BracketFree(a) && a != "" && z != "" && z[0] == '<' && z[|z| - 1] == '>' && y != "" && y[0] == '<'
    requires Lacks(Lower(x), "</linear") && Lacks(Lower(z), "</linear") && Lacks(Lower(y[1..]), "</linear")
    ensures !Contains(x + z + y, a + LINEAR + b)
  {
    hide Lower, Contains, At, Lacks;
    var r, u := x + z + y, a + LINEAR + b;
    Marks();
    LowerConcat(x, z);
    LowerMeets(x, z);
    LacksConcat(Lower(x), Lower(z), "</linear");
    forall i | 0 <= i <= |r|
      ensures !At(r, u, i)
    {
      if At(r, u, i) {
        UrlAt(r, a, b, i);
        OnlyMark(x + z, y, i + |a|);
      }
    }
    NotThere(r, u);
  }

  lemma UrlAt(r: string, a: string, b: string, i: nat)
    requires a != "" && BracketFree(a) && At(r, a + LINEAR + b, i)
    ensures i + |a| < |r| && r[i + |a| - 1] != '>' && At(Lower(r), "</linear", i + |a|)
  {
    var u, j := a + LINEAR + b, i + |a|;
    AtChar(r, u, i, j - 1);
    assert r[j..j + 8] == u[|a|..|a| + 8] by {
      assert r[i..i + |u|][|a|..|a| + 8] == r[j..j + 8];
    }
    assert u[|a|..|a| + 8] == "</linear";
    assert Lower("</linear") == "</linear";
    assert Lower(r)[j..j + 8] == Lower(r[j..j + 8]);
  }

  lemma MergedTorn(a: string, b: string, v: string)
    requires Parts(a, b, v)
    ensures var u := a + LINEAR + b;
            !Contains(InjectTracking(InjectImpression(LAST, u, ""), [Tracking("start", v)]), u)
  {
    hide Contains, InjectImpression, InjectTracking, Lacks, Lower, Block, Front, Back, OtherMark, Mark;
    var events := [Tracking("start", v)];
    Marks();
    FirstMerge(a, b);
    SecondMerge(a, b, v);
    MidMarks(a, b);
    BlockBrackets(events);
    Words(v);
    assert '<' !in "start";
    WrappedLacks(events, true, "</linear");
    Torn(a, b, Front(a), Wrapped(Block(events), true), Back(b) + LAST);
  }

  // ---- the chain

  lemma OneHop(w: string)
    requires TagURI(w) != "" && TagURI(LAST) == "" && Usable(Body(LAST))
    ensures Follow((_, _) => Body(LAST), w, 5, 0) == Chain([w], [TagURI(w)], LAST)
  {
    hide TagURI, Usable;
    assert Follow((_, _) => Body(LAST), LAST, 4, 1) == Chain([], [], LAST);
  }

  lemma MergedOne(w: string, uri: string, u: string, v: string)
    requires Urls(w, "impression", 0) == [u] && Urls(w, "tracking", 0) == [v]
    ensures Merged(Chain([w], [uri], LAST)) == InjectTracking(InjectImpression(LAST, u, ""), [Tracking("start", v)])
  {
    hide InjectImpression, InjectTracking, Urls;
    assert [w][..0] == [] && [u][..0] == [] && [v][..0] == [];
    assert Collect([], "impression") == [] && Collect([], "tracking") == [];
    assert Collect([w], "impression") == [u] && Collect([w], "tracking") == [v];
    assert WithImpressions(LAST, []) == LAST;
    var mid := InjectImpression(LAST, u, "");
    assert WithTrackings(mid, []) == mid;
  }

  /**
   * The wrapper's impression `a</linear>b` is collected and injected, and then torn apart by the
   * wrapper's beacon, whose anchor is the first `</linear>` of the merged document.
   */
  lemma MergeTearsUrl(a: string, b: string, v: string)
    requires Parts(a, b, v)
    ensures var u, w := a + LINEAR + b, TheWrapper(a, b, v);
            && Urls(w, "impression", 0) == [u] && HasImpressionAnchor(LAST)
            && var c := Follow((_, _) => Body(LAST), w, 5, 0);
               c.wrappers == [w] && c.last == LAST && !Contains(Merged(c), u)
  {
    hide Urls, TagURI, HasImpressionAnchor, Contains, TheWrapper, Usable, Merged, Follow, Parts, ImpressionPoint;
    WrapperUrls(a, b, v);
    WrapperFollows(a, b, v);
    LastEnds();
    OneHop(TheWrapper(a, b, v));
    MergedTorn(a, b, v);
    MergedOne(TheWrapper(a, b, v), "http://n", a + LINEAR + b, v);
  }

  /** In the same way one beacon of a list tears another one, and injecting the list again adds it anew. */
  lemma BeaconTearsBeacon(a: string, b: string, v: string)
    requires Parts(a, b, v)
    ensures var u := a + LINEAR + b;
            var events := [Tracking("start", u), Tracking("start", v)];
            var vast := InjectImpression(LAST, u, "");
            !NoneTorn(vast, events) && !Contains(InjectTracking(vast, events), u)
  {
    hide Contains, InjectImpression, InjectTracking, HasImpressionAnchor, TagURI, Usable, ImpressionPoint, NoneTorn;
    var u := a + LINEAR + b;
    LastEnds();
    MergedTorn(a, b, v);
    InjectImpressionAdds(LAST, u, "");
    Tears(InjectImpression(LAST, u, ""), u, v);
  }

  lemma Tears(doc: string, u: string, v: string)
    requires u != "" && Contains(doc, u) && !Contains(InjectTracking(doc, [Tracking("start", v)]), u)
    ensures var events := [Tracking("start", u), Tracking("start", v)];
            !NoneTorn(doc, events) && !Contains(InjectTracking(doc, events), u)
  {
    hide Contains, HasTrackingAnchor, Stays, TrackingPoint, Block;
    var eu, ev := Tracking("start", u), Tracking("start", v);
    var events := [eu, ev];
    assert events[..1] == [eu] && [eu][..0] == [] && [ev][..0] == [];
    assert Fresh(doc, []) == [] && Fresh(doc, [eu]) == [];
    assert Fresh(doc, events) == Fresh(doc, [ev]);
    InjectTrackingHoldsExactly(doc, events, u);
    assert eu in events;
  }
}
