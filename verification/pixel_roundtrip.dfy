/** Reading pixels back from documents that hold them in the form in which they are injected. */
module PixelRoundTrip {
  import opened Options
  import opened Text
  import opened VastInjection
  import opened WrapperChain
  import opened Extraction

  /** One pixel element: the text in front of it, its attribute text and its URL. */
  datatype Pixel = Pixel(lead: string, attrs: string, url: string)

  function ElementOf(name: string, px: Pixel): string {
    Element(name, px.attrs, px.url)
  }

  /** The element without its end tag. */
  function Head(name: string, px: Pixel): string {
    "<" + name + px.attrs + ">" + ("<![CDATA[" + px.url + "]]>")
  }

  function Elements(name: string, ps: seq<Pixel>): string {
    if ps == [] then "" else ps[0].lead + ElementOf(name, ps[0]) + Elements(name, ps[1..])
  }

  function UrlsOf(ps: seq<Pixel>): seq<string> {
    if ps == [] then [] else [ps[0].url] + UrlsOf(ps[1..])
  }

  ghost predicate ElementName(name: string) {
    name != "" && name[0] != '/' && BracketFree(name) && ']' !in name
  }

  /** An absolute URL without a blank at its end and without the end tag of its element. */
  ghost predicate CleanUrl(u: string, tag: string) {
    "http" <= u && !IsSpace(u[|u| - 1]) && Lacks(Lower(u), "</" + tag)
  }

  ghost predicate CleanPixel(name: string, px: Pixel) {
    BracketFree(px.attrs) && CleanUrl(px.url, Lower(name))
  }

  ghost predicate Clean(name: string, ps: seq<Pixel>) {
    forall i :: 0 <= i < |ps| ==> CleanPixel(name, ps[i]) && OpensNone(ps[i].lead, Lower(name))
  }

  // ---- one pixel element

  /** `text` opens a `tag` element, ends its start tag at `q` and has no end tag. */
  ghost predicate Opener(text: string, tag: string, q: nat) {
    && At(Lower(text), "<" + tag, 0)
    && q < |text| && text[q] == '>' && (forall i :: 0 <= i < q ==> text[i] != '>')
    && Lacks(Lower(text), "</" + tag)
  }

  /** `text` begins with the end tag of a `tag` element and opens none. */
  ghost predicate Closer(text: string, tag: string) {
    At(Lower(text), "</" + tag, 0) && OpensNone(text, tag)
  }

  /** An occurrence of a mark needs its `<` and the character behind it. */
  lemma NoMark(text: string, pat: string, i: int)
    requires |pat| >= 2 && pat[0] == '<'
    requires 0 <= i < |text| ==> text[i] != '<' || (i + 1 < |text| && LowerChar(text[i + 1]) != pat[1])
    ensures !At(Lower(text), pat, i)
  {
    if At(Lower(text), pat, i) {
      AtChar(Lower(text), pat, i, i);
      AtChar(Lower(text), pat, i, i + 1);
    }
  }

  lemma StartsLower(text: string, pat: string)
    requires pat <= text
    ensures At(Lower(text), Lower(pat), 0)
  {
    assert Lower(text)[0..|pat|] == Lower(pat);
  }

  lemma CDataLacks(url: string, tag: string)
    requires Lacks(Lower(url), "</" + tag) && ']' !in tag
    ensures Lacks(Lower("<![CDATA[" + url + "]]>"), "</" + tag)
  {
    var open, shut, pat := "<![CDATA[", "]]>", "</" + tag;
    var body := open + url + shut;
    LowerConcat(open + url, shut);
    LowerConcat(open, url);
    forall i
      ensures !At(Lower(body), pat, i)
    {
      if i < 9 {
        assert 0 <= i ==> body[i] == open[i];
        NoMark(body, pat, i);
      } else if i + |pat| <= 9 + |url| {
        AtLeft(Lower(open + url), Lower(shut), pat, i);
        AtRight(Lower(open), Lower(url), pat, i - 9);
      } else {
        NoMarkAtEnd(body, pat, i, 9 + |url|);
      }
    }
  }

  lemma NoMarkAtEnd(body: string, pat: string, i: int, end: nat)
    requires |pat| >= 2 && pat[0] == '<' && ']' !in pat && end + 3 == |body| && body[end..] == "]]>"
    requires end < i + |pat|
    ensures !At(Lower(body), pat, i)
  {
    assert body[end] == body[end..][0] && body[end + 1] == body[end..][1] && body[end + 2] == body[end..][2];
    if At(Lower(body), pat, i) {
      AtChar(Lower(body), pat, i, if i <= end then end else i);
    }
  }

  lemma NameMarks(name: string)
    requires ElementName(name)
    ensures Lower(name) != "" && Lower(name)[0] != '/' && BracketFree(Lower(name)) && ']' !in Lower(name)
    ensures Mark("<" + Lower(name)) && Mark("</" + Lower(name))
  {
    OpeningMark(Lower(name));
  }

  /** The start tag and content of a pixel. */
  lemma HeadOpens(name: string, px: Pixel)
    requires ElementName(name) && CleanPixel(name, px)
    ensures Opener(Head(name, px), Lower(name), 1 + |name| + |px.attrs|)
  {
    hide At, IsSpace;
    var tag, start, body := Lower(name), "<" + name + px.attrs + ">", "<![CDATA[" + px.url + "]]>";
    NameMarks(name);
    StartsLower(Head(name, px), "<" + name);
    assert Lower("<" + name) == "<" + Lower(name);
    forall i
      ensures !At(Lower(start), "</" + tag, i)
    {
      if i == 0 {
        assert start[1] == name[0];
      }
      NoMark(start, "</" + tag, i);
    }
    CDataLacks(px.url, tag);
    LowerConcat(start, body);
    LacksConcat(Lower(start), Lower(body), "</" + tag);
  }

  lemma EndCloses(name: string)
    requires ElementName(name)
    ensures Closer("</" + name + ">", Lower(name))
  {
    hide At;
    var close := "</" + name + ">";
    StartsLower(close, "</" + name);
    assert Lower("</" + name) == "</" + Lower(name);
    forall i
      ensures !At(Lower(close), "<" + Lower(name), i)
    {
      NoMark(close, "<" + Lower(name), i);
    }
  }

  // ---- opening and closing behind any text

  lemma NoGt(a: string, b: string, s: nat, q: nat)
    requires s <= |a| && IndexFrom(a, ">", s) == -1 && q < |b| && b[q] == '>' && forall i :: 0 <= i < q ==> b[i] != '>'
    ensures IndexFrom(a + b, ">", s) == |a| + q
  {
    hide IndexFrom;
    forall i | s <= i < |a|
      ensures a[i] != '>'
    {
      assert !At(a, ">", i);
    }
    FirstGt(a + b, s, |a| + q);
  }

  /** Text that opens an element, behind a text whose scan ended at `k`: still nothing to read. */
  lemma OpensAt(pre: string, x: string, tag: string, q: nat, k: nat)
    requires Mark("<" + tag) && Mark("</" + tag) && Opener(x, tag, q)
    requires k <= |pre| && NextElement(pre, tag, k).None?
    ensures NextElement(pre + x, tag, k).None?
    ensures OpenAfter(pre + x, tag, k)
            == match OpenAfter(pre, tag, k)
               case InContent(at) => InContent(at)
               case _ => InContent(|pre| + q + 1)
  {
    hide IndexFrom, At;
    var doc, low := pre + x, Lower(pre) + Lower(x);
    LowerConcat(pre, x);
    OpenerStarts(x, tag, q);
    LowerMeets(pre, x);
    var s := IndexFrom(Lower(pre), "<" + tag, k);
    if s == -1 {
      NoOpeningLeft(pre, x, tag, k);
      AtRight(Lower(pre), Lower(x), "<" + tag, 0);
      IndexIs(low, "<" + tag, k, |pre|);
      FirstGt(doc, |pre|, |pre| + q);
      NoClose(pre, x, tag, |pre| + q + 1);
    } else {
      IndexLeft(Lower(pre), Lower(x), "<" + tag, k);
      var gt := IndexFrom(pre, ">", s);
      if gt == -1 {
        NoGt(pre, x, s, q);
        NoClose(pre, x, tag, |pre| + q + 1);
      } else {
        IndexLeft(pre, x, ">", s);
        NoClose(pre, x, tag, gt + 1);
      }
    }
  }

  lemma OpenerStarts(x: string, tag: string, q: nat)
    requires Opener(x, tag, q)
    ensures x != "" && x[0] == '<'
  {
    AtChar(Lower(x), "<" + tag, 0, 0);
  }

  lemma CloserStarts(x: string, tag: string)
    requires Closer(x, tag)
    ensures x != "" && x[0] == '<'
  {
    AtChar(Lower(x), "</" + tag, 0, 0);
  }

  lemma NoClose(pre: string, x: string, tag: string, at: nat)
    requires Mark("</" + tag) && Meets(pre, x) && at <= |pre + x| && Lacks(Lower(x), "</" + tag)
    requires at <= |pre| ==> IndexFrom(Lower(pre), "</" + tag, at) == -1
    ensures IndexFrom(Lower(pre) + Lower(x), "</" + tag, at) == -1
  {
    hide IndexFrom, At;
    LowerMeets(pre, x);
    forall i | at <= i
      ensures !At(Lower(pre) + Lower(x), "</" + tag, i)
    {
      AtConcat(Lower(pre), Lower(x), "</" + tag, i);
      if at > |pre| {
        NotBeyond(Lower(pre), "</" + tag, i);
      }
    }
    IndexNone(Lower(pre) + Lower(x), "</" + tag, at);
  }

  lemma NotBeyond(s: string, pat: string, i: int)
    requires i > |s|
    ensures !At(s, pat, i)
  {
  }

  /** An end tag behind a text that is in the content of an element completes that element. */
  lemma ClosesAt(pre: string, y: string, tag: string, k: nat)
    requires Mark("<" + tag) && Mark("</" + tag) && Closer(y, tag)
    requires k <= |pre| && NextElement(pre, tag, k).None? && OpenAfter(pre, tag, k).InContent?
    ensures var at := OpenAfter(pre, tag, k).at;
            && Urls(pre + y, tag, k) == IfHttp(Unwrap(pre[at..]))
            && TailOf(pre + y, tag, k) == Closed
  {
    hide IndexFrom, At, Unwrap;
    var at := OpenAfter(pre, tag, k).at;
    var s := IndexFrom(Lower(pre), "<" + tag, k);
    LowerConcat(pre, y);
    CloserStarts(y, tag);
    LowerMeets(pre, y);
    IndexLeft(Lower(pre), Lower(y), "<" + tag, k);
    IndexLeft(pre, y, ">", s);
    forall i | at <= i < |pre|
      ensures !At(Lower(pre) + Lower(y), "</" + tag, i)
    {
      AtConcat(Lower(pre), Lower(y), "</" + tag, i);
      NotBefore(Lower(y), "</" + tag, i - |pre|);
    }
    AtRight(Lower(pre), Lower(y), "</" + tag, 0);
    IndexIs(Lower(pre) + Lower(y), "</" + tag, at, |pre|);
    assert NextElement(pre + y, tag, k) == Some((at, |pre|));
    assert (pre + y)[at..|pre|] == pre[at..];
    ScanRight(pre, y, tag, 0);
    NothingOpens(y, tag);
  }

  // ---- one pixel behind any text

  lemma StripCDataOf(u: string)
    ensures StripCData("<![CDATA[" + u + "]]>") == u
  {
    hide Contains;
    var t := "<![CDATA[" + u + "]]>";
    assert t[|"<![CDATA["|..] == u + "]]>";
    assert (u + "]]>")[|u|..] == "]]>" && (u + "]]>")[..|u|] == u;
  }

  lemma UnwrapCData(u: string, tag: string)
    requires CleanUrl(u, tag)
    ensures Unwrap("<![CDATA[" + u + "]]>") == u
  {
    hide TrimSpace, StripCData, Contains, Lacks;
    var t := "<![CDATA[" + u + "]]>";
    assert t[0] == '<' && t[|t| - 1] == '>';
    assert TrimSpace(t) == t;
    StripCDataOf(u);
    assert TrimSpace(u) == u;
  }

  lemma ElementParts(name: string, px: Pixel)
    ensures ElementOf(name, px) == Head(name, px) + ("</" + name + ">")
  {
  }

  /**
   * What a pixel behind `pre` is read as: its URL, unless `pre` ends in the content of an element
   * of the name. That element then ends with the pixel, and what is read is its content.
   */
  function ReadAs(pre: string, name: string, px: Pixel): seq<string> {
    match TailOf(pre, Lower(name), 0)
    case InContent(at) => IfHttp(Unwrap(pre[at..] + Head(name, px)))
    case _ => [px.url]
  }

  lemma ReadsPixel(pre: string, name: string, px: Pixel)
    requires ElementName(name) && CleanPixel(name, px)
    ensures var tag, doc := Lower(name), pre + ElementOf(name, px);
            Urls(doc, tag, 0) == Urls(pre, tag, 0) + ReadAs(pre, name, px) && TailOf(doc, tag, 0) == Closed
  {
    hide Urls, TailOf, NextElement, OpenAfter, Unwrap, Opener, Closer, CleanPixel, Head, ElementOf, ElementName, Mark;
    var tag, head, close := Lower(name), Head(name, px), "</" + name + ">";
    NameMarks(name);
    ElementParts(name, px);
    assert pre + ElementOf(name, px) == (pre + head) + close;
    var q := 1 + |name| + |px.attrs|;
    HeadOpens(name, px);
    EndCloses(name);
    var k := ScanLeft(pre, head + close, tag, 0);
    assert pre + (head + close) == (pre + head) + close;
    OpensAt(pre, head, tag, q, k);
    ClosesAt(pre + head, close, tag, k);
    match TailOf(pre, tag, 0)
    case InContent(at) =>
      assert (pre + head)[at..] == pre[at..] + head;
    case _ =>
      HeadBody(name, px);
      assert (pre + head)[|pre| + q + 1..] == head[q + 1..];
  }

  lemma HeadBody(name: string, px: Pixel)
    requires CleanPixel(name, px)
    ensures 2 + |name| + |px.attrs| <= |Head(name, px)|
    ensures IfHttp(Unwrap(Head(name, px)[2 + |name| + |px.attrs|..])) == [px.url]
  {
    hide Unwrap, Lacks;
    var start, body := "<" + name + px.attrs + ">", "<![CDATA[" + px.url + "]]>";
    assert (start + body)[|start|..] == body;
    UnwrapCData(px.url, Lower(name));
  }

  lemma EndsWithGt(name: string, px: Pixel)
    ensures var el := ElementOf(name, px);
            |el| > 2 && el[0] == '<' && el[|el| - 1] == '>'
  {
  }

  // ---- runs of pixels

  /** A run of pixels is read back URL by URL, whatever stands between them. */
  lemma {:induction false} ReadsRun(name: string, ps: seq<Pixel>)
    requires ElementName(name) && Clean(name, ps)
    ensures Urls(Elements(name, ps), Lower(name), 0) == UrlsOf(ps)
    ensures TailOf(Elements(name, ps), Lower(name), 0) == Closed
  {
    hide Urls, TailOf, CleanPixel, ElementOf, OpensNone, Clean, ElementName, Mark, BracketFree;
    var tag := Lower(name);
    NameMarks(name);
    if ps == [] {
      EmptyOpensNone(tag);
      NothingOpens("", tag);
    } else {
      var px, rest := ps[0], Elements(name, ps[1..]);
      CleanParts(name, ps);
      NothingOpens(px.lead, tag);
      ReadsPixel(px.lead, name, px);
      EndsWithGt(name, px);
      ReadsRun(name, ps[1..]);
      ReadsBoth(px.lead + ElementOf(name, px), rest, tag);
    }
  }

  lemma EmptyOpensNone(tag: string)
    ensures OpensNone("", tag)
  {
  }

  lemma CleanParts(name: string, ps: seq<Pixel>)
    requires Clean(name, ps) && ps != []
    ensures CleanPixel(name, ps[0]) && OpensNone(ps[0].lead, Lower(name)) && Clean(name, ps[1..])
  {
    hide CleanPixel, OpensNone;
  }

  lemma ElementsSplit(pre: string, name: string, ps: seq<Pixel>)
    requires ps != []
    ensures pre + Elements(name, ps) == pre + ps[0].lead + ElementOf(name, ps[0]) + Elements(name, ps[1..])
  {
    hide ElementOf;
  }

  /** A run of pixels behind any text. */
  lemma ReadsBehind(pre: string, name: string, ps: seq<Pixel>)
    requires ElementName(name) && Clean(name, ps) && ps != []
    ensures var tag, doc := Lower(name), pre + Elements(name, ps);
            && Urls(doc, tag, 0)
               == Urls(pre + ps[0].lead, tag, 0) + ReadAs(pre + ps[0].lead, name, ps[0]) + UrlsOf(ps[1..])
            && TailOf(doc, tag, 0) == Closed
  {
    hide Urls, TailOf, Clean, CleanPixel, ElementOf, ReadAs, Elements, ElementName, UrlsOf, BracketFree;
    var tag, px := Lower(name), ps[0];
    var first := pre + px.lead + ElementOf(name, px);
    NameMarks(name);
    CleanParts(name, ps);
    ReadsPixel(pre + px.lead, name, px);
    EndsWithGt(name, px);
    ReadsRun(name, ps[1..]);
    ReadsBoth(first, Elements(name, ps[1..]), tag);
    ElementsSplit(pre, name, ps);
  }

  /** A run of pixels behind any text and before any text. */
  lemma ReadsAround(pre: string, name: string, ps: seq<Pixel>, post: string)
    requires ElementName(name) && Clean(name, ps) && ps != []
    ensures var tag, doc := Lower(name), pre + Elements(name, ps) + post;
            && Urls(doc, tag, 0)
               == Urls(pre + ps[0].lead, tag, 0) + ReadAs(pre + ps[0].lead, name, ps[0])
                  + UrlsOf(ps[1..]) + Urls(post, tag, 0)
            && TailOf(doc, tag, 0) == Shifted(TailOf(post, tag, 0), |pre + Elements(name, ps)|)
  {
    hide Urls, TailOf, Clean, ReadAs, Elements, ElementName, UrlsOf, BracketFree;
    NameMarks(name);
    ReadsBehind(pre, name, ps);
    EndsRun(name, ps);
    ReadsBoth(pre + Elements(name, ps), post, Lower(name));
  }

  lemma {:induction false} EndsRun(name: string, ps: seq<Pixel>)
    requires ps != []
    ensures var run := Elements(name, ps);
            run != "" && run[|run| - 1] == '>'
  {
    hide ElementOf;
    EndsWithGt(name, ps[0]);
    if |ps| > 1 {
      EndsRun(name, ps[1..]);
    } else {
      assert Elements(name, ps[1..]) == "";
    }
  }

  // ---- the TrackingEvents parent

  const PARENT := "<TrackingEvents>"
  const PARENT_END := "</TrackingEvents>"
  const NAME := "Tracking"
  const TAG := "tracking"

  lemma TrackingName()
    ensures ElementName(NAME) && Lower(NAME) == TAG && Mark("<" + TAG) && Mark("</" + TAG)
  {
    assert ElementName(NAME) && Lower(NAME) == TAG;
    NameMarks(NAME);
  }

  /** To the scanner the parent's start tag is the start tag of a pixel ... */
  lemma ParentOpens(lead: string)
    requires BracketFree(lead)
    ensures Opener(PARENT + lead, TAG, 15)
  {
    hide At;
    var x := PARENT + lead;
    TrackingName();
    StartsLower(x, "<Tracking");
    assert Lower("<Tracking") == "<" + TAG;
    forall i
      ensures !At(Lower(x), "</" + TAG, i)
    {
      if 0 <= i < 16 {
        assert x[i] == PARENT[i];
      }
      NoMark(x, "</" + TAG, i);
    }
    forall i | 0 <= i < 15
      ensures x[i] != '>'
    {
      assert x[i] == PARENT[i];
    }
    assert x[15] == PARENT[15];
  }

  /** ... and its end tag the end tag of one. */
  lemma ParentCloses()
    ensures Closer(PARENT_END, TAG)
  {
    hide At;
    StartsLower(PARENT_END, "</Tracking");
    assert Lower("</Tracking") == "</" + TAG;
    forall i
      ensures !At(Lower(PARENT_END), "<" + TAG, i)
    {
      NoMark(PARENT_END, "<" + TAG, i);
    }
  }

  /** Behind a parent's start tag the scan is in a content, one that began earlier if it already was. */
  lemma BehindParent(pre: string, lead: string)
    requires BracketFree(lead)
    ensures var doc := pre + (PARENT + lead);
            && Urls(doc, TAG, 0) == Urls(pre, TAG, 0)
            && TailOf(doc, TAG, 0)
               == match TailOf(pre, TAG, 0)
                  case InContent(at) => InContent(at)
                  case _ => InContent(|pre| + 16)
  {
    hide NextElement, OpenAfter, Opener, Urls, TailOf, Mark, ElementName, BracketFree;
    var x := PARENT + lead;
    TrackingName();
    ParentOpens(lead);
    var k := ScanLeft(pre, x, TAG, 0);
    OpensAt(pre, x, TAG, 15, k);
    ScanEnds(pre + x, TAG, k);
  }

  /** The text between a parent's start tag and the first end tag, read as a pixel's content. */
  lemma {:induction false} TrimLeftOf(lead: string, x: string)
    requires x != "" && !IsSpace(x[0])
    ensures TrimLeft(lead + x) == TrimLeft(lead) + x
  {
    if lead == "" {
      assert lead + x == x;
    } else {
      assert (lead + x)[1..] == lead[1..] + x;
      TrimLeftOf(lead[1..], x);
    }
  }

  lemma HeadShape(px: Pixel)
    ensures var x := Head(NAME, px);
            |x| > 2 && x[0] == '<' && x[1] == 'T' && x[|x| - 1] == '>'
  {
  }

  lemma NoCData(t: string)
    requires |t| >= 2 && (t[0] != '<' || t[1] == 'T')
    ensures !("<![CDATA[" <= t)
  {
    assert "<![CDATA["[0] == '<' && "<![CDATA["[1] == '!';
  }

  lemma TrimBehind(lead: string, x: string)
    requires x != "" && !IsSpace(x[0]) && !IsSpace(x[|x| - 1])
    ensures TrimSpace(lead + x) == TrimLeft(lead) + x
  {
    hide Contains;
    TrimLeftOf(lead, x);
  }

  /** Behind other text an element is no CDATA section; the text is trimmed on its left only. */
  lemma UnwrapBehind(lead: string, x: string)
    requires BracketFree(lead) && |x| > 2 && x[0] == '<' && x[1] == 'T' && x[|x| - 1] == '>'
    ensures Unwrap(lead + x) == TrimLeft(lead) + x
  {
    hide Unwrap, TrimSpace, TrimLeft;
    var lead' := TrimLeft(lead);
    TrimBehind(lead, x);
    LeftBracketFree(lead);
    assert lead' != "" ==> lead'[0] != '<';
    NoCData(lead' + x);
    UnwrapPlain(lead + x);
  }

  lemma LeftBracketFree(lead: string)
    requires BracketFree(lead)
    ensures BracketFree(TrimLeft(lead))
  {
    hide TrimLeft;
    var r := TrimLeft(lead);
    assert forall i :: 0 <= i < |r| ==> r[i] == lead[|lead| - |r| + i];
  }

  lemma UnwrapPlain(raw: string)
    requires !("<![CDATA[" <= TrimSpace(raw))
    ensures Unwrap(raw) == TrimSpace(raw)
  {
    hide TrimSpace, Contains, StripCData;
  }

  /** A parent's first pixel is lost, and nothing comes in its place unless text before it looks like a URL. */
  lemma ParentTakesFirst(lead: string, px: Pixel)
    requires BracketFree(lead)
    ensures var read := IfHttp(Unwrap(lead + Head(NAME, px)));
            if "http" <= TrimLeft(lead) then |read| == 1 && !BracketFree(read[0]) else read == []
  {
    hide Unwrap, Head, TrimLeft;
    HeadShape(px);
    UnwrapBehind(lead, Head(NAME, px));
    PrefixBefore(TrimLeft(lead), Head(NAME, px));
  }

  lemma PrefixBefore(y: string, x: string)
    requires x != "" && x[0] == '<'
    ensures !BracketFree(y + x) && ("http" <= y + x <==> "http" <= y)
  {
    var t := y + x;
    assert t[|y|] == '<';
    if "http" <= t {
      assert t[0] == 'h' && t[1] == 't' && t[2] == 't' && t[3] == 'p';
      assert y[..4] == t[..4];
    }
    if "http" <= y {
      assert t[..4] == y[..4];
    }
  }

  // ---- whole documents

  /** Pixels in the open, or a `TrackingEvents` block with the text before it and before its end. */
  datatype Segment = Run(ps: seq<Pixel>) | Events(before: string, ps: seq<Pixel>, trail: string)

  function SegmentText(g: Segment): string {
    match g
    case Run(ps) => Elements(NAME, ps)
    case Events(before, ps, trail) => before + PARENT + Elements(NAME, ps) + (trail + PARENT_END)
  }

  function DocumentText(gs: seq<Segment>, after: string): string {
    if gs == [] then after else SegmentText(gs[0]) + DocumentText(gs[1..], after)
  }

  /** What is read of a segment: all of a run, all but the first of a block. */
  function SegmentUrls(g: Segment): seq<string> {
    match g
    case Run(ps) => UrlsOf(ps)
    case Events(_, ps, trail) =>
      if ps == [] then IfHttp(Unwrap(trail))
      else IfHttp(Unwrap(ps[0].lead + Head(NAME, ps[0]))) + UrlsOf(ps[1..])
  }

  function DocumentUrls(gs: seq<Segment>): seq<string> {
    if gs == [] then [] else SegmentUrls(gs[0]) + DocumentUrls(gs[1..])
  }

  ghost predicate WellFormed(g: Segment) {
    && Clean(NAME, g.ps)
    && match g
       case Run(ps) => ps != []
       case Events(before, ps, trail) => OpensNone(before, TAG) && BracketFree(trail) && (ps != [] ==> BracketFree(ps[0].lead))
  }

  lemma NoParentEndUrls(trail: string, post: string)
    requires BracketFree(trail)
    ensures Urls(trail + PARENT_END + post, TAG, 0) == Urls(post, TAG, 0)
    ensures TailOf(trail + PARENT_END + post, TAG, 0) == Shifted(TailOf(post, TAG, 0), |trail + PARENT_END|)
  {
    hide Urls, TailOf, At, Mark, BracketFree;
    var x := trail + PARENT_END;
    TrackingName();
    ParentCloses();
    BracketFreeLacks(trail, "<" + TAG);
    LowerConcat(trail, PARENT_END);
    LowerMeets(trail, PARENT_END);
    LacksConcat(Lower(trail), Lower(PARENT_END), "<" + TAG);
    NothingOpens(x, TAG);
    TagIsName();
    ReadsBoth(x, post, TAG);
  }

  lemma TagIsName()
    ensures TAG != "" && BracketFree(TAG)
  {
  }

  /** A block that holds no pixel. */
  lemma EmptyBlock(before: string, trail: string)
    requires OpensNone(before, TAG) && BracketFree(trail)
    ensures var doc := before + PARENT + (trail + PARENT_END);
            Urls(doc, TAG, 0) == IfHttp(Unwrap(trail)) && TailOf(doc, TAG, 0) == Closed
  {
    hide NextElement, OpenAfter, Unwrap, Mark, Closer, OpensNone, Urls, TailOf, BracketFree;
    var pre := before + (PARENT + trail);
    TrackingName();
    NothingOpens(before, TAG);
    BehindParent(before, trail);
    ParentCloses();
    assert before + PARENT + (trail + PARENT_END) == pre + PARENT_END;
    var k := ScanLeft(pre, PARENT_END, TAG, 0);
    ClosesAt(pre, PARENT_END, TAG, k);
    assert pre[|before| + 16..] == trail;
  }

  lemma FullBlock(before: string, ps: seq<Pixel>, trail: string)
    requires WellFormed(Events(before, ps, trail)) && ps != []
    ensures var g := Events(before, ps, trail);
            Urls(SegmentText(g), TAG, 0) == SegmentUrls(g) && TailOf(SegmentText(g), TAG, 0) == Closed
  {
    hide Unwrap, Mark, OpensNone, Urls, TailOf, BracketFree, Elements, Head, UrlsOf, Clean;
    var pre, lead := before + PARENT, ps[0].lead;
    TrackingName();
    NothingOpens(before, TAG);
    BehindParent(before, lead);
    assert before + (PARENT + lead) == pre + lead;
    ReadsAround(pre, NAME, ps, trail + PARENT_END);
    assert (pre + lead)[|before| + 16..] == lead;
    NoParentEndUrls(trail, "");
    assert trail + PARENT_END + "" == trail + PARENT_END;
    EmptyOpensNone(TAG);
    NothingOpens("", TAG);
  }

  lemma ReadsSegment(g: Segment)
    requires WellFormed(g)
    ensures Urls(SegmentText(g), TAG, 0) == SegmentUrls(g) && TailOf(SegmentText(g), TAG, 0) == Closed
    ensures var t := SegmentText(g);
            t != "" && t[|t| - 1] == '>'
  {
    hide Unwrap, Urls, TailOf, Elements, UrlsOf;
    TrackingName();
    match g
    case Run(ps) =>
      ReadsRun(NAME, ps);
      EndsRun(NAME, ps);
    case Events(before, ps, trail) =>
      if ps == [] {
        assert Elements(NAME, ps) == "" by { NoElements(); }
        assert before + PARENT + "" + (trail + PARENT_END) == before + PARENT + (trail + PARENT_END);
        EmptyBlock(before, trail);
      } else {
        FullBlock(before, ps, trail);
      }
  }

  lemma NoElements()
    ensures Elements(NAME, []) == ""
  {
  }

  /**
   * A document is read segment by segment: every beacon in the open comes back, and of every
   * `TrackingEvents` block all but the first, because `<tracking` also matches the parent.
   */
  lemma {:induction false} ReadsDocument(gs: seq<Segment>, after: string)
    requires (forall i :: 0 <= i < |gs| ==> WellFormed(gs[i])) && OpensNone(after, TAG)
    ensures Urls(DocumentText(gs, after), TAG, 0) == DocumentUrls(gs)
  {
    hide Urls, TailOf, SegmentText, SegmentUrls, WellFormed;
    if gs == [] {
      NothingOpens(after, TAG);
    } else {
      ReadsSegment(gs[0]);
      ReadsDocument(gs[1..], after);
      TagIsName();
      ReadsBoth(SegmentText(gs[0]), DocumentText(gs[1..], after), TAG);
    }
  }

  // ---- when a pixel behind any text is read as itself

  /** A CDATA section that ends in `w` and begins before it keeps `w` but for its end mark. */
  lemma StripBehind(z: string, w: string)
    requires |w| > 4 && w[|w| - 3..] == "]]>"
    ensures StripCData("<![CDATA[" + z + w) == z + w[..|w| - 3]
  {
    hide Contains;
    var t, inner := "<![CDATA[" + z + w, z + w;
    assert t[9..] == inner;
    assert inner[|inner| - 3..] == w[|w| - 3..] && inner[..|inner| - 3] == z + w[..|w| - 3];
  }

  /** Text that ends in a whole pixel head never shrinks below it. */
  lemma UnwrapLong(y: string, w: string)
    requires |w| > 4 && w[0] == '<' && w[1] != '!' && w[|w| - 3..] == "]]>" && !IsSpace(w[|w| - 4])
    ensures |Unwrap(y + w)| >= |w| - 3
  {
    hide TrimSpace, TrimLeft, Contains, StripCData, IsSpace, Unwrap;
    var y' := TrimLeft(y);
    assert w[|w| - 1] == w[|w| - 3..][2];
    NotBlank();
    TrimBehind(y, w);
    if "<![CDATA[" <= y' + w {
      CDataBefore(y', w);
      var z, w' := y'[9..], w[..|w| - 3];
      assert y' + w == "<![CDATA[" + z + w;
      StripBehind(z, w);
      TrimBehind(z, w');
      UnwrapSection(y + w);
    } else {
      UnwrapPlain(y + w);
    }
  }

  lemma NotBlank()
    ensures !IsSpace('<') && !IsSpace('>')
  {
  }

  lemma UnwrapSection(raw: string)
    requires "<![CDATA[" <= TrimSpace(raw)
    ensures Unwrap(raw) == TrimSpace(StripCData(TrimSpace(raw)))
  {
    hide TrimSpace, Contains, StripCData;
  }

  lemma CDataBefore(y: string, w: string)
    requires |w| > 1 && w[0] == '<' && w[1] != '!' && "<![CDATA[" <= y + w
    ensures |y| >= 9 && y[..9] == "<![CDATA["
  {
    var t := y + w;
    assert forall i :: 0 <= i < 9 ==> t[i] == "<![CDATA["[i];
    assert t[|y|] == '<' && t[|y| + 1] != '!';
    assert y[..9] == t[..9];
  }

  lemma {:induction false} TrimRightOf(x: string, y: string)
    requires x != "" && !IsSpace(x[|x| - 1])
    ensures TrimRight(x + y) == x + TrimRight(y)
  {
    if y == "" {
      assert x + y == x;
    } else {
      assert (x + y)[..|x + y| - 1] == x + y[..|y| - 1];
      TrimRightOf(x, y[..|y| - 1]);
    }
  }

  lemma TrimLeftAround(x: string, c: string, y: string)
    requires c != "" && !IsSpace(c[0])
    ensures TrimLeft(x + c + y) == TrimLeft(x) + c + y
  {
    hide TrimLeft, IsSpace;
    assert (c + y)[0] == c[0];
    TrimLeftOf(x, c + y);
    Assoc(x, c, y);
    Assoc(TrimLeft(x), c, y);
  }

  lemma Assoc(x: string, y: string, z: string)
    ensures x + (y + z) == x + y + z
  {
  }

  lemma TrimAround(x: string, c: string, y: string)
    requires c != "" && !IsSpace(c[0]) && !IsSpace(c[|c| - 1])
    ensures TrimSpace(x + c + y) == TrimLeft(x) + c + TrimRight(y)
  {
    hide TrimSpace, TrimLeft, TrimRight, IsSpace;
    TrimSpaceIs(x + c + y);
    TrimLeftAround(x, c, y);
    var head := TrimLeft(x) + c;
    assert head[|head| - 1] == c[|c| - 1];
    TrimRightOf(head, y);
  }

  /** An end tag: text that no trimming and no CDATA mark reaches into. */
  ghost predicate EndTagShaped(c: string) {
    |c| >= 3 && c[0] == '<' && c[1] == '/' && c[|c| - 1] == '>' && c[|c| - 2] != ']'
  }

  lemma StripAround(z: string, c: string, y: string) returns (y': string)
    requires EndTagShaped(c)
    ensures StripCData("<![CDATA[" + z + c + y) == z + c + y'
  {
    hide Contains;
    var t, inner := "<![CDATA[" + z + c + y, z + c + y;
    assert t[9..] == inner;
    if |inner| >= 3 && inner[|inner| - 3..] == "]]>" {
      EndsBehind(z + c, c, y);
      y' := y[..|y| - 3];
      assert inner[..|inner| - 3] == z + c + y';
    } else {
      y' := y;
    }
  }

  lemma EndsBehind(x: string, c: string, y: string)
    requires EndTagShaped(c) && |x| >= |c| && x[|x| - |c|..] == c && |x + y| >= 3 && (x + y)[|x + y| - 3..] == "]]>"
    ensures |y| >= 3
  {
    var n := |x + y|;
    assert (x + y)[n - 2] == (x + y)[n - 3..][1] && (x + y)[n - 3] == (x + y)[n - 3..][0];
    assert x[|x| - 1] == x[|x| - |c|..][|c| - 1] && x[|x| - 2] == x[|x| - |c|..][|c| - 2];
  }

  /** Content that holds an end tag is never taken for a URL without brackets. */
  lemma UnwrapKeeps(x: string, c: string, y: string)
    requires EndTagShaped(c)
    ensures '<' in Unwrap(x + c + y)
  {
    hide TrimSpace, TrimLeft, TrimRight, StripCData, Unwrap, IsSpace;
    var x', y' := TrimLeft(x), TrimRight(y);
    NotBlank();
    TrimAround(x, c, y);
    var t := x' + c + y';
    assert t[|x'|] == '<';
    if "<![CDATA[" <= t {
      assert t == x' + (c + y');
      CDataBefore(x', c + y');
      var z := x'[9..];
      assert t == "<![CDATA[" + z + c + y';
      var y2 := StripAround(z, c, y');
      TrimAround(z, c, y2);
      assert (TrimLeft(z) + c + TrimRight(y2))[|TrimLeft(z)|] == '<';
      UnwrapSection(x + c + y);
    } else {
      UnwrapPlain(x + c + y);
    }
  }

  lemma HeadEnds(name: string, px: Pixel)
    requires ElementName(name) && CleanPixel(name, px) && name[0] != '!'
    ensures var w := Head(name, px);
            && |w| > |px.url| + 8 && w[0] == '<' && w[1] != '!' && w[|w| - 3..] == "]]>" && !IsSpace(w[|w| - 4])
  {
    hide Lacks;
  }

  /** A pixel behind `pre` is read as itself if and only if `pre` does not end in the content of an element. */
  lemma ReadAsExactly(pre: string, name: string, px: Pixel)
    requires ElementName(name) && CleanPixel(name, px) && name[0] != '!'
    ensures ReadAs(pre, name, px) == [px.url] <==> !TailOf(pre, Lower(name), 0).InContent?
  {
    hide Unwrap, Head, TailOf, ElementName, CleanPixel;
    HeadEnds(name, px);
    match TailOf(pre, Lower(name), 0)
    case InContent(at) => UnwrapLong(pre[at..], Head(name, px));
    case _ =>
  }

  lemma SameMiddle(a: seq<string>, x: seq<string>, y: seq<string>, b: seq<string>)
    requires a + x + b == a + y + b
    ensures x == y
  {
    assert |x| == |y|;
    assert x == (a + x + b)[|a|..|a| + |x|];
    assert y == (a + y + b)[|a|..|a| + |x|];
  }

  // ---- injecting impressions

  lemma ImpressionName()
    ensures ElementName("Impression") && Lower("Impression") == "impression"
  {
  }

  function ImpressionPixel(url: string, id: string): Pixel {
    Pixel("", if id != "" then " id=\"" + id + "\"" else "", url)
  }

  /**
   * Extracting the impressions right after injecting one: those before the insertion point, the new
   * one and those behind. The new one is missing if and only if the text before the insertion point
   * ends inside an impression.
   */
  lemma InjectImpressionThenExtract(vast: string, url: string, id: string)
    requires HasImpressionAnchor(vast) && !Contains(vast, url)
    requires CleanUrl(url, "impression") && BracketFree(id)
    ensures var p := ImpressionPoint(vast).value;
            var pre, post, r := vast[..p], vast[p..], InjectImpression(vast, url, id);
            && Urls(r, "impression", 0) == Urls(pre, "impression", 0)
               + ReadAs(pre, "Impression", ImpressionPixel(url, id)) + Urls(post, "impression", 0)
            && (Urls(r, "impression", 0) == Urls(pre, "impression", 0) + [url] + Urls(post, "impression", 0)
                <==> !TailOf(pre, "impression", 0).InContent?)
  {
    hide Urls, TailOf, ReadAs, ImpressionPoint, Contains, Lacks, ElementName, ElementOf;
    var p, px := ImpressionPoint(vast).value, ImpressionPixel(url, id);
    var pre, post, el := vast[..p], vast[p..], ElementOf("Impression", px);
    ImpressionName();
    assert CleanPixel("Impression", px);
    ReadsPixel(pre, "Impression", px);
    EndsWithGt("Impression", px);
    NameMarks("Impression");
    ReadsBoth(pre + el, post, "impression");
    InjectImpressionIs(vast, url, id);
    ReadAsExactly(pre, "Impression", px);
    var a, x, b := Urls(pre, "impression", 0), ReadAs(pre, "Impression", px), Urls(post, "impression", 0);
    if a + x + b == a + [url] + b {
      SameMiddle(a, x, [url], b);
    }
  }

  lemma InjectImpressionIs(vast: string, url: string, id: string)
    requires HasImpressionAnchor(vast) && url != "" && !Contains(vast, url)
    ensures var p := ImpressionPoint(vast).value;
            InjectImpression(vast, url, id) == vast[..p] + ElementOf("Impression", ImpressionPixel(url, id)) + vast[p..]
  {
    hide Element, ImpressionPoint, Contains;
  }

  // ---- injecting beacons

  function AsPixels(events: seq<Tracking>): (r: seq<Pixel>)
    ensures |r| == |events|
    ensures forall i :: 0 <= i < |r| ==> r[i] == Pixel("", " event=\"" + events[i].event + "\"", events[i].url)
  {
    seq(|events|, i requires 0 <= i < |events| => Pixel("", " event=\"" + events[i].event + "\"", events[i].url))
  }

  lemma {:induction false} ElementsAppend(name: string, ps: seq<Pixel>, px: Pixel)
    requires px.lead == ""
    ensures Elements(name, ps + [px]) == Elements(name, ps) + ElementOf(name, px)
  {
    hide ElementOf;
    if ps == [] {
      assert ps + [px] == [px] && Elements(name, [px][1..]) == "";
    } else {
      assert (ps + [px])[1..] == ps[1..] + [px];
      ElementsAppend(name, ps[1..], px);
    }
  }

  lemma {:induction false} BlockIsRun(events: seq<Tracking>)
    ensures Block(events) == Elements(NAME, AsPixels(events))
  {
    hide Element;
    if events != [] {
      var front, last := events[..|events| - 1], events[|events| - 1];
      BlockIsRun(front);
      var px := Pixel("", " event=\"" + last.event + "\"", last.url);
      assert AsPixels(events) == AsPixels(front) + [px];
      ElementsAppend(NAME, AsPixels(front), px);
    }
  }

  /** The next `>` behind an opening, when no end tag follows it: the last character or none. */
  lemma LastGt(pre: string, s: nat)
    requires |pre| >= 11 && At(Lower(pre), "</tracking>", |pre| - 11) && s < |pre|
    ensures var gt := IndexFrom(pre, ">", s);
            s <= gt && (gt > |pre| - 12 ==> gt == |pre| - 1)
  {
    hide IndexFrom, At, Lower;
    var n, gt := |pre| - 11, IndexFrom(pre, ">", s);
    AtChar(Lower(pre), "</tracking>", n, |pre| - 1);
    GtAt(pre, |pre| - 1);
    if n <= gt < |pre| - 1 {
      GtAt(pre, gt);
      AtChar(Lower(pre), "</tracking>", n, gt);
    }
  }

  /** A text that ends with a whole end tag leaves nothing open, or a start tag that swallowed that end tag. */
  lemma EndTail(pre: string)
    requires |pre| >= 11 && At(Lower(pre), "</tracking>", |pre| - 11)
    ensures TailOf(pre, TAG, 0) == Closed || TailOf(pre, TAG, 0) == InContent(|pre|)
  {
    hide Urls, TailOf, IndexFrom, At, Lower;
    var k := ScanLeft(pre, "", TAG, 0);
    AtPrefix(Lower(pre), "</tracking>", "</" + TAG, |pre| - 11);
    var s := IndexFrom(Lower(pre), "<" + TAG, k);
    if s != -1 {
      LastGt(pre, s);
    }
  }

  lemma GtAt(s: string, i: nat)
    requires i < |s|
    ensures At(s, ">", i) <==> s[i] == '>'
  {
  }

  lemma AtPrefix(s: string, pat: string, pre: string, i: int)
    requires At(s, pat, i) && pre <= pat
    ensures At(s, pre, i)
  {
    assert s[i..i + |pre|] == pat[..|pre|];
  }

  /** What stands before the injected block: the document up to the point, and the parent if one is added. */
  function BeforeBlock(vast: string, p: nat, wrap: bool): string
    requires p <= |vast|
  {
    vast[..p] + if wrap then PARENT else ""
  }

  lemma InjectTrackingIs(vast: string, events: seq<Tracking>)
    requires HasTrackingAnchor(vast) && Fresh(vast, events) != []
    ensures var (p, wrap) := TrackingPoint(vast).value;
            InjectTracking(vast, events)
            == BeforeBlock(vast, p, wrap) + Elements(NAME, AsPixels(Fresh(vast, events)))
               + BehindBlock(wrap, vast[p..])
  {
    hide TrackingPoint, Fresh, Block, Elements, AsPixels;
    BlockIsRun(Fresh(vast, events));
  }

  /** How the scan of the text before the insertion point ends decides about the parent or first pixel. */
  lemma BlockReads(vast: string)
    requires HasTrackingAnchor(vast)
    ensures var (p, wrap) := TrackingPoint(vast).value;
            var pre := BeforeBlock(vast, p, wrap);
            && Urls(pre, TAG, 0) == Urls(vast[..p], TAG, 0)
            && (TailOf(pre, TAG, 0).InContent? <==> wrap || TailOf(vast[..p], TAG, 0) != Closed)
            && (!wrap ==> TailOf(vast[..p], TAG, 0) == Closed || TailOf(vast[..p], TAG, 0) == InContent(p))
  {
    hide Urls, TailOf, TrackingPoint, At, LastEndsAt, HasTag, FirstAt;
    var (p, wrap) := TrackingPoint(vast).value;
    TrackingPlacement(vast);
    if wrap {
      BehindParent(vast[..p], "");
      assert PARENT + "" == PARENT;
    } else {
      LastEndsHere(vast, p);
      EndTail(vast[..p]);
      assert vast[..p] + "" == vast[..p];
    }
  }

  function BehindBlock(wrap: bool, post: string): string {
    (if wrap then PARENT_END else "") + post
  }

  lemma BehindBlockReads(wrap: bool, post: string)
    ensures Urls(BehindBlock(wrap, post), TAG, 0) == Urls(post, TAG, 0)
  {
    hide Urls;
    NoParentEndUrls("", post);
    assert "" + PARENT_END + post == PARENT_END + post;
    assert "" + post == post;
  }

  lemma LastEndsHere(vast: string, p: nat)
    requires p <= |vast| && LastEndsAt(vast, "</tracking>", p)
    ensures p >= 11 && At(Lower(vast[..p]), "</tracking>", p - 11)
  {
    assert vast == vast[..p] + vast[p..];
    LowerConcat(vast[..p], vast[p..]);
    AtLeft(Lower(vast[..p]), Lower(vast[p..]), "</tracking>", p - 11);
  }

  /**
   * Extracting the beacons right after injecting some, in any document: those before the insertion
   * point, what the first new one is read as, the other new ones and those behind the point.
   */
  lemma InjectThenExtract(vast: string, events: seq<Tracking>)
    requires HasTrackingAnchor(vast) && Fresh(vast, events) != [] && Clean(NAME, AsPixels(Fresh(vast, events)))
    ensures var (p, wrap) := TrackingPoint(vast).value;
            var ps := AsPixels(Fresh(vast, events));
            Urls(InjectTracking(vast, events), TAG, 0)
            == Urls(vast[..p], TAG, 0) + ReadAs(BeforeBlock(vast, p, wrap), NAME, ps[0])
               + UrlsOf(ps[1..]) + Urls(vast[p..], TAG, 0)
  {
    hide Urls, TailOf, TrackingPoint, Fresh, Clean, ReadAs, UrlsOf, Elements, InjectTracking, HasTrackingAnchor,
      BeforeBlock, BehindBlock;
    var (p, wrap) := TrackingPoint(vast).value;
    var ps, pre := AsPixels(Fresh(vast, events)), BeforeBlock(vast, p, wrap);
    InjectTrackingIs(vast, events);
    BlockReads(vast);
    BehindBlockReads(wrap, vast[p..]);
    ReadsBlock(pre, ps, BehindBlock(wrap, vast[p..]));
  }

  lemma ReadsBlock(pre: string, ps: seq<Pixel>, post: string)
    requires Clean(NAME, ps) && ps != [] && ps[0].lead == ""
    ensures Urls(pre + Elements(NAME, ps) + post, TAG, 0)
            == Urls(pre, TAG, 0) + ReadAs(pre, NAME, ps[0]) + UrlsOf(ps[1..]) + Urls(post, TAG, 0)
  {
    hide Urls, TailOf, Clean, ReadAs, UrlsOf, Elements, ElementName, Mark;
    TrackingName();
    ReadsAround(pre, NAME, ps, post);
    assert pre + "" == pre;
  }

  /**
   * All injected beacons come back if and only if they went behind an existing `</Tracking>` and the
   * scan of the text up to there leaves nothing open; otherwise the first one is lost.
   */
  lemma BeaconsReadBackExactly(vast: string, events: seq<Tracking>)
    requires HasTrackingAnchor(vast) && Fresh(vast, events) != [] && Clean(NAME, AsPixels(Fresh(vast, events)))
    ensures var (p, wrap) := TrackingPoint(vast).value;
            Urls(InjectTracking(vast, events), TAG, 0)
            == Urls(vast[..p], TAG, 0) + UrlsOf(AsPixels(Fresh(vast, events))) + Urls(vast[p..], TAG, 0)
            <==> HasTag(vast, "</tracking>") && TailOf(vast[..p], TAG, 0) == Closed
  {
    hide Urls, TailOf, TrackingPoint, Fresh, Clean, ReadAs, UrlsOf, InjectTracking, HasTrackingAnchor, HasTag,
      BeforeBlock, LastEndsAt, FirstAt;
    var (p, wrap) := TrackingPoint(vast).value;
    var ps, before := AsPixels(Fresh(vast, events)), BeforeBlock(vast, p, wrap);
    TrackingPlacement(vast);
    BlockReads(vast);
    InjectThenExtract(vast, events);
    FirstReadExactly(before, ps, Urls(vast[..p], TAG, 0), Urls(vast[p..], TAG, 0));
  }

  lemma FirstReadExactly(pre: string, ps: seq<Pixel>, a: seq<string>, b: seq<string>)
    requires Clean(NAME, ps) && ps != []
    ensures a + ReadAs(pre, NAME, ps[0]) + UrlsOf(ps[1..]) + b == a + UrlsOf(ps) + b
            <==> !TailOf(pre, TAG, 0).InContent?
  {
    hide TailOf, Clean, CleanPixel, ReadAs, ElementName, Mark;
    var x, u, rest := ReadAs(pre, NAME, ps[0]), [ps[0].url], UrlsOf(ps[1..]) + b;
    TrackingName();
    CleanParts(NAME, ps);
    ReadAsExactly(pre, NAME, ps[0]);
    assert a + x + UrlsOf(ps[1..]) + b == a + x + rest;
    assert a + UrlsOf(ps) + b == a + u + rest;
    if a + x + rest == a + u + rest {
      SameMiddle(a, x, u, rest);
    }
  }

  const DANGLING := "<tracking</tracking>"

  lemma DanglingTail()
    ensures Urls(DANGLING, TAG, 0) == [] && TailOf(DANGLING, TAG, 0) == InContent(20)
  {
    hide IndexFrom, At, Unwrap;
    StartsLower(DANGLING, "<tracking");
    assert Lower("<tracking") == "<" + TAG;
    IndexIs(Lower(DANGLING), "<" + TAG, 0, 0);
    FirstGt(DANGLING, 0, 19);
    forall i | 20 <= i
      ensures !At(Lower(DANGLING), "</" + TAG, i)
    {
      NoMark(DANGLING, "</" + TAG, i);
    }
    IndexNone(Lower(DANGLING), "</" + TAG, 20);
  }

  lemma DanglingPoint()
    ensures HasTag(DANGLING, "</tracking>") && HasTrackingAnchor(DANGLING) && TrackingPoint(DANGLING) == Some((20, false))
  {
    hide At, Contains, LastIndexFold;
    var x := "<tracking" + "</tracking>";
    LowerConcat("<tracking", "</tracking>");
    assert Lower("</tracking>") == "</tracking>";
    assert At("</tracking>", "</tracking>", 0) by {
      SelfAt("</tracking>");
    }
    AtRight(Lower("<tracking"), Lower("</tracking>"), "</tracking>", 0);
    assert x == DANGLING;
    assert At(Lower(DANGLING), "</tracking>", 9);
    FoundAt(Lower(DANGLING), "</tracking>", 9);
    assert LastIndexFold(DANGLING, "</tracking>") == 9;
  }

  lemma SelfAt(s: string)
    ensures At(s, s, 0)
  {
  }

  lemma FoundAt(s: string, pat: string, i: nat)
    requires At(s, pat, i)
    ensures Contains(s, pat)
  {
  }

  const BEACON := Tracking("start", "http://x")

  lemma BeaconFresh()
    ensures Fresh(DANGLING, [BEACON]) == [BEACON]
  {
    hide Contains;
    assert BEACON.url[4] == ':';
    CharMissing(DANGLING, BEACON.url, ':');
    assert [BEACON][..0] == [] && Fresh(DANGLING, []) == [];
  }

  lemma BeaconClean()
    ensures Clean(NAME, AsPixels([BEACON]))
  {
    hide Lacks;
    TrackingName();
    BracketFreeLacks(BEACON.url, "</" + TAG);
    EmptyOpensNone(TAG);
  }

  /** A start tag without `>` takes the end tag behind it for its own text, and the first new beacon with it. */
  lemma DanglingLosesFirst()
    ensures HasTag(DANGLING, "</tracking>") && Fresh(DANGLING, [BEACON]) == [BEACON]
    ensures Urls(InjectTracking(DANGLING, [BEACON]), TAG, 0) == []
  {
    hide Urls, TailOf, TrackingPoint, InjectTracking, HasTrackingAnchor, HasTag, Fresh, Head, Clean, Unwrap;
    var px := AsPixels([BEACON])[0];
    BeaconFresh();
    BeaconClean();
    DanglingPoint();
    DanglingTail();
    InjectThenExtract(DANGLING, [BEACON]);
    assert DANGLING[..20] == DANGLING && DANGLING[20..] == "";
    assert DANGLING + "" == DANGLING;
    TrackingName();
    ParentTakesFirst("", px);
    assert DANGLING[20..] + Head(NAME, px) == "" + Head(NAME, px);
    assert ReadAs(DANGLING, NAME, px) == [];
    EmptyOpensNone(TAG);
    NothingOpens("", TAG);
  }
}
