/** The tag URI of a document, and what injections do to it. */
module TagUri {
  import opened Options
  import opened Text
  import opened VastInjection
  import opened WrapperChain
  import opened Extraction
  import opened PixelRoundTrip
  import opened MergedPixels

  const URI_TAG := "vastadtaguri"
  const WRAPPER := "<wrapper"

  lemma UriMarks()
    ensures BracketFree(URI_TAG) && URI_TAG != "" && Mark(WRAPPER) && Mark("<" + URI_TAG) && Mark("</" + URI_TAG)
    ensures OtherMark(NAME, "<" + URI_TAG) && OtherMark(NAME, "</" + URI_TAG) && OtherMark(NAME, WRAPPER)
    ensures OtherMark(IMP, "<" + URI_TAG) && OtherMark(IMP, "</" + URI_TAG) && OtherMark(IMP, WRAPPER)
  {
    OpeningMark(URI_TAG);
  }

  /** The tag URI is the content of the first element of its name, in a document with a wrapper. */
  lemma TagURIIs(doc: string)
    ensures TagURI(doc) == if !Contains(Lower(doc), WRAPPER) || NextElement(doc, URI_TAG, 0).None? then ""
                           else Unwrap(doc[NextElement(doc, URI_TAG, 0).value.0..NextElement(doc, URI_TAG, 0).value.1])
  {
    hide IndexFrom, Unwrap, Contains, TrimSpace;
    assert "<" + URI_TAG == "<vastadtaguri" && "</" + URI_TAG == "</vastadtaguri";
    var el := NextElement(doc, URI_TAG, 0);
    if el.Some? {
      TrimsOnce(doc[el.value.0..el.value.1]);
    }
  }

  lemma TrimmedStart(s: string)
    ensures TrimSpace(s) != "" ==> !IsSpace(TrimSpace(s)[0])
  {
    hide Contains, IsSpace;
    var l := TrimLeft(s);
    assert TrimRight(l) != "" ==> TrimRight(l)[0] == l[0];
  }

  lemma TrimsOnce(raw: string)
    ensures TrimSpace(Unwrap(raw)) == Unwrap(raw)
  {
    hide TrimSpace, StripCData, IsSpace, Contains;
    UnwrapTrimmed(raw);
    TrimmedStart(raw);
    if "<![CDATA[" <= TrimSpace(raw) {
      TrimmedStart(StripCData(TrimSpace(raw)));
    }
  }

  /** Inserted text that has nothing to do with tag URIs and wrappers. */
  ghost predicate Foreign(t: string, end: string) {
    Beside(t, URI_TAG, end) && Lacks(Lower(t), WRAPPER)
  }

  lemma WrapperStays(pre: string, t: string, post: string, end: string)
    requires Foreign(t, end) && Meets(pre, post)
    ensures Contains(Lower(pre + t + post), WRAPPER) <==> Contains(Lower(pre + post), WRAPPER)
  {
    hide Mark, Lower;
    UriMarks();
    BesideEnds(t, URI_TAG, end);
    LowerConcat(pre, post);
    LowerConcat(pre, t);
    LowerConcat(pre + t, post);
    LowerMeets(pre, post);
    LowerMeets(pre, t);
    LowerMeets(pre + t, post);
    MarkHolds(Lower(pre), Lower(post), WRAPPER);
    MarkHolds(Lower(pre), Lower(t), WRAPPER);
    MarkHolds(Lower(pre) + Lower(t), Lower(post), WRAPPER);
    LacksHolds(Lower(t), WRAPPER);
  }

  lemma LacksHolds(s: string, pat: string)
    requires Lacks(s, pat)
    ensures !Contains(s, pat)
  {
  }

  lemma MarkHolds(a: string, b: string, pat: string)
    requires Mark(pat) && Meets(a, b)
    ensures Contains(a + b, pat) <==> Contains(a, pat) || Contains(b, pat)
  {
    if Contains(a + b, pat) {
      var i :| 0 <= i <= |a + b| && At(a + b, pat, i);
      AtConcat(a, b, pat, i);
      if At(a, pat, i) {
        FoundAt(a, pat, i);
      } else {
        FoundAt(b, pat, i - |a|);
      }
    }
    if Contains(a, pat) {
      var i :| 0 <= i <= |a| && At(a, pat, i);
      AtConcat(a, b, pat, i);
      FoundAt(a + b, pat, i);
    }
    if Contains(b, pat) {
      var i :| 0 <= i <= |b| && At(b, pat, i);
      AtConcat(a, b, pat, i + |a|);
      FoundAt(a + b, pat, i + |a|);
    }
  }

  /** The point lies between the start tag and the end tag of the first tag URI element. */
  predicate InsideUri(doc: string, p: nat)
    requires p <= |doc|
  {
    NextElement(doc[..p], URI_TAG, 0).None? && OpenAfter(doc[..p], URI_TAG, 0) != Closed
  }

  /** Content of the element in the three documents. */
  function UriContent(doc: string): Option<string> {
    var el := NextElement(doc, URI_TAG, 0);
    if el.None? then None else Some(Unwrap(doc[el.value.0..el.value.1]))
  }

  lemma ContentBefore(pre: string, rest: string)
    requires NextElement(pre, URI_TAG, 0).Some?
    ensures UriContent(pre + rest) == UriContent(pre)
  {
    hide NextElement, Unwrap;
    NextLeft(pre, rest, URI_TAG, 0);
    var el := NextElement(pre, URI_TAG, 0).value;
    assert (pre + rest)[el.0..el.1] == pre[el.0..el.1];
  }

  /** With no element before it, the first one is that of the text behind. */
  lemma ContentBehind(pre: string, post: string)
    requires Meets(pre, post) && NoOpening(pre, URI_TAG, 0, |pre|)
    ensures UriContent(pre + post) == UriContent(post)
  {
    hide NextElement, Unwrap, At, Lower;
    UriMarks();
    NoOpeningLeft(pre, post, URI_TAG, 0);
    NextSkips(pre + post, |pre|);
    NextRight(pre, post, URI_TAG, 0);
    var el := NextElement(post, URI_TAG, 0);
    if el.Some? {
      assert (pre + post)[|pre| + el.value.0..|pre| + el.value.1] == post[el.value.0..el.value.1];
    }
  }

  lemma NextSkips(doc: string, p: nat)
    requires p <= |doc| && NoOpening(doc, URI_TAG, 0, p)
    ensures NextElement(doc, URI_TAG, 0) == NextElement(doc, URI_TAG, p)
  {
    hide IndexFrom, At;
    IndexSkips(Lower(doc), "<" + URI_TAG, 0, p);
  }

  /** An insertion outside the element leaves its content alone; inside, the content holds a bracket. */
  lemma ContentAfter(pre: string, t: string, post: string, end: string)
    requires Foreign(t, end) && Meets(pre, post)
    ensures var doc := pre + post;
            var c := UriContent(pre + t + post);
            if InsideUri(doc, |pre|) then c.Some? ==> '<' in c.value else c == UriContent(doc)
  {
    hide NextElement, Unwrap, Foreign, OpenAfter, Mark, UriContent, NoOpening, Lower;
    assert (pre + post)[..|pre|] == pre;
    UriMarks();
    assert Beside(t, URI_TAG, end) by {
      ForeignIsBeside(t, end);
    }
    BesideEnds(t, URI_TAG, end);
    BesideOpens(t, URI_TAG, end);
    assert pre + t + post == pre + (t + post);
    if NextElement(pre, URI_TAG, 0).Some? {
      ContentBefore(pre, t + post);
      ContentBefore(pre, post);
    } else if OpenAfter(pre, URI_TAG, 0) == Closed {
      ClosedMeans(pre, URI_TAG, 0);
      ContentBehind(pre, post);
      ContentBehind(pre, t + post);
      NoneOpens(t);
      ContentBehind(t, post);
    } else {
      CrossedContent(pre, t, post, end);
    }
  }

  lemma ForeignIsBeside(t: string, end: string)
    requires Foreign(t, end)
    ensures Beside(t, URI_TAG, end)
  {
  }

  lemma NoneOpens(t: string)
    requires OpensNone(t, URI_TAG)
    ensures NoOpening(t, URI_TAG, 0, |t|)
  {
  }

  lemma CrossedContent(pre: string, t: string, post: string, end: string)
    requires Beside(t, URI_TAG, end) && NextElement(pre, URI_TAG, 0).None? && OpenAfter(pre, URI_TAG, 0) != Closed
    ensures var c := UriContent(pre + t + post);
            c.Some? ==> '<' in c.value
  {
    hide NextElement, Unwrap, OpenAfter, Mark, Beside, IndexFrom, EndTagShaped;
    UriMarks();
    var head := pre + t;
    var at := CrossedElement(pre, t, post, URI_TAG, end, 0);
    BesideTail(pre, t, URI_TAG, end);
    var e := IndexFrom(Lower(post), "</" + URI_TAG, 0);
    if e != -1 {
      SplitContent(head, post, end, at, e);
      UnwrapKeeps(head[at..|head| - |end|], end, post[..e]);
    }
  }

  /** A tag URI without brackets is that of the document after an insertion if and only if it was and the point is outside. */
  lemma InsertedUri(pre: string, t: string, post: string, end: string, u: string)
    requires Foreign(t, end) && Meets(pre, post) && u != "" && '<' !in u
    ensures TagURI(pre + t + post) == u <==> TagURI(pre + post) == u && !InsideUri(pre + post, |pre|)
  {
    hide NextElement, Unwrap, Foreign, InsideUri, TagURI, Contains;
    TagURIIs(pre + post);
    TagURIIs(pre + t + post);
    WrapperStays(pre, t, post, end);
    ContentAfter(pre, t, post, end);
  }

  // ---- documents that name a URI

  /** A document that names a URI between the tags that stand for it. */
  lemma NamesUri(pre: string, open: string, u: string, close: string, post: string)
    requires Contains(Lower(pre), WRAPPER) && OpensNone(pre, URI_TAG)
    requires Lower(open) == "<" + URI_TAG + ">" && Lower(close) == "</" + URI_TAG
    requires "http" <= u && BracketFree(u) && !IsSpace(u[|u| - 1])
    ensures TagURI(pre + (open + u + close) + post) == u
  {
    hide Unwrap, NextElement, Mark, Lacks, BracketFree, TagURI, Contains, Lower, OpensNone, NoOpening, IsSpace;
    var x := open + u + close;
    NoneOpens(pre);
    OpenShape(open, close);
    assert Meets(pre, x + post);
    ContentBehind(pre, x + post);
    ElementHere(open, u, close, post);
    PlainUri(u);
    Assoc(pre, x, post);
    TagURIIs(pre + (x + post));
    HoldsBefore(pre, x + post);
  }

  lemma HoldsBefore(pre: string, rest: string)
    requires Contains(Lower(pre), WRAPPER)
    ensures Contains(Lower(pre + rest), WRAPPER)
  {
    hide Contains, Lower;
    LowerConcat(pre, rest);
    assert Lower(pre) + Lower(rest) == "" + Lower(pre) + Lower(rest);
    ContainsByParts("", Lower(pre), Lower(rest));
    ContainsTrans(Lower(pre) + Lower(rest), Lower(pre), WRAPPER);
  }

  lemma OpenShape(open: string, close: string)
    requires Lower(open) == "<" + URI_TAG + ">" && Lower(close) == "</" + URI_TAG
    ensures |open| == 14 && open[0] == '<' && open[13] == '>' && (forall i :: 0 <= i < 13 ==> open[i] != '>')
    ensures |close| == 14 && close[0] == '<'
  {
    assert Lower(open)[0] == '<' && Lower(open)[13] == '>' && Lower(close)[0] == '<';
    forall i | 0 <= i < 13
      ensures open[i] != '>'
    {
      assert Lower(open)[i] == ("<" + URI_TAG + ">")[i] != '>';
    }
  }

  lemma PlainUri(u: string)
    requires "http" <= u && !IsSpace(u[|u| - 1])
    ensures Unwrap(u) == u
  {
    hide TrimSpace, Contains;
    assert u[0] == 'h';
    assert TrimSpace(u) == u;
    UnwrapPlain(u);
  }

  /** Where the tags of the element stand. */
  lemma ElementMarks(open: string, u: string, close: string, post: string)
    requires Lower(open) == "<" + URI_TAG + ">" && Lower(close) == "</" + URI_TAG && |open| == 14 == |close|
    ensures var low := Lower(open + u + close + post);
            At(low, "<" + URI_TAG, 0) && At(low, "</" + URI_TAG, 14 + |u|)
  {
    hide Lower;
    LowerConcat(open, u);
    LowerConcat(open + u, close);
    LowerConcat(open + u + close, post);
    var low := Lower(open) + Lower(u) + Lower(close) + Lower(post);
    assert |Lower(open)| == 14 && |Lower(u)| == |u| && |Lower(close)| == 14;
    assert low[0..13] == Lower(open)[0..13] == "<" + URI_TAG;
    assert low[14 + |u|..14 + |u| + 14] == Lower(close);
    StandsAt(low, "<" + URI_TAG, 0);
    StandsAt(low, "</" + URI_TAG, 14 + |u|);
  }

  lemma ElementHere(open: string, u: string, close: string, post: string)
    requires Lower(open) == "<" + URI_TAG + ">" && Lower(close) == "</" + URI_TAG && BracketFree(u)
    ensures UriContent(open + u + close + post) == Some(Unwrap(u))
  {
    hide Unwrap, IndexFrom, At, Lower;
    var doc, n := open + u + close + post, 14 + |u|;
    OpenShape(open, close);
    ElementMarks(open, u, close, post);
    IndexIs(Lower(doc), "<" + URI_TAG, 0, 0);
    forall i | 0 <= i < 13
      ensures doc[i] != '>'
    {
      assert doc[i] == open[i];
    }
    FirstGt(doc, 0, 13);
    forall i | 14 <= i < n
      ensures !At(Lower(doc), "</" + URI_TAG, i)
    {
      assert doc[i] == u[i - 14];
      NoMark(doc, "</" + URI_TAG, i);
    }
    IndexIs(Lower(doc), "</" + URI_TAG, 14, n);
    assert doc[14..n] == u;
  }

  lemma StandsAt(s: string, pat: string, i: nat)
    requires i + |pat| <= |s| && s[i..i + |pat|] == pat
    ensures At(s, pat, i)
  {
  }
}
