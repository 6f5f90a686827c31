/** How the pixel scanner moves through a text that is put together from pieces. */
module Extraction {
  import opened Options
  import opened Text
  import opened WrapperChain

  // ---- occurrences in a concatenation

  /** A `<` and what follows it, up to but not including the next angle bracket. */
  ghost predicate Mark(pat: string) {
    |pat| >= 2 && pat[0] == '<' && BracketFree(pat[1..])
  }

  /** No mark runs across the border between `a` and `b`. */
  ghost predicate Meets(a: string, b: string) {
    a == "" || b == "" || a[|a| - 1] == '>' || b[0] == '<'
  }

  ghost predicate Lacks(text: string, pat: string) {
    forall i :: !At(text, pat, i)
  }

  lemma SplitChars(a: string, b: string, pat: string, i: nat)
    requires i < |a| < i + |pat| && At(a + b, pat, i)
    ensures b != "" && b[0] == pat[|a| - i] && a[|a| - 1] == pat[|a| - i - 1]
  {
    AtChar(a + b, pat, i, |a|);
    AtChar(a + b, pat, i, |a| - 1);
  }

  lemma AtLeft(a: string, b: string, pat: string, i: int)
    requires i + |pat| <= |a|
    ensures At(a + b, pat, i) <==> At(a, pat, i)
  {
    if 0 <= i {
      assert (a + b)[i..i + |pat|] == a[i..i + |pat|];
    }
  }

  lemma AtRight(a: string, b: string, pat: string, j: nat)
    ensures At(a + b, pat, |a| + j) <==> At(b, pat, j)
  {
    if j + |pat| <= |b| {
      assert (a + b)[|a| + j..|a| + j + |pat|] == b[j..j + |pat|];
    }
  }

  /** Where pieces meet at a tag, the occurrences of a mark are those of the pieces. */
  lemma AtConcat(a: string, b: string, pat: string, i: int)
    requires Mark(pat) && Meets(a, b)
    ensures At(a + b, pat, i) <==> At(a, pat, i) || At(b, pat, i - |a|)
  {
    assert forall k :: 0 < k < |pat| ==> pat[k] == pat[1..][k - 1];
    if i + |pat| <= |a| {
      AtLeft(a, b, pat, i);
    } else if i >= |a| {
      AtRight(a, b, pat, i - |a|);
    } else if At(a + b, pat, i) {
      SplitChars(a, b, pat, i);
    }
  }

  lemma LacksConcat(a: string, b: string, pat: string)
    requires Mark(pat) && Meets(a, b) && Lacks(a, pat) && Lacks(b, pat)
    ensures Lacks(a + b, pat)
  {
    forall i
      ensures !At(a + b, pat, i)
    {
      AtConcat(a, b, pat, i);
    }
  }

  /** Text that begins with its only `<`. */
  ghost predicate Piece(p: string) {
    |p| >= 2 && p[0] == '<' && forall i :: 0 < i < |p| ==> p[i] != '<'
  }

  lemma AtStart(s: string, pat: string, i: int)
    requires At(s, pat, i)
    ensures i == 0 ==> pat <= s
  {
  }

  /** A mark stands in a piece only at its start. */
  lemma PieceLacks(p: string, pat: string)
    requires Piece(p) && Mark(pat) && !(pat <= Lower(p))
    ensures Lacks(Lower(p), pat)
  {
    forall i
      ensures !At(Lower(p), pat, i)
    {
      if At(Lower(p), pat, i) {
        AtChar(Lower(p), pat, i, i);
        AtStart(Lower(p), pat, i);
      }
    }
  }

  lemma Differs(p: string, pat: string, k: nat)
    requires k < |p| && k < |pat| && LowerChar(p[k]) != pat[k]
    ensures !(pat <= Lower(p))
  {
    assert Lower(p)[k] != pat[k];
  }

  lemma LowerConcat(a: string, b: string)
    ensures Lower(a + b) == Lower(a) + Lower(b)
  {
  }

  lemma LowerMeets(a: string, b: string)
    requires Meets(a, b)
    ensures Meets(Lower(a), Lower(b))
  {
  }

  /** Bracket-free text holds no mark. */
  lemma BracketFreeLacks(text: string, pat: string)
    requires BracketFree(text) && Mark(pat)
    ensures Lacks(text, pat) && Lacks(Lower(text), pat)
  {
    forall i
      ensures !At(text, pat, i) && !At(Lower(text), pat, i)
    {
      if At(text, pat, i) {
        AtChars(text, pat, i);
      }
      if At(Lower(text), pat, i) {
        AtChars(Lower(text), pat, i);
      }
    }
  }

  lemma IndexIs(s: string, pat: string, from: nat, k: int)
    requires from <= k && At(s, pat, k)
    requires forall i :: from <= i < k ==> !At(s, pat, i)
    ensures IndexFrom(s, pat, from) == k
  {
  }

  lemma IndexNone(s: string, pat: string, from: nat)
    requires from <= |s| && forall i :: from <= i ==> !At(s, pat, i)
    ensures IndexFrom(s, pat, from) == -1
  {
  }

  /** What is found in `a` is found there in `a + b`. */
  lemma IndexLeft(a: string, b: string, pat: string, from: nat)
    requires from <= |a| && IndexFrom(a, pat, from) != -1
    ensures IndexFrom(a + b, pat, from) == IndexFrom(a, pat, from)
  {
    hide At, IndexFrom;
    var r := IndexFrom(a, pat, from);
    forall i | from <= i <= r
      ensures At(a + b, pat, i) <==> At(a, pat, i)
    {
      AtLeft(a, b, pat, i);
    }
    IndexIs(a + b, pat, from, r);
  }

  lemma IndexRight(a: string, b: string, pat: string, from: nat)
    requires from <= |b|
    ensures var r := IndexFrom(b, pat, from);
            IndexFrom(a + b, pat, |a| + from) == if r == -1 then -1 else |a| + r
  {
    hide At, IndexFrom;
    var r := IndexFrom(b, pat, from);
    forall i | |a| + from <= i
      ensures At(a + b, pat, i) <==> At(b, pat, i - |a|)
    {
      AtRight(a, b, pat, i - |a|);
    }
    if r == -1 {
      IndexNone(a + b, pat, |a| + from);
    } else {
      IndexIs(a + b, pat, |a| + from, |a| + r);
    }
  }

  lemma IndexSkips(s: string, pat: string, from: nat, p: nat)
    requires from <= p <= |s| && forall i :: from <= i < p ==> !At(s, pat, i)
    ensures IndexFrom(s, pat, from) == IndexFrom(s, pat, p)
  {
    hide At, IndexFrom;
    if IndexFrom(s, pat, p) == -1 {
      IndexNone(s, pat, from);
    } else {
      IndexIs(s, pat, from, IndexFrom(s, pat, p));
    }
  }

  // ---- where a scan of a text ends

  /** After its last complete element: nowhere, in a start tag, or in the content that begins at `at`. */
  datatype Tail = Closed | InTag | InContent(at: nat)

  function TailOf(doc: string, tag: string, from: nat): (t: Tail)
    requires from <= |doc|
    ensures t.InContent? ==> t.at <= |doc|
    decreases |doc| - from
  {
    var el := NextElement(doc, tag, from);
    if el.Some? then TailOf(doc, tag, el.value.1) else OpenAfter(doc, tag, from)
  }

  /** What is left open when no complete element follows `from`. */
  function OpenAfter(doc: string, tag: string, from: nat): (t: Tail)
    requires from <= |doc|
    ensures t.InContent? ==> t.at <= |doc|
  {
    var start := IndexFrom(Lower(doc), "<" + tag, from);
    if start == -1 then Closed
    else
      var gt := IndexFrom(doc, ">", start);
      if gt == -1 then InTag else InContent(gt + 1)
  }

  function Shifted(t: Tail, n: nat): Tail {
    if t.InContent? then InContent(n + t.at) else t
  }

  lemma NextLeft(a: string, b: string, tag: string, from: nat)
    requires from <= |a| && NextElement(a, tag, from).Some?
    ensures NextElement(a + b, tag, from) == NextElement(a, tag, from)
  {
    hide IndexFrom, At;
    LowerConcat(a, b);
    var start := IndexFrom(Lower(a), "<" + tag, from);
    var gt := IndexFrom(a, ">", start);
    IndexLeft(Lower(a), Lower(b), "<" + tag, from);
    IndexLeft(a, b, ">", start);
    IndexLeft(Lower(a), Lower(b), "</" + tag, gt + 1);
  }

  lemma NextRight(a: string, b: string, tag: string, from: nat)
    requires from <= |b|
    ensures var el := NextElement(b, tag, from);
            && NextElement(a + b, tag, |a| + from)
               == (if el.None? then None else Some((|a| + el.value.0, |a| + el.value.1)))
            && OpenAfter(a + b, tag, |a| + from) == Shifted(OpenAfter(b, tag, from), |a|)
  {
    hide IndexFrom, At;
    LowerConcat(a, b);
    var start := IndexFrom(Lower(b), "<" + tag, from);
    IndexRight(Lower(a), Lower(b), "<" + tag, from);
    if start != -1 {
      var gt := IndexFrom(b, ">", start);
      IndexRight(a, b, ">", start);
      if gt != -1 {
        IndexRight(Lower(a), Lower(b), "</" + tag, gt + 1);
      }
    }
  }

  /** Scanning `a + b` from the border on is scanning `b`. */
  lemma {:induction false} ScanRight(a: string, b: string, tag: string, from: nat)
    requires from <= |b|
    ensures Urls(a + b, tag, |a| + from) == Urls(b, tag, from)
    ensures TailOf(a + b, tag, |a| + from) == Shifted(TailOf(b, tag, from), |a|)
    decreases |b| - from
  {
    hide NextElement, Unwrap, OpenAfter;
    NextRight(a, b, tag, from);
    var el := NextElement(b, tag, from);
    if el.Some? {
      ScanRight(a, b, tag, el.value.1);
      assert (a + b)[|a| + el.value.0..|a| + el.value.1] == b[el.value.0..el.value.1];
    }
  }

  ghost predicate NoOpening(doc: string, tag: string, from: nat, p: nat) {
    forall i :: from <= i < p ==> !At(Lower(doc), "<" + tag, i)
  }

  lemma ScanSkips(doc: string, tag: string, from: nat, p: nat)
    requires from <= p <= |doc| && NoOpening(doc, tag, from, p)
    ensures Urls(doc, tag, from) == Urls(doc, tag, p) && TailOf(doc, tag, from) == TailOf(doc, tag, p)
  {
    hide Unwrap, IndexFrom, At;
    IndexSkips(Lower(doc), "<" + tag, from, p);
  }

  /** With no opening ahead there is nothing more to read. */
  lemma NothingAhead(doc: string, tag: string, from: nat)
    requires from <= |doc| && NoOpening(doc, tag, from, |doc|)
    ensures Urls(doc, tag, from) == [] && TailOf(doc, tag, from) == Closed
  {
    hide IndexFrom;
    forall i | from <= i
      ensures !At(Lower(doc), "<" + tag, i)
    {
    }
    IndexNone(Lower(doc), "<" + tag, from);
  }

  /** The scan of `a + b` reads what the scan of `a` reads and comes to where that one ends. */
  lemma {:induction false} ScanLeft(a: string, b: string, tag: string, from: nat) returns (k: nat)
    requires from <= |a|
    ensures from <= k <= |a| && NextElement(a, tag, k).None? && OpenAfter(a, tag, k) == TailOf(a, tag, from)
    ensures Urls(a + b, tag, from) == Urls(a, tag, from) + Urls(a + b, tag, k)
    ensures TailOf(a + b, tag, from) == TailOf(a + b, tag, k)
    decreases |a| - from
  {
    hide NextElement, Unwrap, OpenAfter;
    var el := NextElement(a, tag, from);
    if el.None? {
      k := from;
    } else {
      NextLeft(a, b, tag, from);
      assert (a + b)[el.value.0..el.value.1] == a[el.value.0..el.value.1];
      k := ScanLeft(a, b, tag, el.value.1);
    }
  }

  lemma ScanEnds(doc: string, tag: string, from: nat)
    requires from <= |doc| && NextElement(doc, tag, from).None?
    ensures Urls(doc, tag, from) == [] && TailOf(doc, tag, from) == OpenAfter(doc, tag, from)
  {
    hide NextElement, OpenAfter, Unwrap;
  }

  lemma ClosedMeans(doc: string, tag: string, from: nat)
    requires from <= |doc| && OpenAfter(doc, tag, from) == Closed
    ensures NoOpening(doc, tag, from, |doc|)
  {
    hide IndexFrom;
  }

  lemma OpeningMark(tag: string)
    requires tag != "" && BracketFree(tag)
    ensures Mark("<" + tag) && Mark("</" + tag)
  {
    assert ("<" + tag)[1..] == tag && ("</" + tag)[1..] == "/" + tag;
  }

  /** Texts that meet at a tag are read one after the other when the first leaves nothing open. */
  lemma ReadsBoth(a: string, b: string, tag: string)
    requires tag != "" && BracketFree(tag) && Meets(a, b) && TailOf(a, tag, 0) == Closed
    ensures Urls(a + b, tag, 0) == Urls(a, tag, 0) + Urls(b, tag, 0)
    ensures TailOf(a + b, tag, 0) == Shifted(TailOf(b, tag, 0), |a|)
  {
    hide Urls, TailOf, OpenAfter, NextElement, At, Lower;
    var k := ScanLeft(a, b, tag, 0);
    ClosedMeans(a, tag, k);
    OpeningMark(tag);
    NoOpeningLeft(a, b, tag, k);
    ScanSkips(a + b, tag, k, |a|);
    ScanRight(a, b, tag, 0);
  }

  lemma NoOpeningLeft(a: string, b: string, tag: string, from: nat)
    requires Mark("<" + tag) && Meets(a, b) && NoOpening(a, tag, from, |a|)
    ensures NoOpening(a + b, tag, from, |a|)
  {
    hide At;
    LowerConcat(a, b);
    LowerMeets(a, b);
    forall i | from <= i < |a|
      ensures !At(Lower(a + b), "<" + tag, i)
    {
      AtConcat(Lower(a), Lower(b), "<" + tag, i);
      assert i - |Lower(a)| < 0;
      NotBefore(Lower(b), "<" + tag, i - |a|);
    }
  }

  lemma NotBefore(s: string, pat: string, i: int)
    requires i < 0
    ensures !At(s, pat, i)
  {
  }

  /** No `tag` element opens in `text`. */
  ghost predicate OpensNone(text: string, tag: string) {
    Lacks(Lower(text), "<" + tag)
  }

  lemma NothingOpens(text: string, tag: string)
    requires OpensNone(text, tag)
    ensures Urls(text, tag, 0) == [] && TailOf(text, tag, 0) == Closed
  {
    hide At;
    NothingAhead(text, tag, 0);
  }

  lemma FirstGt(doc: string, p: nat, q: nat)
    requires p <= q < |doc| && doc[q] == '>' && forall i :: p <= i < q ==> doc[i] != '>'
    ensures IndexFrom(doc, ">", p) == q
  {
    hide IndexFrom;
    assert At(doc, ">", q);
    forall i | p <= i < q
      ensures !At(doc, ">", i)
    {
      if At(doc, ">", i) {
        AtChars(doc, ">", i);
      }
    }
    IndexIs(doc, ">", p, q);
  }
}
