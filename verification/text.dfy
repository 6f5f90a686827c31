/** ASCII text and the handful of Go string operations that the VAST code is written with. */
module Text {

  function LowerChar(c: char): (r: char)
    ensures r == '<' <==> c == '<'
    ensures r == '>' <==> c == '>'
  {
    if 'A' <= c <= 'Z' then (c as int + 32) as char else c
  }

  /** `strings.ToLower` on ASCII: indices of the result and of the argument agree. */
  function Lower(s: string): (r: string)
    ensures |r| == |s|
    ensures forall i :: 0 <= i < |s| ==> r[i] == LowerChar(s[i])
  {
    seq(|s|, i requires 0 <= i < |s| => LowerChar(s[i]))
  }

  /** `pat` stands in `s` at index `i`. */
  predicate At(s: string, pat: string, i: int) {
    0 <= i <= |s| - |pat| && s[i..i + |pat|] == pat
  }

  predicate Contains(s: string, pat: string) {
    exists i | 0 <= i <= |s| :: At(s, pat, i)
  }

  /** `from + strings.Index(s[from:], pat)`, or -1: the first occurrence at or after `from`. */
  function IndexFrom(s: string, pat: string, from: nat): (r: int)
    requires from <= |s|
    ensures r == -1 || from <= r <= |s| - |pat|
    ensures r != -1 ==> At(s, pat, r)
    ensures forall i :: from <= i && (r == -1 || i < r) ==> !At(s, pat, i)
    decreases |s| - from
  {
    if At(s, pat, from) then from
    else if from == |s| then -1
    else IndexFrom(s, pat, from + 1)
  }

  /** The last occurrence at or before `upTo`, or -1. */
  function LastIndexUpTo(s: string, pat: string, upTo: int): (r: int)
    requires -1 <= upTo <= |s|
    ensures r == -1 || (0 <= r <= upTo && At(s, pat, r))
    ensures forall i :: r < i <= upTo ==> !At(s, pat, i)
    decreases upTo + 1
  {
    if upTo == -1 then -1
    else if At(s, pat, upTo) then upTo
    else LastIndexUpTo(s, pat, upTo - 1)
  }

  /** `indexCaseFold` with a needle that is already lower case. */
  function IndexFold(s: string, pat: string): (r: int)
    ensures r == -1 || 0 <= r <= |s| - |pat|
    ensures r == -1 <==> !Contains(Lower(s), pat)
    ensures r != -1 ==> At(Lower(s), pat, r) && forall i :: 0 <= i < r ==> !At(Lower(s), pat, i)
  {
    IndexFrom(Lower(s), pat, 0)
  }

  /** `lastIndexCaseFold` with a needle that is already lower case. */
  function LastIndexFold(s: string, pat: string): (r: int)
    ensures r == -1 || 0 <= r <= |s| - |pat|
    ensures r == -1 <==> !Contains(Lower(s), pat)
    ensures r != -1 ==> At(Lower(s), pat, r) && forall i :: r < i ==> !At(Lower(s), pat, i)
  {
    LastIndexUpTo(Lower(s), pat, |s|)
  }

  predicate IsSpace(c: char) {
    c == ' ' || '\U{0009}' <= c <= '\U{000D}'
  }

  /** The blanks of ASCII. */
  lemma BlankChars(c: char)
    ensures IsSpace(c) <==> c in {' ', '\t', '\n', '\U{000B}', '\U{000C}', '\r'}
  {
  }

  function TrimLeft(s: string): (r: string)
    ensures |r| <= |s| && r == s[|s| - |r|..]
    ensures r == [] || !IsSpace(r[0])
  {
    if s != [] && IsSpace(s[0]) then TrimLeft(s[1..]) else s
  }

  function TrimRight(s: string): (r: string)
    ensures |r| <= |s| && r == s[..|r|]
    ensures r == [] || !IsSpace(r[|r| - 1])
  {
    if s != [] && IsSpace(s[|s| - 1]) then TrimRight(s[..|s| - 1]) else s
  }

  /** `strings.TrimSpace`; a text without outer blanks is left alone. */
  function TrimSpace(s: string): (r: string)
    ensures Contains(s, r)
    ensures s == [] || (!IsSpace(s[0]) && !IsSpace(s[|s| - 1])) ==> r == s
  {
    var l := TrimLeft(s);
    var r := TrimRight(l);
    assert At(s, r, |s| - |l|);
    r
  }

  /** `strings.EqualFold` against a lower-case word. */
  predicate EqualFold(s: string, word: string) {
    Lower(s) == word
  }

  // ---- occurrences and insertion

  function Insert(s: string, p: nat, t: string): string
    requires p <= |s|
  {
    s[..p] + t + s[p..]
  }

  ghost predicate BracketFree(s: string) {
    forall i :: 0 <= i < |s| ==> s[i] != '<' && s[i] != '>'
  }

  /** Text that opens with its only `<` and closes with its only `>`. */
  ghost predicate TagShaped(s: string) {
    && |s| >= 2
    && (forall i :: 0 < i < |s| ==> s[i] != '<')
    && (forall i :: 0 <= i < |s| - 1 ==> s[i] != '>')
  }

  /** A point that follows a `>` or precedes a `<`. */
  ghost predicate TagBoundary(s: string, p: nat) {
    p <= |s| && ((0 < p && s[p - 1] == '>') || (p < |s| && s[p] == '<'))
  }

  lemma AtChars(s: string, pat: string, i: int)
    requires At(s, pat, i)
    ensures forall k :: 0 <= k < |pat| ==> s[i + k] == pat[k]
  {
    forall k | 0 <= k < |pat|
      ensures s[i + k] == pat[k]
    {
      assert s[i..i + |pat|][k] == s[i + k];
    }
  }

  lemma AtChar(s: string, pat: string, i: int, j: int)
    requires At(s, pat, i) && i <= j < i + |pat|
    ensures s[j] == pat[j - i]
  {
    AtChars(s, pat, i);
    assert s[i + (j - i)] == pat[j - i];
  }

  /** A text without some character of the pattern. */
  lemma CharMissing(s: string, pat: string, c: char)
    requires c in pat && c !in s
    ensures !Contains(s, pat)
  {
    var k :| 0 <= k < |pat| && pat[k] == c;
    forall i | 0 <= i <= |s|
      ensures !At(s, pat, i)
    {
      if At(s, pat, i) {
        AtChar(s, pat, i, i + k);
      }
    }
  }

  lemma ContainsByParts(a: string, pat: string, b: string)
    ensures Contains(a + pat + b, pat)
  {
    assert At(a + pat + b, pat, |a|);
  }

  lemma ContainsTrans(s: string, t: string, u: string)
    requires Contains(s, t) && Contains(t, u)
    ensures Contains(s, u)
  {
    var i :| 0 <= i <= |s| && At(s, t, i);
    var j :| 0 <= j <= |t| && At(t, u, j);
    var here := s[i + j..i + j + |u|];
    forall k | 0 <= k < |u|
      ensures here[k] == u[k]
    {
      assert t[j + k] == s[i..i + |t|][j + k] == s[i + (j + k)];
      assert u[k] == t[j..j + |u|][k] == t[j + k];
    }
    assert here == u;
    assert At(s, u, i + j);
  }

  /** An insertion keeps every occurrence it does not fall strictly inside of. */
  lemma InsertKeepsOccurrence(s: string, p: nat, t: string, u: string, i: int)
    requires p <= |s| && At(s, u, i)
    requires !(i < p < i + |u|)
    ensures Contains(Insert(s, p, t), u)
  {
    var r := Insert(s, p, t);
    if i + |u| <= p {
      assert r[i..i + |u|] == s[i..i + |u|];
      assert At(r, u, i);
    } else {
      var k := i + |t|;
      assert r[k..k + |u|] == s[i..i + |u|];
      assert At(r, u, k);
    }
  }

  /** At a tag boundary no bracket-free text and no tag-shaped text can be split. */
  lemma BoundaryInsertKeeps(s: string, p: nat, t: string, u: string)
    requires TagBoundary(s, p)
    requires BracketFree(u) || TagShaped(u)
    requires Contains(s, u)
    ensures Contains(Insert(s, p, t), u)
  {
    var i :| 0 <= i <= |s| && At(s, u, i);
    assert forall k :: i <= k < i + |u| ==> s[k] == s[i..i + |u|][k - i];
    InsertKeepsOccurrence(s, p, t, u, i);
  }

  /** Every place where `u` stands in the text is cut by an insertion at `p`. */
  ghost predicate Cut(s: string, p: nat, u: string) {
    forall i :: At(s, u, i) ==> i < p < i + |u|
  }

  /** The inserted text with as much around it as can be part of `u` together with it. */
  function Around(s: string, p: nat, t: string, u: string): string
    requires p <= |s| && u != ""
  {
    s[if p < |u| then 0 else p - |u| + 1..p] + t + s[p..if p + |u| <= |s| then p + |u| - 1 else |s|]
  }

  lemma AroundStands(s: string, p: nat, t: string, u: string)
    requires p <= |s| && u != ""
    ensures At(Insert(s, p, t), Around(s, p, t, u), if p < |u| then 0 else p - |u| + 1)
  {
    var lo, hi := if p < |u| then 0 else p - |u| + 1, if p + |u| <= |s| then p + |u| - 1 else |s|;
    assert s[..p] == s[..lo] + s[lo..p] && s[p..] == s[p..hi] + s[hi..];
    assert Insert(s, p, t) == s[..lo] + Around(s, p, t, u) + s[hi..];
  }

  /** A text is gone after an insertion if and only if all its occurrences are cut and no new one arises. */
  lemma InsertHoldsExactly(s: string, p: nat, t: string, u: string)
    requires p <= |s| && t != "" && u != ""
    ensures Contains(Insert(s, p, t), u) <==> !Cut(s, p, u) || Contains(Around(s, p, t, u), u)
  {
    var r := Insert(s, p, t);
    if !Cut(s, p, u) {
      var i :| At(s, u, i) && !(i < p < i + |u|);
      InsertKeepsOccurrence(s, p, t, u, i);
    }
    AroundStands(s, p, t, u);
    if Contains(Around(s, p, t, u), u) {
      var lo := if p < |u| then 0 else p - |u| + 1;
      assert Contains(r, Around(s, p, t, u));
      ContainsTrans(r, Around(s, p, t, u), u);
    }
    if Contains(r, u) {
      OldOrAround(s, p, t, u);
    }
  }

  lemma OldOrAround(s: string, p: nat, t: string, u: string)
    requires p <= |s| && t != "" && u != "" && Contains(Insert(s, p, t), u)
    ensures !Cut(s, p, u) || Contains(Around(s, p, t, u), u)
  {
    var r, w := Insert(s, p, t), Around(s, p, t, u);
    var i :| 0 <= i <= |r| && At(r, u, i);
    if i + |u| <= p {
      assert s[i..i + |u|] == r[i..i + |u|];
      assert At(s, u, i);
    } else if i >= p + |t| {
      var j := i - |t|;
      assert s[j..j + |u|] == r[i..i + |u|];
      assert At(s, u, j);
    } else {
      var lo := if p < |u| then 0 else p - |u| + 1;
      AroundStands(s, p, t, u);
      InsideOf(r, w, lo, u, i);
    }
  }

  lemma InsideOf(r: string, w: string, lo: nat, u: string, i: int)
    requires At(r, w, lo) && At(r, u, i) && lo <= i && i + |u| <= lo + |w|
    ensures Contains(w, u)
  {
    var j := i - lo;
    var here := w[j..j + |u|];
    forall k | 0 <= k < |u|
      ensures here[k] == u[k]
    {
      assert r[lo..lo + |w|][j + k] == r[lo + (j + k)];
      assert r[i..i + |u|][k] == r[i + k];
    }
    assert here == u;
    assert At(w, u, j);
  }

  // ---- blank text

  lemma TrimSpaceIs(s: string)
    ensures TrimSpace(s) == TrimRight(TrimLeft(s))
  {
    hide TrimLeft, TrimRight, Contains;
  }

  ghost predicate Blank(s: string) {
    forall i :: 0 <= i < |s| ==> IsSpace(s[i])
  }

  lemma BlankFirst(s: string)
    requires s != ""
    ensures Blank(s) <==> IsSpace(s[0]) && Blank(s[1..])
  {
    if IsSpace(s[0]) && Blank(s[1..]) {
      forall i | 0 <= i < |s|
        ensures IsSpace(s[i])
      {
        if i > 0 {
          assert s[i] == s[1..][i - 1];
        }
      }
    }
  }

  lemma {:induction false} TrimLeftBlank(s: string)
    ensures TrimLeft(s) == "" <==> Blank(s)
  {
    hide Blank, IsSpace;
    if s == "" {
      EmptyIsBlank();
    } else {
      BlankFirst(s);
      TrimLeftBlank(s[1..]);
    }
  }

  lemma EmptyIsBlank()
    ensures Blank("")
  {
  }

  lemma {:induction false} TrimRightBlank(s: string)
    ensures TrimRight(s) == "" <==> Blank(s)
  {
    if s != "" {
      TrimRightBlank(s[..|s| - 1]);
    }
  }

  lemma TrimSpaceBlank(s: string)
    ensures TrimSpace(s) == "" <==> Blank(s)
  {
    hide Contains;
    var l := TrimLeft(s);
    TrimLeftBlank(s);
    TrimRightBlank(l);
    if l != "" {
      assert l[0] == s[|s| - |l|];
    }
  }

  lemma LowerInsert(s: string, p: nat, t: string)
    requires p <= |s|
    ensures Lower(Insert(s, p, t)) == Insert(Lower(s), p, Lower(t))
  {
  }

  // ---- text only inserted

  /** `a` can be obtained from `b` by deleting characters. */
  ghost predicate Subsequence(a: string, b: string)
    decreases |b|
  {
    a == [] || (b != [] && ((a[0] == b[0] && Subsequence(a[1..], b[1..])) || Subsequence(a, b[1..])))
  }

  lemma {:induction false} SubsequencePrepend(t: string, a: string, b: string)
    requires Subsequence(a, b)
    ensures Subsequence(a, t + b)
  {
    if t == [] {
      assert t + b == b;
    } else {
      SubsequencePrepend(t[1..], a, b);
      assert (t + b)[1..] == t[1..] + b;
    }
  }

  lemma {:induction false} SubsequenceRefl(a: string)
    ensures Subsequence(a, a)
  {
    if a != [] {
      SubsequenceRefl(a[1..]);
    }
  }

  lemma {:induction false} InsertIsSupersequence(s: string, p: nat, t: string)
    requires p <= |s|
    ensures Subsequence(s, Insert(s, p, t))
  {
    var r := Insert(s, p, t);
    if p == 0 {
      SubsequenceRefl(s);
      SubsequencePrepend(t, s, s);
      assert r == t + s;
    } else {
      InsertIsSupersequence(s[1..], p - 1, t);
      assert r[1..] == Insert(s[1..], p - 1, t);
    }
  }

  lemma {:induction false} SubsequenceTrans(a: string, b: string, c: string)
    requires Subsequence(a, b) && Subsequence(b, c)
    ensures Subsequence(a, c)
    decreases |c|
  {
    if a != [] && b != [] {
      if Subsequence(b, c[1..]) {
        SubsequenceTrans(a, b, c[1..]);
      } else if Subsequence(a, b[1..]) {
        SubsequenceTrans(a, b[1..], c[1..]);
      } else {
        SubsequenceTrans(a[1..], b[1..], c[1..]);
      }
    }
  }

  lemma {:induction false} SubsequenceMember(a: string, b: string, c: char)
    requires Subsequence(a, b) && c in a
    ensures c in b
    decreases |b|
  {
    if Subsequence(a, b[1..]) {
      SubsequenceMember(a, b[1..], c);
    } else if c != a[0] {
      SubsequenceMember(a[1..], b[1..], c);
    }
  }

  /** Text that is not blank does not become blank by insertion. */
  lemma GrowsNotBlank(a: string, b: string)
    requires Subsequence(a, b) && TrimSpace(a) != ""
    ensures TrimSpace(b) != ""
  {
    hide TrimSpace;
    TrimSpaceBlank(a);
    TrimSpaceBlank(b);
    var i :| 0 <= i < |a| && !IsSpace(a[i]);
    SubsequenceMember(a, b, a[i]);
  }
}
