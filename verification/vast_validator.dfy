/** The streaming structural check on VAST markup, over the tokens of an XML decoder. */
module VastValidator {
  import opened Options
  import opened Text

  /** Start and end of an element; everything else (text, comments, prolog) is `Other`. */
  datatype Token = Start(name: string) | End | Other

  datatype Verdict = Accepted | Malformed | WrongRoot | NoAd | AdIncomplete | AdEmpty

  // ---- the check as a function of the tokens still to come

  /** `Decoder.Skip`: what is left after the end of the element that is open now. */
  function Skip(ts: seq<Token>, depth: nat): (r: Option<seq<Token>>)
    ensures r.Some? ==> |r.value| < |ts|
  {
    if ts == [] then None
    else match ts[0]
      case Start(_) => Skip(ts[1..], depth + 1)
      case End => if depth == 0 then Some(ts[1..]) else Skip(ts[1..], depth - 1)
      case Other => Skip(ts[1..], depth)
  }

  predicate IsCreative(name: string) {
    Lower(name) == "wrapper" || Lower(name) == "inline"
  }

  /** Inside the first `Ad`. */
  function CheckAd(ts: seq<Token>): Verdict
    decreases |ts|
  {
    if ts == [] then AdIncomplete
    else match ts[0]
      case Start(name) =>
        if IsCreative(name) then Accepted
        else
          var rest := Skip(ts[1..], 0);
          if rest.None? then Malformed else CheckAd(rest.value)
      case End => AdEmpty
      case Other => CheckAd(ts[1..])
  }

  /** Behind the root's start tag. */
  function CheckBody(ts: seq<Token>): Verdict
    decreases |ts|
  {
    if ts == [] then NoAd
    else match ts[0]
      case Start(name) =>
        if EqualFold(name, "ad") then CheckAd(ts[1..])
        else
          var rest := Skip(ts[1..], 0);
          if rest.None? then Malformed else CheckBody(rest.value)
      case End => CheckBody(ts[1..])
      case Other => CheckBody(ts[1..])
  }

  function Check(ts: seq<Token>): Verdict {
    if ts == [] then Malformed
    else if !ts[0].Start? then Check(ts[1..])
    else if EqualFold(ts[0].name, "vast") then CheckBody(ts[1..])
    else WrongRoot
  }

  // ---- the check as the decoder-driven loops run it

  /** The decoder: `Token` and `Skip` move its position and nothing else. */
  class Decoder {
    const tokens: seq<Token>
    var pos: nat

    constructor (tokens: seq<Token>)
      ensures this.tokens == tokens && pos == 0
    {
      this.tokens := tokens;
      pos := 0;
    }

    ghost predicate Valid()
      reads this
    {
      pos <= |tokens|
    }

    ghost function Rest(): seq<Token>
      requires Valid()
      reads this
    {
      tokens[pos..]
    }

    method NextToken() returns (t: Option<Token>)
      requires Valid()
      modifies this
      ensures Valid()
      ensures if old(Rest()) == [] then t == None && pos == old(pos)
              else t == Some(old(Rest())[0]) && Rest() == old(Rest())[1..] && pos == old(pos) + 1
    {
      if pos == |tokens| {
        return None;
      }
      t := Some(tokens[pos]);
      pos := pos + 1;
    }

    method SkipElement() returns (ok: bool)
      requires Valid()
      modifies this
      ensures Valid() && pos >= old(pos)
      ensures ok == Skip(old(Rest()), 0).Some?
      ensures ok ==> Rest() == Skip(old(Rest()), 0).value
    {
      var depth := 0;
      while true
        invariant Valid() && pos >= old(pos) && depth >= 0
        invariant Skip(Rest(), depth) == Skip(old(Rest()), 0)
        decreases |tokens| - pos
      {
        var tok := NextToken();
        match tok
        case None => return false;
        case Some(Start(_)) => depth := depth + 1;
        case Some(End) =>
          if depth == 0 {
            return true;
          }
          depth := depth - 1;
        case Some(Other) =>
      }
    }
  }

  method ScanAd(dec: Decoder) returns (v: Verdict)
    requires dec.Valid()
    modifies dec
    ensures v == CheckAd(old(dec.Rest()))
  {
    while true
      invariant dec.Valid()
      invariant CheckAd(dec.Rest()) == CheckAd(old(dec.Rest()))
      decreases |dec.tokens| - dec.pos
    {
      var inner := dec.NextToken();
      match inner
      case None => return AdIncomplete;
      case Some(End) => return AdEmpty;
      case Some(Other) =>
      case Some(Start(name)) =>
        if IsCreative(name) {
          return Accepted;
        }
        var ok := dec.SkipElement();
        if !ok {
          return Malformed;
        }
    }
  }

  method ScanBody(dec: Decoder) returns (v: Verdict)
    requires dec.Valid()
    modifies dec
    ensures v == CheckBody(old(dec.Rest()))
  {
    while true
      invariant dec.Valid()
      invariant CheckBody(dec.Rest()) == CheckBody(old(dec.Rest()))
      decreases |dec.tokens| - dec.pos
    {
      var tok := dec.NextToken();
      match tok
      case None => return NoAd;
      case Some(End) =>
      case Some(Other) =>
      case Some(Start(name)) =>
        if EqualFold(name, "ad") {
          v := ScanAd(dec);
          return;
        }
        var ok := dec.SkipElement();
        if !ok {
          return Malformed;
        }
    }
  }

  method ValidateVASTAdM(tokens: seq<Token>) returns (v: Verdict)
    ensures v == Check(tokens)
  {
    var dec := new Decoder(tokens);
    assert dec.Rest() == tokens;
    while true
      invariant dec.Valid() && fresh(dec)
      invariant Check(dec.Rest()) == Check(tokens)
      decreases |dec.tokens| - dec.pos
    {
      var tok := dec.NextToken();
      match tok
      case None => return Malformed;
      case Some(Start(name)) =>
        if !EqualFold(name, "vast") {
          return WrongRoot;
        }
        v := ScanBody(dec);
        return;
      case Some(End) =>
      case Some(Other) =>
    }
  }

  // ---- trees and the tokens they flatten to

  datatype Node = Elem(name: string, kids: seq<Node>) | Misc

  function Flatten(n: Node): seq<Token>
    decreases n, 1
  {
    match n
    case Misc => [Other]
    case Elem(name, kids) => [Start(name)] + FlattenAll(kids) + [End]
  }

  function FlattenAll(ns: seq<Node>): seq<Token>
    decreases ns, 0
  {
    if ns == [] then [] else Flatten(ns[0]) + FlattenAll(ns[1..])
  }

  predicate Named(n: Node, word: string) {
    n.Elem? && EqualFold(n.name, word)
  }

  /** The first node of a list that is an element called `Ad`. */
  function FirstAd(ns: seq<Node>): Option<Node> {
    if ns == [] then None else if Named(ns[0], "ad") then Some(ns[0]) else FirstAd(ns[1..])
  }

  predicate HasCreative(ad: Node) {
    ad.Elem? && exists k | k in ad.kids :: k.Elem? && IsCreative(k.name)
  }

  function RootAt(ns: seq<Node>): (r: nat)
    ensures r <= |ns|
    ensures forall i :: 0 <= i < r ==> ns[i].Misc?
    ensures r < |ns| ==> ns[r].Elem?
  {
    if ns == [] || ns[0].Elem? then 0 else 1 + RootAt(ns[1..])
  }

  lemma {:induction false} SkipNode(n: Node, rest: seq<Token>, depth: nat)
    ensures Skip(Flatten(n) + rest, depth) == Skip(rest, depth)
    decreases n, 1
  {
    match n
    case Misc =>
      assert (Flatten(n) + rest)[1..] == rest;
    case Elem(name, kids) =>
      hide FlattenAll;
      assert (Flatten(n) + rest)[1..] == FlattenAll(kids) + ([End] + rest);
      SkipForest(kids, [End] + rest, depth + 1);
      assert ([End] + rest)[1..] == rest;
  }

  lemma {:induction false} SkipForest(ns: seq<Node>, rest: seq<Token>, depth: nat)
    ensures Skip(FlattenAll(ns) + rest, depth) == Skip(rest, depth)
    decreases ns, 0
  {
    hide Skip, Flatten;
    if ns == [] {
      assert FlattenAll(ns) + rest == rest;
    } else {
      var more := FlattenAll(ns[1..]) + rest;
      assert FlattenAll(ns) + rest == Flatten(ns[0]) + more;
      SkipNode(ns[0], more, depth);
      SkipForest(ns[1..], rest, depth);
    }
  }

  /** Skipping from just behind an element's start tag lands just behind its end tag. */
  lemma SkipElem(n: Node, more: seq<Token>)
    requires n.Elem?
    ensures Skip((Flatten(n) + more)[1..], 0) == Some(more)
  {
    assert (Flatten(n) + more)[1..] == FlattenAll(n.kids) + ([End] + more);
    SkipForest(n.kids, [End] + more, 0);
    assert ([End] + more)[1..] == more;
  }

  lemma {:induction false} CheckAdForest(kids: seq<Node>, more: seq<Token>)
    ensures CheckAd(FlattenAll(kids) + [End] + more)
            == if HasCreative(Elem("", kids)) then Accepted else AdEmpty
  {
    var ts := FlattenAll(kids) + [End] + more;
    if kids == [] {
      assert ts == [End] + more;
    } else {
      var rest := FlattenAll(kids[1..]) + [End] + more;
      assert ts == Flatten(kids[0]) + rest;
      CheckAdForest(kids[1..], more);
      assert kids == [kids[0]] + kids[1..];
      match kids[0]
      case Misc =>
        assert ts[1..] == rest;
      case Elem(name, _) =>
        SkipElem(kids[0], rest);
    }
  }

  lemma {:induction false} CheckBodyForest(ns: seq<Node>, more: seq<Token>)
    ensures CheckBody(FlattenAll(ns) + more)
            == match FirstAd(ns)
               case None => CheckBody(more)
               case Some(ad) => if HasCreative(ad) then Accepted else AdEmpty
  {
    var ts := FlattenAll(ns) + more;
    if ns == [] {
      assert ts == more;
    } else {
      var rest := FlattenAll(ns[1..]) + more;
      assert ts == Flatten(ns[0]) + rest;
      CheckBodyForest(ns[1..], more);
      match ns[0]
      case Misc =>
        assert ts[1..] == rest;
      case Elem(name, kids) =>
        if Named(ns[0], "ad") {
          assert ts[1..] == FlattenAll(kids) + [End] + rest;
          CheckAdForest(kids, rest);
        } else {
          SkipElem(ns[0], rest);
        }
    }
  }

  /** The verdict on a root element followed by `others`. */
  function Judge(root: Node, others: seq<Node>): Verdict
    requires root.Elem?
  {
    if !EqualFold(root.name, "vast") then WrongRoot
    else
      var inside := FirstAd(root.kids);
      var ad := if inside.Some? then inside else FirstAd(others);
      if ad.None? then NoAd else if HasCreative(ad.value) then Accepted else AdEmpty
  }

  /** What the check computes on any sequence of top-level nodes, well-formed document or not. */
  function Expected(ns: seq<Node>): Verdict {
    var r := RootAt(ns);
    if r == |ns| then Malformed else Judge(ns[r], ns[r + 1..])
  }

  lemma CheckRoot(root: Node, others: seq<Node>)
    requires root.Elem?
    ensures Check(Flatten(root) + FlattenAll(others)) == Judge(root, others)
  {
    hide HasCreative, EqualFold, FirstAd, FlattenAll;
    var rest := FlattenAll(others);
    var ts := Flatten(root) + rest;
    assert ts[0] == Start(root.name);
    assert ts[1..] == FlattenAll(root.kids) + ([End] + rest);
    CheckBodyForest(root.kids, [End] + rest);
    assert ([End] + rest)[1..] == rest == rest + [];
    CheckBodyForest(others, []);
  }

  /**
   * The stream check decides a property of the tree. The end of the root is not noticed, so an
   * `Ad` element behind the root is taken for a child of it.
   */
  lemma {:induction false} CheckForest(ns: seq<Node>)
    ensures Check(FlattenAll(ns)) == Expected(ns)
  {
    hide Judge, EqualFold, CheckBody;
    if ns != [] {
      if ns[0].Elem? {
        CheckRoot(ns[0], ns[1..]);
      } else {
        CheckForest(ns[1..]);
        var rest := FlattenAll(ns[1..]);
        assert FlattenAll(ns) == [Other] + rest;
        assert FlattenAll(ns)[1..] == rest;
        assert RootAt(ns) < |ns| ==> ns[1..][RootAt(ns[1..]) + 1..] == ns[RootAt(ns) + 1..];
      }
    }
  }

  /** A document: one root among comments, text and prolog. */
  ghost predicate SingleRoot(ns: seq<Node>) {
    var r := RootAt(ns);
    r < |ns| && forall i :: r < i < |ns| ==> ns[i].Misc?
  }

  lemma {:induction false} NoAdInMisc(ns: seq<Node>)
    requires forall i :: 0 <= i < |ns| ==> ns[i].Misc?
    ensures FirstAd(ns) == None
  {
    if ns != [] {
      NoAdInMisc(ns[1..]);
    }
  }

  /** For a document with one root the check is exact. */
  lemma AcceptsExactly(ns: seq<Node>)
    requires SingleRoot(ns)
    ensures var root := ns[RootAt(ns)];
            Check(FlattenAll(ns)) == Accepted <==>
            Named(root, "vast") && FirstAd(root.kids).Some? && HasCreative(FirstAd(root.kids).value)
  {
    CheckForest(ns);
    NoAdInMisc(ns[RootAt(ns) + 1..]);
  }

  /** What the documentation promises of the root of any list of top-level nodes. */
  predicate Promised(ns: seq<Node>) {
    var r := RootAt(ns);
    r < |ns| && Named(ns[r], "vast") && FirstAd(ns[r].kids).Some? && HasCreative(FirstAd(ns[r].kids).value)
  }

  /**
   * The check accepts more than is promised exactly when the VAST root has no `Ad` of its own and
   * the first one behind the root has a creative; it never accepts less.
   */
  lemma AcceptsBeyondRootExactly(ns: seq<Node>)
    ensures Promised(ns) ==> Check(FlattenAll(ns)) == Accepted
    ensures Check(FlattenAll(ns)) == Accepted && !Promised(ns) <==>
            var r := RootAt(ns);
            && r < |ns| && Named(ns[r], "vast") && FirstAd(ns[r].kids).None?
            && FirstAd(ns[r + 1..]).Some? && HasCreative(FirstAd(ns[r + 1..]).value)
  {
    hide HasCreative, EqualFold, FirstAd, FlattenAll, Check, RootAt;
    CheckForest(ns);
  }

  /** It happens: an `Ad` that follows an empty root. */
  lemma AdBehindRoot()
    ensures var ns := [Elem("VAST", []), Elem("Ad", [Elem("InLine", [])])];
            Check(FlattenAll(ns)) == Accepted && !Promised(ns)
  {
    var root, ad := Elem("VAST", []), Elem("Ad", [Elem("InLine", [])]);
    var ns := [root, ad];
    assert RootAt(ns) == 0 && ns[1..] == [ad];
    assert Lower("VAST") == "vast" && Lower("Ad") == "ad" && Lower("InLine") == "inline";
    assert ad.kids[0] in ad.kids && IsCreative(ad.kids[0].name);
    AcceptsBeyondRootExactly(ns);
  }

  // ---- truncated documents

  lemma {:induction false} SkipExtends(ts: seq<Token>, more: seq<Token>, depth: nat)
    requires Skip(ts, depth).Some?
    ensures Skip(ts + more, depth) == Some(Skip(ts, depth).value + more)
  {
    assert (ts + more)[1..] == ts[1..] + more;
    match ts[0]
    case Start(_) => SkipExtends(ts[1..], more, depth + 1);
    case End =>
      if depth > 0 {
        SkipExtends(ts[1..], more, depth - 1);
      }
    case Other => SkipExtends(ts[1..], more, depth);
  }

  lemma {:induction false} CheckAdExtends(ts: seq<Token>, more: seq<Token>)
    requires CheckAd(ts) == Accepted
    ensures CheckAd(ts + more) == Accepted
    decreases |ts|
  {
    assert (ts + more)[1..] == ts[1..] + more;
    if ts[0].Start? {
      if !IsCreative(ts[0].name) {
        SkipExtends(ts[1..], more, 0);
        CheckAdExtends(Skip(ts[1..], 0).value, more);
      }
    } else {
      CheckAdExtends(ts[1..], more);
    }
  }

  lemma {:induction false} CheckBodyExtends(ts: seq<Token>, more: seq<Token>)
    requires CheckBody(ts) == Accepted
    ensures CheckBody(ts + more) == Accepted
    decreases |ts|
  {
    assert (ts + more)[1..] == ts[1..] + more;
    if ts[0].Start? {
      if EqualFold(ts[0].name, "ad") {
        CheckAdExtends(ts[1..], more);
      } else {
        SkipExtends(ts[1..], more, 0);
        CheckBodyExtends(Skip(ts[1..], 0).value, more);
      }
    } else {
      CheckBodyExtends(ts[1..], more);
    }
  }

  /** Once a prefix of the tokens is accepted, nothing that follows can change the verdict. */
  lemma {:induction false} AcceptedExtends(ts: seq<Token>, more: seq<Token>)
    requires Check(ts) == Accepted
    ensures Check(ts + more) == Accepted
  {
    assert (ts + more)[1..] == ts[1..] + more;
    if ts[0].Start? {
      CheckBodyExtends(ts[1..], more);
    } else {
      AcceptedExtends(ts[1..], more);
    }
  }
}
