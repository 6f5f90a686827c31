/** Building the VAST answer for a winning bid: the player, not the server, fires the billing notice. */
module VastResponse {
  import opened Options
  import opened Text
  import opened VastInjection
  import VastValidator
  import WrapperChain
  import opened Notices
  import opened Decoration
  import MergedPixels
  import TagUri
  import Extraction

  /** The part of a winning bid that decides; `adm` is already normalised. */
  datatype Win = Win(adm: string, nurl: string, burl: string)

  /** What is handed to the player. */
  datatype Answer =
    | Document(text: string)                     // demand's own VAST with our pixels merged in
    | Wrapper(tagURI: string, burl: string)      // a wrapper built around a URI
    | InLine(media: string, burl: string)        // an in-line document built around a media URL
    | Rejected

  /** The answer and the win notice that the server fired while building it. */
  datatype Served = Served(answer: Answer, fired: Option<string>)

  /** Everything the build asks the outside world for. */
  datatype World = World(
    resolve: string -> string,
    tokens: string -> seq<VastValidator.Token>,
    fetchAdm: WrapperChain.Fetched,
    fetch: (nat, string) -> WrapperChain.Fetched)

  const MAX_HOPS := 5

  predicate ValidVast(w: World, adm: string) {
    VastValidator.Check(w.tokens(adm)) == VastValidator.Accepted
  }

  function Resolved(w: World, vast: string): string {
    WrapperChain.Merged(WrapperChain.Follow(w.fetch, vast, MAX_HOPS, 0))
  }

  /** `buildVASTResponse`. */
  function BuildVASTResponse(win: Win, impressionURL: string, events: seq<Tracking>, w: World): Served {
    var nurl := if win.nurl == "" then "" else w.resolve(win.nurl);
    var fired := NonEmpty(if win.adm != "" then nurl else "");
    var nurlForWrap := if win.adm != "" then "" else nurl;
    var burl := w.resolve(win.burl);
    match ClassifyAdM(win.adm)
    case IsVast =>
      if !ValidVast(w, win.adm) then Served(Rejected, fired)
      else
        var chained := if WrapperChain.TagURI(win.adm) != "" then Resolved(w, win.adm) else win.adm;
        var adm := if TrimSpace(chained) != "" then chained else win.adm;
        Served(Document(Decorate(adm, impressionURL, burl, events)), fired)
    case IsUri =>
      if WrapperChain.Usable(w.fetchAdm) && TrimSpace(Resolved(w, w.fetchAdm.text)) != ""
      then Served(Document(Decorate(Resolved(w, w.fetchAdm.text), impressionURL, burl, events)), fired)
      else Served(Wrapper(win.adm, burl), fired)
    case IsMedia => Served(InLine(win.adm, burl), fired)
    case IsEmpty => Served(if nurlForWrap != "" then Wrapper(nurlForWrap, burl) else Rejected, fired)
  }

  // ---- the kind of answer

  /**
   * The answer to every bid, read off the text of its markup. Without markup: a wrapper around the
   * win URL, if there is one. VAST that opens within 512 characters: the document, if it passes the
   * check. Text that begins with http: the document behind it, or a wrapper around it if it cannot be
   * fetched. Anything else is the address of a media file and comes in line.
   */
  lemma AnswerExactly(win: Win, impressionURL: string, events: seq<Tracking>, w: World)
    requires w.resolve("") == "" && win.adm == NormalizeAdM(win.adm)
    ensures var answer, nurl, burl := BuildVASTResponse(win, impressionURL, events, w).answer, w.resolve(win.nurl), w.resolve(win.burl);
            && (answer.InLine? <==> win.adm != "" && !OpensVast(win.adm) && !StartsHttp(win.adm))
            && (answer.InLine? ==> answer == InLine(win.adm, burl))
            && (answer.Wrapper? <==>
                  || (win.adm == "" && nurl != "")
                  || (win.adm != "" && !OpensVast(win.adm) && StartsHttp(win.adm) && !WrapperChain.Usable(w.fetchAdm)))
            && (answer.Wrapper? ==> answer == Wrapper(if win.adm == "" then nurl else win.adm, burl))
            && (answer.Document? <==>
                  win.adm != "" && if OpensVast(win.adm) then ValidVast(w, win.adm)
                                   else StartsHttp(win.adm) && WrapperChain.Usable(w.fetchAdm))
            && (answer.Document? && OpensVast(win.adm) && WrapperChain.TagURI(win.adm) == "" ==>
                  answer.text == Decorate(win.adm, impressionURL, burl, events))
            && (answer.Document? && OpensVast(win.adm) && WrapperChain.TagURI(win.adm) != "" ==>
                  answer.text == Decorate(Resolved(w, win.adm), impressionURL, burl, events))
            && (answer.Document? && !OpensVast(win.adm) ==>
                  answer.text == Decorate(Resolved(w, w.fetchAdm.text), impressionURL, burl, events))
  {
    hide Decorate, ValidVast, WrapperChain.TagURI, WrapperChain.Usable, TrimSpace, ClassifyAdM, OpensVast, StartsHttp, Resolved,
      IsEmptyAdM;
    EmptyIsEmpty();
    ClassifyExactly(win.adm);
    ResolvedNotBlank(win, w);
  }

  /** Resolving asks for at most five documents, and for five if every answer is again a wrapper. */
  lemma FiveHops(w: World, doc: string)
    ensures |WrapperChain.Follow(w.fetch, doc, MAX_HOPS, 0).asked| <= 5
    ensures WrapperChain.TagURI(doc) != ""
            && (forall h, u :: WrapperChain.Usable(w.fetch(h, u)) && WrapperChain.TagURI(w.fetch(h, u).text) != "") ==>
              |WrapperChain.Follow(w.fetch, doc, MAX_HOPS, 0).asked| == 5
  {
    hide WrapperChain.TagURI, WrapperChain.Usable, WrapperChain.Follow;
    WrapperChain.ChainBounds(w.fetch, doc, MAX_HOPS, 0);
    if WrapperChain.TagURI(doc) != ""
       && (forall h, u :: WrapperChain.Usable(w.fetch(h, u)) && WrapperChain.TagURI(w.fetch(h, u).text) != "") {
      WrapperChain.ChainRunsOut(w.fetch, doc, MAX_HOPS, 0);
    }
  }

  // ---- the billing notice

  /** The document that is decorated: the demand's own, or what its chain or URI resolves to. */
  function Base(win: Win, w: World): string {
    if ClassifyAdM(win.adm) == IsUri && WrapperChain.Usable(w.fetchAdm) then Resolved(w, w.fetchAdm.text)
    else if WrapperChain.TagURI(win.adm) != "" then Resolved(w, win.adm)
    else win.adm
  }

  /** The billing URL as the player finds it in an answer: a pixel of its own. */
  ghost predicate CarriesBilling(a: Answer, burl: string) {
    match a
    case Document(text) => burl in WrapperChain.Urls(text, "impression", 0)
    case Wrapper(_, b) => b == burl
    case InLine(_, b) => b == burl
    case Rejected => false
  }

  /** The player is given a document of the demand's own. */
  predicate ServesDocument(win: Win, w: World) {
    match ClassifyAdM(win.adm)
    case IsVast => ValidVast(w, win.adm)
    case IsUri => WrapperChain.Usable(w.fetchAdm)
    case _ => false
  }

  /** The bid is not answered: broken VAST markup, or neither markup nor win URL. */
  predicate Refused(win: Win, w: World) {
    match ClassifyAdM(win.adm)
    case IsVast => !ValidVast(w, win.adm)
    case IsEmpty => w.resolve(win.nurl) == ""
    case _ => false
  }

  /** What the server builds itself, and the billing URL, hold no tags. */
  ghost predicate PlainInputs(win: Win, impressionURL: string, events: seq<Tracking>, w: World) {
    && w.resolve("") == "" && win.adm == NormalizeAdM(win.adm)
    && PlainUrl(impressionURL) && PlainUrl(w.resolve(win.burl)) && MergedPixels.PlainEvents(events)
  }

  /** Every answer carries the billing notice, but for a document of the demand that does not show it. */
  lemma BillingServedExactly(win: Win, impressionURL: string, events: seq<Tracking>, w: World)
    requires PlainInputs(win, impressionURL, events, w) && w.resolve(win.burl) != ""
    ensures var answer, burl := BuildVASTResponse(win, impressionURL, events, w).answer, w.resolve(win.burl);
            && (answer.Rejected? <==> Refused(win, w))
            && (CarriesBilling(answer, burl) <==>
                  && !Refused(win, w)
                  && (ServesDocument(win, w) ==> burl in Shown(Base(win, w), impressionURL, burl, events)))
  {
    hide Decorate, Shown, ValidVast, WrapperChain.TagURI, WrapperChain.Usable, WrapperChain.Urls, TrimSpace, IsEmptyAdM, IndexFold,
      PlainUrl, MergedPixels.PlainEvents;
    EmptyIsEmpty();
    ResolvedNotBlank(win, w);
    PlainHasNoTag(w.resolve(win.burl));
    ShownExactly(Base(win, w), impressionURL, w.resolve(win.burl), events, w.resolve(win.burl));
  }

  lemma PlainHasNoTag(u: string)
    requires PlainUrl(u)
    ensures '<' !in u
  {
  }

  /** Server-side resolution never yields a blank document, so its result is always the one served. */
  lemma ResolvedNotBlank(win: Win, w: World)
    ensures WrapperChain.Usable(w.fetchAdm) ==> TrimSpace(Resolved(w, w.fetchAdm.text)) != ""
    ensures ClassifyAdM(win.adm) == IsVast ==> TrimSpace(win.adm) != "" && TrimSpace(Resolved(w, win.adm)) != ""
  {
    hide TrimSpace, IndexFold;
    if WrapperChain.Usable(w.fetchAdm) {
      WrapperChain.MergedNotBlank(w.fetch, w.fetchAdm.text, MAX_HOPS, 0);
    }
    if ClassifyAdM(win.adm) == IsVast {
      WrapperChain.MergedNotBlank(w.fetch, win.adm, MAX_HOPS, 0);
    }
  }

  /** It happens: an empty document has no place for the pixel, so its bid is served and never billed. */
  lemma BillingPixelDropped(impressionURL: string, burl: string)
    ensures Decorate("<VAST></VAST>", impressionURL, burl, []) == "<VAST></VAST>"
  {
    hide Contains, HasImpressionAnchor;
    EmptyVastHasNoAnchor();
    assert Fresh("<VAST></VAST>", []) == [];
  }

  lemma EmptyVastHasNoAnchor()
    ensures !HasImpressionAnchor("<VAST></VAST>")
  {
    hide At;
    var doc := "<VAST></VAST>";
    forall i | 0 <= i <= |doc|
      ensures !At(Lower(doc), "</impression>", i) && !At(Lower(doc), "</inline>", i) && !At(Lower(doc), "</wrapper>", i)
    {
      NoClosing(doc, "</impression>", i);
      NoClosing(doc, "</inline>", i);
      NoClosing(doc, "</wrapper>", i);
    }
  }

  lemma NoClosing(doc: string, tag: string, i: int)
    requires doc == "<VAST></VAST>" && |tag| > 2 && tag[0] == '<' && tag[1] == '/' && tag[2] != 'v'
    ensures !At(Lower(doc), tag, i)
  {
    if At(Lower(doc), tag, i) {
      AtChar(Lower(doc), tag, i, i);
      AtChar(Lower(doc), tag, i, i + 1);
      AtChar(Lower(doc), tag, i, i + 2);
    }
  }

  // ---- the win notice

  /** The player is given the URL: as the address of a creative, as a tag URI or as an impression. */
  ghost predicate Exposes(a: Answer, url: string) {
    match a
    case Document(text) => WrapperChain.TagURI(text) == url || url in WrapperChain.Urls(text, "impression", 0)
    case Wrapper(tagURI, b) => tagURI == url || b == url
    case InLine(media, b) => media == url || b == url
    case Rejected => false
  }

  /**
   * The win notice is fired exactly for bids with markup. A bid without markup is answered with its
   * win URL as the wrapper's URI, or not at all.
   */
  lemma WinNoticeChannel(win: Win, impressionURL: string, events: seq<Tracking>, w: World)
    requires w.resolve("") == ""
    ensures var served, nurl := BuildVASTResponse(win, impressionURL, events, w), w.resolve(win.nurl);
            && served.fired == NonEmpty(if win.adm != "" then nurl else "")
            && (win.adm == "" ==> served.answer == if nurl != "" then Wrapper(nurl, w.resolve(win.burl)) else Rejected)
  {
    hide Decorate, Resolved, TrimSpace, ValidVast;
    EmptyIsEmpty();
  }

  lemma EmptyIsEmpty()
    ensures IsEmptyAdM("")
  {
  }

  /**
   * How a bid with markup hands out a URL. A document of the demand names it as its tag URI, where no
   * pixel goes into that element, or shows it as an impression; any other markup is the URL itself,
   * or the billing URL is.
   */
  ghost predicate Leaks(win: Win, impressionURL: string, events: seq<Tracking>, w: World, url: string) {
    var burl := w.resolve(win.burl);
    if ServesDocument(win, w) then
      || (WrapperChain.TagURI(Base(win, w)) == url && UriUntouched(Base(win, w), impressionURL, burl, events))
      || url in Shown(Base(win, w), impressionURL, burl, events)
    else
      win.adm == url || burl == url
  }

  /** A win URL is fired and also handed out if and only if the bid has markup, is not refused and leaks the URL. */
  lemma FiredAndExposedExactly(win: Win, impressionURL: string, events: seq<Tracking>, w: World)
    requires PlainInputs(win, impressionURL, events, w) && '<' !in w.resolve(win.nurl)
    ensures var served, nurl := BuildVASTResponse(win, impressionURL, events, w), w.resolve(win.nurl);
            served.fired.Some? && Exposes(served.answer, served.fired.value)
            <==> win.adm != "" && nurl != "" && !Refused(win, w) && Leaks(win, impressionURL, events, w, nurl)
  {
    hide Decorate, Shown, ValidVast, WrapperChain.TagURI, WrapperChain.Usable, WrapperChain.Urls, TrimSpace, IsEmptyAdM, IndexFold,
      PlainUrl, MergedPixels.PlainEvents, UriUntouched;
    var nurl := w.resolve(win.nurl);
    EmptyIsEmpty();
    ResolvedNotBlank(win, w);
    ShownExactly(Base(win, w), impressionURL, w.resolve(win.burl), events, nurl);
    if nurl != "" {
      DecoratedUri(Base(win, w), impressionURL, w.resolve(win.burl), events, nurl);
    }
  }

  /** Everything outside as it is when nothing is substituted, fetched or tokenised. */
  const SILENT := World(u => u, _ => [], WrapperChain.Failed, (_, _) => WrapperChain.Failed)

  /** It happens: a tag URI that is its own win URL, when it cannot be fetched. */
  lemma FiredAndExposed()
    ensures var served := BuildVASTResponse(Win("http://n", "http://n", ""), "", [], SILENT);
            served.fired == Some("http://n") && served.answer == Wrapper("http://n", "")
  {
    hide Decorate, Resolved, ValidVast, TrimSpace, IndexFold;
    UriIsUri();
  }

  lemma UriIsUri()
    ensures ClassifyAdM("http://n") == IsUri && NormalizeAdM("http://n") == "http://n"
  {
    hide IndexFold, Contains, TrimSpace, IsEmptyAdM, Lower;
    var u := "http://n";
    UriNotTrimmed(u);
    LongIsMarkup(u);
    NoBracketInUri(u);
  }

  lemma UriNotTrimmed(u: string)
    requires u == "http://n"
    ensures TrimSpace(u) == u
  {
    hide TrimLeft, TrimRight, Contains;
  }

  /** Text of more than five characters that is not trimmed is no placeholder. */
  lemma LongIsMarkup(adm: string)
    requires TrimSpace(adm) == adm && |adm| > 5
    ensures !IsEmptyAdM(adm)
  {
    hide TrimSpace;
    assert |Lower(adm)| == |adm|;
  }

  lemma NoBracketInUri(u: string)
    requires u == "http://n"
    ensures !Contains(Lower(u), "<vast")
  {
    hide Contains;
    forall i | 0 <= i < |u|
      ensures Lower(u)[i] != '<'
    {
    }
    assert "<vast"[0] == '<';
    CharMissing(Lower(u), "<vast", '<');
  }

  // ---- wrapper markup whose tag URI is its win URL

  const WRAPPER_ADM := "<vast><wrapper>" + ("<vastadtaguri>" + "http://n" + "</vastadtaguri") + ""

  /** Nothing can be fetched, and the markup passes the check. */
  const OFFLINE := World(u => u, _ => [VastValidator.Start("VAST"), VastValidator.Start("Ad"), VastValidator.Start("Wrapper")],
                         WrapperChain.Failed, (_, _) => WrapperChain.Failed)

  lemma AdmNamesUri()
    ensures WrapperChain.TagURI(WRAPPER_ADM) == "http://n"
  {
    var pre := "<vast><wrapper>";
    assert Lower(pre) == pre && Lower("<vastadtaguri>") == "<" + TagUri.URI_TAG + ">" && Lower("</vastadtaguri") == "</" + TagUri.URI_TAG;
    HeadMarks(pre);
    TagUri.NamesUri(pre, "<vastadtaguri>", "http://n", "</vastadtaguri", "");
  }

  lemma HeadMarks(pre: string)
    requires pre == "<vast><wrapper>" && Lower(pre) == pre
    ensures Contains(Lower(pre), TagUri.WRAPPER) && Extraction.OpensNone(pre, TagUri.URI_TAG)
  {
    assert At(Lower(pre), TagUri.WRAPPER, 6);
    forall i
      ensures !At(Lower(pre), "<" + TagUri.URI_TAG, i)
    {
      if At(Lower(pre), "<" + TagUri.URI_TAG, i) {
        AtChar(Lower(pre), "<" + TagUri.URI_TAG, i, i);
        AtChar(Lower(pre), "<" + TagUri.URI_TAG, i, i + 1);
        AtChar(Lower(pre), "<" + TagUri.URI_TAG, i, i + 5);
      }
    }
  }

  lemma AdmIsVast()
    ensures ClassifyAdM(WRAPPER_ADM) == IsVast && ValidVast(OFFLINE, WRAPPER_ADM)
  {
    hide IndexFold, TrimSpace, Contains;
    var adm := WRAPPER_ADM;
    assert |adm| <= 512;
    AdmNotTrimmed(adm);
    assert Lower(adm)[0] == '<' && |adm| > 10;
    assert Lower(adm)[..5] == "<vast";
    VastStands(adm);
    AcceptsStart();
  }

  lemma AdmNotTrimmed(s: string)
    requires s == WRAPPER_ADM
    ensures TrimSpace(s) == s
  {
    hide TrimLeft, TrimRight, Contains;
    assert s[0] == '<' && s[|s| - 1] == 'i';
  }

  lemma VastStands(s: string)
    requires |s| >= 5 && Lower(s)[..5] == "<vast"
    ensures Contains(Lower(s), "<vast")
  {
    assert At(Lower(s), "<vast", 0);
  }

  lemma AcceptsStart()
    ensures var ts := [VastValidator.Start("VAST"), VastValidator.Start("Ad"), VastValidator.Start("Wrapper")];
            VastValidator.Check(ts) == VastValidator.Accepted
  {
    var ts := [VastValidator.Start("VAST"), VastValidator.Start("Ad"), VastValidator.Start("Wrapper")];
    assert Lower("VAST") == "vast" && Lower("Ad") == "ad" && Lower("Wrapper") == "wrapper";
    assert ts[1..] == [VastValidator.Start("Ad"), VastValidator.Start("Wrapper")];
    assert ts[1..][1..] == [VastValidator.Start("Wrapper")];
    assert VastValidator.CheckAd(ts[1..][1..]) == VastValidator.Accepted;
  }

  /** It happens: wrapper markup goes out with the tag URI that was fired as the win URL, when it cannot be fetched. */
  lemma FiredAndNamed()
    ensures BuildVASTResponse(Win(WRAPPER_ADM, "http://n", ""), "", [], OFFLINE) == Served(Document(WRAPPER_ADM), Some("http://n"))
    ensures WrapperChain.TagURI(WRAPPER_ADM) == "http://n"
  {
    hide ValidVast, WrapperChain.TagURI, ClassifyAdM, Contains, TrimSpace;
    AdmNamesUri();
    AdmIsVast();
    AdmNotTrimmed(WRAPPER_ADM);
    WrapperChain.UnresolvedIsIdentity(OFFLINE.fetch, WRAPPER_ADM, MAX_HOPS);
    NothingAdded(WRAPPER_ADM);
  }

  lemma NothingAdded(vast: string)
    ensures Decorate(vast, "", "", []) == vast
  {
    hide Contains;
    assert Fresh(vast, []) == [];
  }

  /**
   * The notice goes out before the markup is checked: a bid can be paid for and then rejected,
   * exactly when it brings a win URL with VAST markup that fails the structural check.
   */
  lemma FiredThoughRejected(win: Win, impressionURL: string, events: seq<Tracking>, w: World)
    requires w.resolve("") == "" && win.adm == NormalizeAdM(win.adm)
    ensures var served := BuildVASTResponse(win, impressionURL, events, w);
            served.answer.Rejected? && served.fired.Some?
            <==> ClassifyAdM(win.adm) == IsVast && !ValidVast(w, win.adm) && w.resolve(win.nurl) != ""
  {
    hide Decorate, Resolved, TrimSpace, IndexFold, ValidVast;
    EmptyIsEmpty();
  }

  /** It happens: markup that breaks off after the name of the root. */
  lemma BrokenMarkupIsNotified()
    ensures BuildVASTResponse(Win("<VAST", "http://n", ""), "", [], SILENT) == Served(Rejected, Some("http://n"))
  {
    hide Decorate, Resolved, TrimSpace, IndexFold;
    BrokenIsVast();
  }

  lemma BrokenIsVast()
    ensures ClassifyAdM("<VAST") == IsVast
  {
    hide IndexFold, TrimSpace, Contains;
    var adm := "<VAST";
    NotTrimmed(adm);
    assert Lower(adm) == "<vast";
    StandsThere(adm);
  }

  lemma NotTrimmed(s: string)
    requires s == "<VAST"
    ensures TrimSpace(s) == s
  {
    hide TrimLeft, TrimRight, Contains;
  }

  lemma StandsThere(s: string)
    requires Lower(s) == "<vast"
    ensures Contains(Lower(s), "<vast")
  {
    assert At(Lower(s), "<vast", 0);
  }
}
