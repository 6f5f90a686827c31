/** Trimming impressions to what a bidder supports, by compaction within the request's own array. */
module PruneImps {
  import opened Options

  datatype Imp = Imp(id: string, banner: Option<string>, video: Option<string>, audio: Option<string>, native: Option<string>)

  datatype Supports = Supports(banner: bool, video: bool, audio: bool, native: bool)

  datatype Media = Banner | Video | Audio | Native

  /** The configured preference: a media type, nothing, or a value that is no media type. */
  datatype Preference = Prefer(media: Media) | Undefined | Invalid

  datatype Issue =
    | Unsupported(index: nat, media: Media)
    | NoSupportedMedia(index: nat)
    | LacksPreferred(id: string, media: Media)
    | PreferenceUndefined(id: string)
    | PreferenceInvalid(id: string)
    | Removed(id: string, media: Media)

  function Format(imp: Imp, m: Media): Option<string> {
    match m
    case Banner => imp.banner
    case Video => imp.video
    case Audio => imp.audio
    case Native => imp.native
  }

  function Without(imp: Imp, m: Media): Imp {
    match m
    case Banner => imp.(banner := None)
    case Video => imp.(video := None)
    case Audio => imp.(audio := None)
    case Native => imp.(native := None)
  }

  predicate Allows(s: Supports, m: Media) {
    match m
    case Banner => s.banner
    case Video => s.video
    case Audio => s.audio
    case Native => s.native
  }

  method CountNumberOfFormats(imp: Imp) returns (count: nat)
    ensures count == Formats(imp)
  {
    count := 0;
    if imp.banner.Some? {
      count := count + 1;
    }
    if imp.video.Some? {
      count := count + 1;
    }
    if imp.audio.Some? {
      count := count + 1;
    }
    if imp.native.Some? {
      count := count + 1;
    }
  }

  function Formats(imp: Imp): nat {
    (if imp.banner.Some? then 1 else 0) + (if imp.video.Some? then 1 else 0)
    + (if imp.audio.Some? then 1 else 0) + (if imp.native.Some? then 1 else 0)
  }

  // ---- one impression

  /** The impression with one format cleared if present, and the issue that records it. */
  function Clear(imp: Imp, m: Media, issue: Issue): (Imp, seq<Issue>) {
    if Format(imp, m).Some? then (Without(imp, m), [issue]) else (imp, [])
  }

  function ClearUnsupported(imp: Imp, s: Supports, m: Media, i: nat): (Imp, seq<Issue>) {
    if Allows(s, m) then (imp, []) else Clear(imp, m, Unsupported(i, m))
  }

  function TrimSupported(imp: Imp, s: Supports, i: nat): (Imp, seq<Issue>) {
    var (a, e) := ClearUnsupported(imp, s, Banner, i);
    var (b, f) := ClearUnsupported(a, s, Video, i);
    var (c, g) := ClearUnsupported(b, s, Audio, i);
    var (d, h) := ClearUnsupported(c, s, Native, i);
    (d, e + f + g + h)
  }

  /** The other formats, in the order in which `adjustImpForPreferredMediaType` removes them. */
  function Others(m: Media): (Media, Media, Media) {
    match m
    case Banner => (Video, Audio, Native)
    case Video => (Banner, Audio, Native)
    case Audio => (Banner, Video, Native)
    case Native => (Banner, Video, Audio)
  }

  /** `None` for an impression that is to be dropped. */
  function AdjustForPreferred(imp: Imp, p: Preference): (Option<Imp>, seq<Issue>) {
    match p
    case Undefined => (None, [PreferenceUndefined(imp.id)])
    case Invalid => (None, [PreferenceInvalid(imp.id)])
    case Prefer(m) =>
      if Format(imp, m).None? then (None, [LacksPreferred(imp.id, m)])
      else
        var (x, y, z) := Others(m);
        var (a, e) := Clear(imp, x, Removed(imp.id, x));
        var (b, f) := Clear(a, y, Removed(imp.id, y));
        var (c, g) := Clear(b, z, Removed(imp.id, z));
        (Some(c), e + f + g)
  }

  /** What becomes of the impression at index `i`. */
  function Pruned(imp: Imp, i: nat, s: Supports, multiformat: bool, p: Preference): (Option<Imp>, seq<Issue>) {
    var (t, e) := TrimSupported(imp, s, i);
    if Formats(t) == 0 then (None, e + [NoSupportedMedia(i)])
    else if !multiformat && Formats(t) > 1 then
      var (r, f) := AdjustForPreferred(t, p);
      (r, e + f)
    else (Some(t), e)
  }

  // ---- the whole request

  /** The impressions that stay, in order. */
  function Kept(imps: seq<Imp>, s: Supports, multiformat: bool, p: Preference): seq<Imp> {
    if imps == [] then []
    else
      var n := |imps| - 1;
      var r := Pruned(imps[n], n, s, multiformat, p).0;
      Kept(imps[..n], s, multiformat, p) + if r.Some? then [r.value] else []
  }

  function Issues(imps: seq<Imp>, s: Supports, multiformat: bool, p: Preference): seq<Issue> {
    if imps == [] then []
    else
      var n := |imps| - 1;
      Issues(imps[..n], s, multiformat, p) + Pruned(imps[n], n, s, multiformat, p).1
  }

  /** `pruneImps`: the first `n` elements of the array are the result. */
  method PruneInPlace(imps: array<Imp>, s: Supports, multiformat: bool, p: Preference)
    returns (updated: bool, n: nat, errs: seq<Issue>)
    modifies imps
    ensures n <= imps.Length && imps[..n] == Kept(old(imps[..]), s, multiformat, p)
    ensures updated <==> n < imps.Length
    ensures errs == Issues(old(imps[..]), s, multiformat, p)
  {
    hide Pruned, Kept, Issues;
    ghost var before := imps[..];
    NothingKept(s, multiformat, p);
    updated, errs := false, [];
    var writeIndex := 0;
    for i := 0 to imps.Length
      invariant writeIndex <= i && (updated <==> writeIndex < i)
      invariant imps[..writeIndex] == Kept(before[..i], s, multiformat, p)
      invariant errs == Issues(before[..i], s, multiformat, p)
      invariant forall j :: i <= j < imps.Length ==> imps[j] == before[j]
    {
      PrefixStep(before, i, s, multiformat, p);
      ghost var done := imps[..writeIndex];
      var keep, found := PruneAt(imps, i, s, multiformat, p);
      assert imps[..writeIndex] == done;
      errs := errs + found;
      if keep {
        if updated {
          imps[writeIndex] := imps[i];
        }
        assert imps[..writeIndex + 1] == done + [imps[writeIndex]];
        writeIndex := writeIndex + 1;
      } else {
        updated := true;
      }
    }
    assert before[..imps.Length] == before;
    n := writeIndex;
  }

  lemma NothingKept(s: Supports, multiformat: bool, p: Preference)
    ensures Kept([], s, multiformat, p) == [] && Issues([], s, multiformat, p) == []
  {
  }

  lemma PrefixStep(imps: seq<Imp>, i: nat, s: Supports, multiformat: bool, p: Preference)
    requires i < |imps|
    ensures var (r, e) := Pruned(imps[i], i, s, multiformat, p);
            && Kept(imps[..i + 1], s, multiformat, p)
               == Kept(imps[..i], s, multiformat, p) + (if r.Some? then [r.value] else [])
            && Issues(imps[..i + 1], s, multiformat, p) == Issues(imps[..i], s, multiformat, p) + e
  {
    hide Pruned;
    assert imps[..i + 1][..i] == imps[..i];
  }

  /** The loop body on one element: clears its formats in place and says whether it stays. */
  method PruneAt(imps: array<Imp>, i: nat, s: Supports, multiformat: bool, p: Preference)
    returns (keep: bool, errs: seq<Issue>)
    requires i < imps.Length
    modifies imps
    ensures forall j :: 0 <= j < imps.Length && j != i ==> imps[j] == old(imps[j])
    ensures var (r, e) := Pruned(old(imps[i]), i, s, multiformat, p);
            errs == e && keep == r.Some? && (keep ==> imps[i] == r.value)
  {
    var (t, e) := TrimSupported(imps[i], s, i);
    imps[i], errs := t, e;
    var formats := CountNumberOfFormats(imps[i]);
    if formats == 0 {
      return false, errs + [NoSupportedMedia(i)];
    }
    keep := true;
    if !multiformat && formats > 1 {
      var (r, f) := AdjustForPreferred(imps[i], p);
      if r.None? {
        return false, errs + f;
      }
      imps[i], errs := r.value, errs + f;
    }
  }

  // ---- what a kept impression looks like

  lemma ClearFormats(imp: Imp, m: Media, issue: Issue)
    ensures var r := Clear(imp, m, issue).0;
            r.id == imp.id && forall k: Media :: Format(r, k) == if k == m then None else Format(imp, k)
  {
  }

  lemma TrimmedFormats(imp: Imp, s: Supports, i: nat)
    ensures var r := TrimSupported(imp, s, i).0;
            r.id == imp.id && forall k: Media :: Format(r, k) == if Allows(s, k) then Format(imp, k) else None
  {
    hide ClearUnsupported;
    var a := ClearUnsupported(imp, s, Banner, i).0;
    var b := ClearUnsupported(a, s, Video, i).0;
    var c := ClearUnsupported(b, s, Audio, i).0;
    ClearUnsupportedFormats(imp, s, Banner, i);
    ClearUnsupportedFormats(a, s, Video, i);
    ClearUnsupportedFormats(b, s, Audio, i);
    ClearUnsupportedFormats(c, s, Native, i);
  }

  lemma ClearUnsupportedFormats(imp: Imp, s: Supports, m: Media, i: nat)
    ensures var r := ClearUnsupported(imp, s, m, i).0;
            r.id == imp.id && forall k: Media :: Format(r, k) == if k == m && !Allows(s, m) then None else Format(imp, k)
  {
    ClearFormats(imp, m, Unsupported(i, m));
  }

  lemma PreferredFormats(imp: Imp, p: Preference)
    requires AdjustForPreferred(imp, p).0.Some?
    ensures var r := AdjustForPreferred(imp, p).0.value;
            && p.Prefer? && r.id == imp.id && Format(imp, p.media).Some?
            && forall k: Media :: Format(r, k) == if k == p.media then Format(imp, k) else None
  {
  }

  lemma OneFormat(imp: Imp, m: Media)
    requires forall k: Media :: Format(imp, k).Some? <==> k == m
    ensures Formats(imp) == 1
  {
    assert Format(imp, Banner) == imp.banner && Format(imp, Video) == imp.video;
    assert Format(imp, Audio) == imp.audio && Format(imp, Native) == imp.native;
  }

  /**
   * A kept impression has only supported formats, at least one, exactly one for a single-format
   * bidder, and each as it came; a supported format is gone only in favour of the preferred one.
   */
  lemma KeptIsSupported(imp: Imp, i: nat, s: Supports, multiformat: bool, p: Preference)
    requires Pruned(imp, i, s, multiformat, p).0.Some?
    ensures var r := Pruned(imp, i, s, multiformat, p).0.value;
            && r.id == imp.id
            && (forall k: Media :: Format(r, k).Some? ==> Allows(s, k) && Format(r, k) == Format(imp, k))
            && Formats(r) >= 1 && (!multiformat ==> Formats(r) == 1)
            && (forall k: Media :: Allows(s, k) && Format(imp, k).Some? && Format(r, k).None? ==>
                  !multiformat && p.Prefer? && k != p.media && Format(r, p.media).Some?)
  {
    hide TrimSupported, AdjustForPreferred;
    var t := TrimSupported(imp, s, i).0;
    TrimmedFormats(imp, s, i);
    if !multiformat && Formats(t) > 1 {
      PreferredFormats(t, p);
      OneFormat(AdjustForPreferred(t, p).0.value, p.media);
    }
  }

  /**
   * An impression is dropped exactly when it has no supported format, or has several where the
   * bidder takes one and the preferred one is not among them.
   */
  lemma DroppedExactly(imp: Imp, i: nat, s: Supports, multiformat: bool, p: Preference)
    ensures var t := TrimSupported(imp, s, i).0;
            Pruned(imp, i, s, multiformat, p).0.None? <==>
            || (forall k: Media :: Allows(s, k) ==> Format(imp, k).None?)
            || (!multiformat && Formats(t) > 1 && !(p.Prefer? && Allows(s, p.media) && Format(imp, p.media).Some?))
  {
    hide TrimSupported;
    var t := TrimSupported(imp, s, i).0;
    TrimmedFormats(imp, s, i);
    NoFormat(t);
    assert (forall k: Media :: Format(t, k).None?) <==> (forall k: Media :: Allows(s, k) ==> Format(imp, k).None?);
  }

  lemma NoFormat(imp: Imp)
    ensures Formats(imp) == 0 <==> forall k: Media :: Format(imp, k).None?
  {
    assert Format(imp, Banner) == imp.banner && Format(imp, Video) == imp.video;
    assert Format(imp, Audio) == imp.audio && Format(imp, Native) == imp.native;
  }

  /** Dropping loses nothing else: the result is short exactly when some impression was dropped. */
  lemma {:induction false} KeptLength(imps: seq<Imp>, s: Supports, multiformat: bool, p: Preference)
    ensures |Kept(imps, s, multiformat, p)| <= |imps|
    ensures |Kept(imps, s, multiformat, p)| == |imps| <==>
            forall i :: 0 <= i < |imps| ==> Pruned(imps[i], i, s, multiformat, p).0.Some?
  {
    hide Pruned;
    if imps != [] {
      KeptLength(imps[..|imps| - 1], s, multiformat, p);
    }
  }
}
