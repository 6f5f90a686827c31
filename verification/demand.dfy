/** Collecting the answers of demand sources that run in parallel. */
module Demand {
  import opened Options

  datatype Response = Response(winPrice: real, noFill: bool)

  /** One message of the channel: an error, or a response that may be nil. */
  datatype Message = Failed(error: string) | Answered(resp: Option<Response>)

  datatype Outcome = Fill(resp: Response) | NoFill | Error(error: string)

  predicate IsFill(m: Message) {
    m.Answered? && m.resp.Some? && !m.resp.value.noFill
  }

  predicate IsNoFill(m: Message) {
    m.Answered? && !IsFill(m)
  }

  /** Every message is one of three things. */
  lemma OneKind(m: Message)
    ensures m.Failed? ==> !IsFill(m) && !IsNoFill(m)
    ensures m.Answered? ==> (IsFill(m) <==> m.resp.Some? && !m.resp.value.noFill) && IsFill(m) != IsNoFill(m)
  {
  }

  function Tally(ms: seq<Message>, p: Message -> bool): nat {
    if ms == [] then 0 else Tally(ms[..|ms| - 1], p) + if p(ms[|ms| - 1]) then 1 else 0
  }

  /** A fill of the list that no other fill outbids. */
  ghost predicate IsBest(r: Response, ms: seq<Message>) {
    && Answered(Some(r)) in ms && !r.noFill
    && forall m :: m in ms && IsFill(m) ==> m.resp.value.winPrice <= r.winPrice
  }

  /** The best fill and the last error after the messages `ms`. */
  ghost predicate Collected(ms: seq<Message>, best: Option<Response>, lastErr: Option<string>) {
    && (if best.Some? then IsBest(best.value, ms) else forall m :: m in ms ==> !IsFill(m))
    && (if lastErr.Some? then Failed(lastErr.value) in ms else forall m :: m in ms ==> m.Answered?)
  }

  lemma CollectedStep(ms: seq<Message>, m: Message, best: Option<Response>, lastErr: Option<string>)
    requires Collected(ms, best, lastErr)
    ensures var take := IsFill(m) && (best.None? || m.resp.value.winPrice > best.value.winPrice);
            Collected(ms + [m], if take then m.resp else best, if m.Failed? then Some(m.error) else lastErr)
  {
    var ms' := ms + [m];
    assert forall x :: x in ms' <==> x in ms || x == m;
  }

  lemma TallyStep(ms: seq<Message>, m: Message, p: Message -> bool)
    ensures Tally(ms + [m], p) == Tally(ms, p) + if p(m) then 1 else 0
  {
    assert (ms + [m])[..|ms|] == ms;
  }

  /** The collecting loop of `runDemandWaterfall`, for one order of arrival. */
  method Collect(arrivals: seq<Message>) returns (out: Outcome, noFillCount: nat, ghost fills: nat, ghost errors: nat)
    ensures out.Fill? ==> IsBest(out.resp, arrivals)
    ensures !out.Fill? <==> forall m :: m in arrivals ==> !IsFill(m)
    ensures out.Error? ==> Failed(out.error) in arrivals
    ensures out.NoFill? ==> forall m :: m in arrivals ==> IsNoFill(m)
    ensures fills + noFillCount + errors == |arrivals|
    ensures noFillCount == Tally(arrivals, IsNoFill) && fills == Tally(arrivals, IsFill)
  {
    hide Collected, Tally;
    var best: Option<Response>, lastErr: Option<string> := None, None;
    noFillCount, fills, errors := 0, 0, 0;
    NothingCollected();
    for i := 0 to |arrivals|
      invariant Collected(arrivals[..i], best, lastErr)
      invariant fills + noFillCount + errors == i
      invariant noFillCount == Tally(arrivals[..i], IsNoFill) && fills == Tally(arrivals[..i], IsFill)
    {
      var m := arrivals[i];
      assert arrivals[..i + 1] == arrivals[..i] + [m];
      CollectedStep(arrivals[..i], m, best, lastErr);
      TallyStep(arrivals[..i], m, IsNoFill);
      TallyStep(arrivals[..i], m, IsFill);
      if m.Failed? {
        lastErr := Some(m.error);
        errors := errors + 1;
      } else if m.resp.None? || m.resp.value.noFill {
        noFillCount := noFillCount + 1;
      } else {
        fills := fills + 1;
        if best.None? || m.resp.value.winPrice > best.value.winPrice {
          best := m.resp;
        }
      }
    }
    assert arrivals[..|arrivals|] == arrivals;
    CollectedEnd(arrivals, best, lastErr);
    if best.Some? {
      return Fill(best.value), noFillCount, fills, errors;
    }
    out := if lastErr.Some? then Error(lastErr.value) else NoFill;
  }

  lemma NothingCollected()
    ensures Collected([], None, None) && Tally([], IsNoFill) == Tally([], IsFill) == 0
  {
  }

  lemma CollectedEnd(ms: seq<Message>, best: Option<Response>, lastErr: Option<string>)
    requires Collected(ms, best, lastErr)
    ensures best.Some? ==> IsBest(best.value, ms) && Answered(best) in ms && IsFill(Answered(best))
    ensures best.None? ==> forall m :: m in ms ==> !IsFill(m)
    ensures lastErr.Some? ==> Failed(lastErr.value) in ms
    ensures lastErr.None? ==> forall m :: m in ms ==> m.Answered?
  {
  }

  /** Two orders of arrival of the same messages end with the same price. */
  lemma ArrivalOrderIrrelevant(ms: seq<Message>, ms': seq<Message>, r: Response, r': Response)
    requires multiset(ms) == multiset(ms') && IsBest(r, ms) && IsBest(r', ms')
    ensures r.winPrice == r'.winPrice
  {
    assert Answered(Some(r)) in multiset(ms) && Answered(Some(r')) in multiset(ms');
    assert IsFill(Answered(Some(r))) && IsFill(Answered(Some(r')));
  }
}
