/** Applying a list of adjustments to a bid price. */
module AdjustedPrice {
  import opened Options
  import opened Adjustments

  /** `ConvertCurrency(value, from, to)`; `None` is its error. */
  type Convert = (real, string, string) -> Option<real>

  datatype Priced = Priced(price: real, currency: string)

  /** The running price and currency after the adjustments so far, or the currency at a failed conversion. */
  datatype Running = Going(at: Priced) | Failed(currency: string)

  function Step(r: Running, a: Adjustment, convert: Convert): Running {
    if r.Failed? then r
    else if a.kind == "multiplier" then Going(r.at.(price := r.at.price * a.value))
    else if a.kind == "cpm" then
      var v := convert(a.value, a.currency, r.at.currency);
      if v.None? then Failed(r.at.currency) else Going(r.at.(price := r.at.price - v.value))
    else if a.kind == "static" then Going(Priced(a.value, a.currency))
    else r
  }

  function Steps(adjs: seq<Adjustment>, start: Priced, convert: Convert): Running {
    if adjs == [] then Going(start) else Step(Steps(adjs[..|adjs| - 1], start, convert), adjs[|adjs| - 1], convert)
  }

  /** `math.Round` to four decimal places: halves away from zero. */
  function Rounded(price: real): real {
    var x := price * 10000.0;
    (if x >= 0.0 then (x + 0.5).Floor else -(0.5 - x).Floor) as real / 10000.0
  }

  method ApplyAll(adjs: seq<Adjustment>, bidPrice: real, currency: string, convert: Convert) returns (r: Priced)
    ensures r == match Steps(adjs, Priced(bidPrice, currency), convert)
                 case Failed(unit) => Priced(bidPrice, unit)
                 case Going(at) => if adjs == [] then at else Priced(Rounded(at.price), at.currency)
  {
    if |adjs| == 0 {
      return Priced(bidPrice, currency);
    }
    var price, unit := bidPrice, currency;
    for i := 0 to |adjs|
      invariant Steps(adjs[..i], Priced(bidPrice, currency), convert) == Going(Priced(price, unit))
    {
      var a := adjs[i];
      assert adjs[..i + 1][..i] == adjs[..i];
      if a.kind == "multiplier" {
        price := price * a.value;
      } else if a.kind == "cpm" {
        var converted := convert(a.value, a.currency, unit);
        if converted.None? {
          FailureSticks(adjs, i + 1, Priced(bidPrice, currency), convert);
          return Priced(bidPrice, unit);
        }
        price := price - converted.value;
      } else if a.kind == "static" {
        price, unit := a.value, a.currency;
      }
    }
    assert adjs[..|adjs|] == adjs;
    r := Priced(Rounded(price), unit);
  }

  lemma {:induction false} FailureSticks(adjs: seq<Adjustment>, n: nat, start: Priced, convert: Convert)
    requires n <= |adjs| && Steps(adjs[..n], start, convert).Failed?
    ensures Steps(adjs, start, convert) == Steps(adjs[..n], start, convert)
    decreases |adjs|
  {
    if n == |adjs| {
      assert adjs[..n] == adjs;
    } else {
      assert adjs[..|adjs| - 1][..n] == adjs[..n];
      FailureSticks(adjs[..|adjs| - 1], n, start, convert);
    }
  }

  /** The currency the last static price of a list leaves, if there is one. */
  function LastStatic(adjs: seq<Adjustment>, currency: string): string {
    if adjs == [] then currency
    else if adjs[|adjs| - 1].kind == "static" then adjs[|adjs| - 1].currency
    else LastStatic(adjs[..|adjs| - 1], currency)
  }

  lemma {:induction false} LabelIsLastStatic(adjs: seq<Adjustment>, start: Priced, convert: Convert)
    requires Steps(adjs, start, convert).Going?
    ensures Steps(adjs, start, convert).at.currency == LastStatic(adjs, start.currency)
  {
    if adjs != [] {
      LabelIsLastStatic(adjs[..|adjs| - 1], start, convert);
    }
  }

  /** The index of the first CPM adjustment that cannot be converted, or the length of the list. */
  function FailsAt(adjs: seq<Adjustment>, start: Priced, convert: Convert): (i: nat)
    ensures i <= |adjs|
    ensures i == |adjs| <==> Steps(adjs, start, convert).Going?
    ensures i < |adjs| ==> Steps(adjs[..i], start, convert).Going? && adjs[i].kind == "cpm"
                           && convert(adjs[i].value, adjs[i].currency, Steps(adjs[..i], start, convert).at.currency).None?
  {
    if adjs == [] then 0
    else
      var front := adjs[..|adjs| - 1];
      var i := FailsAt(front, start, convert);
      assert i <= |front| && front[..i] == adjs[..i];
      if i < |front| then i
      else if Steps(adjs, start, convert).Failed? then |front| else |adjs|
  }

  /**
   * When a conversion fails the price goes back to the bid's own but the currency does not: the
   * two still belong together if and only if no static price of another currency came last before.
   */
  lemma FailureKeepsLabel(adjs: seq<Adjustment>, start: Priced, convert: Convert)
    requires Steps(adjs, start, convert).Failed?
    ensures var unit := Steps(adjs, start, convert).currency;
            var i := FailsAt(adjs, start, convert);
            unit == start.currency <==> LastStatic(adjs[..i], start.currency) == start.currency
  {
    var i := FailsAt(adjs, start, convert);
    assert adjs[..i + 1][..i] == adjs[..i];
    LabelIsLastStatic(adjs[..i], start, convert);
    FailureSticks(adjs, i + 1, start, convert);
  }

  // ---- the price in closed form

  function OwnFactor(a: Adjustment): real {
    if a.kind == "multiplier" then a.value else 1.0
  }

  /** What a CPM adjustment takes off a price in the currency; nothing for any other. */
  function OwnCpm(a: Adjustment, currency: string, convert: Convert): real {
    if a.kind != "cpm" then 0.0
    else
      var v := convert(a.value, a.currency, currency);
      if v.Some? then v.value else 0.0
  }

  /** The product of the multipliers of a list. */
  function Factor(adjs: seq<Adjustment>): real {
    if adjs == [] then 1.0 else OwnFactor(adjs[0]) * Factor(adjs[1..])
  }

  /** What the CPM adjustments of a list take off, each times the multipliers behind it. */
  function TakenOff(adjs: seq<Adjustment>, currency: string, convert: Convert): real {
    if adjs == [] then 0.0
    else OwnCpm(adjs[0], currency, convert) * Factor(adjs[1..]) + TakenOff(adjs[1..], currency, convert)
  }

  ghost predicate NoStatic(adjs: seq<Adjustment>) {
    forall i :: 0 <= i < |adjs| ==> adjs[i].kind != "static"
  }

  lemma Cons(x: Adjustment, rest: seq<Adjustment>, currency: string, convert: Convert)
    ensures Factor([x] + rest) == OwnFactor(x) * Factor(rest)
    ensures TakenOff([x] + rest, currency, convert)
            == OwnCpm(x, currency, convert) * Factor(rest) + TakenOff(rest, currency, convert)
  {
    hide OwnFactor, OwnCpm;
    assert ([x] + rest)[1..] == rest;
  }

  lemma One(a: Adjustment, currency: string, convert: Convert)
    ensures Factor([a]) == OwnFactor(a) && TakenOff([a], currency, convert) == OwnCpm(a, currency, convert)
  {
    hide OwnFactor, OwnCpm;
    assert [a][1..] == [];
    assert Factor([]) == 1.0 && TakenOff([], currency, convert) == 0.0;
  }

  lemma {:induction false} Append(adjs: seq<Adjustment>, a: Adjustment, currency: string, convert: Convert)
    ensures Factor(adjs + [a]) == Factor(adjs) * OwnFactor(a)
    ensures TakenOff(adjs + [a], currency, convert)
            == TakenOff(adjs, currency, convert) * OwnFactor(a) + OwnCpm(a, currency, convert)
  {
    hide OwnFactor, OwnCpm, Factor, TakenOff;
    if adjs == [] {
      NothingToDo(currency, convert);
      One(a, currency, convert);
      assert adjs + [a] == [a];
    } else {
      var x, rest := adjs[0], adjs[1..];
      Append(rest, a, currency, convert);
      assert adjs == [x] + rest && adjs + [a] == [x] + (rest + [a]);
      Cons(x, rest, currency, convert);
      Cons(x, rest + [a], currency, convert);
      AppendStep(OwnFactor(x), OwnCpm(x, currency, convert), Factor(rest), TakenOff(rest, currency, convert), OwnFactor(a),
                 OwnCpm(a, currency, convert));
    }
  }

  lemma AppendStep(g: real, x: real, f: real, t: real, h: real, c: real)
    ensures g * (f * h) == (g * f) * h
    ensures x * (f * h) + (t * h + c) == (x * f + t) * h + c
  {
    MulAssoc(g, f, h);
    MulAssoc(x, f, h);
    Distribute(x * f, t, h);
  }

  lemma MulAssoc(a: real, b: real, c: real)
    ensures a * (b * c) == (a * b) * c
  {
  }

  lemma Distribute(a: real, b: real, f: real)
    ensures (a + b) * f == a * f + b * f && (a - b) * f == a * f - b * f
  {
  }

  /** Without a static price: the bid's price times all multipliers, less each CPM times those behind it. */
  lemma {:induction false} PriceWithoutStatic(adjs: seq<Adjustment>, start: Priced, convert: Convert)
    requires Steps(adjs, start, convert).Going? && NoStatic(adjs)
    ensures Steps(adjs, start, convert).at
            == Priced(start.price * Factor(adjs) - TakenOff(adjs, start.currency, convert), start.currency)
  {
    hide Factor, TakenOff;
    if adjs == [] {
      NothingToDo(start.currency, convert);
    } else {
      var front, a := adjs[..|adjs| - 1], adjs[|adjs| - 1];
      PriceWithoutStatic(front, start, convert);
      assert adjs == front + [a];
      Append(front, a, start.currency, convert);
      PriceStep(start.price, Factor(front), TakenOff(front, start.currency, convert), OwnFactor(a), OwnCpm(a, start.currency, convert));
    }
  }

  lemma NothingToDo(currency: string, convert: Convert)
    ensures Factor([]) == 1.0 && TakenOff([], currency, convert) == 0.0
  {
  }

  lemma PriceStep(p: real, f: real, t: real, g: real, c: real)
    ensures (p * f - t) * g - c == p * (f * g) - (t * g + c)
  {
    MulAssoc(p, f, g);
    Distribute(p * f, t, g);
  }

  lemma {:induction false} StepsFrom(xs: seq<Adjustment>, ys: seq<Adjustment>, start: Priced, convert: Convert)
    requires Steps(xs + ys, start, convert).Going?
    ensures Steps(xs, start, convert).Going?
    ensures Steps(xs + ys, start, convert) == Steps(ys, Steps(xs, start, convert).at, convert)
  {
    if ys == [] {
      assert xs + ys == xs;
    } else {
      assert (xs + ys)[..|xs + ys| - 1] == xs + ys[..|ys| - 1];
      StepsFrom(xs, ys[..|ys| - 1], start, convert);
    }
  }

  lemma StaticIs(before: seq<Adjustment>, fixed: Adjustment, start: Priced, convert: Convert)
    requires fixed.kind == "static" && Steps(before + [fixed], start, convert).Going?
    ensures Steps(before + [fixed], start, convert).at == Priced(fixed.value, fixed.currency)
  {
    assert (before + [fixed])[..|before|] == before;
  }

  /**
   * Behind a static price neither the bid's own nor anything before it matters: the price is the
   * static one times the multipliers behind it, less each CPM behind it times those behind that.
   */
  lemma PriceBehindStatic(before: seq<Adjustment>, fixed: Adjustment, behind: seq<Adjustment>, start: Priced, convert: Convert)
    requires fixed.kind == "static" && NoStatic(behind) && Steps(before + [fixed] + behind, start, convert).Going?
    ensures Steps(before + [fixed] + behind, start, convert).at
            == Priced(fixed.value * Factor(behind) - TakenOff(behind, fixed.currency, convert), fixed.currency)
  {
    hide Factor, TakenOff, NoStatic;
    StepsFrom(before + [fixed], behind, start, convert);
    StaticIs(before, fixed, start, convert);
    PriceWithoutStatic(behind, Priced(fixed.value, fixed.currency), convert);
  }

  /** A CPM adjustment that converts to a non-negative value never raises the price, a multiplier up to 1 neither. */
  lemma NeverRaises(at: Priced, a: Adjustment, convert: Convert)
    requires Step(Going(at), a, convert).Going?
    requires a.kind == "cpm" ==> convert(a.value, a.currency, at.currency).value >= 0.0
    requires a.kind == "multiplier" ==> 0.0 <= a.value <= 1.0 && at.price >= 0.0
    requires a.kind != "static"
    ensures Step(Going(at), a, convert).at.price <= at.price
  {
    if a.kind == "multiplier" {
      assert at.price * (1.0 - a.value) >= 0.0;
    }
  }

  /** Valid adjustments: the price is fixed by non-negative values, and only a CPM can make it negative. */
  lemma {:induction false} ValidKeepsSign(adjs: seq<Adjustment>, start: Priced, convert: Convert)
    requires Steps(adjs, start, convert).Going? && start.price >= 0.0
    requires forall i :: 0 <= i < |adjs| ==> ValidAdjustment(adjs[i]) && adjs[i].kind != "cpm"
    ensures Steps(adjs, start, convert).at.price >= 0.0
  {
    if adjs != [] {
      var front, a := adjs[..|adjs| - 1], adjs[|adjs| - 1];
      ValidKeepsSign(front, start, convert);
      if a.kind == "multiplier" {
        NonNegative(Steps(front, start, convert).at.price, a.value);
      }
    }
  }

  lemma NonNegative(a: real, b: real)
    requires a >= 0.0 && b >= 0.0
    ensures a * b >= 0.0
  {
  }

  /** It happens: a static price in EUR, then a CPM that cannot be converted, leave 10 USD labelled EUR. */
  lemma StuckLabel()
    ensures var adjs := [Adjustment("static", 5.0, "EUR"), Adjustment("cpm", 1.0, "USD")];
            Steps(adjs, Priced(10.0, "USD"), (_, _, _) => None) == Failed("EUR")
  {
    var fixed, cpm := Adjustment("static", 5.0, "EUR"), Adjustment("cpm", 1.0, "USD");
    var start, none := Priced(10.0, "USD"), (_: real, _: string, _: string) => None;
    assert [fixed, cpm][..1] == [fixed] && [fixed][..0] == [];
    assert Steps([fixed], start, none) == Step(Going(start), fixed, none);
  }

  const MIN_BID := 0.1

  /** `Apply`, after the rule has been looked up; a price that is not accepted gets the bid's own currency. */
  function Finish(adjusted: Priced, dealID: string, currency: string): Priced {
    if dealID != "" && adjusted.price < 0.0 then Priced(0.0, currency)
    else if dealID == "" && adjusted.price <= 0.0 then Priced(MIN_BID, currency)
    else adjusted
  }

  /** Rounding never moves a price by more than half a step, nor past a multiple of the step. */
  lemma RoundedNear(price: real)
    ensures (Rounded(price) * 10000.0).Floor as real == Rounded(price) * 10000.0
    ensures -0.00005 <= Rounded(price) - price <= 0.00005
    ensures price >= 0.0 ==> Rounded(price) >= 0.0
  {
  }

  /** Halves go away from zero, on both sides alike. */
  lemma RoundedHalves(price: real, n: nat)
    ensures Rounded(-price) == -Rounded(price)
    ensures Rounded((n as real + 0.5) / 10000.0) == (n as real + 1.0) / 10000.0
  {
    var x := (n as real + 0.5) / 10000.0;
    assert x * 10000.0 == n as real + 0.5;
    assert (n as real + 0.5 + 0.5).Floor == n + 1;
  }

  /** No adjustment makes a deal bid negative or another bid free, and positive results are kept. */
  lemma FinishPositive(adjusted: Priced, dealID: string, currency: string)
    ensures Finish(adjusted, dealID, currency).price >= 0.0
    ensures dealID == "" ==> Finish(adjusted, dealID, currency).price > 0.0
    ensures adjusted.price > 0.0 ==> Finish(adjusted, dealID, currency) == adjusted
    ensures adjusted.price <= 0.0 && dealID == "" ==> Finish(adjusted, dealID, currency) == Priced(0.1, currency)
    ensures adjusted.price < 0.0 && dealID != "" ==> Finish(adjusted, dealID, currency) == Priced(0.0, currency)
    ensures adjusted.price == 0.0 && dealID != "" ==> Finish(adjusted, dealID, currency) == adjusted
  {
  }
}
