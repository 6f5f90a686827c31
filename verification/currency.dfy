/** Deriving a conversion rate directly, by reciprocal, or through any row that knows both currencies. */
module Currency {
  import opened Options
  import opened Orders

  type Table = map<string, map<string, real>>

  /** A float quotient: dividing by zero does not fail. */
  datatype Rate = Finite(value: real) | Infinite | Undefined

  datatype Error = BadCode | NotFound | NilRates

  datatype Result = Ok(rate: Rate) | Err(error: Error)

  function Quotient(a: real, b: real): Rate {
    if b != 0.0 then Finite(a / b) else if a == 0.0 then Undefined else Infinite
  }

  predicate Has(t: Table, from: string, to: string) {
    from in t && to in t[from]
  }

  predicate KnowsBoth(t: Table, row: string, from: string, to: string) {
    Has(t, row, from) && Has(t, row, to)
  }

  /** `FindIntermediateConversionRate` when the rows are met in the order `rows`. */
  function Intermediate(t: Table, rows: seq<string>, from: string, to: string): Result {
    if rows == [] then Err(NotFound)
    else if KnowsBoth(t, rows[0], from, to) then Ok(Quotient(t[rows[0]][to], t[rows[0]][from]))
    else Intermediate(t, rows[1..], from, to)
  }

  /** `Rates.GetRate`; `iso` canonicalises a currency code or rejects it, nil conversions are `None`. */
  function GetRate(t: Option<Table>, iso: string -> Option<string>, rows: seq<string>, from: string, to: string): Result {
    if iso(from).None? || iso(to).None? then Err(BadCode)
    else
      var f, g := iso(from).value, iso(to).value;
      if f == g then Ok(Finite(1.0))
      else if t.None? then Err(NilRates)
      else if Has(t.value, f, g) then Ok(Finite(t.value[f][g]))
      else if Has(t.value, g, f) then Ok(Quotient(1.0, t.value[g][f]))
      else Intermediate(t.value, rows, f, g)
  }

  /** Which error: an unknown code before anything else, then a missing table, then a missing rate. */
  lemma ErrorsExactly(t: Option<Table>, iso: string -> Option<string>, rows: seq<string>, from: string, to: string)
    ensures var r := GetRate(t, iso, rows, from, to);
            && (r == Err(BadCode) <==> iso(from).None? || iso(to).None?)
            && (r == Err(NilRates) <==> t.None? && iso(from).Some? && iso(to).Some? && iso(from) != iso(to))
            && (iso(from).Some? && iso(from) == iso(to) ==> r == Ok(Finite(1.0)))
  {
    if t.Some? && iso(from).Some? && iso(to).Some? {
      OnlyNotFound(t.value, rows, iso(from).value, iso(to).value);
    }
  }

  /** `rows` is a possible iteration order of the table. */
  ghost predicate Iterates(rows: seq<string>, t: Table) {
    Enumerates(rows, t.Keys)
  }

  // ---- tables that agree with one valuation

  /** One unit of `a` is worth `worth(a)` of some common good, and every entry that is not zero says so. */
  ghost predicate Agrees(t: Table, worth: string -> real) {
    && (forall c :: worth(c) > 0.0)
    && (forall a, b :: Has(t, a, b) && t[a][b] != 0.0 ==> t[a][b] == worth(a) / worth(b))
  }

  lemma CrossMultiply(x: real, y: real, f: real, g: real)
    requires x * g == y * f && y != 0.0 && g != 0.0
    ensures x / y == f / g
  {
    var q := x / y;
    assert q * y == x;
    assert y * (q * g) == y * f;
    Cancel(y, q * g, f);
  }

  lemma Cancel(y: real, a: real, b: real)
    requires y != 0.0 && y * a == y * b
    ensures a == b
  {
    assert y * (a - b) == 0.0;
  }

  lemma RatioOfRatios(c: real, f: real, g: real)
    requires c > 0.0 && f > 0.0 && g > 0.0
    ensures c / f != 0.0 && (c / g) / (c / f) == f / g
  {
    var x, y := c / g, c / f;
    assert x * g == c && y * f == c;
    CrossMultiply(x, y, f, g);
  }

  lemma Reciprocal(f: real, g: real)
    requires f > 0.0 && g > 0.0
    ensures g / f != 0.0 && 1.0 / (g / f) == f / g
  {
    var y := g / f;
    assert y * f == g;
    CrossMultiply(1.0, y, f, g);
  }

  /** The first of `rows` that knows both currencies. */
  function FirstRow(t: Table, rows: seq<string>, from: string, to: string): Option<string> {
    if rows == [] then None
    else if KnowsBoth(t, rows[0], from, to) then Some(rows[0])
    else FirstRow(t, rows[1..], from, to)
  }

  /** What two entries of one row give, when they are true to `ratio` unless they are zero. */
  function RowRate(fromRate: real, toRate: real, ratio: real): Rate {
    if fromRate == 0.0 then if toRate == 0.0 then Undefined else Infinite
    else Finite(if toRate == 0.0 then 0.0 else ratio)
  }

  lemma {:induction false} IntermediateWorth(t: Table, rows: seq<string>, from: string, to: string, worth: string -> real)
    requires Agrees(t, worth)
    ensures var r := FirstRow(t, rows, from, to);
            && (r.Some? <==> exists q :: q in rows && KnowsBoth(t, q, from, to))
            && (r.Some? ==> KnowsBoth(t, r.value, from, to))
            && Intermediate(t, rows, from, to)
               == if r.None? then Err(NotFound)
                  else Ok(RowRate(t[r.value][from], t[r.value][to], worth(from) / worth(to)))
  {
    if rows != [] {
      IntermediateWorth(t, rows[1..], from, to, worth);
      if KnowsBoth(t, rows[0], from, to) {
        RowWorth(t, rows[0], from, to, worth);
        assert rows[0] in rows;
      } else {
        assert forall q :: q in rows <==> q == rows[0] || q in rows[1..];
      }
    }
  }

  lemma RowWorth(t: Table, r: string, from: string, to: string, worth: string -> real)
    requires Agrees(t, worth) && KnowsBoth(t, r, from, to)
    ensures Quotient(t[r][to], t[r][from]) == RowRate(t[r][from], t[r][to], worth(from) / worth(to))
  {
    RatioOfRatios(worth(r), worth(from), worth(to));
    if t[r][to] == 0.0 && t[r][from] != 0.0 {
      ZeroOver(t[r][from]);
    }
  }

  lemma ZeroOver(x: real)
    requires x != 0.0
    ensures 0.0 / x == 0.0
  {
  }

  /** Some derivation exists. */
  ghost predicate Linked(t: Table, f: string, g: string) {
    f == g || Has(t, f, g) || Has(t, g, f) || exists r :: r in t && KnowsBoth(t, r, f, g)
  }

  /** No entry that could answer for the pair is zero. */
  ghost predicate Quoted(t: Table, f: string, g: string) {
    if f == g then true
    else if Has(t, f, g) then t[f][g] != 0.0
    else if Has(t, g, f) then t[g][f] != 0.0
    else forall r :: KnowsBoth(t, r, f, g) ==> t[r][f] != 0.0 && t[r][g] != 0.0
  }

  /** What the lookup gives, zero entries included: 0 where one is the rate, no number where one divides. */
  lemma RateValue(t: Table, iso: string -> Option<string>, rows: seq<string>, from: string, to: string, worth: string -> real)
    requires Agrees(t, worth) && Iterates(rows, t) && iso(from).Some? && iso(to).Some?
    ensures var f, g := iso(from).value, iso(to).value;
            var ratio, r := worth(f) / worth(g), FirstRow(t, rows, f, g);
            && (r.Some? ==> KnowsBoth(t, r.value, f, g))
            && GetRate(Some(t), iso, rows, from, to)
               == (if f == g then Ok(Finite(1.0))
                   else if Has(t, f, g) then Ok(Finite(if t[f][g] == 0.0 then 0.0 else ratio))
                   else if Has(t, g, f) then Ok(if t[g][f] == 0.0 then Infinite else Finite(ratio))
                   else if r.Some? then Ok(RowRate(t[r.value][f], t[r.value][g], ratio))
                   else Err(NotFound))
            && (GetRate(Some(t), iso, rows, from, to).Ok? <==> Linked(t, f, g))
  {
    var f, g := iso(from).value, iso(to).value;
    IntermediateWorth(t, rows, f, g, worth);
    Reciprocal(worth(f), worth(g));
  }

  /**
   * Path independence: any derivation, in any map order, gives the ratio of the two worths, if and
   * only if there is a derivation and no entry that could answer is zero.
   */
  lemma RateIsWorthRatio(t: Table, iso: string -> Option<string>, rows: seq<string>, from: string, to: string,
                         worth: string -> real)
    requires Agrees(t, worth) && Iterates(rows, t) && iso(from).Some? && iso(to).Some?
    ensures var f, g := iso(from).value, iso(to).value;
            (forall o :: Iterates(o, t) ==> GetRate(Some(t), iso, o, from, to) == Ok(Finite(worth(f) / worth(g))))
            <==> Linked(t, f, g) && Quoted(t, f, g)
  {
    hide Iterates, Agrees;
    var f, g := iso(from).value, iso(to).value;
    Worths(t, worth, f, g, g);
    PositiveRatio(worth(f), worth(g));
    if Linked(t, f, g) && Quoted(t, f, g) {
      forall o | Iterates(o, t)
        ensures GetRate(Some(t), iso, o, from, to) == Ok(Finite(worth(f) / worth(g)))
      {
        QuotedRate(t, iso, o, from, to, worth);
      }
    } else if f != g && !Has(t, f, g) && !Has(t, g, f) && Linked(t, f, g) {
      var r :| KnowsBoth(t, r, f, g) && !(t[r][f] != 0.0 && t[r][g] != 0.0);
      var o := RowFirst(t, rows, f, g, r);
      RowWorth(t, r, f, g, worth);
    } else {
      RateValue(t, iso, rows, from, to, worth);
    }
  }

  lemma QuotedRate(t: Table, iso: string -> Option<string>, rows: seq<string>, from: string, to: string, worth: string -> real)
    requires Agrees(t, worth) && Iterates(rows, t) && iso(from).Some? && iso(to).Some?
    requires Linked(t, iso(from).value, iso(to).value) && Quoted(t, iso(from).value, iso(to).value)
    ensures GetRate(Some(t), iso, rows, from, to) == Ok(Finite(worth(iso(from).value) / worth(iso(to).value)))
  {
    hide Iterates;
    RateValue(t, iso, rows, from, to, worth);
    PositiveRatio(worth(iso(from).value), worth(iso(to).value));
  }

  lemma PositiveRatio(x: real, y: real)
    requires x > 0.0 && y > 0.0
    ensures x / y > 0.0 && (x == y ==> x / y == 1.0)
  {
  }

  /** Rates that exist compose and invert, where no zero entry answers. */
  lemma RatesCompose(t: Table, iso: string -> Option<string>, rows: seq<string>, rows': seq<string>,
                     a: string, b: string, c: string, worth: string -> real)
    requires Agrees(t, worth) && Iterates(rows, t) && Iterates(rows', t)
    requires GetRate(Some(t), iso, rows, a, b).Ok? && GetRate(Some(t), iso, rows, b, c).Ok?
    requires var x, y, z := iso(a).value, iso(b).value, iso(c).value;
             Quoted(t, x, y) && Quoted(t, y, z) && Quoted(t, x, z) && Quoted(t, y, x)
    ensures var ab, bc, ac, ba := GetRate(Some(t), iso, rows, a, b), GetRate(Some(t), iso, rows, b, c),
                                  GetRate(Some(t), iso, rows', a, c), GetRate(Some(t), iso, rows', b, a);
            && ab.rate.Finite? && bc.rate.Finite?
            && (ac.Ok? ==> ac.rate == Finite(ab.rate.value * bc.rate.value))
            && ba.Ok? && ba.rate.Finite? && ab.rate.value * ba.rate.value == 1.0
  {
    hide Agrees, Linked, Quoted, Iterates;
    var x, y, z := iso(a).value, iso(b).value, iso(c).value;
    LinkedSymmetric(t, x, y);
    LinkedRates(t, iso, rows, a, b, worth);
    LinkedRates(t, iso, rows, b, c, worth);
    LinkedRates(t, iso, rows', a, c, worth);
    LinkedRates(t, iso, rows', b, a, worth);
    Worths(t, worth, x, y, z);
    RatiosCompose(worth(x), worth(y), worth(z));
  }

  lemma LinkedRates(t: Table, iso: string -> Option<string>, rows: seq<string>, from: string, to: string, worth: string -> real)
    requires Agrees(t, worth) && Iterates(rows, t) && iso(from).Some? && iso(to).Some?
    requires Quoted(t, iso(from).value, iso(to).value)
    ensures var r := GetRate(Some(t), iso, rows, from, to);
            && (r.Ok? <==> Linked(t, iso(from).value, iso(to).value))
            && (r.Ok? ==> r == Ok(Finite(worth(iso(from).value) / worth(iso(to).value))))
  {
    hide Iterates, Agrees, Quoted, Linked;
    RateValue(t, iso, rows, from, to, worth);
    if Linked(t, iso(from).value, iso(to).value) {
      QuotedRate(t, iso, rows, from, to, worth);
    }
  }

  lemma Worths(t: Table, worth: string -> real, a: string, b: string, c: string)
    requires Agrees(t, worth)
    ensures worth(a) > 0.0 && worth(b) > 0.0 && worth(c) > 0.0
  {
  }

  lemma LinkedSymmetric(t: Table, f: string, g: string)
    ensures Linked(t, f, g) <==> Linked(t, g, f)
  {
  }

  lemma RatiosCompose(a: real, b: real, c: real)
    requires a > 0.0 && b > 0.0 && c > 0.0
    ensures (a / b) * (b / c) == a / c && (a / b) * (b / a) == 1.0
  {
    Chain(a / b, b / c, a, b, c);
    Chain(a / b, b / a, a, b, a);
    Cancel(c, (a / b) * (b / c), a / c);
    Cancel(a, (a / b) * (b / a), 1.0);
  }

  lemma Chain(x: real, y: real, a: real, b: real, c: real)
    requires x * b == a && y * c == b
    ensures c * (x * y) == a
  {
    assert x * (y * c) == a;
  }

  // ---- tables in general

  /** All rows that know both currencies put them in the same proportion. */
  ghost predicate RowsAgree(t: Table, from: string, to: string) {
    forall r, q :: KnowsBoth(t, r, from, to) && KnowsBoth(t, q, from, to) ==>
      Quotient(t[r][to], t[r][from]) == Quotient(t[q][to], t[q][from])
  }

  lemma {:induction false} IntermediateIsSomeRow(t: Table, rows: seq<string>, from: string, to: string) returns (r: string)
    requires Intermediate(t, rows, from, to).Ok?
    ensures r in rows && KnowsBoth(t, r, from, to)
    ensures Intermediate(t, rows, from, to) == Ok(Quotient(t[r][to], t[r][from]))
  {
    if KnowsBoth(t, rows[0], from, to) {
      r := rows[0];
    } else {
      r := IntermediateIsSomeRow(t, rows[1..], from, to);
    }
  }

  lemma {:induction false} IntermediateFinds(t: Table, rows: seq<string>, from: string, to: string, r: string)
    requires r in rows && KnowsBoth(t, r, from, to)
    ensures Intermediate(t, rows, from, to).Ok?
  {
    if r != rows[0] && !KnowsBoth(t, rows[0], from, to) {
      IntermediateFinds(t, rows[1..], from, to, r);
    }
  }

  /** The derived rate does not depend on map order if and only if the rows agree. */
  lemma OrderIndependentExactly(t: Table, rows: seq<string>, from: string, to: string)
    requires Iterates(rows, t)
    ensures (forall o :: Iterates(o, t) ==> Intermediate(t, o, from, to) == Intermediate(t, rows, from, to))
            <==> RowsAgree(t, from, to)
  {
    hide Quotient;
    if RowsAgree(t, from, to) {
      forall o | Iterates(o, t)
        ensures Intermediate(t, o, from, to) == Intermediate(t, rows, from, to)
      {
        if Intermediate(t, o, from, to).Ok? {
          var r := IntermediateIsSomeRow(t, o, from, to);
          IntermediateFinds(t, rows, from, to, r);
        }
        if Intermediate(t, rows, from, to).Ok? {
          var q := IntermediateIsSomeRow(t, rows, from, to);
          IntermediateFinds(t, o, from, to, q);
        } else {
          OnlyNotFound(t, rows, from, to);
          OnlyNotFound(t, o, from, to);
        }
      }
    } else {
      var r, q :| KnowsBoth(t, r, from, to) && KnowsBoth(t, q, from, to) &&
                  Quotient(t[r][to], t[r][from]) != Quotient(t[q][to], t[q][from]);
      var o := RowFirst(t, rows, from, to, r);
      var o' := RowFirst(t, rows, from, to, q);
    }
  }

  lemma RowFirst(t: Table, rows: seq<string>, from: string, to: string, r: string) returns (o: seq<string>)
    requires Iterates(rows, t) && KnowsBoth(t, r, from, to)
    ensures Iterates(o, t) && Intermediate(t, o, from, to) == Ok(Quotient(t[r][to], t[r][from]))
  {
    assert r in rows;
    var i :| 0 <= i < |rows| && rows[i] == r;
    o := ToFront(rows, i);
    ToFrontEnumerates(rows, t.Keys, i);
  }

  lemma {:induction false} OnlyNotFound(t: Table, rows: seq<string>, from: string, to: string)
    ensures Intermediate(t, rows, from, to).Err? ==> Intermediate(t, rows, from, to) == Err(NotFound)
  {
    if rows != [] {
      OnlyNotFound(t, rows[1..], from, to);
    }
  }

  // ---- the rates of an auction

  /** What may answer for a rate: same currency only, one table (nil is `None`), or custom before server rates. */
  datatype Conversions =
    | Constant
    | Rates(table: Option<Table>)
    | Aggregate(custom: Conversions, server: Conversions)

  /** `bidRequest.ext.prebid.currency`; nil pointers and a nil map are `None`. */
  datatype RequestRates = RequestRates(table: Option<Table>, usePbsRates: Option<bool>)

  predicate UsesPbs(r: RequestRates) {
    r.usePbsRates.None? || r.usePbsRates.value
  }

  /** `GetAuctionCurrencyRates`; `server` is what the converter answers with, `None` a nil converter. */
  function GetAuctionCurrencyRates(server: Option<Conversions>, request: Option<RequestRates>): Option<Conversions> {
    if request.None? then server
    else if server.None? || !UsesPbs(request.value) then Some(Rates(request.value.table))
    else if request.value.table.None? || request.value.table.value == map[] then server
    else Some(Aggregate(Rates(request.value.table), server.value))
  }

  /** Orders in which the rows of the custom and of the server table are met. */
  datatype RowOrders = RowOrders(custom: seq<string>, server: seq<string>)

  function ConstantRate(iso: string -> Option<string>, from: string, to: string): Result {
    GetRate(Some(map[]), iso, [], from, to)
  }

  /** `GetRate` of a source that is no aggregate. */
  function SourceRate(c: Conversions, iso: string -> Option<string>, rows: seq<string>, from: string, to: string): Result {
    if c.Rates? then GetRate(c.table, iso, rows, from, to) else ConstantRate(iso, from, to)
  }

  /** `Conversions.GetRate`, for the aggregate as `AggregateConversions.GetRate`. */
  function AuctionRate(c: Conversions, iso: string -> Option<string>, o: RowOrders, from: string, to: string): Result {
    match c
    case Aggregate(custom, server) =>
      var rate := SourceRate(custom, iso, o.custom, from, to);
      if rate.Ok? then rate
      else if rate.error != NotFound then rate
      else SourceRate(server, iso, o.server, from, to)
    case _ => SourceRate(c, iso, o.server, from, to)
  }

  /** The table a source knows. */
  function Known(c: Conversions): Table {
    if c.Rates? && c.table.Some? then c.table.value else map[]
  }

  lemma SourceRates(c: Conversions, iso: string -> Option<string>, rows: seq<string>, from: string, to: string,
                    worth: string -> real)
    requires !c.Aggregate? && Agrees(Known(c), worth) && Iterates(rows, Known(c)) && iso(from).Some? && iso(to).Some?
    ensures var f, g := iso(from).value, iso(to).value;
            var r := SourceRate(c, iso, rows, from, to);
            && (r.Ok? <==> Linked(Known(c), f, g))
            && (r.Ok? ==> r == GetRate(Some(Known(c)), iso, rows, from, to))
            && (r.Ok? && Quoted(Known(c), f, g) ==> r.rate == Finite(worth(f) / worth(g)))
            && (r.Err? && Known(c) != map[] ==> r.error == NotFound)
  {
    hide Agrees;
    RateValue(Known(c), iso, rows, from, to, worth);
    if Quoted(Known(c), iso(from).value, iso(to).value) {
      LinkedRates(Known(c), iso, rows, from, to, worth);
    }
    Worths(Known(c), worth, iso(from).value, iso(to).value, iso(to).value);
  }

  /** The custom table that counts: none without the request's rates, an absent one is empty. */
  function CustomTable(request: Option<RequestRates>): Table {
    if request.None? || request.value.table.None? then map[] else request.value.table.value
  }

  /**
   * With the server's rates in use and any custom table, nil and empty ones included: a rate is
   * found if and only if one of the two tables links the currencies. The custom table answers if it
   * links them, and the rate is the ratio of their worths unless an entry of the answering table is zero.
   */
  lemma AuctionRateIsWorthRatio(server: Conversions, request: Option<RequestRates>, iso: string -> Option<string>,
                                o: RowOrders, from: string, to: string, worth: string -> real)
    requires !server.Aggregate? && (request.Some? ==> UsesPbs(request.value))
    requires Agrees(CustomTable(request), worth) && Agrees(Known(server), worth)
    requires Iterates(o.custom, CustomTable(request)) && Iterates(o.server, Known(server))
    requires iso(from).Some? && iso(to).Some?
    ensures var c := GetAuctionCurrencyRates(Some(server), request);
            var f, g, custom := iso(from).value, iso(to).value, CustomTable(request);
            && c.Some?
            && var r := AuctionRate(c.value, iso, o, from, to);
               && (r.Ok? <==> Linked(custom, f, g) || Linked(Known(server), f, g))
               && (r.Ok? ==>
                     r == if f != g && Linked(custom, f, g) then GetRate(Some(custom), iso, o.custom, from, to)
                          else GetRate(Some(Known(server)), iso, o.server, from, to))
               && (r.Ok? && Quoted(if Linked(custom, f, g) then custom else Known(server), f, g) ==>
                     r.rate == Finite(worth(f) / worth(g)))
  {
    hide Agrees, Iterates, SourceRate, Quoted;
    var custom, f, g := CustomTable(request), iso(from).value, iso(to).value;
    SourceRates(server, iso, o.server, from, to, worth);
    SourceRates(Rates(Some(custom)), iso, o.custom, from, to, worth);
    if custom == map[] {
      assert Linked(custom, f, g) <==> f == g;
    }
    if f == g {
      SameCurrency(custom, f);
      SameCurrency(Known(server), f);
    }
  }

  lemma SameCurrency(t: Table, f: string)
    ensures Linked(t, f, f) && Quoted(t, f, f)
  {
  }

  /** Without the server's rates only the custom table counts. */
  lemma CustomRatesOnly(server: Option<Conversions>, request: RequestRates, iso: string -> Option<string>,
                        o: RowOrders, from: string, to: string, worth: string -> real)
    requires server.None? || !UsesPbs(request)
    requires Agrees(CustomTable(Some(request)), worth) && Iterates(o.server, CustomTable(Some(request)))
    requires iso(from).Some? && iso(to).Some?
    ensures var c := GetAuctionCurrencyRates(server, Some(request));
            var f, g, custom := iso(from).value, iso(to).value, CustomTable(Some(request));
            && c.Some?
            && var r := AuctionRate(c.value, iso, o, from, to);
               && (r.Ok? <==> Linked(custom, f, g))
               && (r.Ok? ==> r == GetRate(Some(custom), iso, o.server, from, to))
               && (r.Ok? && Quoted(custom, f, g) ==> r.rate == Finite(worth(f) / worth(g)))
  {
    hide Agrees, Iterates, SourceRate, Quoted;
    SourceRates(Rates(request.table), iso, o.server, from, to, worth);
  }

  /** A zero entry gives no number: the reciprocal of a rate of zero. */
  lemma ZeroRateGivesNoNumber()
    ensures var t: Table := map["USD" := map["XAF" := 0.0]];
            GetRate(Some(t), u => Some(u), ["USD"], "XAF", "USD") == Ok(Infinite)
  {
  }
}
