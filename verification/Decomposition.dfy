/**
 * The rolling regressions behind the four-layer decomposition of a daily return.
 *
 * A series has one optional value per trading day. Least squares is an arbitrary
 * function of its window: what is proved is which days a window may contain.
 */
module Decomposition {
  import opened Prelude

  const OLS_WINDOW := 120
  const OLS_MIN_NOBS := 60
  const SECTOR_BETA_FLOOR := 0.0

  type Series = seq<Option<real>>

  /** One complete day of a regression: the target and the regressors. */
  datatype Obs = Obs(y: real, x: seq<real>)

  /** A fitted window: the constant and one coefficient per regressor, and the fit quality. */
  datatype Model = Model(coef: seq<real>, r2: Option<real>)

  ghost predicate WellShaped(f: seq<Obs> -> Model) {
    forall w: seq<Obs> :: |w| > 0 ==> |f(w).coef| == 1 + |w[0].x|
  }

  function ZeroModel(w: seq<Obs>): Model {
    Model(if w == [] then [] else seq(1 + |w[0].x|, _ => 0.0), None)
  }

  type Fit = f: seq<Obs> -> Model | WellShaped(f) witness ZeroModel

  /** The result of a regression on one day; its absence stands for missing values and no observations. */
  datatype FitRow = FitRow(model: Model, nObs: nat)

  ghost predicate Aligned(y: Series, x: seq<Series>) {
    forall i :: 0 <= i < |x| ==> |x[i]| == |y|
  }

  // ----- complete days

  function RowOf(x: seq<Series>, t: nat): (row: Option<seq<real>>)
    requires forall i :: 0 <= i < |x| ==> t < |x[i]|
    ensures row.Some? <==> forall i :: 0 <= i < |x| ==> x[i][t].Some?
    ensures row.Some? ==> |row.value| == |x| && forall i :: 0 <= i < |x| ==> x[i][t] == Some(row.value[i])
  {
    if x == [] then Some([])
    else if x[0][t].None? then None
    else
      var more := RowOf(x[1..], t);
      if more.None? then None else Some([x[0][t].value] + more.value)
  }

  function ObsOf(y: Series, x: seq<Series>, t: nat): Option<Obs>
    requires Aligned(y, x) && t < |y|
  {
    var row := RowOf(x, t);
    if y[t].None? || row.None? then None else Some(Obs(y[t].value, row.value))
  }

  /** The complete days before `n`, in order. */
  function CompleteRows(y: Series, x: seq<Series>, n: nat): (rows: seq<nat>)
    requires Aligned(y, x) && n <= |y|
    ensures forall i :: 0 <= i < |rows| ==> rows[i] < n
  {
    if n == 0 then []
    else CompleteRows(y, x, n - 1) + if ObsOf(y, x, n - 1).Some? then [n - 1] else []
  }

  /** Their observations. */
  function Observations(y: Series, x: seq<Series>, n: nat): (all: seq<Obs>)
    requires Aligned(y, x) && n <= |y|
    ensures forall i :: 0 <= i < |all| ==> |all[i].x| == |x|
  {
    if n == 0 then []
    else
      var obs := ObsOf(y, x, n - 1);
      Observations(y, x, n - 1) + if obs.Some? then [obs.value] else []
  }

  /** The last `window` observations, when there are enough. */
  function FitLast(all: seq<Obs>, window: nat, minNobs: nat, fit: Fit): Option<FitRow> {
    if |all| < minNobs then None
    else
      var start := if |all| < window then 0 else |all| - window;
      Some(FitRow(fit(all[start..]), |all| - start))
  }

  /** The regression result on day `t`: the fit that ends `shift` complete days earlier. */
  function FitAt(y: Series, x: seq<Series>, window: nat, minNobs: nat, shift: nat, fit: Fit, t: nat): (row: Option<FitRow>)
    requires Aligned(y, x) && t < |y| && minNobs >= 1
    ensures row.Some? && window >= 1 ==> |row.value.model.coef| == 1 + |x|
  {
    if ObsOf(y, x, t).None? then None
    else
      var all := Observations(y, x, t + 1);
      if |all| < shift then None else FitLast(all[..|all| - shift], window, minNobs, fit)
  }

  lemma {:induction false} RowsAndObservations(y: Series, x: seq<Series>, n: nat)
    requires Aligned(y, x) && n <= |y|
    ensures |CompleteRows(y, x, n)| == |Observations(y, x, n)|
    ensures forall i, j :: 0 <= i < j < |CompleteRows(y, x, n)| ==> CompleteRows(y, x, n)[i] < CompleteRows(y, x, n)[j]
    ensures forall t :: 0 <= t < n && ObsOf(y, x, t).Some? ==> t in CompleteRows(y, x, n)
    ensures forall i :: 0 <= i < |CompleteRows(y, x, n)| ==> ObsOf(y, x, CompleteRows(y, x, n)[i]).Some?
  {
    if n > 0 {
      RowsAndObservations(y, x, n - 1);
    }
  }

  lemma {:induction false} SameCount(y: Series, x: seq<Series>, n: nat)
    requires Aligned(y, x) && n <= |y|
    ensures |CompleteRows(y, x, n)| == |Observations(y, x, n)|
  {
    if n > 0 {
      SameCount(y, x, n - 1);
    }
  }

  /** The observations up to the `i`-th complete day are the first `i + 1` of all. */
  lemma {:induction false} ObservationsUpTo(y: Series, x: seq<Series>, n: nat, i: nat)
    requires Aligned(y, x) && n <= |y| && i < |CompleteRows(y, x, n)|
    ensures i < |Observations(y, x, n)|
    ensures Observations(y, x, CompleteRows(y, x, n)[i] + 1) == Observations(y, x, n)[..i + 1]
  {
    SameCount(y, x, n);
    SameCount(y, x, n - 1);
    if i < |CompleteRows(y, x, n - 1)| {
      ObservationsUpTo(y, x, n - 1, i);
      assert CompleteRows(y, x, n)[i] == CompleteRows(y, x, n - 1)[i];
      assert Observations(y, x, n)[..i + 1] == Observations(y, x, n - 1)[..i + 1];
    } else {
      assert CompleteRows(y, x, n)[i] == n - 1;
      assert Observations(y, x, n)[..i + 1] == Observations(y, x, n);
    }
  }

  // ----- the rolling regression

  method ShiftRows(values: array<Option<FitRow>>, shift: nat) returns (out: array<Option<FitRow>>)
    ensures out.Length == values.Length
    ensures forall i :: 0 <= i < out.Length ==> out[i] == if i < shift then None else values[i - shift]
  {
    if shift == 0 {
      return values;
    }
    out := new Option<FitRow>[values.Length](_ => None);
    var i := shift;
    while i < out.Length
      invariant shift <= i
      invariant forall k :: 0 <= k < out.Length ==> out[k] == if k < shift || k >= i then None else values[k - shift]
    {
      out[i] := values[i - shift];
      i := i + 1;
    }
  }

  method FitWindows(joined: seq<Obs>, window: nat, minNobs: nat, fit: Fit) returns (params: array<Option<FitRow>>)
    requires minNobs >= 1
    ensures params.Length == |joined|
    ensures forall k :: 0 <= k < |joined| ==> params[k] == FitLast(joined[..k + 1], window, minNobs, fit)
  {
    params := new Option<FitRow>[|joined|](_ => None);
    if |joined| >= minNobs {
      for end := minNobs to |joined| + 1
        invariant forall k :: 0 <= k < |joined| ==>
                    params[k] == if k + 1 < end then FitLast(joined[..k + 1], window, minNobs, fit) else None
      {
        var start := if end < window then 0 else end - window;
        assert joined[..end][start..] == joined[start..end];
        params[end - 1] := Some(FitRow(fit(joined[start..end]), end - start));
      }
    }
  }

  /** On its `k`-th complete day the regression is the fit that ends `shift` complete days before. */
  lemma FitAtRank(y: Series, x: seq<Series>, window: nat, minNobs: nat, shift: nat, fit: Fit, k: nat)
    requires Aligned(y, x) && minNobs >= 1 && k < |CompleteRows(y, x, |y|)|
    ensures |Observations(y, x, |y|)| == |CompleteRows(y, x, |y|)|
    ensures FitAt(y, x, window, minNobs, shift, fit, CompleteRows(y, x, |y|)[k])
            == if k < shift then None else FitLast(Observations(y, x, |y|)[..k - shift + 1], window, minNobs, fit)
  {
    SameCount(y, x, |y|);
    CompleteRowIsComplete(y, x, |y|, k);
    ObservationsUpTo(y, x, |y|, k);
    if shift <= k {
      assert Observations(y, x, |y|)[..k + 1][..k + 1 - shift] == Observations(y, x, |y|)[..k - shift + 1];
    }
  }

  lemma {:induction false} CompleteRowIsComplete(y: Series, x: seq<Series>, n: nat, i: nat)
    requires Aligned(y, x) && n <= |y| && i < |CompleteRows(y, x, n)|
    ensures ObsOf(y, x, CompleteRows(y, x, n)[i]).Some?
  {
    if i < |CompleteRows(y, x, n - 1)| {
      CompleteRowIsComplete(y, x, n - 1, i);
    }
  }

  /** The rows of `values` put back on their days; every other day is missing. */
  method Reindex(values: array<Option<FitRow>>, index: seq<nat>, days: nat) returns (out: seq<Option<FitRow>>)
    requires values.Length == |index|
    requires forall i :: 0 <= i < |index| ==> index[i] < days
    requires forall i, j :: 0 <= i < j < |index| ==> index[i] < index[j]
    ensures |out| == days
    ensures forall k :: 0 <= k < |index| ==> out[index[k]] == values[k]
    ensures forall t :: 0 <= t < days && t !in index ==> out[t] == None
  {
    out := seq(days, _ => None);
    for i := 0 to |index|
      invariant |out| == days
      invariant forall k :: 0 <= k < i ==> out[index[k]] == values[k]
      invariant forall t :: 0 <= t < days && t !in index ==> out[t] == None
    {
      out := out[index[i] := values[i]];
    }
  }

  /** Day by day the regression is the fit of a window of complete days. */
  method RollingOls(y: Series, x: seq<Series>, window: nat, minNobs: nat, shift: nat, fit: Fit)
    returns (out: seq<Option<FitRow>>)
    requires Aligned(y, x) && minNobs >= 1
    ensures |out| == |y|
    ensures forall t :: 0 <= t < |y| ==> out[t] == FitAt(y, x, window, minNobs, shift, fit, t)
  {
    var index := CompleteRows(y, x, |y|);
    var joined := Observations(y, x, |y|);
    RowsAndObservations(y, x, |y|);
    var params := FitWindows(joined, window, minNobs, fit);
    var shifted := ShiftRows(params, shift);
    out := Reindex(shifted, index, |y|);
    forall t | 0 <= t < |y| ensures out[t] == FitAt(y, x, window, minNobs, shift, fit, t) {
      if t in index {
        var k :| 0 <= k < |index| && index[k] == t;
        FitAtRank(y, x, window, minNobs, shift, fit, k);
      }
    }
  }

  /** Shifting by one moves each result to the next complete day. */
  lemma ShiftedIsPreviousDaysFit(y: Series, x: seq<Series>, window: nat, minNobs: nat, fit: Fit, k: nat)
    requires Aligned(y, x) && minNobs >= 1 && k + 1 < |CompleteRows(y, x, |y|)|
    ensures var days := CompleteRows(y, x, |y|);
            FitAt(y, x, window, minNobs, 1, fit, days[k + 1]) == FitAt(y, x, window, minNobs, 0, fit, days[k])
  {
    FitAtRank(y, x, window, minNobs, 1, fit, k + 1);
    FitAtRank(y, x, window, minNobs, 0, fit, k);
  }

  // ----- the four layers

  datatype LayerInputs = LayerInputs(r: Series, spy: Series, m: Series, etf: Option<Series>, s: Option<Series>) {
    ghost predicate Valid() {
      && |spy| == |r| && |m| == |r|
      && (etf.Some? ==> |etf.value| == |r|)
      && (s.Some? ==> |s.value| == |r|)
    }

    /** Every input that exists has a value on day `t`. */
    ghost predicate CompleteOn(t: nat)
      requires Valid() && t < |r|
    {
      && r[t].Some? && spy[t].Some? && m[t].Some?
      && (etf.Some? ==> etf.value[t].Some?)
      && (s.Some? ==> s.value[t].Some?)
    }
  }

  /** The product, kept under a name so that sums of products stay linear. */
  function Times(x: real, y: real): (z: real)
    ensures z == x * y
  {
    x * y
  }

  function Dot(coef: seq<real>, xs: seq<real>): real
    requires |coef| == |xs|
  {
    if xs == [] then 0.0 else Times(coef[0], xs[0]) + Dot(coef[1..], xs[1..])
  }

  /** What is left of `y` on day `t` after the fit of the days before it. */
  function ResidAt(y: Series, x: seq<Series>, fit: Fit, t: nat): Option<real>
    requires Aligned(y, x) && t < |y|
  {
    match FitAt(y, x, OLS_WINDOW, OLS_MIN_NOBS, 1, fit, t)
    case None => None
    case Some(row) =>
      var obs := ObsOf(y, x, t).value;
      Some(obs.y - (row.model.coef[0] + Dot(row.model.coef[1..], obs.x)))
  }

  function Resid(y: Series, x: seq<Series>, fit: Fit): (z: Series)
    requires Aligned(y, x)
    ensures |z| == |y|
    ensures forall t :: 0 <= t < |y| ==> z[t] == ResidAt(y, x, fit, t)
  {
    seq(|y|, t requires 0 <= t < |y| => ResidAt(y, x, fit, t))
  }

  /** The residualized factors; the sector ETF and the sector are optional. */
  datatype Factors = Factors(spy: Series, etfRes: Option<Series>, mRes: Series, sRes: Option<Series>) {
    function Columns(): seq<Series> {
      [spy] + (if etfRes.Some? then [etfRes.value] else []) + [mRes] + (if sRes.Some? then [sRes.value] else [])
    }
  }

  function BuildFactors(inputs: LayerInputs, fit: Fit): (f: Factors)
    requires inputs.Valid()
    ensures Aligned(inputs.r, f.Columns())
    ensures f.etfRes.Some? == inputs.etf.Some? && f.sRes.Some? == inputs.s.Some?
  {
    Factors(inputs.spy,
            if inputs.etf.Some? then Some(Resid(inputs.etf.value, [inputs.spy], fit)) else None,
            Resid(inputs.m, [inputs.spy], fit),
            if inputs.s.Some? then Some(Resid(inputs.s.value, [inputs.spy, inputs.m], fit)) else None)
  }

  /** One sensitivity per factor that exists. */
  datatype Betas = Betas(spy: real, etfRes: Option<real>, mRes: real, sRes: Option<real>)

  function BetasOf(f: Factors, coef: seq<real>): Betas
    requires |coef| == 1 + |f.Columns()|
  {
    var m := if f.etfRes.Some? then 3 else 2;
    Betas(coef[1],
          if f.etfRes.Some? then Some(coef[2]) else None,
          coef[m],
          if f.sRes.Some? then Some(coef[m + 1]) else None)
  }

  function FloorSector(b: Betas): Betas {
    if b.sRes.Some? then b.(sRes := Some(Max(SECTOR_BETA_FLOOR, b.sRes.value))) else b
  }

  /** The betas used on day `t`; with `shift == 0`, the betas known at the end of day `t`. */
  function BetasAt(inputs: LayerInputs, fit: Fit, shift: nat, t: nat): Option<Betas>
    requires inputs.Valid() && t < |inputs.r|
  {
    var f := BuildFactors(inputs, fit);
    match FitAt(inputs.r, f.Columns(), OLS_WINDOW, OLS_MIN_NOBS, shift, fit, t)
    case None => None
    case Some(row) => Some(FloorSector(BetasOf(f, row.model.coef)))
  }

  datatype Layer = Global | Market | Sector | Idio

  datatype Contribution = Contribution(r: real, global: real, market: real, sector: real, idio: real, dominant: Layer) {
    function Of(layer: Layer): real {
      match layer
      case Global => global
      case Market => market
      case Sector => sector
      case Idio => idio
    }
  }

  function Abs(x: real): real { if x < 0.0 then -x else x }

  function Dominant(global: real, market: real, sector: real, idio: real): Layer {
    if Abs(global) >= Abs(market) && Abs(global) >= Abs(sector) && Abs(global) >= Abs(idio) then Global
    else if Abs(market) >= Abs(sector) && Abs(market) >= Abs(idio) then Market
    else if Abs(sector) >= Abs(idio) then Sector
    else Idio
  }

  /** A factor on one day: absent as a column, or missing that day, or a value. */
  type Cell = Option<Option<real>>

  /** One factor's part of the move; a factor that does not exist contributes nothing. */
  function Term(beta: Option<real>, factor: Cell): Option<real> {
    if beta.None? || factor.None? then Some(0.0)
    else if factor.value.None? then None
    else Some(Times(beta.value, factor.value.value))
  }

  function Contribute(r: Option<real>, spy: Cell, etfRes: Cell, mRes: Cell, sRes: Cell, b: Betas): Option<Contribution> {
    var first, etf, market, sector := Term(Some(b.spy), spy), Term(b.etfRes, etfRes), Term(Some(b.mRes), mRes), Term(b.sRes, sRes);
    if r.None? || first.None? || etf.None? || market.None? || sector.None? then None
    else
      var global := first.value + etf.value;
      var idio := r.value - global - market.value - sector.value;
      Some(Contribution(r.value, global, market.value, sector.value, idio, Dominant(global, market.value, sector.value, idio)))
  }

  function CellAt(factor: Option<Series>, t: nat): Cell
    requires factor.Some? ==> t < |factor.value|
  {
    if factor.None? then None else Some(factor.value[t])
  }

  ghost predicate Reaches(f: Factors, t: nat) {
    && t < |f.spy| && t < |f.mRes|
    && (f.etfRes.Some? ==> t < |f.etfRes.value|) && (f.sRes.Some? ==> t < |f.sRes.value|)
  }

  function ContributionAt(r: Series, f: Factors, betas: Option<Betas>, t: nat): Option<Contribution>
    requires Reaches(f, t) && t < |r|
  {
    if betas.None? then None
    else Contribute(r[t], Some(f.spy[t]), CellAt(f.etfRes, t), Some(f.mRes[t]), CellAt(f.sRes, t), betas.value)
  }

  /** The decomposition on day `t`. */
  function DecomposeAt(inputs: LayerInputs, fit: Fit, t: nat): Option<Contribution>
    requires inputs.Valid() && t < |inputs.r|
  {
    ContributionAt(inputs.r, BuildFactors(inputs, fit), BetasAt(inputs, fit, 1, t), t)
  }

  // ----- no look-ahead

  ghost predicate SameBefore(a: Series, b: Series, n: nat) {
    |a| == |b| && n <= |a| && a[..n] == b[..n]
  }

  ghost predicate AllSameBefore(x: seq<Series>, x': seq<Series>, n: nat) {
    |x| == |x'| && forall i :: 0 <= i < |x| ==> SameBefore(x[i], x'[i], n)
  }

  lemma {:induction false} SameObservations(y: Series, x: seq<Series>, y': Series, x': seq<Series>, n: nat)
    requires Aligned(y, x) && Aligned(y', x') && SameBefore(y, y', n) && AllSameBefore(x, x', n)
    ensures Observations(y, x, n) == Observations(y', x', n)
  {
    if n > 0 {
      forall i | 0 <= i < |x| ensures SameBefore(x[i], x'[i], n - 1) {
        assert x[i][..n][..n - 1] == x[i][..n - 1] && x'[i][..n][..n - 1] == x'[i][..n - 1];
      }
      assert y[..n][..n - 1] == y[..n - 1] && y'[..n][..n - 1] == y'[..n - 1];
      SameObservations(y, x, y', x', n - 1);
      SameRow(y, x, y', x', n - 1);
    }
  }

  lemma SameRow(y: Series, x: seq<Series>, y': Series, x': seq<Series>, t: nat)
    requires Aligned(y, x) && Aligned(y', x') && SameBefore(y, y', t + 1) && AllSameBefore(x, x', t + 1)
    ensures ObsOf(y, x, t) == ObsOf(y', x', t)
  {
    assert y[t] == y[..t + 1][t] == y'[..t + 1][t] == y'[t];
    forall i | 0 <= i < |x| ensures x[i][t] == x'[i][t] {
      assert SameBefore(x[i], x'[i], t + 1);
      assert x[i][t] == x[i][..t + 1][t] == x'[i][..t + 1][t] == x'[i][t];
    }
    var row, row' := RowOf(x, t), RowOf(x', t);
    if row.Some? {
      assert row.value == row'.value;
    }
  }

  /** A shifted regression on day `t` looks at the days before `t` only, beyond asking whether `t` is complete. */
  lemma ShiftedFitLooksBack(y: Series, x: seq<Series>, y': Series, x': seq<Series>, window: nat, minNobs: nat, fit: Fit, t: nat)
    requires Aligned(y, x) && Aligned(y', x') && SameBefore(y, y', t) && AllSameBefore(x, x', t) && t < |y| && minNobs >= 1
    requires ObsOf(y, x, t).Some? && ObsOf(y', x', t).Some?
    ensures FitAt(y, x, window, minNobs, 1, fit, t) == FitAt(y', x', window, minNobs, 1, fit, t)
    ensures FitAt(y, x, window, minNobs, 1, fit, t).Some? <==> |Observations(y, x, t)| >= minNobs
  {
    SameObservations(y, x, y', x', t);
    var all, all' := Observations(y, x, t + 1), Observations(y', x', t + 1);
    assert all[..|all| - 1] == Observations(y, x, t);
    assert all'[..|all'| - 1] == Observations(y', x', t);
  }

  lemma SameResid(y: Series, x: seq<Series>, y': Series, x': seq<Series>, fit: Fit, n: nat)
    requires Aligned(y, x) && Aligned(y', x') && SameBefore(y, y', n) && AllSameBefore(x, x', n)
    ensures SameBefore(Resid(y, x, fit), Resid(y', x', fit), n)
  {
    forall t | 0 <= t < n ensures ResidAt(y, x, fit, t) == ResidAt(y', x', fit, t) {
      Shorter(y, y', n, t + 1);
      ShorterAll(x, x', n, t + 1);
      SameRow(y, x, y', x', t);
      if ObsOf(y, x, t).Some? {
        Shorter(y, y', n, t);
        ShorterAll(x, x', n, t);
        ShiftedFitLooksBack(y, x, y', x', OLS_WINDOW, OLS_MIN_NOBS, fit, t);
      }
    }
    var z, z' := Resid(y, x, fit), Resid(y', x', fit);
    assert forall t :: 0 <= t < n ==> z[..n][t] == z'[..n][t];
  }

  lemma Shorter(a: Series, b: Series, n: nat, k: nat)
    requires SameBefore(a, b, n) && k <= n
    ensures SameBefore(a, b, k)
  {
    assert a[..n][..k] == a[..k] && b[..n][..k] == b[..k];
  }

  lemma ShorterAll(x: seq<Series>, x': seq<Series>, n: nat, k: nat)
    requires AllSameBefore(x, x', n) && k <= n
    ensures AllSameBefore(x, x', k)
  {
    forall i | 0 <= i < |x| ensures SameBefore(x[i], x'[i], k) {
      Shorter(x[i], x'[i], n, k);
    }
  }

  ghost predicate SameInputsBefore(a: LayerInputs, b: LayerInputs, n: nat) {
    && a.Valid() && b.Valid()
    && SameBefore(a.r, b.r, n) && SameBefore(a.spy, b.spy, n) && SameBefore(a.m, b.m, n)
    && a.etf.Some? == b.etf.Some? && (a.etf.Some? ==> SameBefore(a.etf.value, b.etf.value, n))
    && a.s.Some? == b.s.Some? && (a.s.Some? ==> SameBefore(a.s.value, b.s.value, n))
  }

  /** Factors inherit agreement: each is a residual of the same days. */
  lemma SameFactors(a: LayerInputs, b: LayerInputs, fit: Fit, n: nat)
    requires SameInputsBefore(a, b, n)
    ensures AllSameBefore(BuildFactors(a, fit).Columns(), BuildFactors(b, fit).Columns(), n)
  {
    SameResid(a.m, [a.spy], b.m, [b.spy], fit, n);
    if a.etf.Some? {
      SameResid(a.etf.value, [a.spy], b.etf.value, [b.spy], fit, n);
    }
    if a.s.Some? {
      SameResid(a.s.value, [a.spy, a.m], b.s.value, [b.spy, b.m], fit, n);
    }
  }

  lemma SomeResid(y: Series, x: seq<Series>, y': Series, x': seq<Series>, fit: Fit, t: nat)
    requires Aligned(y, x) && Aligned(y', x') && SameBefore(y, y', t) && AllSameBefore(x, x', t) && t < |y|
    requires ObsOf(y, x, t).Some? && ObsOf(y', x', t).Some?
    ensures ResidAt(y, x, fit, t).Some? == ResidAt(y', x', fit, t).Some?
  {
    ShiftedFitLooksBack(y, x, y', x', OLS_WINDOW, OLS_MIN_NOBS, fit, t);
  }

  lemma FactorRow(inputs: LayerInputs, f: Factors, t: nat)
    requires Aligned(inputs.r, f.Columns()) && t < |inputs.r| && |f.spy| == |inputs.r| && |f.mRes| == |inputs.r|
    requires (f.etfRes.Some? ==> |f.etfRes.value| == |inputs.r|) && (f.sRes.Some? ==> |f.sRes.value| == |inputs.r|)
    ensures ObsOf(inputs.r, f.Columns(), t).Some? <==>
              && inputs.r[t].Some? && f.spy[t].Some? && f.mRes[t].Some?
              && (f.etfRes.Some? ==> f.etfRes.value[t].Some?) && (f.sRes.Some? ==> f.sRes.value[t].Some?)
  {
    var c := f.Columns();
    assert c[0] == f.spy && c[if f.etfRes.Some? then 2 else 1] == f.mRes;
    assert f.etfRes.Some? ==> c[1] == f.etfRes.value;
    assert f.sRes.Some? ==> c[|c| - 1] == f.sRes.value;
  }

  /** Every factor exists on day `t`. */
  ghost predicate FactorsOn(inputs: LayerInputs, fit: Fit, t: nat)
    requires inputs.Valid() && t < |inputs.r|
  {
    && inputs.r[t].Some? && inputs.spy[t].Some? && ResidAt(inputs.m, [inputs.spy], fit, t).Some?
    && (inputs.etf.Some? ==> ResidAt(inputs.etf.value, [inputs.spy], fit, t).Some?)
    && (inputs.s.Some? ==> ResidAt(inputs.s.value, [inputs.spy, inputs.m], fit, t).Some?)
  }

  lemma FactorRowIff(inputs: LayerInputs, fit: Fit, t: nat)
    requires inputs.Valid() && t < |inputs.r|
    ensures ObsOf(inputs.r, BuildFactors(inputs, fit).Columns(), t).Some? <==> FactorsOn(inputs, fit, t)
  {
    FactorRow(inputs, BuildFactors(inputs, fit), t);
  }

  lemma SameFactorsOn(a: LayerInputs, b: LayerInputs, fit: Fit, t: nat)
    requires SameInputsBefore(a, b, t) && t < |a.r| && a.CompleteOn(t) && b.CompleteOn(t)
    ensures FactorsOn(a, fit, t) == FactorsOn(b, fit, t)
  {
    SomeResid(a.m, [a.spy], b.m, [b.spy], fit, t);
    if a.etf.Some? {
      SomeResid(a.etf.value, [a.spy], b.etf.value, [b.spy], fit, t);
    }
    if a.s.Some? {
      SomeResid(a.s.value, [a.spy, a.m], b.s.value, [b.spy, b.m], fit, t);
    }
  }

  /** Which factors exist on a complete day depends on the days before it only. */
  lemma SameCompleteness(a: LayerInputs, b: LayerInputs, fit: Fit, t: nat)
    requires SameInputsBefore(a, b, t) && t < |a.r| && a.CompleteOn(t) && b.CompleteOn(t)
    ensures ObsOf(a.r, BuildFactors(a, fit).Columns(), t).Some? == ObsOf(b.r, BuildFactors(b, fit).Columns(), t).Some?
  {
    SameFactorsOn(a, b, fit, t);
    FactorRowIff(a, fit, t);
    FactorRowIff(b, fit, t);
  }

  /** The betas used on a day are the same for any two histories that agree before that day. */
  lemma BetasLookBack(a: LayerInputs, b: LayerInputs, fit: Fit, t: nat)
    requires SameInputsBefore(a, b, t) && t < |a.r| && a.CompleteOn(t) && b.CompleteOn(t)
    ensures BetasAt(a, fit, 1, t) == BetasAt(b, fit, 1, t)
  {
    var f, g := BuildFactors(a, fit), BuildFactors(b, fit);
    SameFactors(a, b, fit, t);
    SameCompleteness(a, b, fit, t);
    if ObsOf(a.r, f.Columns(), t).Some? {
      ShiftedFitLooksBack(a.r, f.Columns(), b.r, g.Columns(), OLS_WINDOW, OLS_MIN_NOBS, fit, t);
    }
  }

  lemma SameFit(y: Series, x: seq<Series>, y': Series, x': seq<Series>, window: nat, minNobs: nat, shift: nat, fit: Fit, t: nat)
    requires Aligned(y, x) && Aligned(y', x') && t < |y| && minNobs >= 1
    requires SameBefore(y, y', t + 1) && AllSameBefore(x, x', t + 1)
    ensures FitAt(y, x, window, minNobs, shift, fit, t) == FitAt(y', x', window, minNobs, shift, fit, t)
  {
    SameRow(y, x, y', x', t);
    SameObservations(y, x, y', x', t + 1);
  }

  lemma SameBetas(a: LayerInputs, b: LayerInputs, fit: Fit, shift: nat, t: nat)
    requires t < |a.r| && SameInputsBefore(a, b, t + 1)
    ensures BetasAt(a, fit, shift, t) == BetasAt(b, fit, shift, t)
  {
    SameFactors(a, b, fit, t + 1);
    SameFit(a.r, BuildFactors(a, fit).Columns(), b.r, BuildFactors(b, fit).Columns(), OLS_WINDOW, OLS_MIN_NOBS, shift, fit, t);
  }

  /** The decomposition of a day depends on the days up to it only; so do the betas known at its end. */
  lemma DecompositionIsCausal(a: LayerInputs, b: LayerInputs, fit: Fit, t: nat)
    requires t < |a.r| && SameInputsBefore(a, b, t + 1)
    ensures DecomposeAt(a, fit, t) == DecomposeAt(b, fit, t)
    ensures BetasAt(a, fit, 0, t) == BetasAt(b, fit, 0, t)
  {
    SameBetas(a, b, fit, 0, t);
    SameBetas(a, b, fit, 1, t);
    SameValues(a, b, fit, t);
  }

  lemma SameValues(a: LayerInputs, b: LayerInputs, fit: Fit, t: nat)
    requires t < |a.r| && SameInputsBefore(a, b, t + 1)
    ensures var f, g := BuildFactors(a, fit), BuildFactors(b, fit);
            && a.r[t] == b.r[t] && f.spy[t] == g.spy[t] && f.mRes[t] == g.mRes[t]
            && (f.etfRes.Some? ==> f.etfRes.value[t] == g.etfRes.value[t])
            && (f.sRes.Some? ==> f.sRes.value[t] == g.sRes.value[t])
  {
    SameAt(a.r, b.r, t);
    SameAt(a.spy, b.spy, t);
    SameResid(a.m, [a.spy], b.m, [b.spy], fit, t + 1);
    SameAt(Resid(a.m, [a.spy], fit), Resid(b.m, [b.spy], fit), t);
    if a.etf.Some? {
      SameResid(a.etf.value, [a.spy], b.etf.value, [b.spy], fit, t + 1);
      SameAt(Resid(a.etf.value, [a.spy], fit), Resid(b.etf.value, [b.spy], fit), t);
    }
    if a.s.Some? {
      SameResid(a.s.value, [a.spy, a.m], b.s.value, [b.spy, b.m], fit, t + 1);
      SameAt(Resid(a.s.value, [a.spy, a.m], fit), Resid(b.s.value, [b.spy, b.m], fit), t);
    }
  }

  lemma SameAt(a: Series, b: Series, t: nat)
    requires t < |a| && SameBefore(a, b, t + 1)
    ensures a[t] == b[t]
  {
    assert a[..t + 1][t] == b[..t + 1][t];
  }

  // ----- what a decomposition says

  /** Whatever the betas, the four layers add up to the return, and the dominant one is largest in size. */
  lemma LayersAddUp(r: Series, f: Factors, betas: Option<Betas>, t: nat)
    requires Reaches(f, t) && t < |r| && ContributionAt(r, f, betas, t).Some?
    ensures var c := ContributionAt(r, f, betas, t).value;
            && r[t] == Some(c.r) && c.global + c.market + c.sector + c.idio == c.r
            && IsDominant(c.dominant, [c.global, c.market, c.sector, c.idio])
            && (f.sRes.None? ==> c.sector == 0.0)
  {
    var c := ContributionAt(r, f, betas, t).value;
    DominantIsLargest(c.global, c.market, c.sector, c.idio);
  }

  ghost function Place(layer: Layer): nat {
    match layer case Global => 0 case Market => 1 case Sector => 2 case Idio => 3
  }

  /** The part of `layer` has the largest size, and no part before it is as large. */
  ghost predicate IsDominant(layer: Layer, parts: seq<real>)
    requires |parts| == 4
  {
    var x := parts[Place(layer)];
    var size := if x < 0.0 then -x else x;
    && (forall i :: 0 <= i < 4 ==> -size <= parts[i] <= size)
    && (forall i :: 0 <= i < Place(layer) ==> -size < parts[i] < size)
  }

  lemma DominantIsLargest(global: real, market: real, sector: real, idio: real)
    ensures IsDominant(Dominant(global, market, sector, idio), [global, market, sector, idio])
  {}

  /** The sector's sensitivity is never negative; the others are the fitted ones. */
  lemma SectorBetaIsFloored(inputs: LayerInputs, fit: Fit, shift: nat, t: nat)
    requires inputs.Valid() && t < |inputs.r| && BetasAt(inputs, fit, shift, t).Some?
    ensures var b := BetasAt(inputs, fit, shift, t).value;
            && b.sRes.Some? == inputs.s.Some? && b.etfRes.Some? == inputs.etf.Some?
            && (b.sRes.Some? ==> b.sRes.value >= 0.0)
  {}

  lemma DotUnrolled(c: seq<real>, x: seq<real>)
    requires |c| == |x| && 2 <= |x| <= 4
    ensures Dot(c, x) == Times(c[0], x[0]) + Times(c[1], x[1])
                         + (if |x| >= 3 then Times(c[2], x[2]) else 0.0) + (if |x| == 4 then Times(c[3], x[3]) else 0.0)
  {
    assert Dot(c[1..], x[1..]) == Times(c[1], x[1]) + Dot(c[1..][1..], x[1..][1..]);
    assert c[1..][1..] == c[2..] && x[1..][1..] == x[2..];
    if |x| >= 3 {
      assert Dot(c[2..], x[2..]) == Times(c[2], x[2]) + Dot(c[2..][1..], x[2..][1..]);
      assert c[2..][1..] == c[3..] && x[2..][1..] == x[3..];
    }
    if |x| == 4 {
      assert Dot(c[3..], x[3..]) == Times(c[3], x[3]) + Dot(c[3..][1..], x[3..][1..]);
    }
  }

  /** The factors of a day as one regressor row. */
  ghost predicate IsRow(f: Factors, t: nat, x: seq<real>)
    requires Reaches(f, t)
  {
    && |x| == |f.Columns()|
    && f.spy[t] == Some(x[0])
    && (f.etfRes.Some? ==> f.etfRes.value[t] == Some(x[1]))
    && f.mRes[t] == Some(x[if f.etfRes.Some? then 2 else 1])
    && (f.sRes.Some? ==> f.sRes.value[t] == Some(x[|x| - 1]))
  }

  lemma RowIsRow(r: Series, f: Factors, t: nat)
    requires Aligned(r, f.Columns()) && Reaches(f, t) && t < |r| && RowOf(f.Columns(), t).Some?
    ensures IsRow(f, t, RowOf(f.Columns(), t).value)
  {
    var c := f.Columns();
    assert c[0] == f.spy && c[if f.etfRes.Some? then 2 else 1] == f.mRes;
    assert f.etfRes.Some? ==> c[1] == f.etfRes.value;
    assert f.sRes.Some? ==> c[|c| - 1] == f.sRes.value;
  }

  lemma IdioIsRestOfDot(r: Series, f: Factors, t: nat, coef: seq<real>, x: seq<real>)
    requires Reaches(f, t) && t < |r| && r[t].Some? && IsRow(f, t, x) && |coef| == 1 + |x|
    requires f.sRes.Some? ==> coef[|x|] >= SECTOR_BETA_FLOOR
    ensures var c := ContributionAt(r, f, Some(FloorSector(BetasOf(f, coef))), t);
            c.Some? && c.value.idio == r[t].value - Dot(coef[1..], x)
  {
    DotUnrolled(coef[1..], x);
  }

  /** While the floor does not bind, the idiosyncratic part is the regression's own residual and its constant:
      every sensitivity is applied to the factor it was fitted on. */
  lemma IdioIsTheResidual(inputs: LayerInputs, fit: Fit, t: nat)
    requires inputs.Valid() && t < |inputs.r| && DecomposeAt(inputs, fit, t).Some?
    ensures var f := BuildFactors(inputs, fit);
            var row := FitAt(inputs.r, f.Columns(), OLS_WINDOW, OLS_MIN_NOBS, 1, fit, t);
            && row.Some?
            && (f.sRes.None? || row.value.model.coef[|f.Columns()|] >= SECTOR_BETA_FLOOR ==>
                  DecomposeAt(inputs, fit, t).value.idio
                  == ResidAt(inputs.r, f.Columns(), fit, t).value + row.value.model.coef[0])
  {
    var f := BuildFactors(inputs, fit);
    var coef := FitAt(inputs.r, f.Columns(), OLS_WINDOW, OLS_MIN_NOBS, 1, fit, t).value.model.coef;
    if f.sRes.None? || coef[|f.Columns()|] >= SECTOR_BETA_FLOOR {
      RowIsRow(inputs.r, f, t);
      IdioIsRestOfDot(inputs.r, f, t, coef, RowOf(f.Columns(), t).value);
    }
  }

  /** A day is decomposed exactly when its factors exist and sixty such days precede it. */
  lemma DecomposedIff(inputs: LayerInputs, fit: Fit, t: nat)
    requires inputs.Valid() && t < |inputs.r|
    ensures var columns := BuildFactors(inputs, fit).Columns();
            DecomposeAt(inputs, fit, t).Some? <==>
              ObsOf(inputs.r, columns, t).Some? && |Observations(inputs.r, columns, t)| >= 60
  {
    var f := BuildFactors(inputs, fit);
    if ObsOf(inputs.r, f.Columns(), t).Some? {
      ShiftedFitLooksBack(inputs.r, f.Columns(), inputs.r, f.Columns(), OLS_WINDOW, OLS_MIN_NOBS, fit, t);
      FactorRow(inputs, f, t);
    }
  }

  lemma {:induction false} FewObservations(y: Series, x: seq<Series>, n: nat, k: nat)
    requires Aligned(y, x) && n <= |y|
    requires forall t :: 0 <= t < n && ObsOf(y, x, t).Some? ==> k <= t
    ensures |Observations(y, x, n)| + k <= n || Observations(y, x, n) == []
  {
    if n > 0 {
      FewObservations(y, x, n - 1, k);
    }
  }

  /** Both warm-ups are paid one after the other: nothing is decomposed in the first 120 days. */
  lemma WarmUp(inputs: LayerInputs, fit: Fit, t: nat)
    requires inputs.Valid() && t < |inputs.r| && DecomposeAt(inputs, fit, t).Some?
    ensures t >= 120
  {
    var f := BuildFactors(inputs, fit);
    DecomposedIff(inputs, fit, t);
    forall d | 0 <= d < t && ObsOf(inputs.r, f.Columns(), d).Some? ensures OLS_MIN_NOBS <= d {
      FactorRow(inputs, f, d);
      ShiftedFitLooksBack(inputs.m, [inputs.spy], inputs.m, [inputs.spy], OLS_WINDOW, OLS_MIN_NOBS, fit, d);
      FewObservations(inputs.m, [inputs.spy], d, 0);
    }
    FewObservations(inputs.r, f.Columns(), t, OLS_MIN_NOBS);
  }

  // ----- which days, which factors and which layers

  ghost predicate Complete(y: Series, x: seq<Series>, t: nat)
    requires Aligned(y, x) && t < |y|
  {
    y[t].Some? && forall i :: 0 <= i < |x| ==> x[i][t].Some?
  }

  ghost predicate Rising(days: seq<nat>) {
    forall i, j :: 0 <= i < j < |days| ==> days[i] < days[j]
  }

  /** `days` are the complete days before `n`, in order. */
  ghost predicate AreDays(y: Series, x: seq<Series>, n: nat, days: seq<nat>)
    requires Aligned(y, x) && n <= |y|
  {
    Rising(days) && forall d :: d in days <==> 0 <= d < n && Complete(y, x, d)
  }

  ghost function DayOf(y: Series, x: seq<Series>, d: nat): Obs
    requires Aligned(y, x) && d < |y| && Complete(y, x, d)
  {
    Obs(y[d].value, seq(|x|, i requires 0 <= i < |x| => x[i][d].value))
  }

  lemma {:induction false} RisingIsUnique(a: seq<nat>, b: seq<nat>)
    requires Rising(a) && Rising(b) && forall d :: d in a <==> d in b
    ensures a == b
    decreases |a|
  {
    SameEmptiness(a, b);
    if a != [] {
      var x, y := a[|a| - 1], b[|b| - 1];
      assert x in b && y in a;
      assert x == y;
      var fa, fb := a[..|a| - 1], b[..|b| - 1];
      forall d ensures d in fa <==> d in fb {
        assert d in a <==> d in fa || d == x;
        assert d in b <==> d in fb || d == x;
        assert x !in fa && x !in fb;
      }
      RisingIsUnique(fa, fb);
      assert a == fa + [x] && b == fb + [x];
    }
  }

  lemma SameEmptiness(a: seq<nat>, b: seq<nat>)
    requires forall d :: d in a <==> d in b
    ensures a == [] <==> b == []
  {
    assert a != [] ==> a[0] in a;
    assert b != [] ==> b[0] in b;
  }

  lemma ObsIsDay(y: Series, x: seq<Series>, t: nat)
    requires Aligned(y, x) && t < |y|
    ensures ObsOf(y, x, t).Some? <==> Complete(y, x, t)
    ensures Complete(y, x, t) ==> ObsOf(y, x, t) == Some(DayOf(y, x, t))
  {
    var row := RowOf(x, t);
    if Complete(y, x, t) {
      assert row.value == seq(|x|, i requires 0 <= i < |x| => x[i][t].value);
    }
  }

  lemma {:induction false} CompleteRowsAreDays(y: Series, x: seq<Series>, n: nat)
    requires Aligned(y, x) && n <= |y|
    ensures AreDays(y, x, n, CompleteRows(y, x, n)) && |Observations(y, x, n)| == |CompleteRows(y, x, n)|
    ensures forall i :: 0 <= i < |CompleteRows(y, x, n)| ==>
              Complete(y, x, CompleteRows(y, x, n)[i]) && Observations(y, x, n)[i] == DayOf(y, x, CompleteRows(y, x, n)[i])
  {
    if n > 0 {
      CompleteRowsAreDays(y, x, n - 1);
      ObsIsDay(y, x, n - 1);
    }
  }

  /** A regression shifted by one exists on complete days after enough complete days, and is the fit of the last ones of
      those before, the day itself excluded. */
  lemma FitIs(y: Series, x: seq<Series>, window: nat, minNobs: nat, fit: Fit, t: nat, days: seq<nat>)
    requires Aligned(y, x) && t < |y| && minNobs >= 1 && AreDays(y, x, t, days)
    ensures var k := if |days| < window then |days| else window;
            FitAt(y, x, window, minNobs, 1, fit, t) ==
              if !Complete(y, x, t) || |days| < minNobs then None
              else Some(FitRow(fit(seq(k, i requires 0 <= i < k => DayAt(y, x, t, days, |days| - k + i))), k))
  {
    ObsIsDay(y, x, t);
    if Complete(y, x, t) {
      var all := Observations(y, x, t + 1);
      assert all[..|all| - 1] == Observations(y, x, t);
      LastDays(y, x, t, days, if |days| < window then |days| else window);
    }
  }

  lemma LastDays(y: Series, x: seq<Series>, t: nat, days: seq<nat>, k: nat)
    requires Aligned(y, x) && t < |y| && AreDays(y, x, t, days) && k <= |days|
    ensures |Observations(y, x, t)| == |days|
    ensures Observations(y, x, t)[|days| - k..] == seq(k, i requires 0 <= i < k => DayAt(y, x, t, days, |days| - k + i))
  {
    CompleteRowsAreDays(y, x, t);
    RisingIsUnique(days, CompleteRows(y, x, t));
    var last := seq(k, i requires 0 <= i < k => DayAt(y, x, t, days, |days| - k + i));
    forall i | 0 <= i < k ensures Observations(y, x, t)[|days| - k..][i] == last[i] {
      assert Observations(y, x, t)[|days| - k + i] == DayAt(y, x, t, days, |days| - k + i);
    }
  }

  ghost function DayAt(y: Series, x: seq<Series>, t: nat, days: seq<nat>, i: nat): Obs
    requires Aligned(y, x) && t < |y| && AreDays(y, x, t, days) && i < |days|
  {
    assert days[i] in days;
    DayOf(y, x, days[i])
  }

  /** With one regressor: the value less the fitted line through it. */
  lemma ResidOnOne(y: Series, a: Series, fit: Fit, t: nat)
    requires |a| == |y| && t < |y|
    ensures ResidAt(y, [a], fit, t) ==
              match FitAt(y, [a], 120, 60, 1, fit, t)
              case None => None
              case Some(row) => Some(y[t].value - (row.model.coef[0] + Times(row.model.coef[1], a[t].value)))
  {
    var row := FitAt(y, [a], 120, 60, 1, fit, t);
    if row.Some? {
      var xs := ObsOf(y, [a], t).value.x;
      assert xs == [a[t].value];
      assert Dot(row.value.model.coef[1..], xs) == Times(row.value.model.coef[1], a[t].value) + Dot([], []);
    }
  }

  /** With two regressors: the value less the fitted plane. */
  lemma ResidOnTwo(y: Series, a: Series, b: Series, fit: Fit, t: nat)
    requires |a| == |b| == |y| && t < |y|
    ensures FitAt(y, [a, b], 120, 60, 1, fit, t).Some? ==> a[t].Some? && b[t].Some?
    ensures ResidAt(y, [a, b], fit, t) ==
              match FitAt(y, [a, b], 120, 60, 1, fit, t)
              case None => None
              case Some(row) =>
                var c := row.model.coef;
                Some(y[t].value - (c[0] + (Times(c[1], a[t].value) + Times(c[2], b[t].value))))
  {
    var row := FitAt(y, [a, b], 120, 60, 1, fit, t);
    if row.Some? {
      TwoCells(y, a, b, t);
      DotUnrolled(row.value.model.coef[1..], [a[t].value, b[t].value]);
    }
  }

  lemma TwoCells(y: Series, a: Series, b: Series, t: nat)
    requires |a| == |b| == |y| && t < |y| && ObsOf(y, [a, b], t).Some?
    ensures a[t].Some? && b[t].Some? && ObsOf(y, [a, b], t).value.x == [a[t].value, b[t].value]
  {
    var x: seq<Series> := [a, b];
    assert x[0][t].Some? && x[1][t].Some?;
  }

  /** What each factor is what is left of, and the order in which they enter the regression. */
  lemma FactorsAre(inputs: LayerInputs, fit: Fit, t: nat)
    requires inputs.Valid() && t < |inputs.r|
    ensures var f := BuildFactors(inputs, fit);
            && Reaches(f, t) && f.spy == inputs.spy && f.mRes[t] == ResidAt(inputs.m, [inputs.spy], fit, t)
            && (f.etfRes.Some? <==> inputs.etf.Some?) && (f.sRes.Some? <==> inputs.s.Some?)
            && (inputs.etf.Some? ==> f.etfRes.value[t] == ResidAt(inputs.etf.value, [inputs.spy], fit, t))
            && (inputs.s.Some? ==> f.sRes.value[t] == ResidAt(inputs.s.value, [inputs.spy, inputs.m], fit, t))
            && f.Columns() == if inputs.etf.Some?
                              then [f.spy, f.etfRes.value, f.mRes] + if inputs.s.Some? then [f.sRes.value] else []
                              else [f.spy, f.mRes] + if inputs.s.Some? then [f.sRes.value] else []
  {}

  /** Each sensitivity is the coefficient of its factor; the sector's is not below zero. */
  lemma BetasAre(inputs: LayerInputs, fit: Fit, shift: nat, t: nat)
    requires inputs.Valid() && t < |inputs.r|
    ensures var row := FitAt(inputs.r, BuildFactors(inputs, fit).Columns(), 120, 60, shift, fit, t);
            BetasAt(inputs, fit, shift, t) ==
              if row == None then None
              else
                var c := row.value.model.coef;
                Some(if inputs.etf.Some?
                     then Betas(c[1], Some(c[2]), c[3], if inputs.s.Some? then Some(if c[4] < 0.0 then 0.0 else c[4]) else None)
                     else Betas(c[1], None, c[2], if inputs.s.Some? then Some(if c[3] < 0.0 then 0.0 else c[3]) else None))
  {}

  /** The parts of a move: each sensitivity times its own factor. */
  ghost predicate PartsAre(c: Contribution, spy: real, etf: Option<real>, m: real, s: Option<real>, b: Betas)
    requires (etf.Some? ==> b.etfRes.Some?) && (s.Some? ==> b.sRes.Some?)
  {
    && c.global == Times(b.spy, spy) + (if etf.Some? then Times(b.etfRes.value, etf.value) else 0.0)
    && c.market == Times(b.mRes, m)
    && c.sector == (if s.Some? then Times(b.sRes.value, s.value) else 0.0)
    && c.idio == c.r - c.global - c.market - c.sector
    && IsDominant(c.dominant, [c.global, c.market, c.sector, c.idio])
  }

  ghost function CellOf(factor: Option<Series>, t: nat): Option<real>
    requires factor.Some? ==> t < |factor.value|
  {
    if factor.Some? then factor.value[t] else None
  }

  lemma ContributionIs(r: Series, f: Factors, b: Betas, t: nat)
    requires Reaches(f, t) && t < |r| && ContributionAt(r, f, Some(b), t).Some?
    requires (f.etfRes.Some? <==> b.etfRes.Some?) && (f.sRes.Some? <==> b.sRes.Some?)
    ensures var c := ContributionAt(r, f, Some(b), t).value;
            && r[t] == Some(c.r) && f.spy[t].Some? && f.mRes[t].Some?
            && (f.etfRes.Some? ==> f.etfRes.value[t].Some?) && (f.sRes.Some? ==> f.sRes.value[t].Some?)
            && PartsAre(c, f.spy[t].value, CellOf(f.etfRes, t), f.mRes[t].value, CellOf(f.sRes, t), b)
  {
    LayersAddUp(r, f, Some(b), t);
  }

  /** Each layer is the part of its factors: the global one of the US market and the sector's ETF, the market one of the
      rest of the market, the sector one of the rest of the sector. */
  lemma LayersAre(inputs: LayerInputs, fit: Fit, t: nat)
    requires inputs.Valid() && t < |inputs.r| && DecomposeAt(inputs, fit, t).Some?
    ensures var f, b, c := BuildFactors(inputs, fit), BetasAt(inputs, fit, 1, t), DecomposeAt(inputs, fit, t).value;
            && b.Some? && (f.etfRes.Some? <==> b.value.etfRes.Some?) && (f.sRes.Some? <==> b.value.sRes.Some?)
            && inputs.r[t] == Some(c.r) && f.spy[t].Some? && f.mRes[t].Some?
            && (f.etfRes.Some? ==> f.etfRes.value[t].Some?) && (f.sRes.Some? ==> f.sRes.value[t].Some?)
            && PartsAre(c, f.spy[t].value, CellOf(f.etfRes, t), f.mRes[t].value, CellOf(f.sRes, t), b.value)
  {
    BetasAre(inputs, fit, 1, t);
    ContributionIs(inputs.r, BuildFactors(inputs, fit), BetasAt(inputs, fit, 1, t).value, t);
  }
}
