/** Average-cost accounting of the paper ledger, one record and one fill at a time. Numbers are exact
    reals, so the overflow branches of the source cannot be reached. */
module PaperLedger {
  import opened Options

  /** Markets whose orders are shares, with the quote currency where one is fixed. */
  const SHARE_QUOTE_CURRENCIES: map<string, Option<string>> := map[
    "polymarket" := Some("pUSD"), "kalshi" := Some("USD"), "predictit" := Some("USD"),
    "iowa_electronic_markets" := Some("USD"), "ibkr_forecasttrader" := Some("USD"),
    "forecastex" := Some("USD"), "cme_prediction_markets" := Some("USD"),
    "robinhood_prediction_markets" := Some("USD"), "coinbase_prediction_markets" := Some("USD"),
    "gemini_titan" := Some("USD"), "context_v2" := None, "limitless_exchange" := Some("USDC"),
    "probable" := Some("USDT"), "blinq" := Some("pUSD"), "xmarket" := None, "predict_fun" := Some("USDT")]

  const DUST := 0.000000000001

  datatype Word = Buy | Sell | OtherWord

  /** `canonical` says the side was spelled in upper case. */
  datatype Side = Side(word: Word, canonical: bool)

  /** A record after number conversion: a field that is not a finite number is None. `named` says that
      the record id and the contract id are non-blank text. */
  datatype Record = Record(
    market: string, contract: string, side: Side, size: Option<real>, filled: Option<real>,
    limitPrice: Option<real>, averagePrice: Option<real>, currency: Option<string>,
    id: string, createdAt: Option<real>, named: bool, accepted: bool)

  type Key = (string, string)

  function KeyOf(r: Record): Key { (r.market, r.contract) }

  datatype Reason =
    | InconsistentCurrency | DuplicateIdentity | UnsupportedModel | CurrencyUnavailable
    | InvalidQuantity | InvalidIdentity | PriceUnavailable

  datatype Row = Row(
    net: Option<real>, notional: Option<real>, average: Option<real>, realized: Option<real>,
    trades: nat, currency: Option<string>, reasons: seq<Reason>, assumedFill: bool, shares: bool)

  function EmptyRow(r: Record): Row {
    Row(Some(0.0), None, None, Some(0.0), 0, r.currency, [], false, true)
  }

  function Abs(x: real): real { if x < 0.0 then -x else x }

  function Larger(x: real, y: real): real { if x >= y then x else y }

  function Smaller(x: real, y: real): real { if x <= y then x else y }

  /** Both strictly positive or both strictly negative: the sign of the product. */
  predicate SameSign(x: real, y: real) { (x > 0.0 && y > 0.0) || (x < 0.0 && y < 0.0) }

  predicate IsPrice(p: Option<real>) { p.Some? && 0.0 <= p.value <= 1.0 }

  predicate IsInteger(x: real) { x.Floor as real == x }

  // ----- one record -----

  predicate ShareRecord(r: Record) { r.market in SHARE_QUOTE_CURRENCIES && !r.side.word.OtherWord? }

  predicate QuantityOk(r: Record) {
    r.size.Some? && r.size.value > 0.0 && r.filled.Some? && 0.0 <= r.filled.value <= r.size.value
  }

  predicate IdentityOk(r: Record) {
    r.createdAt.Some? && r.createdAt.value >= 0.0 && IsInteger(r.createdAt.value) && r.named
  }

  /** The row before the fill itself: what is unknown and why. */
  function Noted(row: Row, r: Record, duplicate: bool): Row {
    var r0 := row.(trades := row.trades + 1);
    var r1 := if r.currency == r0.currency then r0
      else r0.(reasons := r0.reasons + [InconsistentCurrency], currency := None, realized := None,
               notional := None, average := None);
    var r2 := if duplicate then r1.(reasons := r1.reasons + [DuplicateIdentity], net := None) else r1;
    if !ShareRecord(r) then
      r2.(reasons := r2.reasons + [UnsupportedModel], net := None, shares := false,
          notional := None, average := None, realized := None)
    else
      var r3 := if r2.currency.Some? then r2
        else r2.(reasons := r2.reasons + [CurrencyUnavailable], realized := None);
      var r4 := if QuantityOk(r) then r3 else r3.(reasons := r3.reasons + [InvalidQuantity], net := None);
      var r5 := if IdentityOk(r) then r4 else r4.(reasons := r4.reasons + [InvalidIdentity], net := None);
      if r5.net.Some? then r5 else r5.(notional := None, average := None, realized := None)
  }

  /** Whether a record reaches the fill arithmetic. */
  predicate Fills(row: Row, r: Record, duplicate: bool) {
    ShareRecord(r) && Noted(row, r, duplicate).net.Some?
  }

  function Hypothetical(r: Record): bool { r.filled == Some(0.0) }

  function SignedSize(r: Record): real
    requires QuantityOk(r)
  {
    (if Hypothetical(r) then r.size.value else r.filled.value) * (if r.side.word.Buy? then 1.0 else -1.0)
  }

  function FillPrice(r: Record): Option<real> {
    var p := if Hypothetical(r) then r.limitPrice else r.averagePrice;
    if IsPrice(p) then p else None
  }

  /** Whether the sum of two quantities is small enough to count as zero. */
  predicate Snaps(current: real, signed: real) {
    Abs(current + signed) <= DUST * Larger(Abs(current), Abs(signed))
  }

  function NextNet(current: real, signed: real): real {
    if Snaps(current, signed) then 0.0 else current + signed
  }

  function Blend(x: real, a: real, y: real, p: real, total: real): real
    requires total != 0.0
  {
    (x * a + y * p) / total
  }

  /** The average cost after the fill, before dust is snapped. */
  function NextAverage(current: real, average: Option<real>, signed: real, price: Option<real>): Option<real> {
    if current == 0.0 then price
    else if SameSign(current, signed) then
      if price.Some? && average.Some?
      then Some(Blend(Abs(current), average.value, Abs(signed), price.value, Abs(current + signed)))
      else None
    else if Abs(signed) > Abs(current) then price else average
  }

  function NextRealized(row: Row, signed: real, price: Option<real>): Option<real>
    requires row.net.Some?
  {
    var current := row.net.value;
    if current == 0.0 || SameSign(current, signed) then row.realized
    else if row.average.None? || price.None? || row.realized.None? then None
    else Some(row.realized.value
              + Gain(Smaller(Abs(current), Abs(signed)), price.value - row.average.value, current > 0.0))
  }

  /** What closing a quantity earns when the price moved from its average cost. */
  function Gain(closed: real, move: real, long: bool): real { closed * move * (if long then 1.0 else -1.0) }

  function Worth(quantity: real, price: real): real { quantity * price }

  /** Applying one fill to a row whose quantity is known. */
  function Filled(row: Row, signed: real, price: Option<real>): Row
    requires row.net.Some?
  {
    var current := row.net.value;
    var next := NextNet(current, signed);
    var average := if Snaps(current, signed) then None else NextAverage(current, row.average, signed, price);
    var basis := if average.Some? then Some(Worth(next, average.value)) else if next == 0.0 then Some(0.0) else None;
    row.(net := Some(next), average := average, realized := NextRealized(row, signed, price),
         notional := if row.currency.Some? then basis else None)
  }

  function Step(row: Row, r: Record, duplicate: bool): Row {
    var noted := Noted(row, r, duplicate);
    if !Fills(row, r, duplicate) then noted
    else
      var priced := if FillPrice(r).Some? then noted
        else noted.(reasons := noted.reasons + [PriceUnavailable]);
      Filled(priced.(assumedFill := priced.assumedFill || Hypothetical(r)), SignedSize(r), FillPrice(r))
  }

  lemma FillsMeansValid(row: Row, r: Record, duplicate: bool)
    requires Fills(row, r, duplicate)
    ensures QuantityOk(r) && IdentityOk(r) && !duplicate && row.net == Noted(row, r, duplicate).net
    ensures SignedSize(r) != 0.0
  {
  }

  // ----- unknown values -----

  /** What a row with no recorded reason knows. */
  ghost predicate RowSound(row: Row) {
    row.reasons == [] ==>
      && row.net.Some? && row.realized.Some? && row.currency.Some?
      && (row.trades > 0 ==> row.notional.Some?)
      && (row.net.value != 0.0 ==> row.average.Some?)
  }

  /** Unknown quantity, realized profit and currency stay unknown; reasons only accumulate. */
  ghost predicate Absorbs(before: Row, after: Row) {
    && (before.net.None? ==> after.net.None?)
    && (before.realized.None? ==> after.realized.None?)
    && (before.currency.None? ==> after.currency.None?)
    && before.reasons <= after.reasons
  }

  lemma NotedAbsorbs(row: Row, r: Record, duplicate: bool)
    ensures Absorbs(row, Noted(row, r, duplicate)) && Noted(row, r, duplicate).trades == row.trades + 1
  {
    NotedReasons(row, r, duplicate);
  }

  lemma NotedReasons(row: Row, r: Record, duplicate: bool)
    ensures row.reasons <= Noted(row, r, duplicate).reasons
  {
  }

  /** A record that adds no reason changes nothing but the count. */
  lemma NotedClean(row: Row, r: Record, duplicate: bool)
    ensures Noted(row, r, duplicate).reasons == [] && row.net.Some? ==>
      Fills(row, r, duplicate) && Noted(row, r, duplicate) == row.(trades := row.trades + 1)
      && row.currency.Some? && row.reasons == []
  {
  }

  lemma FilledAbsorbs(row: Row, signed: real, price: Option<real>)
    requires row.net.Some?
    ensures Absorbs(row, Filled(row, signed, price))
    ensures Filled(row, signed, price).reasons == row.reasons
    ensures row.realized.Some? && row.currency.Some? && price.Some? && (row.net.value != 0.0 ==> row.average.Some?) ==>
      var f := Filled(row, signed, price);
      f.realized.Some? && f.currency.Some? && f.notional.Some? && (f.net.value != 0.0 ==> f.average.Some?)
  {
  }

  /** Once quantity, realized profit or currency is unknown it stays unknown; reasons never vanish;
      and a row without reasons stays fully known. */
  lemma UnknownsAbsorb(row: Row, r: Record, duplicate: bool)
    requires RowSound(row) || row == EmptyRow(r)
    ensures Absorbs(row, Step(row, r, duplicate)) && RowSound(Step(row, r, duplicate))
    ensures Step(row, r, duplicate).trades == row.trades + 1
  {
    NotedAbsorbs(row, r, duplicate);
    NotedClean(row, r, duplicate);
    if Fills(row, r, duplicate) { FillAbsorbs(row, r, duplicate); }
  }

  lemma FillAbsorbs(row: Row, r: Record, duplicate: bool)
    requires (RowSound(row) || row == EmptyRow(r)) && Fills(row, r, duplicate)
    requires Absorbs(row, Noted(row, r, duplicate))
    ensures Absorbs(row, Step(row, r, duplicate)) && RowSound(Step(row, r, duplicate))
    ensures Step(row, r, duplicate).trades == Noted(row, r, duplicate).trades
  {
    var noted := Noted(row, r, duplicate);
    var priced := if FillPrice(r).Some? then noted
      else noted.(reasons := noted.reasons + [PriceUnavailable]);
    NotedClean(row, r, duplicate);
    FillsMeansValid(row, r, duplicate);
    FilledAbsorbs(priced.(assumedFill := priced.assumedFill || Hypothetical(r)), SignedSize(r), FillPrice(r));
  }

  // ----- profit and loss of one fill -----

  /** A row whose position is fully priced. */
  ghost predicate Priced(row: Row) {
    && row.net.Some? && row.realized.Some? && row.currency.Some?
    && (row.net.value != 0.0 ==>
          IsPrice(row.average) && row.notional == Some(Worth(row.net.value, row.average.value)))
    && (row.net.value == 0.0 ==> Basis(row) == 0.0)
  }

  function Basis(row: Row): real { if row.notional.Some? then row.notional.value else 0.0 }

  /** `paper_unrealized`: what the open position is worth at a mark, less its basis. */
  function Unrealized(row: Row, mark: Option<real>): Option<real> {
    if row.net.None? || row.notional.None? || !IsPrice(mark) then None
    else Some(Worth(row.net.value, mark.value) - row.notional.value)
  }

  /** Realized plus unrealized profit at mark `m`. */
  function Total(row: Row, m: real): real
    requires row.net.Some? && row.realized.Some?
  {
    row.realized.value + (Worth(row.net.value, m) - Basis(row))
  }

  lemma Quotient(n: real, d: real)
    requires d > 0.0 && 0.0 <= n <= d
    ensures 0.0 <= n / d <= 1.0 && d * (n / d) == n
  {
    var q := n / d;
    assert d * q == n;
    assert q > 1.0 ==> d * q > d;
    assert q < 0.0 ==> d * q < 0.0;
  }

  lemma Share(x: real, a: real)
    requires x > 0.0 && 0.0 <= a <= 1.0
    ensures 0.0 <= x * a <= x
  {
    assert x * (1.0 - a) >= 0.0;
  }

  lemma SumBound(u: real, x: real, v: real, y: real)
    requires 0.0 <= u <= x && 0.0 <= v <= y
    ensures 0.0 <= u + v <= x + y
  {
  }

  /** A weighted average of two prices is a price. */
  lemma WeightedAverage(a: real, p: real, x: real, y: real)
    requires 0.0 <= a <= 1.0 && 0.0 <= p <= 1.0 && x > 0.0 && y > 0.0
    ensures 0.0 <= Blend(x, a, y, p, x + y) <= 1.0
    ensures (x + y) * Blend(x, a, y, p, x + y) == x * a + y * p
  {
    Share(x, a);
    Share(y, p);
    SumBound(x * a, x, y * p, y);
    Quotient(x * a + y * p, x + y);
  }

  lemma IncreaseAlgebra(c: real, a: real, s: real, p: real, q: real, m: real)
    requires SameSign(c, s) && (Abs(c) + Abs(s)) * q == Abs(c) * a + Abs(s) * p
    ensures (c + s) * q == c * a + s * p
    ensures Worth(c + s, m) - Worth(c + s, q) == Worth(c, m) - Worth(c, a) + s * (m - p)
  {
    if c > 0.0 { assert (c + s) * q == c * a + s * p; } else { assert (-c - s) * q == -c * a - s * p; }
    assert (c + s) * m == c * m + s * m;
    assert s * (m - p) == s * m - s * p;
  }

  lemma IncreaseExact(row: Row, s: real, p: real, m: real)
    requires Priced(row) && 0.0 <= p <= 1.0 && row.net.value != 0.0 && SameSign(row.net.value, s)
    ensures Priced(Filled(row, s, Some(p)))
    ensures Total(Filled(row, s, Some(p)), m) == Total(row, m) + s * (m - p)
  {
    var c, a := row.net.value, row.average.value;
    assert Abs(c + s) == Abs(c) + Abs(s);
    WeightedAverage(a, p, Abs(c), Abs(s));
    var q := Blend(Abs(c), a, Abs(s), p, Abs(c) + Abs(s));
    assert NextAverage(c, Some(a), s, Some(p)) == Some(q);
    assert !Snaps(c, s);
    IncreaseAlgebra(c, a, s, p, q, m);
  }

  lemma OpenExact(row: Row, s: real, p: real, m: real)
    requires Priced(row) && 0.0 <= p <= 1.0 && s != 0.0 && row.net.value == 0.0
    ensures Priced(Filled(row, s, Some(p)))
    ensures Total(Filled(row, s, Some(p)), m) == Total(row, m) + s * (m - p)
  {
    assert !Snaps(0.0, s);
  }

  /** Profit of one fill against a mark. */
  function ProfitAt(s: real, p: real, m: real): real { s * (m - p) }

  predicate Near(x: real, y: real, gap: real) { Abs(x - y) <= gap }

  /** How far one fill may move the total away from exact conservation. */
  function Allowance(c: real, s: real): real {
    if Snaps(c, s) && c + s != 0.0 then 0.000000000001 * Larger(Abs(c), Abs(s)) else 0.0
  }

  lemma ReduceAlgebra(c: real, a: real, s: real, p: real, m: real)
    ensures -s * (p - a) + (Worth(c + s, m) - Worth(c + s, a)) == Worth(c, m) - Worth(c, a) + s * (m - p)
  {
    assert (c + s) * m == c * m + s * m && (c + s) * a == c * a + s * a;
    assert s * (m - p) == s * m - s * p && -s * (p - a) == -s * p + s * a;
  }

  lemma FlipAlgebra(c: real, a: real, s: real, p: real, m: real)
    ensures c * (p - a) + (Worth(c + s, m) - Worth(c + s, p)) == Worth(c, m) - Worth(c, a) + s * (m - p)
  {
    assert (c + s) * m == c * m + s * m && (c + s) * p == c * p + s * p;
    assert s * (m - p) == s * m - s * p && c * (p - a) == c * p - c * a;
  }

  lemma ProductNonNegative(x: real, y: real)
    requires x >= 0.0 && y >= 0.0
    ensures x * y >= 0.0
  {
  }

  lemma Scaled(r: real, d: real)
    requires -1.0 <= d <= 1.0
    ensures Abs(Worth(r, d)) <= Abs(r)
  {
    ProductNonNegative(Abs(r), 1.0 - d);
    ProductNonNegative(Abs(r), 1.0 + d);
    assert Abs(r) * (1.0 - d) == Abs(r) - Abs(r) * d;
    assert Abs(r) * (1.0 + d) == Abs(r) + Abs(r) * d;
    assert r >= 0.0 ==> Abs(r) * d == r * d;
    assert r < 0.0 ==> Abs(r) * d == -(r * d);
  }

  lemma ResidueBound(r: real, x: real, m: real)
    requires 0.0 <= x <= 1.0 && 0.0 <= m <= 1.0
    ensures Abs(Worth(r, m) - Worth(r, x)) <= Abs(r)
  {
    assert Worth(r, m) - Worth(r, x) == Worth(r, m - x) by { assert r * (m - x) == r * m - r * x; }
    Scaled(r, m - x);
    SameBound(Worth(r, m) - Worth(r, x), Worth(r, m - x), Abs(r));
  }

  lemma SameBound(v: real, w: real, b: real)
    requires v == w && Abs(w) <= b
    ensures Abs(v) <= b
  {
  }

  lemma GainValue(c: real, s: real, move: real)
    requires c != 0.0 && s != 0.0 && !SameSign(c, s)
    ensures Gain(Abs(c), move, c > 0.0) == c * move && Gain(Abs(s), move, c > 0.0) == -s * move
  {
    if c > 0.0 {
      assert Abs(c) * move * 1.0 == c * move && Abs(s) * move * 1.0 == -s * move;
    } else {
      assert Abs(c) * move == -c * move && Abs(s) * move == s * move;
    }
  }

  /** The total after closing, had no dust been snapped. */
  lemma CloseExact(row: Row, s: real, p: real, m: real)
    requires Priced(row) && row.net.value != 0.0 && s != 0.0 && !SameSign(row.net.value, s)
    ensures var c := row.net.value;
            var q := if Abs(s) > Abs(c) then p else row.average.value;
            && NextRealized(row, s, Some(p)).Some?
            && NextAverage(c, row.average, s, Some(p)) == Some(q)
            && NextRealized(row, s, Some(p)).value + (Worth(c + s, m) - Worth(c + s, q))
               == Total(row, m) + s * (m - p)
  {
    var c, a := row.net.value, row.average.value;
    GainValue(c, s, p - a);
    FlipAlgebra(c, a, s, p, m);
    ReduceAlgebra(c, a, s, p, m);
  }

  lemma CloseConserves(row: Row, s: real, p: real, m: real)
    requires Priced(row) && 0.0 <= p <= 1.0 && 0.0 <= m <= 1.0
    requires row.net.value != 0.0 && s != 0.0 && !SameSign(row.net.value, s)
    ensures Priced(Filled(row, s, Some(p)))
    ensures Abs(Total(Filled(row, s, Some(p)), m) - (Total(row, m) + s * (m - p)))
            <= Allowance(row.net.value, s)
  {
    var c := row.net.value;
    var q := if Abs(s) > Abs(c) then p else row.average.value;
    CloseExact(row, s, p, m);
    if Snaps(c, s) {
      ResidueBound(c + s, q, m);
      assert Worth(0.0, m) == 0.0;
      assert c + s == 0.0 ==> Worth(c + s, m) == 0.0 && Worth(c + s, q) == 0.0;
    }
  }

  /** One fill conserves the total at any mark, up to the dust it snapped. */
  lemma FillConserves(row: Row, s: real, p: real, m: real)
    requires Priced(row) && 0.0 <= p <= 1.0 && 0.0 <= m <= 1.0 && s != 0.0
    ensures Priced(Filled(row, s, Some(p)))
    ensures Near(Total(Filled(row, s, Some(p)), m), Total(row, m) + ProfitAt(s, p, m), Allowance(row.net.value, s))
  {
    var c := row.net.value;
    if c == 0.0 { OpenExact(row, s, p, m); }
    else if SameSign(c, s) { IncreaseExact(row, s, p, m); }
    else { CloseConserves(row, s, p, m); }
    assert DUST * Larger(Abs(c), Abs(s)) >= 0.0;
  }
}
