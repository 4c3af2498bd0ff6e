/** Properties of whole paper ledgers. */
module PaperTheorems {
  import opened Options
  import opened PaperLedger
  import opened PaperAccounting
  import Retention

  // ----- per-contract locality -----

  lemma UniqueAnyOrder(a: seq<Record>, b: seq<Record>)
    requires multiset(a) == multiset(b) && UniqueIds(a)
    ensures UniqueIds(b)
  {
    var distinct := (x: Record, y: Record) => x.accepted && y.accepted ==> x.id != y.id;
    assert Retention.Pairwise(a, distinct);
    Retention.PairwiseAnyOrder(b, a, distinct);
    forall i, j | 0 <= i < j < |b| && b[i].accepted && b[j].accepted ensures b[i].id != b[j].id {
      assert distinct(b[i], b[j]);
    }
  }

  /** When accepted record ids are unique, a contract's row is the fold over just that contract's
      records in chronological order, however other contracts are interleaved. */
  lemma RowsAreLocal(records: seq<Record>, k: Key)
    requires UniqueIds(records)
    ensures k in Accounted(records).rows <==> Stored(records, k) != []
    ensures Stored(records, k) != [] ==>
      && Chronological(Stored(records, k)) != []
      && Accounted(records).rows[k] == RowOf(Chronological(Stored(records, k)))
  {
    ChronologicalSorted(records);
    UniqueAnyOrder(records, Chronological(records));
    FoldIsLocal(Chronological(records), k);
    OrderSelects(records, k);
    ChronologicalSorted(Stored(records, k));
    assert |multiset(Chronological(Stored(records, k)))| == |multiset(Stored(records, k))|;
  }

  // ----- unknown values -----

  lemma {:induction false} AllRowsSound(s: seq<Record>, k: Key)
    ensures k in Fold(s).rows ==> RowSound(Fold(s).rows[k]) && Fold(s).rows[k].trades > 0
  {
    if s != [] {
      var before, r := s[..|s| - 1], s[|s| - 1];
      AllRowsSound(before, k);
      if r.accepted && KeyOf(r) == k {
        UnknownsAbsorb(RowFor(Fold(before), r), r, r.id in Fold(before).seen);
      }
    }
  }

  /** What a longer history never un-learns about a row. */
  lemma {:induction false} HistoryAbsorbs(s: seq<Record>, n: nat, k: Key)
    requires n <= |s| && k in Fold(s[..n]).rows
    ensures k in Fold(s).rows && Absorbs(Fold(s[..n]).rows[k], Fold(s).rows[k])
  {
    if n == |s| {
      assert s[..n] == s;
    } else {
      var before, r := s[..|s| - 1], s[|s| - 1];
      assert before[..n] == s[..n];
      HistoryAbsorbs(before, n, k);
      if r.accepted && KeyOf(r) == k {
        AllRowsSound(before, k);
        UnknownsAbsorb(Fold(before).rows[k], r, r.id in Fold(before).seen);
      }
    }
  }

  // ----- the portfolio total -----

  ghost predicate Distinct(keys: seq<Key>) { forall i, j :: 0 <= i < j < |keys| ==> keys[i] != keys[j] }

  /** `keys` lists every row once, as the source's sorted list of rows does. */
  ghost predicate Lists(keys: seq<Key>, rows: map<Key, Row>) {
    Distinct(keys) && forall k :: k in keys <==> k in rows
  }

  /** A currency that counts: empty text does not. */
  predicate Named(c: Option<string>) { c.Some? && c.value != "" }

  ghost predicate OneCurrency(rows: map<Key, Row>) {
    forall j, k :: j in rows && k in rows && Named(rows[j].currency) && Named(rows[k].currency) ==>
      rows[j].currency == rows[k].currency
  }

  /** The portfolio's realized total: present exactly when no row has a reason and at most one currency
      is named, and then the sum of every row's known profit, each row once. */
  method PortfolioRealized(records: seq<Record>, keys: seq<Key>) returns (total: Option<real>)
    requires Lists(keys, Accounted(records).rows)
    ensures var rows := Accounted(records).rows;
            && (total.Some? <==> (forall k :: k in rows ==> rows[k].reasons == []) && OneCurrency(rows))
            && (total.Some? ==> total.value == RealizedSum(rows, keys))
            && (total.Some? ==> forall k :: k in rows ==>
                  rows[k].realized.Some? && rows[k].net.Some? && rows[k].notional.Some?)
  {
    var rows := Account(records);
    forall k | k in rows ensures RowSound(rows[k]) && rows[k].trades > 0 {
      AllRowsSound(Chronological(records), k);
    }
    total := TotalOf(rows, keys);
  }

  /** The first `i` rows have no reason and name no currency but `currency`. */
  ghost predicate Agree(rows: map<Key, Row>, keys: seq<Key>, i: int, currency: Option<string>)
    requires 0 <= i <= |keys| && forall k :: k in keys ==> k in rows
  {
    forall j :: 0 <= j < i ==>
      rows[keys[j]].reasons == [] && (Named(rows[keys[j]].currency) ==> rows[keys[j]].currency == currency)
  }

  lemma AllAgree(rows: map<Key, Row>, keys: seq<Key>, currency: Option<string>)
    requires Lists(keys, rows) && Agree(rows, keys, |keys|, currency)
    ensures (forall k :: k in rows ==> rows[k].reasons == []) && OneCurrency(rows)
  {
    forall k | k in rows
      ensures rows[k].reasons == [] && (Named(rows[k].currency) ==> rows[k].currency == currency)
    {
      assert k in keys;
    }
  }

  method TotalOf(rows: map<Key, Row>, keys: seq<Key>) returns (total: Option<real>)
    requires Lists(keys, rows) && forall k :: k in rows ==> RowSound(rows[k]) && rows[k].trades > 0
    ensures total.Some? <==> (forall k :: k in rows ==> rows[k].reasons == []) && OneCurrency(rows)
    ensures total.Some? ==> total.value == RealizedSum(rows, keys)
  {
    var sum := 0.0;
    var currency: Option<string> := None;
    ghost var named: Key := ("", "");
    var i := 0;
    while i < |keys|
      invariant 0 <= i <= |keys| && Agree(rows, keys, i, currency)
      invariant currency.Some? ==> Named(currency) && named in rows && rows[named].currency == currency
      invariant sum == RealizedSum(rows, keys[..i])
    {
      assert keys[i] in keys;
      var row := rows[keys[i]];
      if row.reasons != [] { return None; }
      if Named(row.currency) {
        if currency.Some? && currency != row.currency { return None; }
        currency, named := row.currency, keys[i];
      }
      assert keys[..i + 1][..i] == keys[..i];
      sum := sum + row.realized.value;
      i := i + 1;
    }
    assert keys[..i] == keys;
    AllAgree(rows, keys, currency);
    total := Some(sum);
  }

  function Realized(row: Row): real { if row.realized.Some? then row.realized.value else 0.0 }

  ghost function RealizedSum(rows: map<Key, Row>, keys: seq<Key>): real
    requires forall k :: k in keys ==> k in rows
  {
    if keys == [] then 0.0
    else RealizedSum(rows, keys[..|keys| - 1]) + Realized(rows[keys[|keys| - 1]])
  }

  function Dropped(keys: seq<Key>, i: nat): seq<Key>
    requires i < |keys|
  {
    keys[..i] + keys[i + 1..]
  }

  lemma {:induction false} SumWithout(rows: map<Key, Row>, keys: seq<Key>, i: nat)
    requires (forall k :: k in keys ==> k in rows) && i < |keys|
    ensures RealizedSum(rows, keys) == RealizedSum(rows, Dropped(keys, i)) + Realized(rows[keys[i]])
  {
    var n := |keys| - 1;
    var rest := Dropped(keys, i);
    if i == n {
      assert rest == keys[..n];
    } else {
      SumWithout(rows, keys[..n], i);
      assert rest[..|rest| - 1] == Dropped(keys[..n], i) && rest[|rest| - 1] == keys[n];
    }
  }

  lemma DroppedKeys(keys: seq<Key>, i: nat)
    requires Distinct(keys) && i < |keys|
    ensures Distinct(Dropped(keys, i))
    ensures forall k :: k in Dropped(keys, i) <==> k in keys && k != keys[i]
  {
    var rest := Dropped(keys, i);
    forall k | k in keys && k != keys[i] ensures k in rest {
      var j :| 0 <= j < |keys| && keys[j] == k;
      assert k == if j < i then rest[j] else rest[j - 1];
    }
  }

  ghost predicate SameKeys(a: seq<Key>, b: seq<Key>) { forall k :: k in a <==> k in b }

  /** The total does not depend on the order in which the rows are listed. */
  lemma {:induction false} SumAnyOrder(rows: map<Key, Row>, a: seq<Key>, b: seq<Key>)
    requires Distinct(a) && Distinct(b) && SameKeys(a, b) && (forall k :: k in a ==> k in rows)
    ensures RealizedSum(rows, a) == RealizedSum(rows, b)
    decreases |a|
  {
    if a == [] {
      SomeKey(b);
    } else {
      var n := |a| - 1;
      assert a[n] in b;
      var i :| 0 <= i < |b| && b[i] == a[n];
      DroppedKeys(a, n);
      DroppedKeys(b, i);
      SumWithout(rows, a, n);
      SumWithout(rows, b, i);
      SumAnyOrder(rows, Dropped(a, n), Dropped(b, i));
    }
  }

  lemma SomeKey(b: seq<Key>)
    ensures b != [] ==> exists k :: k in b
  {
    if b != [] { assert b[0] in b; }
  }

  // ----- conservation of profit and loss -----

  datatype Fill = Fill(signed: real, price: real)

  /** What was filled, said from the record's own fields: the filled size at the average price, or, if
      nothing is reported filled, the whole size at the limit. */
  predicate SaysFill(r: Record) {
    && r.size.Some? && r.filled.Some? && 0.0 < r.size.value && 0.0 <= r.filled.value <= r.size.value
    && (r.filled.value > 0.0 ==> r.averagePrice.Some? && 0.0 <= r.averagePrice.value <= 1.0)
    && (r.filled.value == 0.0 ==> r.limitPrice.Some? && 0.0 <= r.limitPrice.value <= 1.0)
  }

  /** An accepted share record with sound fields and a price, quoted in `currency`. */
  predicate PricedRecord(r: Record, currency: string) {
    && r.accepted && r.market in SHARE_QUOTE_CURRENCIES && (r.side.word.Buy? || r.side.word.Sell?)
    && r.createdAt.Some? && r.createdAt.value >= 0.0 && r.createdAt.value.Floor as real == r.createdAt.value && r.named
    && r.currency == Some(currency) && SaysFill(r)
  }

  ghost predicate AllPriced(s: seq<Record>, currency: string) {
    forall i :: 0 <= i < |s| ==> PricedRecord(s[i], currency)
  }

  function FillOf(r: Record): Fill
    requires SaysFill(r)
  {
    var size, price := if r.filled.value > 0.0 then r.filled.value else r.size.value,
                       if r.filled.value > 0.0 then r.averagePrice.value else r.limitPrice.value;
    Fill(if r.side.word.Buy? then size else -size, price)
  }

  /** That is the fill the accounting applies. */
  lemma FillOfRecord(r: Record)
    requires SaysFill(r) && (r.side.word.Buy? || r.side.word.Sell?)
    ensures QuantityOk(r) && FillPrice(r) == Some(FillOf(r).price) && SignedSize(r) == FillOf(r).signed
    ensures FillOf(r).signed != 0.0 && 0.0 <= FillOf(r).price <= 1.0
  {
  }

  function FillsOf(s: seq<Record>): seq<Fill>
    requires forall i :: 0 <= i < |s| ==> SaysFill(s[i])
  {
    seq(|s|, i requires 0 <= i < |s| => FillOf(s[i]))
  }

  function FillProfit(f: Fill, m: real): real { ProfitAt(f.signed, f.price, m) }

  /** Profit of a list of fills against one mark, with no accounting at all. */
  function Profit(fs: seq<Fill>, m: real): real {
    if fs == [] then 0.0 else Profit(fs[..|fs| - 1], m) + FillProfit(fs[|fs| - 1], m)
  }

  /** 1e-12 times the larger operand, summed over the steps that snapped a non-zero residue. */
  function Slack(s: seq<Record>): real
    requires forall i :: 0 <= i < |s| ==> SaysFill(s[i])
  {
    if s == [] then 0.0
    else
      Slack(s[..|s| - 1])
      + (if RowBefore(s).net.Some? then Allowance(RowBefore(s).net.value, FillOf(s[|s| - 1]).signed) else 0.0)
  }

  lemma NearChain(x: real, y: real, z: real, d: real, a: real, b: real)
    requires Near(x, y + d, a) && Near(y, z, b)
    ensures Near(x, z + d, b + a)
  {
  }

  lemma NearBoth(x: real, y: real, z: real, a: real, b: real)
    requires Near(x, z, a) && Near(y, z, b)
    ensures Near(x, y, a + b)
  {
  }

  /** A row as the fill arithmetic receives it. */
  function Ready(row: Row, r: Record): Row {
    row.(trades := row.trades + 1, assumedFill := row.assumedFill || Hypothetical(r))
  }

  lemma StepIsFill(row: Row, r: Record, currency: string)
    requires row.net.Some? && row.currency == Some(currency) && PricedRecord(r, currency)
    ensures Step(row, r, false) == Filled(Ready(row, r), FillOf(r).signed, Some(FillOf(r).price))
    ensures FillOf(r).signed != 0.0 && 0.0 <= FillOf(r).price <= 1.0
  {
    FillOfRecord(r);
    assert Noted(row, r, false) == row.(trades := row.trades + 1);
  }

  /** A row on the way through a fully priced history. */
  ghost predicate OnTrack(row: Row, currency: string) {
    Priced(row) && row.currency == Some(currency) && row.reasons == []
  }

  lemma FillOnTrack(row: Row, f: Fill, currency: string, m: real)
    requires OnTrack(row, currency) && f.signed != 0.0 && 0.0 <= f.price <= 1.0 && 0.0 <= m <= 1.0
    ensures OnTrack(Filled(row, f.signed, Some(f.price)), currency)
    ensures Filled(row, f.signed, Some(f.price)).notional.Some?
    ensures Near(Total(Filled(row, f.signed, Some(f.price)), m), Total(row, m) + FillProfit(f, m),
                 Allowance(row.net.value, f.signed))
  {
    FillConserves(row, f.signed, f.price, m);
    FilledAbsorbs(row, f.signed, Some(f.price));
  }

  lemma ReadyKeeps(row: Row, r: Record, currency: string, m: real)
    requires OnTrack(row, currency)
    ensures OnTrack(Ready(row, r), currency) && Total(Ready(row, r), m) == Total(row, m)
    ensures Ready(row, r).net == row.net
  {
  }

  lemma PricedStep(row: Row, r: Record, currency: string, m: real)
    requires OnTrack(row, currency) && PricedRecord(r, currency) && 0.0 <= m <= 1.0
    ensures OnTrack(Step(row, r, false), currency) && Step(row, r, false).notional.Some?
    ensures Near(Total(Step(row, r, false), m), Total(row, m) + FillProfit(FillOf(r), m),
                 Allowance(row.net.value, FillOf(r).signed))
  {
    StepIsFill(row, r, currency);
    ReadyKeeps(row, r, currency, m);
    FillOnTrack(Ready(row, r), FillOf(r), currency, m);
  }

  /** One more record keeps the row near the profit of the fills so far. */
  lemma OneMoreRecord(row: Row, r: Record, currency: string, m: real, profit: real, slack: real)
    requires OnTrack(row, currency) && PricedRecord(r, currency) && 0.0 <= m <= 1.0
    requires Near(Total(row, m), profit, slack)
    ensures OnTrack(Step(row, r, false), currency) && Step(row, r, false).notional.Some?
    ensures Near(Total(Step(row, r, false), m), profit + FillProfit(FillOf(r), m),
                 slack + Allowance(row.net.value, FillOf(r).signed))
  {
    PricedStep(row, r, currency, m);
    NearChain(Total(Step(row, r, false), m), Total(row, m), profit, FillProfit(FillOf(r), m),
              Allowance(row.net.value, FillOf(r).signed), slack);
  }

  lemma ProfitUnfolds(s: seq<Record>, currency: string, m: real)
    requires s != [] && AllPriced(s, currency)
    ensures AllPriced(s[..|s| - 1], currency) && PricedRecord(s[|s| - 1], currency)
    ensures Profit(FillsOf(s), m) == Profit(FillsOf(s[..|s| - 1]), m) + FillProfit(FillOf(s[|s| - 1]), m)
  {
    var n := |s| - 1;
    assert FillsOf(s)[..n] == FillsOf(s[..n]) && FillsOf(s)[n] == FillOf(s[n]);
  }

  lemma {:induction false} RowConserves(s: seq<Record>, currency: string, m: real)
    requires s != [] && AllPriced(s, currency) && 0.0 <= m <= 1.0
    ensures OnTrack(RowOf(s), currency) && RowOf(s).notional.Some?
    ensures Near(Total(RowOf(s), m), Profit(FillsOf(s), m), Slack(s))
  {
    var n := |s| - 1;
    ProfitUnfolds(s, currency, m);
    if n == 0 {
      assert s[..n] == [] && FillsOf(s[..n]) == [];
      EmptyConserves(s[0], currency, m);
    } else {
      RowConserves(s[..n], currency, m);
    }
    OneMoreRecord(RowBefore(s), s[n], currency, m, Profit(FillsOf(s[..n]), m), Slack(s[..n]));
  }

  lemma EmptyConserves(r: Record, currency: string, m: real)
    requires r.currency == Some(currency)
    ensures OnTrack(EmptyRow(r), currency) && Near(Total(EmptyRow(r), m), Profit([], m), 0.0)
  {
  }

  /** For a fully priced contract in one currency, realized plus unrealized profit at any mark in
      [0, 1] is the profit of its fills at that mark, up to the snapped dust. */
  lemma ProfitConserved(records: seq<Record>, k: Key, currency: string, m: real)
    requires UniqueIds(records) && Stored(records, k) != []
    requires AllPriced(Chronological(Stored(records, k)), currency) && 0.0 <= m <= 1.0
    ensures k in Accounted(records).rows
    ensures var row := Accounted(records).rows[k];
            var own := Chronological(Stored(records, k));
            && row.realized.Some? && Unrealized(row, Some(m)).Some?
            && var total := row.realized.value + Unrealized(row, Some(m)).value;
            Profit(FillsOf(own), m) - Slack(own) <= total <= Profit(FillsOf(own), m) + Slack(own)
  {
    RowsAreLocal(records, k);
    var own := Chronological(Stored(records, k));
    RowConserves(own, currency, m);
    TotalIsSum(RowOf(own), m);
  }

  lemma TotalIsSum(row: Row, m: real)
    requires row.net.Some? && row.realized.Some? && row.notional.Some? && 0.0 <= m <= 1.0
    ensures Unrealized(row, Some(m)).Some?
    ensures Total(row, m) == row.realized.value + Unrealized(row, Some(m)).value
  {
  }

  lemma {:induction false} ProfitOfConcat(a: seq<Fill>, b: seq<Fill>, m: real)
    ensures Profit(a + b, m) == Profit(a, m) + Profit(b, m)
  {
    if b == [] {
      assert a + b == a;
    } else {
      var n := |b| - 1;
      ProfitOfConcat(a, b[..n], m);
      assert (a + b)[..|a| + n] == a + b[..n];
    }
  }

  lemma ProfitWithout(fs: seq<Fill>, i: nat, m: real)
    requires i < |fs|
    ensures Profit(fs, m) == Profit(fs[..i] + fs[i + 1..], m) + FillProfit(fs[i], m)
    ensures multiset(fs) == multiset(fs[..i] + fs[i + 1..]) + multiset{fs[i]}
  {
    var a, b := fs[..i], fs[i + 1..];
    assert fs == a + [fs[i]] + b;
    ProfitOfConcat(a + [fs[i]], b, m);
    ProfitOfConcat(a, [fs[i]], m);
    ProfitOfConcat(a, b, m);
    assert [fs[i]][..0] == [];
  }

  lemma {:induction false} ProfitAnyOrder(a: seq<Fill>, b: seq<Fill>, m: real)
    requires multiset(a) == multiset(b)
    ensures Profit(a, m) == Profit(b, m)
    decreases |a|
  {
    if a == [] {
      assert |multiset(b)| == 0;
    } else {
      var n := |a| - 1;
      assert a == a[..n] + [a[n]];
      assert a[n] in multiset(b);
      var i :| 0 <= i < |b| && b[i] == a[n];
      ProfitWithout(b, i, m);
      assert multiset(a[..n]) == multiset(a) - multiset{a[n]};
      assert multiset(b[..i] + b[i + 1..]) == multiset(b) - multiset{b[i]};
      ProfitAnyOrder(a[..n], b[..i] + b[i + 1..], m);
    }
  }

  /** Total profit does not depend on the order of the fills: two priced histories of the same fills
      agree at every mark up to their snapped dust, and exactly when neither snapped a residue. */
  lemma ProfitIgnoresOrder(s: seq<Record>, t: seq<Record>, cs: string, ct: string, m: real)
    requires s != [] && t != [] && AllPriced(s, cs) && AllPriced(t, ct) && 0.0 <= m <= 1.0
    requires multiset(FillsOf(s)) == multiset(FillsOf(t))
    ensures Priced(RowOf(s)) && Priced(RowOf(t))
    ensures Abs(Total(RowOf(s), m) - Total(RowOf(t), m)) <= Slack(s) + Slack(t)
    ensures Slack(s) == 0.0 && Slack(t) == 0.0 ==> Total(RowOf(s), m) == Total(RowOf(t), m)
  {
    RowConserves(s, cs, m);
    RowConserves(t, ct, m);
    ProfitAnyOrder(FillsOf(s), FillsOf(t), m);
    NearBoth(Total(RowOf(s), m), Total(RowOf(t), m), Profit(FillsOf(s), m), Slack(s), Slack(t));
  }
}
