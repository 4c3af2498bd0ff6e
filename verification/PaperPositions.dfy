/** Positions of the paper ledger against the records themselves: net quantity, dust, what makes a row
    incomplete, repeated identities, and what a previewed order would change. */
module PaperPositions {
  import opened Options
  import opened PaperLedger
  import opened PaperAccounting
  import opened PaperTheorems
  import opened PaperPreview

  // ----- net quantity -----

  function NetOf(fs: seq<Fill>): real {
    if fs == [] then 0.0 else NetOf(fs[..|fs| - 1]) + fs[|fs| - 1].signed
  }

  /** A sum within 1e-12 of the larger operand counts as zero, and then has no average; any other stands. */
  lemma DustExact(row: Row, s: real, price: Option<real>)
    requires row.net.Some?
    ensures var c := row.net.value;
            var dust := 0.000000000001 * Larger(Abs(c), Abs(s));
            && (Abs(c + s) <= dust ==>
                  Filled(row, s, price).net == Some(0.0) && Filled(row, s, price).average.None?)
            && (Abs(c + s) > dust ==> Filled(row, s, price).net == Some(c + s))
  {
  }

  lemma StepNear(row: Row, r: Record, currency: string)
    requires OnTrack(row, currency) && PricedRecord(r, currency)
    ensures Step(row, r, false).net.Some?
    ensures Near(Step(row, r, false).net.value, row.net.value + FillOf(r).signed,
                 Allowance(row.net.value, FillOf(r).signed))
  {
    StepIsFill(row, r, currency);
  }

  lemma NetUnfolds(s: seq<Record>, currency: string)
    requires s != [] && AllPriced(s, currency)
    ensures NetOf(FillsOf(s)) == NetOf(FillsOf(s[..|s| - 1])) + FillOf(s[|s| - 1]).signed
  {
    var n := |s| - 1;
    assert FillsOf(s)[..n] == FillsOf(s[..n]) && FillsOf(s)[n] == FillOf(s[n]);
  }

  lemma {:induction false} RowNet(s: seq<Record>, currency: string)
    requires s != [] && AllPriced(s, currency)
    ensures OnTrack(RowOf(s), currency) && Near(RowOf(s).net.value, NetOf(FillsOf(s)), Slack(s))
  {
    var n := |s| - 1;
    ProfitUnfolds(s, currency, 0.0);
    NetUnfolds(s, currency);
    RowConserves(s, currency, 0.0);
    if n == 0 {
      assert s[..n] == [] && FillsOf(s[..n]) == [];
      EmptyConserves(s[0], currency, 0.0);
    } else {
      RowNet(s[..n], currency);
    }
    var row := RowBefore(s);
    StepNear(row, s[n], currency);
    NearChain(RowOf(s).net.value, row.net.value, NetOf(FillsOf(s[..n])), FillOf(s[n]).signed,
              Allowance(row.net.value, FillOf(s[n]).signed), Slack(s[..n]));
  }

  /** A contract's net quantity is the sum of what its records say was bought less what was sold, up to the
      snapped dust. */
  lemma NetConserved(records: seq<Record>, k: Key, currency: string)
    requires UniqueIds(records) && Stored(records, k) != []
    requires AllPriced(Chronological(Stored(records, k)), currency)
    ensures k in Accounted(records).rows && Accounted(records).rows[k].net.Some?
    ensures var own := Chronological(Stored(records, k));
            var net := Accounted(records).rows[k].net.value;
            NetOf(FillsOf(own)) - Slack(own) <= net <= NetOf(FillsOf(own)) + Slack(own)
  {
    RowsAreLocal(records, k);
    RowNet(Chronological(Stored(records, k)), currency);
  }

  /** What is known after a fill: opening or adding leaves the realized profit alone, while closing keeps it
      known only if average, price and profit all were; the average is known after a fill that leaves a
      position exactly if the price is, where the fill opened or turned the position, if both are, where it
      added to it, and if the average was, where it reduced it. */
  lemma KnownAfterFill(row: Row, s: real, price: Option<real>)
    requires row.net.Some? && s != 0.0
    ensures var c, f := row.net.value, Filled(row, s, price);
            var closing := (c > 0.0 && s < 0.0) || (c < 0.0 && s > 0.0);
            && (!closing ==> f.realized == row.realized)
            && (closing ==> (f.realized.Some? <==> row.average.Some? && price.Some? && row.realized.Some?))
            && (f.net != Some(0.0) ==>
                  (f.average.Some? <==>
                     if c == 0.0 || (closing && Abs(s) > Abs(c)) then price.Some?
                     else if closing then row.average.Some? else price.Some? && row.average.Some?))
            && (f.net == Some(0.0) && row.currency.Some? && Snaps(c, s) ==> f.notional == Some(0.0))
            && (f.notional.Some? ==> row.currency.Some? && (f.average.Some? || f.net == Some(0.0)))
  {
  }

  // ----- what makes a row incomplete -----

  predicate SupportedRecord(r: Record) {
    r.market in SHARE_QUOTE_CURRENCIES && (r.side.word.Buy? || r.side.word.Sell?)
  }

  /** When a record adds a reason of its own, told from the record, the row's currency and whether its
      identity was seen before. */
  predicate Gives(r: Record, currency: Option<string>, duplicate: bool, why: Reason) {
    match why
    case InconsistentCurrency => r.currency != currency
    case DuplicateIdentity => duplicate
    case UnsupportedModel => !SupportedRecord(r)
    case CurrencyUnavailable => SupportedRecord(r) && (r.currency != currency || currency.None?)
    case InvalidQuantity =>
      && SupportedRecord(r)
      && !(r.size.Some? && r.size.value > 0.0 && r.filled.Some? && 0.0 <= r.filled.value <= r.size.value)
    case InvalidIdentity =>
      && SupportedRecord(r)
      && !(r.createdAt.Some? && r.createdAt.value >= 0.0 && r.createdAt.value.Floor as real == r.createdAt.value
           && r.named)
    case PriceUnavailable => false
  }

  lemma NotedReasonsExact(row: Row, r: Record, duplicate: bool, why: Reason)
    ensures why in Noted(row, r, duplicate).reasons <==> why in row.reasons || Gives(r, row.currency, duplicate, why)
  {
    NotedList(row, r, duplicate);
    var a := Adding(row.reasons, r.currency != row.currency, InconsistentCurrency);
    var b := Adding(a, duplicate, DuplicateIdentity);
    if SupportedRecord(r) {
      var c := Adding(b, r.currency != row.currency || row.currency.None?, CurrencyUnavailable);
      var d := Adding(c, !QuantityOk(r), InvalidQuantity);
      var e := Adding(d, !IdentityOk(r), InvalidIdentity);
      assert why in e <==> why in d || (!IdentityOk(r) && why == InvalidIdentity);
    }
  }

  /** The list itself, one condition after the other. */
  lemma NotedList(row: Row, r: Record, duplicate: bool)
    ensures var b := Adding(Adding(row.reasons, r.currency != row.currency, InconsistentCurrency),
                            duplicate, DuplicateIdentity);
            Noted(row, r, duplicate).reasons ==
            if SupportedRecord(r) then
              Adding(Adding(Adding(b, r.currency != row.currency || row.currency.None?, CurrencyUnavailable),
                            !QuantityOk(r), InvalidQuantity), !IdentityOk(r), InvalidIdentity)
            else b + [UnsupportedModel]
  {
  }

  function Adding(reasons: seq<Reason>, applies: bool, why: Reason): (s: seq<Reason>)
    ensures forall x :: x in s <==> x in reasons || (applies && x == why)
  {
    if applies then reasons + [why] else reasons
  }

  /** Exactly these reasons accumulate; a missing price is one only if the record reaches the arithmetic. */
  lemma ReasonsExact(row: Row, r: Record, duplicate: bool, why: Reason)
    ensures why in Step(row, r, duplicate).reasons <==>
      || why in row.reasons || Gives(r, row.currency, duplicate, why)
      || (why.PriceUnavailable? && Fills(row, r, duplicate)
          && !IsPrice(if r.filled == Some(0.0) then r.limitPrice else r.averagePrice))
  {
    NotedReasonsExact(row, r, duplicate, why);
  }

  /** A record reaches the arithmetic exactly if it is supported, its quantities and identity are sound, it is
      no duplicate, and the row's quantity is still known. */
  lemma FillsExactly(row: Row, r: Record, duplicate: bool)
    ensures Fills(row, r, duplicate) <==>
      && row.net.Some? && !duplicate && SupportedRecord(r)
      && !Gives(r, row.currency, duplicate, InvalidQuantity) && !Gives(r, row.currency, duplicate, InvalidIdentity)
  {
  }

  lemma DuplicateStep(row: Row, r: Record)
    ensures Step(row, r, true).net.None? && DuplicateIdentity in Step(row, r, true).reasons
  {
    FillsExactly(row, r, true);
    NotedReasonsExact(row, r, true, DuplicateIdentity);
    DuplicateNoted(row, r);
  }

  lemma DuplicateNoted(row: Row, r: Record)
    ensures Noted(row, r, true).net.None?
  {
  }

  lemma SeenBefore(s: seq<Record>, i: nat, j: nat)
    requires i < j < |s| && s[i].accepted && s[i].id == s[j].id
    ensures s[j].id in Fold(s[..j]).seen
  {
    SeenIds(s[..j]);
    assert s[..j][i] == s[i];
  }

  /** A row's fill is assumed exactly if some record that reached the arithmetic reported nothing filled, and
      its quantities are shares exactly while every record was supported. */
  lemma MarksExact(row: Row, r: Record, duplicate: bool)
    ensures Step(row, r, duplicate).assumedFill <==>
      row.assumedFill || (Fills(row, r, duplicate) && r.filled == Some(0.0))
    ensures Step(row, r, duplicate).shares <==> row.shares && SupportedRecord(r)
    ensures Step(row, r, duplicate).trades == row.trades + 1
    ensures Step(row, r, duplicate).currency == if r.currency == row.currency then row.currency else None
  {
    NotedMarks(row, r, duplicate);
    if Fills(row, r, duplicate) { FillKeepsMarks(Noted(row, r, duplicate), SignedSize(r), FillPrice(r)); }
  }

  lemma NotedMarks(row: Row, r: Record, duplicate: bool)
    ensures var n := Noted(row, r, duplicate);
            && n.assumedFill == row.assumedFill && n.shares == (row.shares && SupportedRecord(r))
            && n.trades == row.trades + 1
            && n.currency == if r.currency == row.currency then row.currency else None
  {
  }

  lemma FillKeepsMarks(row: Row, signed: real, price: Option<real>)
    requires row.net.Some?
    ensures var f := Filled(row, signed, price);
            && f.assumedFill == row.assumedFill && f.shares == row.shares && f.trades == row.trades
            && f.currency == row.currency
  {
  }

  /** Wherever an accepted identity occurs twice, the later record's contract is unknown from then on. */
  lemma RepeatedIdentityUnknown(s: seq<Record>, i: nat, j: nat)
    requires i < j < |s| && s[i].accepted && s[j].accepted && s[i].id == s[j].id
    ensures KeyOf(s[j]) in Fold(s).rows && Fold(s).rows[KeyOf(s[j])].net.None?
    ensures DuplicateIdentity in Fold(s).rows[KeyOf(s[j])].reasons
  {
    RepeatedSoFar(s, i, j);
    HistoryAbsorbs(s, j + 1, KeyOf(s[j]));
    assert DuplicateIdentity in Fold(s[..j + 1]).rows[KeyOf(s[j])].reasons;
  }

  lemma RepeatedSoFar(s: seq<Record>, i: nat, j: nat)
    requires i < j < |s| && s[i].accepted && s[j].accepted && s[i].id == s[j].id
    ensures KeyOf(s[j]) in Fold(s[..j + 1]).rows && Fold(s[..j + 1]).rows[KeyOf(s[j])].net.None?
    ensures DuplicateIdentity in Fold(s[..j + 1]).rows[KeyOf(s[j])].reasons
  {
    SeenBefore(s, i, j);
    RepeatedRow(Fold(s[..j]), s[j]);
    FoldNext(s, j);
  }

  lemma FoldNext(s: seq<Record>, j: nat)
    requires j < |s|
    ensures Fold(s[..j + 1]) == Enter(Fold(s[..j]), s[j])
  {
    assert s[..j + 1][..j] == s[..j];
  }

  lemma RepeatedRow(l: Ledger, r: Record)
    requires r.accepted && r.id in l.seen
    ensures KeyOf(r) in Enter(l, r).rows && Enter(l, r).rows[KeyOf(r)].net.None?
    ensures DuplicateIdentity in Enter(l, r).rows[KeyOf(r)].reasons
  {
    DuplicateStep(RowFor(l, r), r);
    EnterRow(l, r);
  }

  lemma EnterRow(l: Ledger, r: Record)
    requires r.accepted
    ensures KeyOf(r) in Enter(l, r).rows && Enter(l, r).rows[KeyOf(r)] == Step(RowFor(l, r), r, r.id in l.seen)
  {
  }

  /** Over a priced history the fill is assumed exactly if some record reported nothing filled. */
  lemma {:induction false} AssumedHistory(s: seq<Record>, currency: string)
    requires s != [] && AllPriced(s, currency)
    ensures RowOf(s).net.Some? && RowOf(s).currency == Some(currency)
    ensures RowOf(s).assumedFill <==> exists i :: 0 <= i < |s| && s[i].filled == Some(0.0)
  {
    var n := |s| - 1;
    RowConserves(s, currency, 0.0);
    if n > 0 {
      AssumedHistory(s[..n], currency);
      assert forall i :: 0 <= i < n ==> s[..n][i] == s[i];
    }
    AssumedStep(RowBefore(s), s[n], currency);
  }

  lemma AssumedStep(row: Row, r: Record, currency: string)
    requires row.net.Some? && row.currency == Some(currency) && PricedRecord(r, currency)
    ensures Step(row, r, false).assumedFill <==> row.assumedFill || r.filled == Some(0.0)
  {
    StepIsFill(row, r, currency);
  }

  /** Without a currency there is no money: neither a basis nor a realized profit. */
  lemma StepNeedsCurrency(row: Row, r: Record, duplicate: bool)
    requires row.currency.None? ==> row.notional.None?
    ensures Step(row, r, duplicate).currency.None? ==>
      Step(row, r, duplicate).notional.None? && Step(row, r, duplicate).realized.None?
  {
    NotedNeedsCurrency(row, r, duplicate);
    if Fills(row, r, duplicate) { FillNeedsCurrency(Noted(row, r, duplicate), SignedSize(r), FillPrice(r)); }
  }

  lemma NotedNeedsCurrency(row: Row, r: Record, duplicate: bool)
    requires row.currency.None? ==> row.notional.None?
    ensures Noted(row, r, duplicate).currency.None? ==>
      Noted(row, r, duplicate).notional.None? && Noted(row, r, duplicate).realized.None?
  {
  }

  lemma FillNeedsCurrency(row: Row, signed: real, price: Option<real>)
    requires row.net.Some? && (row.currency.None? ==> row.realized.None?)
    ensures row.currency.None? ==>
      Filled(row, signed, price).notional.None? && Filled(row, signed, price).realized.None?
  {
  }

  lemma {:induction false} NoCurrencyNoMoney(s: seq<Record>, k: Key)
    ensures k in Fold(s).rows && Fold(s).rows[k].currency.None? ==>
      Fold(s).rows[k].notional.None? && Fold(s).rows[k].realized.None?
  {
    if s != [] {
      var before, r := s[..|s| - 1], s[|s| - 1];
      NoCurrencyNoMoney(before, k);
      if r.accepted && KeyOf(r) == k {
        EnterRow(Fold(before), r);
        StepNeedsCurrency(RowFor(Fold(before), r), r, r.id in Fold(before).seen);
      }
    }
  }

  /** A record that was not accepted changes nothing. */
  lemma RejectedIgnored(s: seq<Record>, r: Record)
    requires !r.accepted
    ensures Fold(s + [r]) == Fold(s)
  {
    assert (s + [r])[..|s|] == s;
  }

  // ----- what a preview would change -----

  /** The current quantity of a preview is the row's, zero where a supported market has no row, and unknown
      where an unsupported one has none open. */
  lemma CurrentExactly(records: seq<Record>, o: Order, id: string)
    ensures var rows, k := Accounted(records).rows, (o.market, o.contract);
            var current := OrderImpact(records, o, id).current;
            && (Supported(o) ==> current == if k in rows then rows[k].net else Some(0.0))
            && (!Supported(o) ==> current == if k in rows && rows[k].net != Some(0.0) then rows[k].net else None)
  {
  }

  /** A supported, sized and named order on a known position always gets a label. */
  lemma LabelGiven(records: seq<Record>, o: Order, id: string)
    requires FreshId(records, id) && Supported(o) && o.named && o.size.Some? && o.size.value > 0.0
    requires Latest(records) >= 0.0
    requires RowFor(Accounted(records), Preview(records, o, id)).net.Some?
    ensures !OrderImpact(records, o, id).effect.Unavailable?
  {
    var p := Preview(records, o, id);
    CurrentExactly(records, o, id);
    PreviewIsOneStep(records, o, id);
    FillsExactly(RowFor(Accounted(records), p), p, false);
    EffectAgrees(records, o, id);
  }

  /** For a supported order with a price, on a priced position in the market's currency, the preview moves
      realized plus unrealized profit at any mark by its signed size times (mark - limit), up to dust. */
  lemma PreviewProfit(records: seq<Record>, o: Order, id: string, currency: string, m: real)
    requires FreshId(records, id) && 0.0 <= m <= 1.0 && Supported(o) && o.named
    requires SHARE_QUOTE_CURRENCIES[o.market] == Some(currency)
    requires o.size.Some? && o.size.value > 0.0 && o.limitPrice.Some? && 0.0 <= o.limitPrice.value <= 1.0
    requires Latest(records) >= 0.0
    requires OnTrack(RowFor(Accounted(records), Preview(records, o, id)), currency)
    ensures (o.market, o.contract) in Accounted([Preview(records, o, id)] + records).rows
    ensures var before := RowFor(Accounted(records), Preview(records, o, id));
            var after := Accounted([Preview(records, o, id)] + records).rows[(o.market, o.contract)];
            Moves(before, after, if o.side.word.Buy? then o.size.value else -o.size.value, o.limitPrice.value, m)
  {
    var p := Preview(records, o, id);
    PreviewIsOneStep(records, o, id);
    PreviewPriced(records, o, id, currency);
    StepMoves(RowFor(Accounted(records), p), p, currency, m);
  }

  ghost predicate Moves(before: Row, after: Row, signed: real, price: real, m: real) {
    && before.net.Some? && before.realized.Some? && after.net.Some? && after.realized.Some?
    && Abs(Total(after, m) - (Total(before, m) + signed * (m - price))) <= Allowance(before.net.value, signed)
  }

  lemma PreviewPriced(records: seq<Record>, o: Order, id: string, currency: string)
    requires Supported(o) && o.named && SHARE_QUOTE_CURRENCIES[o.market] == Some(currency)
    requires o.size.Some? && o.size.value > 0.0 && o.limitPrice.Some? && 0.0 <= o.limitPrice.value <= 1.0
    requires Latest(records) >= 0.0
    ensures var p := Preview(records, o, id);
            && PricedRecord(p, currency) && KeyOf(p) == (o.market, o.contract)
            && FillOf(p) == Fill(if o.side.word.Buy? then o.size.value else -o.size.value, o.limitPrice.value)
  {
  }

  lemma StepMoves(row: Row, r: Record, currency: string, m: real)
    requires OnTrack(row, currency) && PricedRecord(r, currency) && 0.0 <= m <= 1.0
    ensures Moves(row, Step(row, r, false), FillOf(r).signed, FillOf(r).price, m)
  {
    PricedStep(row, r, currency, m);
  }
}
