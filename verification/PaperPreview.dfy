/** The impact preview of one hypothetical order against the ledger. */
module PaperPreview {
  import opened Options
  import opened PaperLedger
  import opened PaperAccounting

  /** `named` says that the contract id is non-blank text. */
  datatype Order = Order(market: string, contract: string, side: Side, size: Option<real>,
                         limitPrice: Option<real>, named: bool)

  datatype Effect = Opens | Closes | Flips | Adds | Reduces | Unavailable

  datatype Impact = Impact(current: Option<real>, signed: Option<real>, next: Option<real>, effect: Effect)

  /** The latest timestamp of the ledger, zero when it is empty. */
  function Latest(records: seq<Record>): real {
    if records == [] then 0.0
    else if |records| == 1 then Stamp(records[0])
    else Larger(Stamp(records[0]), Latest(records[1..]))
  }

  /** Truncation toward zero. */
  function Truncated(x: real): real { if x >= 0.0 then x.Floor as real else -((-x).Floor as real) }

  function Preview(records: seq<Record>, o: Order, id: string): Record {
    Record(o.market, o.contract, o.side, o.size, Some(0.0), o.limitPrice, None,
           if o.market in SHARE_QUOTE_CURRENCIES then SHARE_QUOTE_CURRENCIES[o.market] else None,
           id, Some(Truncated(Latest(records) + 1.0)), o.named, true)
  }

  lemma {:induction false} LatestBounds(records: seq<Record>)
    ensures forall i :: 0 <= i < |records| ==> Stamp(records[i]) <= Latest(records)
  {
    if |records| > 1 { LatestBounds(records[1..]); }
  }

  /** The preview is later than every record, whatever timestamps the ledger holds. */
  lemma PreviewIsLatest(records: seq<Record>, o: Order, id: string)
    ensures forall i :: 0 <= i < |records| ==> Stamp(records[i]) < Stamp(Preview(records, o, id))
  {
    LatestBounds(records);
    var x := Latest(records) + 1.0;
    assert Truncated(x) > x - 1.0;
  }

  ghost predicate FreshId(records: seq<Record>, id: string) {
    forall i :: 0 <= i < |records| && records[i].accepted ==> records[i].id != id
  }

  lemma LatestComesLast(records: seq<Record>, p: Record)
    requires forall i :: 0 <= i < |records| ==> Stamp(records[i]) <= Stamp(p)
    ensures Chronological([p] + records) == Chronological(records) + [p]
  {
    ChronologicalSorted(records);
    var ordered := Chronological(records);
    forall i | 0 <= i < |ordered| ensures Stamp(ordered[i]) <= Stamp(p) {
      assert ordered[i] in multiset(records);
    }
    InsertLatest(p, ordered);
    assert ([p] + records)[1..] == records;
  }

  lemma FreshIdUnseen(records: seq<Record>, id: string)
    requires FreshId(records, id)
    ensures id !in Accounted(records).seen
  {
    var ordered := Chronological(records);
    SeenIds(ordered);
    ChronologicalSorted(records);
    forall i | 0 <= i < |ordered| && ordered[i].accepted ensures ordered[i].id != id {
      assert ordered[i] in multiset(records);
    }
  }

  /** Re-running the whole ledger with the preview prepended is one accounting step on that contract's
      row, and leaves every other row as it was. */
  lemma PreviewIsOneStep(records: seq<Record>, o: Order, id: string)
    requires FreshId(records, id)
    ensures var p := Preview(records, o, id);
            Accounted([p] + records).rows ==
            Accounted(records).rows[KeyOf(p) := Step(RowFor(Accounted(records), p), p, false)]
  {
    var p := Preview(records, o, id);
    PreviewIsLatest(records, o, id);
    LatestComesLast(records, p);
    FreshIdUnseen(records, id);
    assert (Chronological(records) + [p])[..|Chronological(records)|] == Chronological(records);
  }

  // ----- the label -----

  predicate Supported(o: Order) {
    o.market in SHARE_QUOTE_CURRENCIES && o.side.canonical && !o.side.word.OtherWord?
  }

  /** The order's signed size, when it has one. */
  function OrderSize(o: Order): Option<real> {
    if Supported(o) && o.size.Some? && o.size.value > 0.0
    then Some(o.size.value * (if o.side.word.Sell? then -1.0 else 1.0)) else None
  }

  /** Only a row with an open or unknown quantity counts as a current position. */
  function CurrentNet(rows: map<Key, Row>, o: Order): Option<real> {
    var k := (o.market, o.contract);
    if k in rows && rows[k].net != Some(0.0) then rows[k].net
    else if Supported(o) then Some(0.0) else None
  }

  function Label(current: Option<real>, next: Option<real>, signed: Option<real>): Effect {
    if current.None? || next.None? || signed.None? then Unavailable
    else if current.value == 0.0 then Opens
    else if next.value == 0.0 then Closes
    else if SameSign(current.value, -next.value) then Flips
    else if SameSign(current.value, signed.value) then Adds
    else Reduces
  }

  /** `paper_order_impact`: both ledgers are computed in full. */
  function OrderImpact(records: seq<Record>, o: Order, id: string): Impact {
    var before := Accounted(records).rows;
    var after := Accounted([Preview(records, o, id)] + records).rows;
    var k := (o.market, o.contract);
    var current := CurrentNet(before, o);
    var next := if k in after then after[k].net else None;
    Impact(current, OrderSize(o), next, Label(current, next, OrderSize(o)))
  }

  /** What each label says about the position before and after. */
  ghost predicate LabelTrue(c: real, s: real, n: real, e: Effect) {
    match e
    case Opens => c == 0.0 && n == s != 0.0
    case Closes => c != 0.0 && n == 0.0 && Snaps(c, s)
    case Flips => SameSign(c, -n) && SameSign(n, s) && Abs(n) == Abs(s) - Abs(c)
    case Adds => SameSign(c, s) && SameSign(c, n) && Abs(n) == Abs(c) + Abs(s)
    case Reduces => SameSign(c, -s) && SameSign(c, n) && Abs(n) == Abs(c) - Abs(s)
    case Unavailable => false
  }

  lemma LabelsExact(c: real, s: real)
    requires s != 0.0
    ensures LabelTrue(c, s, NextNet(c, s), Label(Some(c), Some(NextNet(c, s)), Some(s)))
  {
    assert SameSign(c, s) ==> !Snaps(c, s);
    assert c == 0.0 ==> !Snaps(c, s);
  }

  /** The projected quantity is the current one moved by the order, dust snapped. */
  lemma ProjectedNet(records: seq<Record>, o: Order, id: string)
    requires FreshId(records, id)
    ensures var i := OrderImpact(records, o, id);
            i.current.Some? && i.next.Some? && i.signed.Some? ==>
              i.signed.value != 0.0 && i.next.value == NextNet(i.current.value, i.signed.value)
  {
    PreviewIsOneStep(records, o, id);
    var p := Preview(records, o, id);
    var row := RowFor(Accounted(records), p);
    var i := OrderImpact(records, o, id);
    if i.current.Some? && i.next.Some? && i.signed.Some? {
      StepNet(row, p);
      assert Hypothetical(p);
    }
  }

  lemma StepNet(row: Row, r: Record)
    requires Step(row, r, false).net.Some?
    ensures row.net.Some? && QuantityOk(r) && Step(row, r, false).net.value == NextNet(row.net.value, SignedSize(r))
  {
    NotedClean(row, r, false);
    assert Fills(row, r, false);
    FillsMeansValid(row, r, false);
  }

  /** Whenever a label is given it states exactly the sign and size change of the position, and it is
      withheld exactly when one of the three quantities is unknown. */
  lemma EffectAgrees(records: seq<Record>, o: Order, id: string)
    requires FreshId(records, id)
    ensures var i := OrderImpact(records, o, id);
            && (i.effect.Unavailable? <==> i.current.None? || i.next.None? || i.signed.None?)
            && (!i.effect.Unavailable? ==> LabelTrue(i.current.value, i.signed.value, i.next.value, i.effect))
  {
    ProjectedNet(records, o, id);
    var i := OrderImpact(records, o, id);
    if i.current.Some? && i.next.Some? && i.signed.Some? {
      LabelsExact(i.current.value, i.signed.value);
    }
  }
}
