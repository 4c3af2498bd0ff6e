/** Size-bounded mutation results: a JSON tree too large for the journal is trimmed to its shape, rung
    by rung, or replaced by a receipt. */
module MutationResult {
  import opened JsonTree

  // ----- encoded size in UTF-8 bytes -----

  function CharBytes(c: char): nat {
    if c == '"' || c == '\\' || c == '\U{08}' || c == '\U{0C}' || c == '\n' || c == '\r' || c == '\t' then 2
    else if c < ' ' then 6
    else if c < '\U{80}' then 1
    else if c < '\U{800}' then 2
    else if c < '\U{10000}' then 3
    else 4
  }

  function TextBytes(s: string): nat {
    if s == [] then 0 else CharBytes(s[0]) + TextBytes(s[1..])
  }

  /** Bytes of a value encoded without spaces. */
  function Size(v: Json): nat
    decreases v
  {
    match v
    case Null => 4
    case Bool(b) => if b then 4 else 5
    case Int(n) => |IntText(n)|
    case Dec(text) => |text|
    case Str(s) => 2 + TextBytes(s)
    case Arr(items) => 2 + ItemsSize(items)
    case Obj(fields) => 2 + FieldsSize(fields)
  }

  function Comma(n: nat): nat { if n > 1 then 1 else 0 }

  /** Elements and the commas between them. */
  function ItemsSize(items: seq<Json>): nat
    decreases items
  {
    if items == [] then 0 else Size(items[0]) + Comma(|items|) + ItemsSize(items[1..])
  }

  /** Quoted keys, colons, values and the commas between them. */
  function FieldsSize(fields: seq<Field>): nat
    decreases fields
  {
    if fields == [] then 0
    else 3 + TextBytes(fields[0].key) + Size(fields[0].value) + Comma(|fields|) + FieldsSize(fields[1..])
  }

  // ----- what the encoder accepts -----

  /** Every number that is not an integer prints as a JSON decimal; NaN and the infinities do not. */
  predicate Serializable(v: Json)
    decreases v
  {
    match v
    case Dec(text) => IsDecimal(text)
    case Arr(items) => forall i :: 0 <= i < |items| ==> Serializable(items[i])
    case Obj(fields) => forall i :: 0 <= i < |fields| ==> Serializable(fields[i].value)
    case _ => true
  }

  // ----- trimming -----

  function AtLeastZero(n: int): nat { if n < 0 then 0 else n }

  function Clip<T>(s: seq<T>, limit: int): (r: seq<T>)
  {
    if |s| > limit then s[..AtLeastZero(limit)] else s
  }

  function Trim(v: Json, listLimit: int, stringLimit: int): Json
    decreases v
  {
    match v
    case Obj(fields) => Obj(TrimFields(fields, listLimit, stringLimit))
    case Arr(items) => Arr(TrimItems(items, AtLeastZero(listLimit), listLimit, stringLimit))
    case Str(s) => Str(Clip(s, stringLimit))
    case _ => v
  }

  /** The first `n` elements, each trimmed. */
  function TrimItems(items: seq<Json>, n: nat, listLimit: int, stringLimit: int): seq<Json>
    decreases items
  {
    if items == [] || n == 0 then []
    else [Trim(items[0], listLimit, stringLimit)] + TrimItems(items[1..], n - 1, listLimit, stringLimit)
  }

  function TrimFields(fields: seq<Field>, listLimit: int, stringLimit: int): seq<Field>
    decreases fields
  {
    if fields == [] then []
    else [Field(fields[0].key, Trim(fields[0].value, listLimit, stringLimit))]
         + TrimFields(fields[1..], listLimit, stringLimit)
  }

  lemma {:induction false} TextBytesPrefix(s: string, n: nat)
    requires n <= |s|
    ensures TextBytes(s[..n]) <= TextBytes(s)
  {
    if n > 0 {
      TextBytesPrefix(s[1..], n - 1);
      assert s[..n][1..] == s[1..][..n - 1];
    }
  }

  /** Trimming never enlarges the encoding. */
  lemma {:induction false} TrimShrinks(v: Json, l: int, s: int)
    ensures Size(Trim(v, l, s)) <= Size(v)
    decreases v
  {
    match v
    case Obj(fields) => TrimFieldsShrinks(fields, l, s);
    case Arr(items) => TrimItemsShrinks(items, AtLeastZero(l), l, s);
    case Str(text) => if |text| > s { TextBytesPrefix(text, AtLeastZero(s)); }
    case _ =>
  }

  lemma {:induction false} TrimItemsShrinks(items: seq<Json>, n: nat, l: int, s: int)
    ensures |TrimItems(items, n, l, s)| <= |items|
    ensures ItemsSize(TrimItems(items, n, l, s)) <= ItemsSize(items)
    decreases items
  {
    if items != [] && n > 0 {
      TrimShrinks(items[0], l, s);
      TrimItemsShrinks(items[1..], n - 1, l, s);
      assert TrimItems(items, n, l, s)[1..] == TrimItems(items[1..], n - 1, l, s);
    }
  }

  lemma {:induction false} TrimFieldsShrinks(fields: seq<Field>, l: int, s: int)
    ensures |TrimFields(fields, l, s)| == |fields|
    ensures FieldsSize(TrimFields(fields, l, s)) <= FieldsSize(fields)
    decreases fields
  {
    if fields != [] {
      TrimShrinks(fields[0].value, l, s);
      TrimFieldsShrinks(fields[1..], l, s);
      assert TrimFields(fields, l, s)[1..] == TrimFields(fields[1..], l, s);
    }
  }

  /** Trimming with tighter limits absorbs trimming with looser ones. */
  lemma {:induction false} TrimAbsorbs(v: Json, l: int, s: int, l': int, s': int)
    requires l' <= l && s' <= s
    ensures Trim(Trim(v, l, s), l', s') == Trim(v, l', s')
    decreases v
  {
    match v
    case Obj(fields) => TrimFieldsAbsorbs(fields, l, s, l', s');
    case Arr(items) => TrimItemsAbsorbs(items, AtLeastZero(l), AtLeastZero(l'), l, s, l', s');
    case Str(text) => assert Clip(Clip(text, s), s') == Clip(text, s');
    case _ =>
  }

  lemma {:induction false} TrimItemsAbsorbs(items: seq<Json>, n: nat, n': nat, l: int, s: int, l': int, s': int)
    requires l' <= l && s' <= s && n' <= n
    ensures TrimItems(TrimItems(items, n, l, s), n', l', s') == TrimItems(items, n', l', s')
    decreases items
  {
    if items != [] && n' > 0 {
      TrimAbsorbs(items[0], l, s, l', s');
      TrimItemsAbsorbs(items[1..], n - 1, n' - 1, l, s, l', s');
      assert TrimItems(items, n, l, s)[1..] == TrimItems(items[1..], n - 1, l, s);
    }
  }

  lemma {:induction false} TrimFieldsAbsorbs(fields: seq<Field>, l: int, s: int, l': int, s': int)
    requires l' <= l && s' <= s
    ensures TrimFields(TrimFields(fields, l, s), l', s') == TrimFields(fields, l', s')
    decreases fields
  {
    if fields != [] {
      TrimAbsorbs(fields[0].value, l, s, l', s');
      TrimFieldsAbsorbs(fields[1..], l, s, l', s');
      assert TrimFields(fields, l, s)[1..] == TrimFields(fields[1..], l, s);
    }
  }

  lemma TighterIsSmaller(v: Json, l: int, s: int, l': int, s': int)
    requires l' <= l && s' <= s
    ensures Size(Trim(v, l', s')) <= Size(Trim(v, l, s))
  {
    TrimAbsorbs(v, l, s, l', s');
    TrimShrinks(Trim(v, l, s), l', s');
  }

  lemma {:induction false} TrimItemsAt(items: seq<Json>, n: nat, l: int, s: int, i: nat)
    requires i < |items| && i < n
    ensures |TrimItems(items, n, l, s)| == (if n < |items| then n else |items|)
    ensures TrimItems(items, n, l, s)[i] == Trim(items[i], l, s)
  {
    if |items| > 1 && n > 1 { TrimItemsAt(items[1..], n - 1, l, s, if i > 0 then i - 1 else 0); }
  }

  lemma {:induction false} TrimFieldsAt(fields: seq<Field>, l: int, s: int, i: nat)
    requires i < |fields|
    ensures |TrimFields(fields, l, s)| == |fields|
    ensures TrimFields(fields, l, s)[i] == Field(fields[i].key, Trim(fields[i].value, l, s))
  {
    if |fields| > 1 { TrimFieldsAt(fields[1..], l, s, if i > 0 then i - 1 else 0); }
  }

  /** A text over its limit becomes its prefix of exactly that length; a list keeps its first elements, each
      trimmed; an object keeps all its keys; anything else is untouched. */
  lemma TrimExactly(v: Json, l: int, s: int)
    ensures v.Str? ==>
      var t := Trim(v, l, s);
      t.Str? && t.s <= v.s && |t.s| == (if |v.s| <= s then |v.s| else if s < 0 then 0 else s)
    ensures v.Arr? ==>
      var t := Trim(v, l, s);
      && t.Arr? && |t.items| == (if |v.items| <= l then |v.items| else if l < 0 then 0 else l)
      && forall i :: 0 <= i < |t.items| ==> t.items[i] == Trim(v.items[i], l, s)
    ensures v.Obj? ==>
      var t := Trim(v, l, s);
      && t.Obj? && |t.fields| == |v.fields|
      && forall i :: 0 <= i < |t.fields| ==> t.fields[i] == Field(v.fields[i].key, Trim(v.fields[i].value, l, s))
    ensures !v.Str? && !v.Arr? && !v.Obj? ==> Trim(v, l, s) == v
  {
    if v.Arr? {
      TrimItemsExactly(v.items, AtLeastZero(l), l, s);
    } else if v.Obj? {
      TrimFieldsShrinks(v.fields, l, s);
      forall i | 0 <= i < |v.fields|
        ensures TrimFields(v.fields, l, s)[i] == Field(v.fields[i].key, Trim(v.fields[i].value, l, s))
      {
        TrimFieldsAt(v.fields, l, s, i);
      }
    }
  }

  lemma TrimItemsExactly(items: seq<Json>, n: nat, l: int, s: int)
    ensures var t := TrimItems(items, n, l, s);
            && |t| == (if |items| <= n then |items| else n)
            && forall i :: 0 <= i < |t| ==> t[i] == Trim(items[i], l, s)
  {
    TrimItemsCount(items, n, l, s);
    TrimItemsShrinks(items, n, l, s);
    if items != [] && n > 0 { TrimItemsAt(items, n, l, s, 0); }
    forall i | 0 <= i < |TrimItems(items, n, l, s)| ensures TrimItems(items, n, l, s)[i] == Trim(items[i], l, s) {
      TrimItemsAt(items, n, l, s, i);
    }
  }

  /** What can be encoded stays so, hence no rung is ever skipped for an encoding error. */
  lemma {:induction false} TrimKeepsSerializable(v: Json, l: int, s: int)
    requires Serializable(v)
    ensures Serializable(Trim(v, l, s))
    decreases v
  {
    match v
    case Obj(fields) =>
      var t := TrimFields(fields, l, s);
      forall i | 0 <= i < |t| ensures Serializable(t[i].value) {
        TrimFieldsShrinks(fields, l, s);
        TrimFieldsAt(fields, l, s, i);
        TrimKeepsSerializable(fields[i].value, l, s);
      }
    case Arr(items) =>
      var n := AtLeastZero(l);
      var t := TrimItems(items, n, l, s);
      forall i | 0 <= i < |t| ensures Serializable(t[i]) {
        TrimItemsShrinks(items, n, l, s);
        TrimItemsCount(items, n, l, s);
        TrimItemsAt(items, n, l, s, i);
        TrimKeepsSerializable(items[i], l, s);
      }
    case _ =>
  }

  lemma {:induction false} TrimItemsCount(items: seq<Json>, n: nat, l: int, s: int)
    ensures |TrimItems(items, n, l, s)| <= n
  {
    if items != [] && n > 0 { TrimItemsCount(items[1..], n - 1, l, s); }
  }

  // ----- the ladder and the receipt -----

  const MAX_RESULT_BYTES: nat := 262_144

  datatype Rung = Rung(list: int, text: int)

  const LADDER: seq<Rung> := [
    Rung(128, 8192), Rung(64, 4096), Rung(32, 2048), Rung(16, 1024), Rung(8, 512), Rung(4, 256), Rung(0, 128)]

  function ReceiptObject(details: seq<Field>): Json {
    Obj([Field("mutation_result", Obj(details)), Field("ok", Bool(true))])
  }

  function Unserializable(): Json {
    ReceiptObject([Field("reason", Str("result_was_not_json_serializable")), Field("stored", Str("receipt_only"))])
  }

  /** The digest is the 64 hexadecimal characters of the encoding's SHA-256. */
  function Receipt(originalBytes: nat, digest: string): Json {
    ReceiptObject([Field("original_bytes", Int(originalBytes)),
                   Field("reason", Str("result_exceeded_storage_limit")),
                   Field("sha256", Str(digest)), Field("stored", Str("receipt_only"))])
  }

  predicate IsDigest(s: string) { |s| == 64 && forall i :: 0 <= i < 64 ==> s[i] in "0123456789abcdef" }

  function Candidate(v: Json): Json { if v.Obj? then v else Obj([Field("result", v)]) }

  function Limit(maxBytes: int): nat { if maxBytes < 1 then 1 else maxBytes }

  /** `r` is what the journal stores for `v`, said without following the search: the value itself if
      it fits; else, where shape is kept, the least trimmed rung that fits; else a receipt. */
  ghost predicate Stores(v: Json, preserveShape: bool, maxBytes: int, digest: string, r: Json) {
    var c := Candidate(v);
    var limit := Limit(maxBytes);
    if !Serializable(c) then r == Unserializable()
    else if Size(c) <= limit then r == c
    else StoresOversized(c, preserveShape, limit, digest, r)
  }

  ghost predicate StoresOversized(c: Json, preserveShape: bool, limit: nat, digest: string, r: Json) {
    if preserveShape && (exists i :: FitsAt(c, limit, i)) then
      exists i :: FitsAt(c, limit, i) && r == Trim(c, LADDER[i].list, LADDER[i].text)
        && forall j :: 0 <= j < i ==> !FitsAt(c, limit, j)
    else r == Receipt(Size(c), digest)
  }

  predicate FitsAt(c: Json, limit: nat, i: int) {
    0 <= i < |LADDER| && Size(Trim(c, LADDER[i].list, LADDER[i].text)) <= limit
  }

  /** Seven rungs: from 128 elements and 8192 characters, halving both down to 4 and 256, then no elements and
      128 characters. */
  lemma LadderExactly()
    ensures |LADDER| == 7 && LADDER[0] == Rung(128, 8192) && LADDER[6] == Rung(0, 128)
    ensures forall i :: 0 <= i < 5 ==> 2 * LADDER[i + 1].list == LADDER[i].list
    ensures forall i :: 0 <= i < 6 ==> 2 * LADDER[i + 1].text == LADDER[i].text
  {
  }

  /** Each rung of the ladder encodes no larger than the one before. */
  lemma LadderDescends(v: Json, i: nat, j: nat)
    requires i <= j < |LADDER|
    ensures Size(Trim(v, LADDER[j].list, LADDER[j].text)) <= Size(Trim(v, LADDER[i].list, LADDER[i].text)) <= Size(v)
  {
    TighterIsSmaller(v, LADDER[i].list, LADDER[i].text, LADDER[j].list, LADDER[j].text);
    TrimShrinks(v, LADDER[i].list, LADDER[i].text);
  }

  /** The loop over the rungs: the first that fits, or none. */
  method FirstFit(c: Json, limit: nat) returns (i: nat)
    requires Serializable(c)
    ensures i <= |LADDER| && (i < |LADDER| ==> FitsAt(c, limit, i))
    ensures forall j :: 0 <= j < i ==> !FitsAt(c, limit, j)
  {
    i := 0;
    while i < |LADDER|
      invariant 0 <= i <= |LADDER|
      invariant forall j :: 0 <= j < i ==> !FitsAt(c, limit, j)
    {
      var trimmed := Trim(c, LADDER[i].list, LADDER[i].text);
      TrimKeepsSerializable(c, LADDER[i].list, LADDER[i].text);
      if Serializable(trimmed) && Size(trimmed) <= limit { return; }
      i := i + 1;
    }
  }

  method BoundedMutationResult(v: Json, preserveShape: bool, maxBytes: int, digest: string) returns (r: Json)
    ensures Stores(v, preserveShape, maxBytes, digest, r)
  {
    var c := Candidate(v);
    if !Serializable(c) { return Unserializable(); }
    var limit := Limit(maxBytes);
    if Size(c) <= limit { return c; }
    r := Receipt(Size(c), digest);
    if preserveShape {
      var i := FirstFit(c, limit);
      if i < |LADDER| { r := Trim(c, LADDER[i].list, LADDER[i].text); }
    }
  }

  // ----- what the journal can rely on -----

  predicate PlainChar(c: char) { ' ' <= c < '\U{80}' && c != '"' && c != '\\' }

  predicate Plain(s: string) { forall i :: 0 <= i < |s| ==> PlainChar(s[i]) }

  lemma {:induction false} PlainBytes(s: string)
    requires Plain(s)
    ensures TextBytes(s) == |s|
  {
    if s != [] { PlainBytes(s[1..]); }
  }

  function FieldCost(f: Field): nat { 3 + TextBytes(f.key) + Size(f.value) }

  lemma OneField(f: Field, rest: seq<Field>)
    ensures FieldsSize([f] + rest) == FieldCost(f) + Comma(|rest| + 1) + FieldsSize(rest)
  {
    assert ([f] + rest)[1..] == rest;
  }

  lemma TwoFields(a: Field, b: Field)
    ensures FieldsSize([a, b]) == FieldCost(a) + 1 + FieldCost(b)
  {
    OneField(b, []);
    assert [b] + [] == [b];
    OneField(a, [b]);
    assert [a] + [b] == [a, b];
  }

  lemma FourFields(a: Field, b: Field, c: Field, d: Field)
    ensures FieldsSize([a, b, c, d]) == FieldCost(a) + FieldCost(b) + FieldCost(c) + FieldCost(d) + 3
  {
    TwoFields(c, d);
    OneField(b, [c, d]);
    assert [b] + [c, d] == [b, c, d];
    OneField(a, [b, c, d]);
    assert [a] + [b, c, d] == [a, b, c, d];
  }

  lemma PlainField(k: string, s: string)
    requires Plain(k) && Plain(s)
    ensures FieldCost(Field(k, Str(s))) == 5 + |k| + |s|
  {
    PlainBytes(k);
    PlainBytes(s);
  }

  lemma PlainKey(k: string, v: Json)
    requires Plain(k)
    ensures FieldCost(Field(k, v)) == 3 + |k| + Size(v)
  {
    PlainBytes(k);
  }

  lemma Wrapped(k: string, k': string, details: seq<Field>)
    requires Plain(k) && Plain(k')
    ensures Size(Obj([Field(k, Obj(details)), Field(k', Bool(true))])) == 15 + |k| + |k'| + FieldsSize(details)
  {
    PlainKey(k, Obj(details));
    PlainKey(k', Bool(true));
    TwoFields(Field(k, Obj(details)), Field(k', Bool(true)));
  }

  lemma ReceiptObjectSize(details: seq<Field>)
    ensures Size(ReceiptObject(details)) == 32 + FieldsSize(details)
  {
    Wrapped("mutation_result", "ok", details);
  }

  const RECEIPT_BYTES: nat := 190

  lemma DigestIsPlain(digest: string)
    requires IsDigest(digest)
    ensures Plain(digest)
  {
    forall i | 0 <= i < |digest| ensures PlainChar(digest[i]) {
      assert digest[i] in "0123456789abcdef";
    }
  }

  lemma FourDetails(k: string, n: nat, k1: string, s1: string, k2: string, s2: string, k3: string, s3: string)
    requires Plain(k) && Plain(k1) && Plain(k2) && Plain(k3) && Plain(s1) && Plain(s2) && Plain(s3)
    ensures FieldsSize([Field(k, Int(n)), Field(k1, Str(s1)), Field(k2, Str(s2)), Field(k3, Str(s3))])
         == 21 + |k| + |Digits(n)| + |k1| + |s1| + |k2| + |s2| + |k3| + |s3|
  {
    PlainKey(k, Int(n));
    PlainField(k1, s1);
    PlainField(k2, s2);
    PlainField(k3, s3);
    FourFields(Field(k, Int(n)), Field(k1, Str(s1)), Field(k2, Str(s2)), Field(k3, Str(s3)));
  }

  lemma ReceiptSize(n: nat, digest: string)
    requires IsDigest(digest)
    ensures Size(Receipt(n, digest)) == RECEIPT_BYTES + |Digits(n)|
  {
    DigestIsPlain(digest);
    FourDetails("original_bytes", n, "reason", "result_exceeded_storage_limit", "sha256", digest,
                "stored", "receipt_only");
    ReceiptObjectSize([Field("original_bytes", Int(n)), Field("reason", Str("result_exceeded_storage_limit")),
                       Field("sha256", Str(digest)), Field("stored", Str("receipt_only"))]);
  }

  lemma TwoDetails(k1: string, s1: string, k2: string, s2: string)
    requires Plain(k1) && Plain(k2) && Plain(s1) && Plain(s2)
    ensures FieldsSize([Field(k1, Str(s1)), Field(k2, Str(s2))]) == 11 + |k1| + |s1| + |k2| + |s2|
  {
    PlainField(k1, s1);
    PlainField(k2, s2);
    TwoFields(Field(k1, Str(s1)), Field(k2, Str(s2)));
  }

  lemma UnserializableSize()
    ensures Size(Unserializable()) == 99
  {
    TwoDetails("reason", "result_was_not_json_serializable", "stored", "receipt_only");
    ReceiptObjectSize([Field("reason", Str("result_was_not_json_serializable")), Field("stored", Str("receipt_only"))]);
  }

  lemma ReceiptSerializable(k: string, details: seq<Field>)
    requires forall i :: 0 <= i < |details| ==> Serializable(details[i].value)
    ensures Serializable(Obj([Field(k, Obj(details)), Field("ok", Bool(true))]))
  {
    assert Serializable(Obj(details));
  }

  /** Whatever is stored can be encoded and is an object. */
  lemma StoredIsObject(v: Json, preserve: bool, maxBytes: int, digest: string, r: Json)
    requires Stores(v, preserve, maxBytes, digest, r)
    ensures r.Obj? && Serializable(r)
  {
    var c, limit := Candidate(v), Limit(maxBytes);
    if !Serializable(c) {
      UnserializableIsObject();
    } else if Size(c) > limit {
      if preserve && (exists i :: FitsAt(c, limit, i)) {
        var i :| FitsAt(c, limit, i) && r == Trim(c, LADDER[i].list, LADDER[i].text);
        TrimKeepsSerializable(c, LADDER[i].list, LADDER[i].text);
      } else {
        ReceiptIsObject(Size(c), digest);
      }
    }
  }

  lemma UnserializableIsObject()
    ensures Unserializable().Obj? && Serializable(Unserializable())
  {
    ReceiptSerializable("mutation_result", Unserializable().fields[0].value.fields);
  }

  lemma ReceiptIsObject(n: nat, digest: string)
    ensures Receipt(n, digest).Obj? && Serializable(Receipt(n, digest))
  {
    ReceiptSerializable("mutation_result", Receipt(n, digest).fields[0].value.fields);
  }

  /** Because the ladder descends, a shaped result degrades to a receipt only when the last rung,
      empty lists and strings of 128 characters, is still too large. */
  lemma ReceiptOnlyAtTheEnd(v: Json, maxBytes: int, digest: string, r: Json)
    requires Stores(v, true, maxBytes, digest, r)
    requires Serializable(Candidate(v)) && Size(Candidate(v)) > Limit(maxBytes)
    ensures Size(Trim(Candidate(v), 0, 128)) > Limit(maxBytes) ==> r == Receipt(Size(Candidate(v)), digest)
    ensures Size(Trim(Candidate(v), 0, 128)) <= Limit(maxBytes) ==>
      Size(r) <= Limit(maxBytes) && r.Obj? && |r.fields| == |Candidate(v).fields|
      && forall i :: 0 <= i < |r.fields| ==> r.fields[i].key == Candidate(v).fields[i].key
  {
    var c := Candidate(v);
    var limit := Limit(maxBytes);
    var last := |LADDER| - 1;
    forall i | 0 <= i < |LADDER| && Size(Trim(c, 0, 128)) > limit ensures !FitsAt(c, limit, i) {
      LadderDescends(c, i, last);
    }
    if Size(Trim(c, 0, 128)) <= limit {
      assert FitsAt(c, limit, last);
      var i :| FitsAt(c, limit, i) && r == Trim(c, LADDER[i].list, LADDER[i].text);
      TrimFieldsShrinks(c.fields, LADDER[i].list, LADDER[i].text);
      forall k | 0 <= k < |c.fields| ensures r.fields[k].key == c.fields[k].key {
        TrimFieldsAt(c.fields, LADDER[i].list, LADDER[i].text, k);
      }
    }
  }

  const UNSERIALIZABLE_BYTES: nat := 99

  /** Whether what is stored for `v` will fit, told from the call's arguments alone. */
  predicate WillFit(v: Json, preserveShape: bool, maxBytes: int) {
    var c, limit := Candidate(v), Limit(maxBytes);
    if !Serializable(c) then UNSERIALIZABLE_BYTES <= limit
    else
      || Size(c) <= limit
      || (preserveShape && Size(Trim(c, 0, 128)) <= limit)
      || RECEIPT_BYTES + |Digits(Size(c))| <= limit
  }

  lemma UnserializableWithin(v: Json, preserve: bool, maxBytes: int, digest: string, r: Json)
    requires Stores(v, preserve, maxBytes, digest, r) && !Serializable(Candidate(v))
    ensures Size(r) <= Limit(maxBytes) <==> WillFit(v, preserve, maxBytes)
  {
    UnserializableSize();
  }

  lemma SmallWithin(v: Json, preserve: bool, maxBytes: int, digest: string, r: Json)
    requires Stores(v, preserve, maxBytes, digest, r)
    requires Serializable(Candidate(v)) && Size(Candidate(v)) <= Limit(maxBytes)
    ensures Size(r) <= Limit(maxBytes) && WillFit(v, preserve, maxBytes)
  {
  }

  lemma StoredAsReceipt(v: Json, preserve: bool, maxBytes: int, digest: string, r: Json)
    requires Stores(v, preserve, maxBytes, digest, r)
    requires Serializable(Candidate(v)) && Size(Candidate(v)) > Limit(maxBytes)
    requires preserve ==> Size(Trim(Candidate(v), 0, 128)) > Limit(maxBytes)
    ensures r == Receipt(Size(Candidate(v)), digest)
  {
    if preserve { ReceiptOnlyAtTheEnd(v, maxBytes, digest, r); }
  }

  lemma OversizedWithin(v: Json, preserve: bool, maxBytes: int, digest: string, r: Json)
    requires Stores(v, preserve, maxBytes, digest, r) && IsDigest(digest)
    requires Serializable(Candidate(v)) && Size(Candidate(v)) > Limit(maxBytes)
    ensures Size(r) <= Limit(maxBytes) <==> WillFit(v, preserve, maxBytes)
  {
    if preserve && Size(Trim(Candidate(v), 0, 128)) <= Limit(maxBytes) {
      ReceiptOnlyAtTheEnd(v, maxBytes, digest, r);
    } else {
      StoredAsReceipt(v, preserve, maxBytes, digest, r);
      ReceiptSize(Size(Candidate(v)), digest);
    }
  }

  /** Under every limit, however small, the stored result is within it if and only if the arguments say
      so: a value that can be encoded fits as it is, or in its smallest shape, or as a receipt of 190
      bytes and the digits of its size; any other as a receipt of 99 bytes. */
  lemma StoredWithinLimit(v: Json, preserve: bool, maxBytes: int, digest: string, r: Json)
    requires Stores(v, preserve, maxBytes, digest, r) && IsDigest(digest)
    ensures Size(r) <= Limit(maxBytes) <==> WillFit(v, preserve, maxBytes)
  {
    if !Serializable(Candidate(v)) {
      UnserializableWithin(v, preserve, maxBytes, digest, r);
    } else if Size(Candidate(v)) <= Limit(maxBytes) {
      SmallWithin(v, preserve, maxBytes, digest, r);
    } else {
      OversizedWithin(v, preserve, maxBytes, digest, r);
    }
  }

  lemma NullObject(k: string)
    requires Plain(k)
    ensures Size(Obj([Field(k, Null)])) == 9 + |k| && Serializable(Obj([Field(k, Null)]))
  {
    PlainKey(k, Null);
    OneField(Field(k, Null), []);
    assert [Field(k, Null)] + [] == [Field(k, Null)];
  }

  lemma StoresReceipt(v: Json, maxBytes: int, digest: string)
    requires v.Obj? && Serializable(v) && Size(v) > Limit(maxBytes)
    ensures Stores(v, false, maxBytes, digest, Receipt(Size(v), digest))
  {
  }

  /** A ten-byte result under a limit of one byte is stored as 192 bytes. */
  lemma ReceiptCanExceed(digest: string)
    requires IsDigest(digest)
    ensures Stores(Obj([Field("a", Null)]), false, 1, digest, Receipt(10, digest))
    ensures Size(Receipt(10, digest)) == 192
  {
    NullObject("a");
    StoresReceipt(Obj([Field("a", Null)]), 1, digest);
    ReceiptSize(10, digest);
    TenHasTwoDigits();
  }

  lemma TenHasTwoDigits()
    ensures |Digits(10)| == 2
  {
    assert Digits(1) == [DigitChar(1)];
  }

  function Power10(k: nat): nat { if k == 0 then 1 else 10 * Power10(k - 1) }

  /** Decimal digits measure powers of ten. */
  lemma {:induction false} DigitsOfPower(n: nat, k: nat)
    requires k >= 1
    ensures |Digits(n)| <= k <==> n < Power10(k)
    decreases k
  {
    if k > 1 {
      if n >= 10 { DigitsOfPower(n / 10, k - 1); } else { PowerGrows(k); }
    }
  }

  /** A value that is not an object is stored under the key result, and a receipt names the size and digest of
      what it replaces. */
  lemma StoredForms(v: Json, n: nat, digest: string)
    ensures (forall m :: m >= 1 ==> Limit(m) == m) && (forall m :: m < 1 ==> Limit(m) == 1)
    ensures v.Obj? ==> Candidate(v) == v
    ensures !v.Obj? ==> Candidate(v) == Obj([Field("result", v)])
    ensures Receipt(n, digest) == Obj([
      Field("mutation_result", Obj([
        Field("original_bytes", Int(n)), Field("reason", Str("result_exceeded_storage_limit")),
        Field("sha256", Str(digest)), Field("stored", Str("receipt_only"))])),
      Field("ok", Bool(true))])
    ensures Unserializable() == Obj([
      Field("mutation_result", Obj([
        Field("reason", Str("result_was_not_json_serializable")), Field("stored", Str("receipt_only"))])),
      Field("ok", Bool(true))])
  {
  }

  lemma {:induction false} PowerGrows(k: nat)
    requires k >= 1
    ensures Power10(k) >= 10
  {
    if k > 1 { PowerGrows(k - 1); }
  }

  lemma {:induction false} DigitsAreFew(n: nat)
    ensures |Digits(n)| <= 1 + n / 10
  {
    if n >= 10 { DigitsAreFew(n / 10); }
  }

  /** Under the default limit a result fits exactly when it cannot be encoded, or is smaller than ten to
      the power 261954 bytes, as every value a machine can hold is, or its smallest shape fits where shape
      is kept. */
  lemma DefaultLimitHolds(v: Json, preserve: bool, digest: string, r: Json)
    requires Stores(v, preserve, MAX_RESULT_BYTES, digest, r) && IsDigest(digest)
    ensures Size(r) <= MAX_RESULT_BYTES <==>
      || !Serializable(Candidate(v)) || Size(Candidate(v)) < Power10(MAX_RESULT_BYTES - RECEIPT_BYTES)
      || (preserve && Size(Trim(Candidate(v), 0, 128)) <= MAX_RESULT_BYTES)
  {
    StoredWithinLimit(v, preserve, MAX_RESULT_BYTES, digest, r);
    DigitsOfPower(Size(Candidate(v)), MAX_RESULT_BYTES - RECEIPT_BYTES);
    if Size(Candidate(v)) <= MAX_RESULT_BYTES { DigitsAreFew(Size(Candidate(v))); }
  }

  /** A stored result that fits is stored again as itself, whichever way the second call treats shapes. */
  lemma StoringIsFixed(v: Json, preserve: bool, maxBytes: int, digest: string, r: Json,
                       preserve': bool, digest': string, r': Json)
    requires Stores(v, preserve, maxBytes, digest, r) && Size(r) <= Limit(maxBytes)
    requires Stores(r, preserve', maxBytes, digest', r')
    ensures r' == r
  {
    StoredIsObject(v, preserve, maxBytes, digest, r);
  }

  /** What does not fit is a receipt, and storing it again counts its own bytes instead. */
  lemma OversizedReceipt(v: Json, preserve: bool, digest: string, r: Json)
    requires Stores(v, preserve, MAX_RESULT_BYTES, digest, r) && IsDigest(digest) && Size(r) > MAX_RESULT_BYTES
    ensures r == Receipt(Size(Candidate(v)), digest) && Size(r) < Size(Candidate(v))
  {
    var c := Candidate(v);
    StoredWithinLimit(v, preserve, MAX_RESULT_BYTES, digest, r);
    StoredAsReceipt(v, preserve, MAX_RESULT_BYTES, digest, r);
    ReceiptSize(Size(c), digest);
    DigitsAreFew(Size(c));
  }

  /** Under the default limit bounding twice is bounding once exactly when the first result fits. */
  lemma BoundingTwice(v: Json, preserve: bool, digest: string, r: Json, preserve': bool, digest': string, r': Json)
    requires Stores(v, preserve, MAX_RESULT_BYTES, digest, r) && IsDigest(digest)
    requires Stores(r, preserve', MAX_RESULT_BYTES, digest', r')
    ensures r' == r <==> WillFit(v, preserve, MAX_RESULT_BYTES)
  {
    StoredWithinLimit(v, preserve, MAX_RESULT_BYTES, digest, r);
    if Size(r) <= MAX_RESULT_BYTES {
      StoringIsFixed(v, preserve, MAX_RESULT_BYTES, digest, r, preserve', digest', r');
    } else {
      OversizedReceipt(v, preserve, digest, r);
      StoredIsObject(v, preserve, MAX_RESULT_BYTES, digest, r);
      SecondDiffers(r, Size(Candidate(v)), digest, preserve', digest', r');
    }
  }

  lemma SecondDiffers(r: Json, n: nat, digest: string, preserve: bool, digest': string, r': Json)
    requires r == Receipt(n, digest) && n != Size(r) > MAX_RESULT_BYTES && Serializable(r)
    requires Stores(r, preserve, MAX_RESULT_BYTES, digest', r')
    ensures r' != r
  {
    if preserve && (exists i :: FitsAt(r, MAX_RESULT_BYTES, i)) {
      var i :| FitsAt(r, MAX_RESULT_BYTES, i) && r' == Trim(r, LADDER[i].list, LADDER[i].text);
    } else {
      ReceiptsDiffer(n, digest, Size(r), digest');
    }
  }

  lemma ReceiptsDiffer(n: nat, digest: string, n': nat, digest': string)
    requires n != n'
    ensures Receipt(n, digest) != Receipt(n', digest')
  {
    assert Receipt(n, digest).fields[0].value.fields[0].value == Int(n);
    assert Receipt(n', digest').fields[0].value.fields[0].value == Int(n');
  }
}
