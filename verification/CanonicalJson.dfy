/** canonicalJson: the text a manifest's signature covers. Its keys are sorted, so it does not show the
    order of properties, and it shows everything else. */
module CanonicalJson {
  import opened JsText
  import opened JsonText

  // ----- the printer -----

  /** Insertion by key; an object's keys are distinct. */
  function InsertEntry(e: Entry, es: seq<Entry>): seq<Entry> {
    if es == [] || Less(e.key, es[0].key) then [e] + es else [es[0]] + InsertEntry(e, es[1..])
  }

  function SortEntries(es: seq<Entry>): seq<Entry> {
    if es == [] then [] else InsertEntry(es[0], SortEntries(es[1..]))
  }

  function Canonical(v: Json): Str {
    match v
    case Arr(items) => [OPEN_BRACKET] + Join(CanonicalItems(items)) + [CLOSE_BRACKET]
    case Obj(f) => [OPEN_BRACE] + Join(Texts(SortEntries(CanonicalEntries(f)))) + [CLOSE_BRACE]
    case _ => Raw(v)
  }

  function CanonicalItems(items: Items): seq<Str> {
    match items
    case Nil => []
    case Cons(v, rest) => [Canonical(v)] + CanonicalItems(rest)
  }

  function CanonicalEntries(f: Fields): seq<Entry> {
    match f
    case Empty => []
    case Field(k, v, rest) => [Entry(k, Canonical(v))] + CanonicalEntries(rest)
  }

  // ----- equality of JSON values, whatever the order of properties -----

  predicate Same(a: Json, b: Json) {
    match a
    case Arr(items) => b.Arr? && SameItems(items, b.items)
    case Obj(f) => b.Obj? && Keys(f) == Keys(b.fields) && SameFields(f, b.fields)
    case _ => a == b
  }

  predicate SameItems(xs: Items, ys: Items) {
    match xs
    case Nil => ys.Nil?
    case Cons(v, rest) => ys.Cons? && Same(v, ys.head) && SameItems(rest, ys.tail)
  }

  /** Every property of the first object has an equal value in the second. */
  predicate SameFields(f: Fields, g: Fields) {
    match f
    case Empty => true
    case Field(k, v, rest) => k in Keys(g) && Same(v, Get(g, k)) && SameFields(rest, g)
  }

  // ----- the value with its properties sorted -----

  function InsertField(k: Str, v: Json, f: Fields): Fields {
    if f.Empty? || Less(k, f.key) then Field(k, v, f) else Field(f.key, f.value, InsertField(k, v, f.rest))
  }

  function SortFields(f: Fields): Fields {
    match f
    case Empty => Empty
    case Field(k, v, rest) => InsertField(k, v, SortFields(rest))
  }

  function Sorted(v: Json): Json {
    match v
    case Arr(items) => Arr(SortedItems(items))
    case Obj(f) => Obj(SortFields(SortedValues(f)))
    case _ => v
  }

  function SortedItems(items: Items): Items {
    match items
    case Nil => Nil
    case Cons(v, rest) => Cons(Sorted(v), SortedItems(rest))
  }

  function SortedValues(f: Fields): Fields {
    match f
    case Empty => Empty
    case Field(k, v, rest) => Field(k, Sorted(v), SortedValues(rest))
  }

  // ----- printing sorted is printing the sorted value -----

  lemma {:induction false} InsertPrints(k: Str, v: Json, f: Fields)
    ensures RawEntries(InsertField(k, v, f)) == InsertEntry(Entry(k, Raw(v)), RawEntries(f))
  {
    if f.Field? {
      var es := RawEntries(f);
      assert es[0] == Entry(f.key, Raw(f.value)) && es[1..] == RawEntries(f.rest);
      if !Less(k, f.key) { InsertPrints(k, v, f.rest); }
    }
  }

  lemma {:induction false} SortPrints(f: Fields)
    ensures RawEntries(SortFields(f)) == SortEntries(RawEntries(f))
  {
    if f.Field? {
      var es := RawEntries(f);
      assert es[0] == Entry(f.key, Raw(f.value)) && es[1..] == RawEntries(f.rest);
      SortPrints(f.rest);
      InsertPrints(f.key, f.value, SortFields(f.rest));
    }
  }

  lemma {:induction false} CanonicalIsRawOfSorted(v: Json)
    ensures Canonical(v) == Raw(Sorted(v))
  {
    match v
    case Arr(items) => ItemsPrintSorted(items);
    case Obj(f) =>
      EntriesPrintSorted(f);
      SortPrints(SortedValues(f));
    case _ =>
  }

  lemma {:induction false} ItemsPrintSorted(items: Items)
    ensures CanonicalItems(items) == RawItems(SortedItems(items))
  {
    if items.Cons? {
      CanonicalIsRawOfSorted(items.head);
      ItemsPrintSorted(items.tail);
    }
  }

  lemma {:induction false} EntriesPrintSorted(f: Fields)
    ensures CanonicalEntries(f) == RawEntries(SortedValues(f))
  {
    if f.Field? {
      CanonicalIsRawOfSorted(f.value);
      EntriesPrintSorted(f.rest);
    }
  }

  // ----- sorting loses nothing -----

  lemma {:induction false} InsertKeys(k: Str, v: Json, f: Fields)
    ensures Keys(InsertField(k, v, f)) == Keys(f) + {k}
    ensures WellFormedFields(f) && WellFormed(v) && k !in Keys(f) ==> WellFormedFields(InsertField(k, v, f))
  {
    if f.Field? && !Less(k, f.key) { InsertKeys(k, v, f.rest); }
  }

  lemma {:induction false} SortKeys(f: Fields)
    ensures Keys(SortFields(f)) == Keys(f)
    ensures WellFormedFields(f) ==> WellFormedFields(SortFields(f))
  {
    if f.Field? {
      SortKeys(f.rest);
      InsertKeys(f.key, f.value, SortFields(f.rest));
    }
  }

  lemma {:induction false} SortedWellFormed(v: Json)
    requires WellFormed(v)
    ensures WellFormed(Sorted(v))
  {
    match v
    case Arr(items) => SortedItemsWellFormed(items);
    case Obj(f) =>
      SortedValuesWellFormed(f);
      SortKeys(SortedValues(f));
    case _ =>
  }

  lemma {:induction false} SortedItemsWellFormed(items: Items)
    requires WellFormedItems(items)
    ensures WellFormedItems(SortedItems(items))
  {
    if items.Cons? {
      SortedWellFormed(items.head);
      SortedItemsWellFormed(items.tail);
    }
  }

  lemma {:induction false} SortedValuesWellFormed(f: Fields)
    requires WellFormedFields(f)
    ensures WellFormedFields(SortedValues(f)) && Keys(SortedValues(f)) == Keys(f)
  {
    if f.Field? {
      SortedWellFormed(f.value);
      SortedValuesWellFormed(f.rest);
    }
  }

  /** The canonical text of a value reads back as that value with its properties sorted. */
  lemma ParseInvertsCanonical(v: Json)
    requires WellFormed(v)
    ensures Parse(Canonical(v)) == Some(Sorted(v))
  {
    CanonicalIsRawOfSorted(v);
    SortedWellFormed(v);
    ParseInvertsRaw(Sorted(v));
  }

  // ----- equal values are those that sort alike -----

  /** Every key comes before those after it. */
  ghost predicate Ascends(f: Fields) {
    f.Field? ==> (forall k :: k in Keys(f.rest) ==> Less(f.key, k)) && Ascends(f.rest)
  }

  lemma {:induction false} InsertAscends(k: Str, v: Json, f: Fields)
    requires Ascends(f) && k !in Keys(f)
    ensures Ascends(InsertField(k, v, f))
  {
    if f.Field? {
      LessTrichotomy(k, f.key);
      if Less(k, f.key) {
        forall j | j in Keys(f) ensures Less(k, j) {
          if j != f.key { LessTransitive(k, f.key, j); }
        }
      } else {
        InsertAscends(k, v, f.rest);
        InsertKeys(k, v, f.rest);
      }
    }
  }

  lemma {:induction false} SortAscends(f: Fields)
    requires WellFormedFields(f)
    ensures Ascends(SortFields(f))
  {
    if f.Field? {
      SortAscends(f.rest);
      SortKeys(f.rest);
      InsertAscends(f.key, f.value, SortFields(f.rest));
    }
  }

  lemma {:induction false} GetInserted(k: Str, v: Json, f: Fields, j: Str)
    requires k !in Keys(f) && j in Keys(f) + {k}
    ensures j in Keys(InsertField(k, v, f)) && Get(InsertField(k, v, f), j) == if j == k then v else Get(f, j)
  {
    InsertKeys(k, v, f);
    if f.Field? && !Less(k, f.key) {
      if j != f.key { GetInserted(k, v, f.rest, j); }
    }
  }

  lemma {:induction false} GetSorted(f: Fields, j: Str)
    requires WellFormedFields(f) && j in Keys(f)
    ensures j in Keys(SortFields(f)) && Get(SortFields(f), j) == Get(f, j)
  {
    SortKeys(f);
    SortKeys(f.rest);
    GetInserted(f.key, f.value, SortFields(f.rest), j);
    if j != f.key { GetSorted(f.rest, j); }
  }

  lemma {:induction false} GetSortedValues(f: Fields, j: Str)
    requires j in Keys(f)
    ensures j in Keys(SortedValues(f)) && Get(SortedValues(f), j) == Sorted(Get(f, j))
  {
    if j != f.key { GetSortedValues(f.rest, j); }
  }

  /** Sorted properties are determined by their keys and values. */
  lemma {:induction false} AscendingFieldsUnique(f: Fields, g: Fields)
    requires Ascends(f) && Ascends(g) && Keys(f) == Keys(g)
    requires forall k :: k in Keys(f) ==> Get(f, k) == Get(g, k)
    ensures f == g
  {
    if f.Field? {
      assert g.Field? by { assert f.key in Keys(g); }
      FirstKeyIsLeast(f, g.key);
      FirstKeyIsLeast(g, f.key);
      LessTrichotomy(f.key, g.key);
      LessTrichotomy(f.key, f.key);
      forall k ensures k in Keys(f.rest) <==> k in Keys(g.rest) {
        RestKeys(f, k);
        RestKeys(g, k);
      }
      forall k | k in Keys(f.rest) ensures Get(f.rest, k) == Get(g.rest, k) {
        RestKeys(f, k);
        assert Get(f, k) == Get(g, k);
      }
      AscendingFieldsUnique(f.rest, g.rest);
    }
  }

  lemma FirstKeyIsLeast(f: Fields, k: Str)
    requires Ascends(f) && k in Keys(f)
    ensures k == f.key || Less(f.key, k)
  {
  }

  lemma RestKeys(f: Fields, k: Str)
    requires Ascends(f) && f.Field?
    ensures k in Keys(f.rest) <==> k in Keys(f) && k != f.key
  {
    LessTrichotomy(f.key, f.key);
  }

  lemma {:induction false} SameFieldsGet(f: Fields, g: Fields, k: Str)
    requires SameFields(f, g) && k in Keys(f)
    ensures k in Keys(g) && Same(Get(f, k), Get(g, k))
  {
    if k != f.key { SameFieldsGet(f.rest, g, k); }
  }

  /** Equal values sort to one value. */
  lemma {:induction false} SameSortAlike(a: Json, b: Json)
    requires WellFormed(a) && WellFormed(b) && Same(a, b)
    ensures Sorted(a) == Sorted(b)
    decreases a, 0
  {
    match a
    case Arr(items) => SameItemsSortAlike(items, b.items);
    case Obj(f) =>
      var g := b.fields;
      SortedValuesWellFormed(f);
      SortedValuesWellFormed(g);
      SortKeys(SortedValues(f));
      SortKeys(SortedValues(g));
      SortAscends(SortedValues(f));
      SortAscends(SortedValues(g));
      forall k | k in Keys(f) ensures Get(SortFields(SortedValues(f)), k) == Get(SortFields(SortedValues(g)), k) {
        SameFieldsSortAlike(f, g, k);
        GetSortedValues(f, k);
        GetSortedValues(g, k);
        GetSorted(SortedValues(f), k);
        GetSorted(SortedValues(g), k);
      }
      AscendingFieldsUnique(SortFields(SortedValues(f)), SortFields(SortedValues(g)));
    case _ =>
  }

  lemma {:induction false} SameItemsSortAlike(xs: Items, ys: Items)
    requires WellFormedItems(xs) && WellFormedItems(ys) && SameItems(xs, ys)
    ensures SortedItems(xs) == SortedItems(ys)
    decreases xs, 1
  {
    if xs.Cons? {
      SameSortAlike(xs.head, ys.head);
      SameItemsSortAlike(xs.tail, ys.tail);
    }
  }

  lemma {:induction false} SameFieldsSortAlike(f: Fields, g: Fields, k: Str)
    requires WellFormedFields(f) && WellFormedFields(g) && SameFields(f, g) && k in Keys(f) && k in Keys(g)
    ensures Sorted(Get(f, k)) == Sorted(Get(g, k))
    decreases f, 1
  {
    if k == f.key {
      GetWellFormed(g, k);
      SameSortAlike(f.value, Get(g, k));
    } else {
      SameFieldsSortAlike(f.rest, g, k);
    }
  }

  lemma {:induction false} GetWellFormed(f: Fields, k: Str)
    requires WellFormedFields(f) && k in Keys(f)
    ensures WellFormed(Get(f, k))
  {
    if k != f.key { GetWellFormed(f.rest, k); }
  }

  /** And values that sort to one value are equal. */
  lemma {:induction false} SortAlikeSame(a: Json, b: Json)
    requires WellFormed(a) && WellFormed(b) && Sorted(a) == Sorted(b)
    ensures Same(a, b)
    decreases a, 0
  {
    match a
    case Arr(items) => SortAlikeSameItems(items, b.items);
    case Obj(f) =>
      var g := b.fields;
      SortedValuesWellFormed(f);
      SortedValuesWellFormed(g);
      SortKeys(SortedValues(f));
      SortKeys(SortedValues(g));
      SortAlikeSameFields(f, f, g);
    case _ =>
  }

  lemma {:induction false} SortAlikeSameItems(xs: Items, ys: Items)
    requires WellFormedItems(xs) && WellFormedItems(ys) && SortedItems(xs) == SortedItems(ys)
    ensures SameItems(xs, ys)
    decreases xs, 1
  {
    if xs.Cons? {
      SortAlikeSame(xs.head, ys.head);
      SortAlikeSameItems(xs.tail, ys.tail);
    }
  }

  /** `f` is the rest, from some property on, of the object `whole`. */
  ghost predicate PartOf(f: Fields, whole: Fields) {
    forall k :: k in Keys(f) ==> k in Keys(whole) && Get(whole, k) == Get(f, k)
  }

  lemma {:induction false} SortAlikeSameFields(f: Fields, whole: Fields, g: Fields)
    requires WellFormedFields(f) && WellFormedFields(whole) && WellFormedFields(g)
    requires PartOf(f, whole) && Keys(whole) == Keys(g)
    requires SortFields(SortedValues(whole)) == SortFields(SortedValues(g))
    ensures SameFields(f, g)
    decreases f, 1
  {
    if f.Field? {
      var k := f.key;
      assert k in Keys(f) && Get(f, k) == f.value;
      SortedValuesWellFormed(whole);
      SortedValuesWellFormed(g);
      GetSortedValues(whole, k);
      GetSortedValues(g, k);
      GetSorted(SortedValues(whole), k);
      GetSorted(SortedValues(g), k);
      GetWellFormed(g, k);
      SortAlikeSame(f.value, Get(g, k));
      assert PartOf(f.rest, whole) by {
        forall j | j in Keys(f.rest) ensures j in Keys(whole) && Get(whole, j) == Get(f.rest, j) {
          assert j in Keys(f) && Get(f, j) == Get(f.rest, j);
        }
      }
      SortAlikeSameFields(f.rest, whole, g);
    }
  }

  /** Two values have one canonical text exactly when they are equal as JSON, whatever the order of
      their properties. */
  lemma CanonicalIff(a: Json, b: Json)
    requires WellFormed(a) && WellFormed(b)
    ensures Canonical(a) == Canonical(b) <==> Same(a, b)
  {
    ParseInvertsCanonical(a);
    ParseInvertsCanonical(b);
    if Same(a, b) {
      SameSortAlike(a, b);
      CanonicalIsRawOfSorted(a);
      CanonicalIsRawOfSorted(b);
    } else if Sorted(a) == Sorted(b) {
      SortAlikeSame(a, b);
    }
  }

  // ----- the characters of the texts -----

  /** null, true and false; a string between quotes. */
  lemma WordsAre(s: Str)
    ensures Raw(Null) == Ascii("null") && Raw(Bool(true)) == Ascii("true") && Raw(Bool(false)) == Ascii("false")
    ensures Raw(Text(s)) == [34] + Escape(s) + [34]
  {
  }

  /** Backspace, TAB, LF, FF, CR, quote and backslash have short escapes; other control characters and lone
      surrogates are written in lower-case hexadecimal; everything else stands for itself. */
  lemma EscapesAre(u: Unit)
    ensures EscapeUnit(8) == [92, 98] && EscapeUnit(9) == [92, 116] && EscapeUnit(10) == [92, 110]
    ensures EscapeUnit(12) == [92, 102] && EscapeUnit(13) == [92, 114]
    ensures EscapeUnit(34) == [92, 34] && EscapeUnit(92) == [92, 92]
    ensures u in {0, 1, 2, 3, 4, 5, 6, 7, 11} ==> EscapeUnit(u) == [92, 117, 48, 48, 48, if u < 10 then 48 + u else 98]
    ensures (32 <= u < 0xD800 && u != 34 && u != 92) || 0xDFFF < u ==> EscapeUnit(u) == [u]
    ensures EscapeUnit(0x1F) == [92, 117, 48, 48, 49, 102] && EscapeUnit(0xD8AB) == [92, 117, 100, 56, 97, 98]
  {
  }

  lemma TwoTexts(e: Entry, f: Entry)
    ensures Texts([e] + [f]) == [Quote(e.key) + [COLON] + e.text] + [Quote(f.key) + [COLON] + f.text]
  {
    assert Texts([]) == [];
    assert [f][1..] == [] && Texts([f]) == [Quote(f.key) + [COLON] + f.text];
    assert ([e] + [f])[1..] == [f];
  }

  lemma TwoItems(a: Json, b: Json)
    ensures RawItems(Cons(a, Cons(b, Nil))) == [Raw(a)] + [Raw(b)]
  {
    assert RawItems(Nil) == [];
    assert RawItems(Cons(b, Nil)) == [Raw(b)];
  }

  lemma TwoRawEntries(a: Json, b: Json, k: Str, l: Str)
    ensures RawEntries(Field(k, a, Field(l, b, Empty))) == [Entry(k, Raw(a))] + [Entry(l, Raw(b))]
  {
    assert RawEntries(Empty) == [];
    assert RawEntries(Field(l, b, Empty)) == [Entry(l, Raw(b))];
  }

  /** Lists and objects of two: brackets, commas and colons without white space. */
  lemma PairsAre(a: Json, b: Json, k: Str, l: Str)
    ensures Raw(Arr(Cons(a, Cons(b, Nil)))) == [91] + (Raw(a) + [44] + Raw(b)) + [93]
    ensures Raw(Obj(Field(k, a, Field(l, b, Empty)))) ==
      [123] + (Raw(Text(k)) + [58] + Raw(a) + [44] + (Raw(Text(l)) + [58] + Raw(b))) + [125]
  {
    TwoItems(a, b);
    JoinTwo(Raw(a), Raw(b));
    TwoRawEntries(a, b, k, l);
    TwoTexts(Entry(k, Raw(a)), Entry(l, Raw(b)));
    JoinTwo(Quote(k) + [COLON] + Raw(a), Quote(l) + [COLON] + Raw(b));
  }

  lemma JoinTwo(x: Str, y: Str)
    ensures Join([x] + [y]) == x + [44] + y
  {
    JoinCons(x, [y]);
  }

  lemma TwoSorted(e: Entry, f: Entry)
    requires Less(e.key, f.key)
    ensures SortEntries([e] + [f]) == [e] + [f] && SortEntries([f] + [e]) == [e] + [f]
  {
    LessTrichotomy(e.key, f.key);
    OneSorted(e);
    OneSorted(f);
    assert ([e] + [f])[1..] == [f] && ([f] + [e])[1..] == [e];
    assert InsertEntry(f, []) == [f];
    assert [e][1..] == [] && InsertEntry(f, [e]) == [e] + InsertEntry(f, []);
  }

  lemma OneSorted(e: Entry)
    ensures SortEntries([e]) == [e]
  {
    assert [e][1..] == [] && SortEntries([]) == [];
  }

  lemma TwoEntries(a: Json, b: Json, k: Str, l: Str)
    ensures CanonicalEntries(Field(k, a, Field(l, b, Empty))) == [Entry(k, Canonical(a))] + [Entry(l, Canonical(b))]
  {
    assert CanonicalEntries(Empty) == [];
    assert CanonicalEntries(Field(l, b, Empty)) == [Entry(l, Canonical(b))];
  }

  /** The canonical text of two properties has the smaller name first, whichever comes first. */
  lemma CanonicalPair(a: Json, b: Json, k: Str, l: Str)
    requires Less(k, l)
    ensures var first, second := Raw(Text(k)) + [58] + Canonical(a), Raw(Text(l)) + [58] + Canonical(b);
      var text := [123] + (first + [44] + second) + [125];
      Canonical(Obj(Field(k, a, Field(l, b, Empty)))) == text && Canonical(Obj(Field(l, b, Field(k, a, Empty)))) == text
  {
    var e, f := Entry(k, Canonical(a)), Entry(l, Canonical(b));
    TwoEntries(a, b, k, l);
    TwoEntries(b, a, l, k);
    TwoSorted(e, f);
    TwoTexts(e, f);
    JoinTwo(Quote(k) + [COLON] + Canonical(a), Quote(l) + [COLON] + Canonical(b));
  }

  /** The canonical text of a list keeps its order. */
  lemma CanonicalList(a: Json, b: Json)
    ensures Canonical(Arr(Cons(a, Cons(b, Nil)))) == [91] + (Canonical(a) + [44] + Canonical(b)) + [93]
  {
    assert CanonicalItems(Nil) == [] && CanonicalItems(Cons(b, Nil)) == [Canonical(b)];
    assert CanonicalItems(Cons(a, Cons(b, Nil))) == [Canonical(a)] + [Canonical(b)];
    JoinTwo(Canonical(a), Canonical(b));
  }
}
