/** JSON values and their text: JSON.stringify without white space, and a reader of such text. */
module JsonText {
  import opened JsText

  /** A number is known by the text JSON.stringify gives it; -0 prints as 0. */
  datatype Json =
    | Null
    | Bool(b: bool)
    | Num(text: Str)
    | Text(s: Str)
    | Arr(items: Items)
    | Obj(fields: Fields)

  datatype Items = Nil | Cons(head: Json, tail: Items)

  /** The properties of an object in their own order. */
  datatype Fields = Empty | Field(key: Str, value: Json, rest: Fields)

  const QUOTE: Unit := 34
  const BACKSLASH: Unit := 92
  const COLON: Unit := 58
  const OPEN_BRACKET: Unit := 91
  const CLOSE_BRACKET: Unit := 93
  const OPEN_BRACE: Unit := 123
  const CLOSE_BRACE: Unit := 125
  const NULL: Str := [110, 117, 108, 108]
  const TRUE: Str := [116, 114, 117, 101]
  const FALSE: Str := [102, 97, 108, 115, 101]

  /** Digits, signs, point and exponent. */
  predicate NumUnit(u: Unit) {
    48 <= u <= 57 || u == 43 || u == 45 || u == 46 || u == 69 || u == 101
  }

  ghost predicate NumText(t: Str) {
    t != [] && forall i :: 0 <= i < |t| ==> NumUnit(t[i])
  }

  function Keys(f: Fields): set<Str> {
    match f
    case Empty => {}
    case Field(k, _, rest) => {k} + Keys(rest)
  }

  function Get(f: Fields, k: Str): Json
    requires k in Keys(f)
  {
    if f.key == k then f.value else Get(f.rest, k)
  }

  /** Numbers have number texts and no object has a key twice. */
  ghost predicate WellFormed(v: Json) {
    match v
    case Num(t) => NumText(t)
    case Arr(items) => WellFormedItems(items)
    case Obj(f) => WellFormedFields(f)
    case _ => true
  }

  ghost predicate WellFormedItems(items: Items) {
    items.Cons? ==> WellFormed(items.head) && WellFormedItems(items.tail)
  }

  ghost predicate WellFormedFields(f: Fields) {
    f.Field? ==> f.key !in Keys(f.rest) && WellFormed(f.value) && WellFormedFields(f.rest)
  }

  // ----- strings -----

  predicate High(u: Unit) {
    0xD800 <= u <= 0xDBFF
  }

  predicate Low(u: Unit) {
    0xDC00 <= u <= 0xDFFF
  }

  /** Lower-case hexadecimal. */
  function HexDigit(d: int): Unit
    requires 0 <= d < 16
  {
    if d < 10 then 48 + d else 87 + d
  }

  function Hex4(u: Unit): Str {
    [HexDigit(u / 4096), HexDigit(u / 256 % 16), HexDigit(u / 16 % 16), HexDigit(u % 16)]
  }

  /** The escape JSON.stringify uses for a unit, if it uses one. */
  function ShortEscape(u: Unit): Option<Unit> {
    if u == 8 then Some(98) else if u == 9 then Some(116) else if u == 10 then Some(110)
    else if u == 12 then Some(102) else if u == 13 then Some(114)
    else if u == QUOTE then Some(QUOTE) else if u == BACKSLASH then Some(BACKSLASH) else None
  }

  function EscapeUnit(u: Unit): Str {
    if ShortEscape(u).Some? then [BACKSLASH, ShortEscape(u).value]
    else if u < 32 || High(u) || Low(u) then [BACKSLASH, 117] + Hex4(u)
    else [u]
  }

  predicate StartsWithPair(t: Str) {
    |t| > 1 && High(t[0]) && Low(t[1])
  }

  /** A surrogate pair stands for itself; a surrogate without its partner is escaped. */
  function Escape(s: Str): Str {
    if s == [] then []
    else if StartsWithPair(s) then [s[0], s[1]] + Escape(s[2..])
    else EscapeUnit(s[0]) + Escape(s[1..])
  }

  function Quote(s: Str): Str {
    [QUOTE] + Escape(s) + [QUOTE]
  }

  // ----- printing -----

  /** A property whose value is printed. */
  datatype Entry = Entry(key: Str, text: Str)

  function Texts(es: seq<Entry>): seq<Str> {
    if es == [] then [] else [Quote(es[0].key) + [COLON] + es[0].text] + Texts(es[1..])
  }

  /** JSON.stringify. */
  function Raw(v: Json): Str {
    match v
    case Null => NULL
    case Bool(b) => if b then TRUE else FALSE
    case Num(t) => t
    case Text(s) => Quote(s)
    case Arr(items) => [OPEN_BRACKET] + Join(RawItems(items)) + [CLOSE_BRACKET]
    case Obj(f) => [OPEN_BRACE] + Join(Texts(RawEntries(f))) + [CLOSE_BRACE]
  }

  function RawItems(items: Items): seq<Str> {
    match items
    case Nil => []
    case Cons(v, rest) => [Raw(v)] + RawItems(rest)
  }

  function RawEntries(f: Fields): seq<Entry> {
    match f
    case Empty => []
    case Field(k, v, rest) => [Entry(k, Raw(v))] + RawEntries(rest)
  }

  lemma JoinCons(x: Str, xs: seq<Str>)
    ensures Join([x] + xs) == if xs == [] then x else x + [COMMA] + Join(xs)
  {
    assert ([x] + xs)[1..] == xs;
  }

  // ----- reading -----

  datatype Read<+T> = Bad | Got(value: T, rest: Str)

  predicate Starts(s: Str, prefix: Str) {
    |s| >= |prefix| && s[..|prefix|] == prefix
  }

  function HexValue(u: Unit): (d: Option<int>)
    ensures d.Some? ==> 0 <= d.value < 16
  {
    if 48 <= u <= 57 then Some(u - 48) else if 97 <= u <= 102 then Some(u - 87)
    else if 65 <= u <= 70 then Some(u - 55) else None
  }

  function FromDigits(a: int, b: int, c: int, d: int): Unit
    requires 0 <= a < 16 && 0 <= b < 16 && 0 <= c < 16 && 0 <= d < 16
  {
    a * 4096 + b * 256 + c * 16 + d
  }

  function ReadHex(s: Str): (r: Read<Unit>)
    ensures r.Got? ==> |r.rest| < |s|
  {
    if |s| < 4 then Bad else
      var a, b, c, d := HexValue(s[0]), HexValue(s[1]), HexValue(s[2]), HexValue(s[3]);
      if a.None? || b.None? || c.None? || d.None? then Bad
      else Got(FromDigits(a.value, b.value, c.value, d.value), s[4..])
  }

  /** The unit a short escape stands for; `/` may be escaped too. */
  function Unescaped(u: Unit): Option<Unit> {
    if u == 98 then Some(8) else if u == 116 then Some(9) else if u == 110 then Some(10)
    else if u == 102 then Some(12) else if u == 114 then Some(13)
    else if u == QUOTE || u == BACKSLASH || u == 47 then Some(u) else None
  }

  /** One unit of a string, escaped or not. */
  function ReadUnit(s: Str): (r: Read<Unit>)
    requires s != []
    ensures r.Got? ==> |r.rest| < |s|
  {
    if s[0] == QUOTE || s[0] < 32 then Bad
    else if s[0] != BACKSLASH then Got(s[0], s[1..])
    else if |s| == 1 then Bad
    else if s[1] == 117 then ReadHex(s[2..])
    else if Unescaped(s[1]).Some? then Got(Unescaped(s[1]).value, s[2..])
    else Bad
  }

  /** The rest of a string after its opening quote. */
  function ReadChars(s: Str): (r: Read<Str>)
    ensures r.Got? ==> |r.rest| < |s|
    decreases |s|
  {
    if s == [] then Bad
    else if s[0] == QUOTE then Got([], s[1..])
    else match ReadUnit(s)
      case Bad => Bad
      case Got(u, rest) =>
        match ReadChars(rest)
        case Bad => Bad
        case Got(us, rest') => Got([u] + us, rest')
  }

  function NumLength(s: Str): (n: nat)
    ensures n <= |s|
  {
    if s != [] && NumUnit(s[0]) then 1 + NumLength(s[1..]) else 0
  }

  function ReadValue(s: Str): (r: Read<Json>)
    ensures r.Got? ==> |r.rest| < |s|
    decreases |s|, 0
  {
    if s == [] then Bad
    else if Starts(s, NULL) then Got(Null, s[4..])
    else if Starts(s, TRUE) then Got(Bool(true), s[4..])
    else if Starts(s, FALSE) then Got(Bool(false), s[5..])
    else if s[0] == QUOTE then
      match ReadChars(s[1..])
      case Bad => Bad
      case Got(t, rest) => Got(Text(t), rest)
    else if s[0] == OPEN_BRACKET then
      if |s| > 1 && s[1] == CLOSE_BRACKET then Got(Arr(Nil), s[2..])
      else match ReadItems(s[1..])
        case Bad => Bad
        case Got(items, rest) => Got(Arr(items), rest)
    else if s[0] == OPEN_BRACE then ReadBraces(s[1..])
    else if NumUnit(s[0]) then Got(Num(s[..NumLength(s)]), s[NumLength(s)..])
    else Bad
  }

  /** The rest of an object after its opening brace. */
  function ReadBraces(s: Str): (r: Read<Json>)
    ensures r.Got? ==> |r.rest| < |s|
    decreases |s|, 2
  {
    if s != [] && s[0] == CLOSE_BRACE then Got(Obj(Empty), s[1..])
    else match ReadFields(s)
      case Bad => Bad
      case Got(f, rest) => Got(Obj(f), rest)
  }

  /** At least one item, up to the closing bracket. */
  function ReadItems(s: Str): (r: Read<Items>)
    ensures r.Got? ==> |r.rest| < |s|
    decreases |s|, 1
  {
    match ReadValue(s)
    case Bad => Bad
    case Got(v, rest) =>
      if rest == [] then Bad
      else if rest[0] == CLOSE_BRACKET then Got(Cons(v, Nil), rest[1..])
      else if rest[0] != COMMA then Bad
      else match ReadItems(rest[1..])
        case Bad => Bad
        case Got(items, rest') => Got(Cons(v, items), rest')
  }

  /** A key and its colon. */
  function ReadKey(s: Str): (r: Read<Str>)
    ensures r.Got? ==> |r.rest| < |s|
  {
    if s == [] || s[0] != QUOTE then Bad
    else match ReadChars(s[1..])
      case Bad => Bad
      case Got(k, rest) => if rest == [] || rest[0] != COLON then Bad else Got(k, rest[1..])
  }

  function ReadFields(s: Str): (r: Read<Fields>)
    ensures r.Got? ==> |r.rest| < |s|
    decreases |s|, 1
  {
    match ReadKey(s)
    case Bad => Bad
    case Got(k, afterKey) =>
      match ReadValue(afterKey)
      case Bad => Bad
      case Got(v, rest) =>
        if rest == [] then Bad
        else if rest[0] == CLOSE_BRACE then Got(Field(k, v, Empty), rest[1..])
        else if rest[0] != COMMA then Bad
        else match ReadFields(rest[1..])
          case Bad => Bad
          case Got(f, rest') => Got(Field(k, v, f), rest')
  }

  // ----- reading inverts printing -----

  lemma HexDigitRead(d: int)
    requires 0 <= d < 16
    ensures HexValue(HexDigit(d)) == Some(d)
  {
  }

  lemma DigitsAgain(u: Unit)
    ensures FromDigits(u / 4096, u / 256 % 16, u / 16 % 16, u % 16) == u
  {
    assert u / 16 == u / 16 / 16 * 16 + u / 16 % 16;
    assert u / 16 / 16 == u / 256 && u / 256 / 16 == u / 4096;
  }

  lemma HexRead(u: Unit, rest: Str)
    ensures ReadHex(Hex4(u) + rest) == Got(u, rest)
  {
    var h, s := Hex4(u), Hex4(u) + rest;
    assert s[0] == h[0] && s[1] == h[1] && s[2] == h[2] && s[3] == h[3] && s[4..] == rest;
    HexDigitRead(u / 4096);
    HexDigitRead(u / 256 % 16);
    HexDigitRead(u / 16 % 16);
    HexDigitRead(u % 16);
    DigitsAgain(u);
  }

  lemma UnitRead(u: Unit, rest: Str)
    ensures ReadUnit(EscapeUnit(u) + rest) == Got(u, rest)
  {
    var s := EscapeUnit(u) + rest;
    if ShortEscape(u).Some? {
      assert s[2..] == rest;
    } else if u < 32 || High(u) || Low(u) {
      assert s[2..] == Hex4(u) + rest;
      HexRead(u, rest);
    } else {
      assert s[1..] == rest;
    }
  }

  /** Reading goes on after the text of one unit. */
  lemma NextUnit(u: Unit, text: Str, after: Str, us: Str, rest: Str)
    requires text != [] && text[0] != QUOTE && ReadUnit(text + after) == Got(u, after)
    requires ReadChars(after) == Got(us, rest)
    ensures ReadChars(text + after) == Got([u] + us, rest)
  {
    assert (text + after)[0] == text[0];
  }

  lemma PlainUnit(u: Unit, after: Str, us: Str, rest: Str)
    requires u >= 32 && u != QUOTE && u != BACKSLASH && ReadChars(after) == Got(us, rest)
    ensures ReadChars([u] + after) == Got([u] + us, rest)
  {
    assert ([u] + after)[1..] == after;
    NextUnit(u, [u], after, us, rest);
  }

  lemma Prepend(a: Unit, b: Unit, s: Str)
    ensures [a] + ([b] + s) == [a, b] + s
  {
  }

  lemma PairRead(a: Unit, b: Unit, after: Str, us: Str, rest: Str)
    requires High(a) && Low(b) && ReadChars(after) == Got(us, rest)
    ensures ReadChars([a, b] + after) == Got([a, b] + us, rest)
  {
    PlainUnit(b, after, us, rest);
    PlainUnit(a, [b] + after, [b] + us, rest);
    Prepend(a, b, after);
    Prepend(a, b, us);
  }

  lemma Regroup(a: Str, b: Str, c: Str)
    ensures (a + b) + c == a + (b + c)
  {
  }

  lemma FrontOf(t: Str, n: nat)
    requires n <= |t|
    ensures t == t[..n] + t[n..]
  {
  }

  lemma EscapeUnfolds(t: Str)
    requires t != []
    ensures Escape(t) == if StartsWithPair(t) then t[..2] + Escape(t[2..]) else EscapeUnit(t[0]) + Escape(t[1..])
  {
    if StartsWithPair(t) { assert t[..2] == [t[0], t[1]]; }
  }

  lemma EscapeSplits(t: Str, tail: Str)
    requires t != []
    ensures Escape(t) + tail ==
      if StartsWithPair(t) then t[..2] + (Escape(t[2..]) + tail) else EscapeUnit(t[0]) + (Escape(t[1..]) + tail)
  {
    EscapeUnfolds(t);
    if StartsWithPair(t) {
      Regroup(t[..2], Escape(t[2..]), tail);
    } else {
      Regroup(EscapeUnit(t[0]), Escape(t[1..]), tail);
    }
  }

  lemma EmptyCharsRead(rest: Str)
    ensures ReadChars(Escape([]) + ([QUOTE] + rest)) == Got([], rest)
  {
    assert Escape([]) + ([QUOTE] + rest) == [QUOTE] + rest;
    assert ([QUOTE] + rest)[1..] == rest;
  }

  lemma UnitThenChars(u: Unit, after: Str, us: Str, rest: Str)
    requires ReadChars(after) == Got(us, rest)
    ensures ReadChars(EscapeUnit(u) + after) == Got([u] + us, rest)
  {
    UnitRead(u, after);
    NextUnit(u, EscapeUnit(u), after, us, rest);
  }

  lemma {:induction false} CharsRead(t: Str, rest: Str)
    ensures ReadChars(Escape(t) + ([QUOTE] + rest)) == Got(t, rest)
    decreases |t|
  {
    if t == [] {
      EmptyCharsRead(rest);
    } else {
      var tail := [QUOTE] + rest;
      EscapeSplits(t, tail);
      if StartsWithPair(t) {
        CharsRead(t[2..], rest);
        assert t[..2] == [t[0], t[1]];
        FrontOf(t, 2);
        PairRead(t[0], t[1], Escape(t[2..]) + tail, t[2..], rest);
      } else {
        CharsRead(t[1..], rest);
        assert t[..1] == [t[0]];
        FrontOf(t, 1);
        UnitThenChars(t[0], Escape(t[1..]) + tail, t[1..], rest);
      }
    }
  }

  /** What may come after a value. */
  predicate Ends(rest: Str) {
    rest == [] || rest[0] == COMMA || rest[0] == CLOSE_BRACKET || rest[0] == CLOSE_BRACE
  }

  lemma {:induction false} NumRead(t: Str, rest: Str)
    requires forall i :: 0 <= i < |t| ==> NumUnit(t[i])
    requires Ends(rest)
    ensures NumLength(t + rest) == |t|
  {
    if t != [] {
      assert (t + rest)[1..] == t[1..] + rest;
      NumRead(t[1..], rest);
    } else {
      assert t + rest == rest;
    }
  }

  lemma WordRead(v: Json, rest: Str)
    requires v.Null? || v.Bool?
    ensures ReadValue(Raw(v) + rest) == Got(v, rest)
  {
    var s := Raw(v) + rest;
    assert s[..|Raw(v)|] == Raw(v) && s[|Raw(v)|..] == rest && s[0] == Raw(v)[0];
  }

  /** A text that does not begin with one of the three words. */
  lemma NoWord(s: Str)
    requires s != [] && s[0] != 110 && s[0] != 116 && s[0] != 102
    ensures !Starts(s, NULL) && !Starts(s, TRUE) && !Starts(s, FALSE)
  {
    assert NULL[0] == 110 && TRUE[0] == 116 && FALSE[0] == 102;
    assert forall word: Str :: Starts(s, word) && word != [] ==> s[..|word|][0] == s[0];
  }

  lemma TextRead(t: Str, rest: Str)
    ensures ReadValue(Quote(t) + rest) == Got(Text(t), rest)
  {
    var s := Quote(t) + rest;
    assert s[0] == QUOTE && s[1..] == Escape(t) + ([QUOTE] + rest);
    NoWord(s);
    CharsRead(t, rest);
  }

  lemma NumberRead(t: Str, rest: Str)
    requires NumText(t) && Ends(rest)
    ensures ReadValue(t + rest) == Got(Num(t), rest)
  {
    var s := t + rest;
    assert s[0] == t[0] && NumUnit(s[0]);
    NoWord(s);
    NumRead(t, rest);
    assert s[..|t|] == t && s[|t|..] == rest;
  }

  lemma RawStart(v: Json)
    requires WellFormed(v)
    ensures Raw(v) != [] && Raw(v)[0] != CLOSE_BRACKET
  {
  }

  lemma LastItem(s: Str, v: Json, rest: Str)
    requires ReadValue(s) == Got(v, [CLOSE_BRACKET] + rest)
    ensures ReadItems(s) == Got(Cons(v, Nil), rest)
  {
    assert ([CLOSE_BRACKET] + rest)[1..] == rest;
  }

  lemma NextItem(s: Str, v: Json, after: Str, items: Items, rest: Str)
    requires ReadValue(s) == Got(v, [COMMA] + after) && ReadItems(after) == Got(items, rest)
    ensures ReadItems(s) == Got(Cons(v, items), rest)
  {
    assert ([COMMA] + after)[1..] == after;
  }

  /** The generic shape of a key's text: `x` is its escaped form. */
  lemma KeyShape(x: Str, after: Str)
    ensures var s := ([QUOTE] + x + [QUOTE]) + [COLON] + after;
      s != [] && s[0] == QUOTE && s[1..] == x + ([QUOTE] + ([COLON] + after))
  {
  }

  lemma KeyStep(s: Str, k: Str, after: Str)
    requires s != [] && s[0] == QUOTE && ReadChars(s[1..]) == Got(k, [COLON] + after)
    ensures ReadKey(s) == Got(k, after)
  {
    assert ([COLON] + after)[1..] == after;
  }

  lemma KeyRead(k: Str, after: Str)
    ensures ReadKey(Quote(k) + [COLON] + after) == Got(k, after)
  {
    CharsRead(k, [COLON] + after);
    KeyShape(Escape(k), after);
    KeyStep(Quote(k) + [COLON] + after, k, after);
  }

  lemma LastField(s: Str, k: Str, afterKey: Str, v: Json, rest: Str)
    requires ReadKey(s) == Got(k, afterKey) && ReadValue(afterKey) == Got(v, [CLOSE_BRACE] + rest)
    ensures ReadFields(s) == Got(Field(k, v, Empty), rest)
  {
    assert ([CLOSE_BRACE] + rest)[1..] == rest;
  }

  lemma NextField(s: Str, k: Str, afterKey: Str, v: Json, after: Str, f: Fields, rest: Str)
    requires ReadKey(s) == Got(k, afterKey) && ReadValue(afterKey) == Got(v, [COMMA] + after)
    requires ReadFields(after) == Got(f, rest)
    ensures ReadFields(s) == Got(Field(k, v, f), rest)
  {
    assert ([COMMA] + after)[1..] == after;
  }

  lemma EmptyBracketsRead(v: Json, rest: Str)
    requires v == Arr(Nil) || v == Obj(Empty)
    ensures ReadValue(Raw(v) + rest) == Got(v, rest)
  {
    var s := Raw(v) + rest;
    NoWord(s);
    assert s[2..] == rest && s[1..][1..] == rest;
  }

  lemma Wrapped(open: Unit, inner: Str, close: Unit, rest: Str)
    requires inner != []
    ensures var s := [open] + inner + [close] + rest;
      |s| > 1 && s[0] == open && s[1] == inner[0] && s[1..] == inner + ([close] + rest)
  {
    var s := [open] + inner + [close] + rest;
    assert s[1] == inner[0] && s[1..] == inner + ([close] + rest);
  }

  lemma BracketsRead(s: Str, items: Items, rest: Str)
    requires |s| > 1 && s[0] == OPEN_BRACKET && s[1] != CLOSE_BRACKET && ReadItems(s[1..]) == Got(items, rest)
    ensures ReadValue(s) == Got(Arr(items), rest)
  {
    NoWord(s);
  }

  lemma BracesRead(s: Str, f: Fields, rest: Str)
    requires s != [] && s[0] == QUOTE && ReadFields(s) == Got(f, rest)
    ensures ReadBraces(s) == Got(Obj(f), rest)
  {
  }

  lemma BraceRead(s: Str, v: Json, rest: Str)
    requires s != [] && s[0] == OPEN_BRACE && ReadBraces(s[1..]) == Got(v, rest)
    ensures ReadValue(s) == Got(v, rest)
  {
    NoWord(s);
  }

  lemma JoinedItems(items: Items)
    requires items.Cons? && WellFormedItems(items)
    ensures Join(RawItems(items)) ==
      if items.tail.Nil? then Raw(items.head) else Raw(items.head) + [COMMA] + Join(RawItems(items.tail))
    ensures Join(RawItems(items)) != [] && Join(RawItems(items))[0] != CLOSE_BRACKET
  {
    JoinCons(Raw(items.head), RawItems(items.tail));
    RawStart(items.head);
  }

  lemma JoinedFields(f: Fields)
    requires f.Field?
    ensures var text := Quote(f.key) + [COLON] + Raw(f.value);
      Join(Texts(RawEntries(f))) ==
        if f.rest.Empty? then text else text + [COMMA] + Join(Texts(RawEntries(f.rest)))
  {
    var es := RawEntries(f);
    assert es[1..] == RawEntries(f.rest);
    JoinCons(Quote(f.key) + [COLON] + Raw(f.value), Texts(RawEntries(f.rest)));
  }

  /** Reading a printed value gives the value back, whatever follows it. */
  lemma {:induction false} ValueRead(v: Json, rest: Str)
    requires WellFormed(v) && Ends(rest)
    ensures ReadValue(Raw(v) + rest) == Got(v, rest)
    decreases v, 0
  {
    match v {
      case Null => WordRead(v, rest);
      case Bool(_) => WordRead(v, rest);
      case Num(t) => NumberRead(t, rest);
      case Text(t) => TextRead(t, rest);
      case Arr(items) =>
        if items.Nil? {
          EmptyBracketsRead(v, rest);
        } else {
          ItemsRead(items, rest);
          JoinedItems(items);
          Wrapped(OPEN_BRACKET, Join(RawItems(items)), CLOSE_BRACKET, rest);
          BracketsRead(Raw(v) + rest, items, rest);
        }
      case Obj(f) =>
        if f.Empty? {
          EmptyBracketsRead(v, rest);
        } else {
          FieldsRead(f, rest);
          JoinedFields(f);
          Wrapped(OPEN_BRACE, Join(Texts(RawEntries(f))), CLOSE_BRACE, rest);
          BracesRead((Raw(v) + rest)[1..], f, rest);
          BraceRead(Raw(v) + rest, v, rest);
        }
    }
  }

  lemma {:induction false} ItemsRead(items: Items, rest: Str)
    requires items.Cons? && WellFormedItems(items)
    ensures ReadItems(Join(RawItems(items)) + ([CLOSE_BRACKET] + rest)) == Got(items, rest)
    decreases items, 1
  {
    var tail := [CLOSE_BRACKET] + rest;
    JoinedItems(items);
    if items.tail.Nil? {
      ValueRead(items.head, tail);
      LastItem(Raw(items.head) + tail, items.head, rest);
    } else {
      var after := Join(RawItems(items.tail)) + tail;
      ItemsRead(items.tail, rest);
      ValueRead(items.head, [COMMA] + after);
      NextItem(Raw(items.head) + ([COMMA] + after), items.head, after, items.tail, rest);
      CommaSplits(Raw(items.head), Join(RawItems(items.tail)), tail);
    }
  }

  lemma CommaSplits(a: Str, b: Str, tail: Str)
    ensures (a + [COMMA] + b) + tail == a + ([COMMA] + (b + tail))
  {
  }

  lemma ColonSplits(k: Str, a: Str, tail: Str)
    ensures (k + [COLON] + a) + tail == k + [COLON] + (a + tail)
  {
  }

  lemma {:induction false} FieldsRead(f: Fields, rest: Str)
    requires f.Field? && WellFormedFields(f)
    ensures ReadFields(Join(Texts(RawEntries(f))) + ([CLOSE_BRACE] + rest)) == Got(f, rest)
    decreases f, 1
  {
    var tail := [CLOSE_BRACE] + rest;
    var text := Quote(f.key) + [COLON] + Raw(f.value);
    JoinedFields(f);
    if f.rest.Empty? {
      ValueRead(f.value, tail);
      KeyRead(f.key, Raw(f.value) + tail);
      ColonSplits(Quote(f.key), Raw(f.value), tail);
      LastField(text + tail, f.key, Raw(f.value) + tail, f.value, rest);
    } else {
      var after := Join(Texts(RawEntries(f.rest))) + tail;
      FieldsRead(f.rest, rest);
      ValueRead(f.value, [COMMA] + after);
      KeyRead(f.key, Raw(f.value) + ([COMMA] + after));
      ColonSplits(Quote(f.key), Raw(f.value), [COMMA] + after);
      NextField(text + ([COMMA] + after), f.key, Raw(f.value) + ([COMMA] + after), f.value, after, f.rest, rest);
      CommaSplits(text, Join(Texts(RawEntries(f.rest))), tail);
    }
  }

  /** A whole text is one value. */
  function Parse(s: Str): Option<Json> {
    match ReadValue(s)
    case Bad => None
    case Got(v, rest) => if rest == [] then Some(v) else None
  }

  lemma ParseInvertsRaw(v: Json)
    requires WellFormed(v)
    ensures Parse(Raw(v)) == Some(v)
  {
    ValueRead(v, []);
    assert Raw(v) + [] == Raw(v);
  }
}
