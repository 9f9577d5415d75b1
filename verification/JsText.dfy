/** JavaScript strings as sequences of UTF-16 code units, with the few string operations the
    servers rely on: comparison, trimming, sorting with removal of duplicates, and joining. */
module JsText {

  type Unit = u: int | 0 <= u < 0x1_0000
  type Str = seq<Unit>
  type Bytes = seq<bv8>

  datatype Option<+T> = None | Some(value: T)

  /** Texts of the program. */
  predicate IsAscii(s: string) {
    forall i :: 0 <= i < |s| ==> s[i] < 128 as char
  }

  function Ascii(s: string): (r: Str)
    requires IsAscii(s)
    ensures |r| == |s| && forall i :: 0 <= i < |s| ==> r[i] == s[i] as int
  {
    seq(|s|, i requires 0 <= i < |s| => s[i] as int)
  }

  const PIPE: Unit := 124
  const COMMA: Unit := 44

  /** The default order of Array.prototype.sort: lexicographic on code units. */
  predicate Less(a: Str, b: Str) {
    b != [] && (a == [] || a[0] < b[0] || (a[0] == b[0] && Less(a[1..], b[1..])))
  }

  lemma {:induction false} LessTransitive(a: Str, b: Str, c: Str)
    requires Less(a, b) && Less(b, c)
    ensures Less(a, c)
  {
    if a != [] && a[0] == b[0] && b[0] == c[0] {
      LessTransitive(a[1..], b[1..], c[1..]);
    }
  }

  lemma {:induction false} LessTrichotomy(a: Str, b: Str)
    ensures Less(a, b) || a == b || Less(b, a)
    ensures !(Less(a, b) && Less(b, a))
    ensures Less(a, b) ==> a != b
  {
    if a != [] && b != [] && a[0] == b[0] {
      LessTrichotomy(a[1..], b[1..]);
      assert a == [a[0]] + a[1..] && b == [b[0]] + b[1..];
    }
  }

  /** Strictly increasing, hence free of duplicates. */
  ghost predicate Ascending(xs: seq<Str>) {
    forall i, j :: 0 <= i < j < |xs| ==> Less(xs[i], xs[j])
  }

  function Insert(x: Str, xs: seq<Str>): (r: seq<Str>)
    requires Ascending(xs)
    ensures Ascending(r)
    ensures forall y :: y in r <==> y == x || y in xs
  {
    if xs == [] then [x]
    else if x == xs[0] then xs
    else if Less(x, xs[0]) then
      assert Ascending([x] + xs) by {
        forall j | 0 <= j < |xs| ensures Less(x, xs[j]) {
          if j > 0 { LessTransitive(x, xs[0], xs[j]); }
        }
      }
      [x] + xs
    else
      var rest := Insert(x, xs[1..]);
      assert xs == [xs[0]] + xs[1..];
      assert Ascending([xs[0]] + rest) by {
        LessTrichotomy(x, xs[0]);
        forall j | 0 <= j < |rest| ensures Less(xs[0], rest[j]) {
          assert rest[j] in rest;
        }
      }
      [xs[0]] + rest
  }

  /** `[...new Set(xs)].sort()`. */
  function SortUnique(xs: seq<Str>): (r: seq<Str>)
    ensures Ascending(r)
    ensures forall y :: y in r <==> y in xs
  {
    if xs == [] then [] else
      assert xs == [xs[0]] + xs[1..];
      Insert(xs[0], SortUnique(xs[1..]))
  }

  /** A strictly increasing list is determined by its elements. */
  lemma {:induction false} AscendingUnique(a: seq<Str>, b: seq<Str>)
    requires Ascending(a) && Ascending(b)
    requires forall y :: y in a <==> y in b
    ensures a == b
  {
    if a == [] {
      assert forall j :: 0 <= j < |b| ==> b[j] in b;
    } else {
      assert a[0] in b;
      assert b[0] in a;
      HeadIsLeast(a, b[0]);
      HeadIsLeast(b, a[0]);
      LessTrichotomy(a[0], b[0]);
      forall y ensures y in a[1..] <==> y in b[1..] {
        TailDropsHead(a, y);
        TailDropsHead(b, y);
      }
      AscendingUnique(a[1..], b[1..]);
      assert a == [a[0]] + a[1..] && b == [b[0]] + b[1..];
    }
  }

  lemma HeadIsLeast(a: seq<Str>, y: Str)
    requires Ascending(a) && y in a
    ensures y == a[0] || Less(a[0], y)
  {
  }

  lemma TailDropsHead(a: seq<Str>, y: Str)
    requires Ascending(a) && a != []
    ensures y in a[1..] <==> y in a && y != a[0]
  {
    assert a == [a[0]] + a[1..];
    if y in a[1..] {
      var j :| 0 <= j < |a[1..]| && a[1..][j] == y;
      assert Less(a[0], a[j + 1]);
      LessTrichotomy(a[0], y);
    }
  }

  /** The code points String.prototype.trim removes: WhiteSpace and LineTerminator. */
  predicate IsSpace(u: Unit) {
    9 <= u <= 13 || u == 32 || u == 0xA0 || u == 0x1680 || 0x2000 <= u <= 0x200A ||
    u == 0x2028 || u == 0x2029 || u == 0x202F || u == 0x205F || u == 0x3000 || u == 0xFEFF
  }

  function TrimStart(s: Str): Str {
    if s != [] && IsSpace(s[0]) then TrimStart(s[1..]) else s
  }

  function TrimEnd(s: Str): Str {
    if s != [] && IsSpace(s[|s| - 1]) then TrimEnd(s[..|s| - 1]) else s
  }

  function Trim(s: Str): Str {
    TrimEnd(TrimStart(s))
  }

  lemma {:induction false} TrimEndKeepsHead(s: Str)
    ensures TrimEnd(s) != [] ==> s != [] && TrimEnd(s)[0] == s[0]
    ensures TrimEnd(TrimEnd(s)) == TrimEnd(s)
  {
    if s != [] && IsSpace(s[|s| - 1]) { TrimEndKeepsHead(s[..|s| - 1]); }
  }

  lemma {:induction false} TrimStartHead(s: Str)
    ensures TrimStart(s) != [] ==> !IsSpace(TrimStart(s)[0])
  {
    if s != [] && IsSpace(s[0]) { TrimStartHead(s[1..]); }
  }

  lemma TrimIdempotent(s: Str)
    ensures Trim(Trim(s)) == Trim(s)
  {
    TrimStartHead(s);
    TrimEndKeepsHead(TrimStart(s));
  }

  /** The id is what trimming leaves of one of the values. */
  ghost predicate IsTrimOf(y: Str, values: seq<Str>) {
    exists v :: v in values && Trim(v) == y
  }

  lemma TrimsOfRest(values: seq<Str>)
    requires values != []
    ensures forall y :: IsTrimOf(y, values) <==> y == Trim(values[0]) || IsTrimOf(y, values[1..])
  {
    assert values == [values[0]] + values[1..];
    forall y ensures IsTrimOf(y, values) <==> y == Trim(values[0]) || IsTrimOf(y, values[1..]) {
      assert values[0] in values;
    }
  }

  /** `values.map(trim).filter(Boolean)`. */
  function TrimmedNonEmpty(values: seq<Str>): (r: seq<Str>)
    ensures forall y :: y in r ==> y != [] && Trim(y) == y
    ensures forall y :: y in r <==> y != [] && IsTrimOf(y, values)
    ensures (forall v :: v in values ==> v != [] && Trim(v) == v) ==> r == values
  {
    if values == [] then [] else
      var t := Trim(values[0]);
      assert Trim(t) == t by { TrimIdempotent(values[0]); }
      assert forall y :: IsTrimOf(y, values) <==> y == t || IsTrimOf(y, values[1..]) by { TrimsOfRest(values); }
      assert values == [values[0]] + values[1..];
      assert forall v :: v in values[1..] ==> v in values;
      (if t == [] then [] else [t]) + TrimmedNonEmpty(values[1..])
  }

  /** normalizePeerIdList on a list of strings. */
  function NormalizePeerIds(values: seq<Str>): (r: seq<Str>)
    ensures Ascending(r)
    ensures forall y :: y in r ==> y != [] && Trim(y) == y
    ensures forall y :: y in r <==> y != [] && IsTrimOf(y, values)
    ensures forall y :: y in r <==> y in TrimmedNonEmpty(values)
  {
    SortUnique(TrimmedNonEmpty(values))
  }

  /** Ids that survive normalization unchanged. */
  ghost predicate Normal(ids: set<Str>) {
    forall x :: x in ids ==> x != [] && Trim(x) == x
  }

  lemma NormalizeListing(xs: seq<Str>, ids: set<Str>)
    requires Normal(ids)
    requires forall x :: x in xs <==> x in ids
    ensures forall y :: y in NormalizePeerIds(xs) <==> y in ids
  {
  }

  function Elements(xs: seq<Str>): (r: set<Str>)
    ensures forall x :: x in r <==> x in xs
  {
    set x | x in xs
  }

  /** `xs.join(',')`. */
  function Join(xs: seq<Str>): Str {
    if xs == [] then []
    else if |xs| == 1 then xs[0]
    else xs[0] + [COMMA] + Join(xs[1..])
  }

  ghost predicate Without(sep: Unit, s: Str) {
    sep !in s
  }

  /** The first separator splits a text in one way only. */
  lemma SplitUnique(sep: Unit, a: Str, b: Str, c: Str, d: Str)
    requires Without(sep, a) && Without(sep, c)
    requires a + [sep] + b == c + [sep] + d
    ensures a == c && b == d
  {
    var s := a + [sep] + b;
    var t := c + [sep] + d;
    assert s[|a|] == sep && t[|c|] == sep;
    assert forall i :: 0 <= i < |a| ==> s[i] == a[i] && a[i] in a;
    assert forall i :: 0 <= i < |c| ==> t[i] == c[i] && c[i] in c;
    assert |a| == |c|;
    assert a == s[..|a|] && c == t[..|c|];
    assert b == s[|a| + 1..] && d == t[|c| + 1..];
  }

  /** Joining with commas forgets nothing about non-empty comma-free ids. */
  lemma {:induction false} JoinInjective(xs: seq<Str>, ys: seq<Str>)
    requires forall x :: x in xs ==> x != [] && Without(COMMA, x)
    requires forall y :: y in ys ==> y != [] && Without(COMMA, y)
    requires Join(xs) == Join(ys)
    ensures xs == ys
  {
    JoinShape(xs);
    JoinShape(ys);
    if |xs| > 1 {
      SplitUnique(COMMA, xs[0], Join(xs[1..]), ys[0], Join(ys[1..]));
      assert xs == [xs[0]] + xs[1..] && ys == [ys[0]] + ys[1..];
      assert forall x :: x in xs[1..] ==> x in xs;
      assert forall y :: y in ys[1..] ==> y in ys;
      JoinInjective(xs[1..], ys[1..]);
    }
  }

  lemma JoinShape(xs: seq<Str>)
    requires forall x :: x in xs ==> x != [] && Without(COMMA, x)
    ensures Join(xs) == [] <==> xs == []
    ensures COMMA in Join(xs) <==> |xs| > 1
    ensures xs != [] ==> Without(COMMA, xs[0])
  {
    if xs != [] { assert xs[0] in xs; }
    if |xs| > 1 { assert Join(xs)[|xs[0]|] == COMMA; }
  }

  /** Two normalized lists that join alike although they differ: the comma is essential. */
  lemma JoinWithCommaCollides()
    ensures Ascending([[97, COMMA, 98]]) && Ascending([[97], [98]])
    ensures Join([[97, COMMA, 98]]) == Join([[97], [98]])
    ensures [[97, COMMA, 98]] != [[97], [98]]
  {
    assert Join([[97], [98]]) == [97] + [COMMA] + Join([[98]]);
    assert Less([97], [98]);
  }

  /** envelopeKey and uploadKey. */
  function EnvelopeKey(to: Str, id: Str): Str {
    to + [PIPE] + id
  }

  function UploadKey(id: Str, from: Str, groupId: Str): Str {
    id + [PIPE] + from + [PIPE] + groupId
  }

  lemma EnvelopeKeyInjective(to: Str, id: Str, to': Str, id': Str)
    requires Without(PIPE, to) && Without(PIPE, to')
    requires EnvelopeKey(to, id) == EnvelopeKey(to', id')
    ensures to == to' && id == id'
  {
    SplitUnique(PIPE, to, id, to', id');
  }

  lemma UploadKeyInjective(id: Str, from: Str, groupId: Str, id': Str, from': Str, groupId': Str)
    requires Without(PIPE, id) && Without(PIPE, from) && Without(PIPE, id') && Without(PIPE, from')
    requires UploadKey(id, from, groupId) == UploadKey(id', from', groupId')
    ensures id == id' && from == from' && groupId == groupId'
  {
    assert UploadKey(id, from, groupId) == id + [PIPE] + (from + [PIPE] + groupId);
    assert UploadKey(id', from', groupId') == id' + [PIPE] + (from' + [PIPE] + groupId');
    SplitUnique(PIPE, id, from + [PIPE] + groupId, id', from' + [PIPE] + groupId');
    SplitUnique(PIPE, from, groupId, from', groupId');
  }

  /** Index of the first separator, or the length of the text. */
  function SeparatorIndex(s: Str): (i: nat)
    ensures i <= |s| && Without(PIPE, s[..i]) && (i < |s| ==> s[i] == PIPE)
    ensures i < |s| <==> PIPE in s
  {
    if s == [] || s[0] == PIPE then 0 else
      assert s == [s[0]] + s[1..];
      var i := SeparatorIndex(s[1..]);
      assert s[..i + 1] == [s[0]] + s[1..][..i];
      i + 1
  }

  /** The part before the first separator and the part after it. */
  lemma SplitsAtSeparator(s: Str) returns (head: Str, rest: Str)
    requires PIPE in s
    ensures Without(PIPE, head) && s == head + [PIPE] + rest
  {
    var i := SeparatorIndex(s);
    head, rest := s[..i], s[i + 1..];
  }

  /** Every upload key is the key of a triple whose id and sender have no separator. */
  lemma CleanTripleFor(id: Str, from: Str, groupId: Str) returns (id': Str, from': Str, groupId': Str)
    ensures Without(PIPE, id') && Without(PIPE, from') &&
      UploadKey(id', from', groupId') == UploadKey(id, from, groupId)
  {
    var key := UploadKey(id, from, groupId);
    assert key == id + [PIPE] + (from + [PIPE] + groupId);
    assert key[|id|] == PIPE;
    var rest;
    id', rest := SplitsAtSeparator(key);
    assert PIPE in rest by {
      if Without(PIPE, id) {
        SplitUnique(PIPE, id', rest, id, from + [PIPE] + groupId);
        assert rest[|from|] == PIPE;
      } else {
        SecondSeparator(key, id', rest, id);
      }
    }
    from', groupId' := SplitsAtSeparator(rest);
    assert UploadKey(id', from', groupId') == id' + [PIPE] + (from' + [PIPE] + groupId');
  }

  lemma SecondSeparator(key: Str, head: Str, rest: Str, id: Str)
    requires key == head + [PIPE] + rest && Without(PIPE, head) && !Without(PIPE, id)
    requires |id| < |key| && key[..|id|] == id && key[|id|] == PIPE
    ensures PIPE in rest
  {
    var j :| 0 <= j < |id| && id[j] == PIPE;
    assert key[j] == PIPE;
    assert forall i :: 0 <= i < |head| ==> key[i] == head[i] && head[i] in head;
    assert |head| <= j < |id|;
    assert rest[|id| - |head| - 1] == PIPE;
  }

  /** The second triple has no separator in id and sender, and the first one's key. */
  ghost predicate SharesKey(id: Str, from: Str, groupId: Str, id': Str, from': Str, groupId': Str) {
    Without(PIPE, id') && Without(PIPE, from') && UploadKey(id', from', groupId') == UploadKey(id, from, groupId)
  }

  /** A key belongs to its triple alone, among triples whose id and sender have no separator, exactly
      when the triple is such a triple itself; any other one shares its key with one of those. */
  lemma UploadKeyIff(id: Str, from: Str, groupId: Str)
    ensures Without(PIPE, id) && Without(PIPE, from) <==>
      forall id', from', groupId' :: SharesKey(id, from, groupId, id', from', groupId') ==>
          id' == id && from' == from && groupId' == groupId
  {
    if Without(PIPE, id) && Without(PIPE, from) {
      forall id', from', groupId' | SharesKey(id, from, groupId, id', from', groupId')
        ensures id' == id && from' == from && groupId' == groupId
      {
        UploadKeyInjective(id, from, groupId, id', from', groupId');
      }
    } else {
      var id', from', groupId' := CleanTripleFor(id, from, groupId);
      assert SharesKey(id, from, groupId, id', from', groupId');
    }
  }

  // ----- what the string operations mean -----

  ghost predicate AllSpace(s: Str) {
    forall u :: u in s ==> IsSpace(u)
  }

  /** TAB, LF, VT, FF, CR, SP, NBSP, BOM, the line and paragraph separators, and the other Zs characters. */
  lemma SpacesAre(u: Unit)
    ensures IsSpace(u) <==> u in {9, 10, 11, 12, 13, 32, 0xA0, 0xFEFF, 0x2028, 0x2029, 0x1680, 0x2000, 0x2001, 0x2002,
      0x2003, 0x2004, 0x2005, 0x2006, 0x2007, 0x2008, 0x2009, 0x200A, 0x202F, 0x205F, 0x3000}
  {
  }

  lemma {:induction false} TrimStartIs(s: Str) returns (head: Str)
    ensures s == head + TrimStart(s) && AllSpace(head)
    ensures TrimStart(s) != [] ==> !IsSpace(TrimStart(s)[0])
  {
    head := [];
    if s != [] && IsSpace(s[0]) {
      var rest := TrimStartIs(s[1..]);
      head := [s[0]] + rest;
    }
  }

  lemma {:induction false} TrimEndIs(s: Str) returns (tail: Str)
    ensures s == TrimEnd(s) + tail && AllSpace(tail)
    ensures TrimEnd(s) != [] ==> !IsSpace(TrimEnd(s)[|TrimEnd(s)| - 1])
  {
    tail := [];
    if s != [] && IsSpace(s[|s| - 1]) {
      var rest := TrimEndIs(s[..|s| - 1]);
      tail := rest + [s[|s| - 1]];
    }
  }

  /** Trimming takes the spaces off both ends and nothing else. */
  lemma TrimIs(s: Str) returns (head: Str, tail: Str)
    ensures s == head + Trim(s) + tail && AllSpace(head) && AllSpace(tail)
    ensures Trim(s) != [] ==> !IsSpace(Trim(s)[0]) && !IsSpace(Trim(s)[|Trim(s)| - 1])
  {
    head := TrimStartIs(s);
    tail := TrimEndIs(TrimStart(s));
    TrimEndKeepsHead(TrimStart(s));
  }

  /** One string comes before another if it is a proper prefix of it, or smaller in the first unit in which
      they differ. */
  lemma {:induction false} LessIff(a: Str, b: Str)
    ensures Less(a, b) <==> exists k :: DiffersAt(a, b, k)
  {
    if a != [] && b != [] && a[0] == b[0] {
      LessIff(a[1..], b[1..]);
      if k: nat :| DiffersAt(a[1..], b[1..], k) {
        assert a == [a[0]] + a[1..] && b == [b[0]] + b[1..];
        assert a[..k + 1] == [a[0]] + a[1..][..k] && b[..k + 1] == [b[0]] + b[1..][..k];
        assert DiffersAt(a, b, k + 1);
      }
      if k: nat :| DiffersAt(a, b, k) {
        assert k > 0 && a[1..][..k - 1] == a[..k][1..] && b[1..][..k - 1] == b[..k][1..];
        assert DiffersAt(a[1..], b[1..], k - 1);
      }
    } else if Less(a, b) {
      assert DiffersAt(a, b, 0);
    }
  }

  predicate DiffersAt(a: Str, b: Str, k: nat) {
    k <= |a| && k < |b| && a[..k] == b[..k] && (k == |a| || a[k] < b[k])
  }

  /** The separators are "," and "|". */
  lemma Separators(a: Str, b: Str, c: Str)
    ensures Join([a, b]) == a + [44] + b
    ensures EnvelopeKey(a, b) == a + [124] + b && UploadKey(a, b, c) == a + [124] + b + [124] + c
  {
    assert [a, b][1..] == [b];
  }
}
