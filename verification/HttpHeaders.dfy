/** The parts of the `Headers` interface the trailers go through, and `appendHeaders`
    (packages/dubbo/src/http-headers.ts). A `Headers` object is its map of combined values;
    `set-cookie`, which is never combined, is left out. */
module HttpHeaders {
  import opened Common
  import opened Errors

  predicate TokenChar(c: char) {
    '0' <= c <= '9' || 'a' <= c <= 'z' || 'A' <= c <= 'Z' || c in "!#$%&'*+-.^_`|~"
  }

  /** A legal field name. */
  predicate ValidName(s: string) {
    s != [] && forall i | 0 <= i < |s| :: TokenChar(s[i])
  }

  function LowerChar(c: char): char {
    if 'A' <= c <= 'Z' then (c as int + 32) as char else c
  }

  function Lower(s: string): (r: string)
    ensures |r| == |s|
  {
    seq(|s|, i requires 0 <= i < |s| => LowerChar(s[i]))
  }

  /** Names are compared without regard to the case of ASCII letters. */
  lemma LowerForgetsCase(s: string, t: string)
    ensures Lower(s) == Lower(t) <==>
      |s| == |t| && forall i | 0 <= i < |s| ::
        || s[i] == t[i]
        || ('A' <= s[i] <= 'Z' && t[i] as int == s[i] as int + 32)
        || ('A' <= t[i] <= 'Z' && s[i] as int == t[i] as int + 32)
    ensures forall i | 0 <= i < |s| :: !('A' <= Lower(s)[i] <= 'Z')
  {
    if Lower(s) == Lower(t) {
      forall i | 0 <= i < |s| ensures LowerChar(s[i]) == LowerChar(t[i]) {
        assert Lower(s)[i] == Lower(t)[i];
      }
    }
  }

  /** A legal field value: bytes without NUL, CR and LF. */
  predicate ValidValue(s: string) {
    forall i | 0 <= i < |s| :: s[i] <= '\U{FF}' && s[i] !in {'\0', '\r', '\n'}
  }

  predicate HttpSpace(c: char) {
    c in {' ', '\t', '\r', '\n'}
  }

  /** Leading and trailing HTTP white space removed, as `append` and `set` do with every value. */
  function Normalize(s: string): (r: string)
    ensures Normalized(r)
    ensures |r| <= |s|
    ensures r == s <==> Normalized(s)
  {
    if s != [] && HttpSpace(s[0]) then Normalize(s[1..])
    else if s != [] && HttpSpace(s[|s| - 1]) then Normalize(s[..|s| - 1])
    else s
  }

  predicate Normalized(s: string) {
    s == [] || (!HttpSpace(s[0]) && !HttpSpace(s[|s| - 1]))
  }

  /** `r` is `s` without the first `i` characters and those from `j` on: blanks, tabs and line ends; it has
      none of these at its own ends. */
  predicate StrippedAt(s: string, r: string, i: nat, j: nat) {
    && i <= j <= |s| && r == s[i..j]
    && (forall k | 0 <= k < |s| && !(i <= k < j) :: s[k] in {' ', '\t', '\r', '\n'})
    && (r != [] ==> r[0] !in {' ', '\t', '\r', '\n'} && r[|r| - 1] !in {' ', '\t', '\r', '\n'})
  }

  lemma StrippedFront(s: string, r: string, i: nat, j: nat)
    requires s != [] && HttpSpace(s[0]) && StrippedAt(s[1..], r, i, j)
    ensures StrippedAt(s, r, i + 1, j + 1)
  {
    assert forall k | 0 < k < |s| :: s[k] == s[1..][k - 1];
  }

  lemma StrippedBack(s: string, r: string, i: nat, j: nat)
    requires s != [] && HttpSpace(s[|s| - 1]) && StrippedAt(s[..|s| - 1], r, i, j)
    ensures StrippedAt(s, r, i, j)
  {
    assert forall k | 0 <= k < |s| - 1 :: s[k] == s[..|s| - 1][k];
  }

  lemma {:induction false} NormalizeStrips(s: string)
    ensures exists i: nat, j: nat :: StrippedAt(s, Normalize(s), i, j)
  {
    if s != [] && HttpSpace(s[0]) {
      hide StrippedAt;
      NormalizeStrips(s[1..]);
      var i: nat, j: nat :| StrippedAt(s[1..], Normalize(s), i, j);
      StrippedFront(s, Normalize(s), i, j);
    } else if s != [] && HttpSpace(s[|s| - 1]) {
      hide StrippedAt;
      NormalizeStrips(s[..|s| - 1]);
      var i: nat, j: nat :| StrippedAt(s[..|s| - 1], Normalize(s), i, j);
      StrippedBack(s, Normalize(s), i, j);
    } else {
      assert s[0..|s|] == s && Normalize(s) == s;
      assert StrippedAt(s, Normalize(s), 0, |s|);
    }
  }

  lemma {:induction false} NormalizeKeepsValid(s: string)
    requires ValidValue(s)
    ensures ValidValue(Normalize(s))
  {
    if s != [] && HttpSpace(s[0]) {
      NormalizeKeepsValid(s[1..]);
    } else if s != [] && HttpSpace(s[|s| - 1]) {
      NormalizeKeepsValid(s[..|s| - 1]);
    }
  }

  /** Field maps a `Headers` object can hold. Values may have been combined from several fields. */
  predicate ValidFields(h: Fields) {
    forall k | k in h :: ValidName(k) && Lower(k) == k && ValidValue(h[k])
  }

  predicate NormalizedFields(h: Fields) {
    forall k | k in h :: Normalized(h[k])
  }

  function CommaJoin(x: string, y: string): string {
    x + [',', ' '] + y
  }

  /** One field combined into those already there. */
  function Combine(h: Fields, name: string, value: string): Fields {
    h[name := if name in h then CommaJoin(h[name], value) else value]
  }

  /** `headers.append(name, value)`; an illegal name or value is a TypeError. */
  function Append(h: Fields, name: string, value: string): Try<Fields> {
    var v := Normalize(value);
    if ValidName(name) && ValidValue(v) then Ok(Combine(h, Lower(name), v))
    else Throws(OtherError("TypeError"))
  }

  /** All fields normalized: what copying into a new `Headers` object gives. */
  function Copied(h: Fields): (r: Fields)
    ensures r.Keys == h.Keys && NormalizedFields(r)
    ensures r == h <==> NormalizedFields(h)
  {
    map k | k in h :: Normalize(h[k])
  }

  function AppendedValue(start: Fields, added: Fields, k: string): string
    requires k in start || k in added
  {
    if k !in added then start[k]
    else if k !in start then Normalize(added[k])
    else CommaJoin(start[k], Normalize(added[k]))
  }

  /** Every field of `added` appended to `start`. */
  function Appended(start: Fields, added: Fields): (r: Fields)
    ensures r.Keys == start.Keys + added.Keys
  {
    map k | k in start.Keys + added.Keys :: AppendedValue(start, added, k)
  }

  /** `appendHeaders(a, b)`. */
  function Merged(a: Fields, b: Fields): Fields {
    Appended(Copied(a), b)
  }

  lemma CopiedIsValid(h: Fields)
    requires ValidFields(h)
    ensures ValidFields(Copied(h))
  {
    forall k | k in h ensures ValidValue(Copied(h)[k]) {
      NormalizeKeepsValid(h[k]);
    }
  }

  lemma CommaJoinIsValid(x: string, y: string)
    requires ValidValue(x) && ValidValue(y)
    ensures ValidValue(CommaJoin(x, y))
  {
    assert CommaJoin(x, y) == x + [','] + [' '] + y;
  }

  lemma AppendedIsValid(start: Fields, added: Fields)
    requires ValidFields(start) && ValidFields(added)
    ensures ValidFields(Appended(start, added))
  {
    forall k | k in start.Keys + added.Keys ensures ValidValue(AppendedValue(start, added, k)) {
      if k in added {
        NormalizeKeepsValid(added[k]);
        if k in start {
          CommaJoinIsValid(start[k], Normalize(added[k]));
        }
      }
    }
  }

  lemma AppendedStep(start: Fields, part: Fields, k: string, value: string)
    requires k !in part
    ensures Appended(start, part[k := value]) == Combine(Appended(start, part), k, Normalize(value))
  {
    var l, r := Appended(start, part[k := value]), Combine(Appended(start, part), k, Normalize(value));
    assert l.Keys == r.Keys;
    forall x | x in l.Keys ensures l[x] == r[x] {
      if x != k {
        assert AppendedValue(start, part[k := value], x) == AppendedValue(start, part, x);
      }
    }
  }

  lemma AppendedNothing(start: Fields)
    ensures Appended(start, map[]) == start
  {
  }

  lemma AppendLegal(h: Fields, k: string, value: string)
    requires ValidName(k) && Lower(k) == k && ValidValue(value)
    ensures Append(h, k, value) == Ok(Combine(h, k, Normalize(value)))
  {
    NormalizeKeepsValid(value);
  }

  /** `append` never breaks a `Headers` object. */
  lemma AppendKeepsValid(h: Fields, name: string, value: string)
    requires ValidFields(h) && Append(h, name, value).Ok?
    ensures ValidFields(Append(h, name, value).value)
  {
    var k, v := Lower(name), Normalize(value);
    assert Lower(k) == k;
    forall i | 0 <= i < |k| ensures TokenChar(k[i]) {
      assert TokenChar(name[i]);
    }
    if k in h {
      CommaJoinIsValid(h[k], v);
    }
  }

  lemma MergedIsValid(a: Fields, b: Fields)
    requires ValidFields(a) && ValidFields(b)
    ensures ValidFields(Merged(a, b))
  {
    CopiedIsValid(a);
    AppendedIsValid(Copied(a), b);
  }

  /** `append` of a field taken from another `Headers` object. */
  method AppendField(start: Fields, ghost part: Fields, h: Fields, k: string, value: string) returns (r: Fields)
    requires h == Appended(start, part) && k !in part
    requires ValidName(k) && Lower(k) == k && ValidValue(value)
    ensures r == Appended(start, part[k := value])
  {
    AppendLegal(h, k, value);
    AppendedStep(start, part, k, value);
    r := Append(h, k, value).value;
  }

  /** Each field of `added` appended in turn, in any order. */
  method AppendEach(start: Fields, added: Fields) returns (h: Fields)
    requires ValidFields(added)
    ensures h == Appended(start, added)
  {
    hide Normalize, ValidName, ValidValue, Lower, Appended, AppendedValue;
    h := start;
    var todo := added.Keys;
    ghost var part: Fields := map[];
    AppendedNothing(start);
    while todo != {}
      invariant todo <= added.Keys && part.Keys == added.Keys - todo
      invariant forall k | k in part :: part[k] == added[k]
      invariant h == Appended(start, part)
      decreases |todo|
    {
      var k :| k in todo;
      h := AppendField(start, part, h, k, added[k]);
      part, todo := part[k := added[k]], todo - {k};
    }
    assert part == added;
  }

  /** `appendHeaders(a, b)`: both inputs appended to a new `Headers` object. A name in one of them keeps its
      value without outer white space; a name in both gets the value from `a`, a comma and a blank, then the
      value from `b`. */
  method AppendHeaders(a: Fields, b: Fields) returns (h: Fields)
    requires ValidFields(a) && ValidFields(b)
    ensures h == Merged(a, b) && h.Keys == a.Keys + b.Keys
    ensures forall k | k in h ::
      h[k] == if k !in b then Normalize(a[k])
              else if k !in a then Normalize(b[k])
              else Normalize(a[k]) + [',', ' '] + Normalize(b[k])
  {
    hide Normalize, ValidName, ValidValue, Lower, Appended, AppendedValue, Copied, Merged;
    h := AppendEach(map[], a);
    AppendedToNothing(a);
    h := AppendEach(h, b);
    MergedValues(a, b);
  }

  lemma MergedValues(a: Fields, b: Fields)
    ensures Appended(Copied(a), b) == Merged(a, b) && Merged(a, b).Keys == a.Keys + b.Keys
    ensures forall k | k in Merged(a, b) ::
      Merged(a, b)[k] == if k !in b then Normalize(a[k])
                         else if k !in a then Normalize(b[k])
                         else Normalize(a[k]) + [',', ' '] + Normalize(b[k])
  {
    hide Normalize;
  }

  lemma AppendedToNothing(a: Fields)
    ensures Appended(map[], a) == Copied(a)
  {
    hide Normalize;
    var l, r := Appended(map[], a), Copied(a);
    assert l.Keys == r.Keys;
  }

  // ----- a list of fields

  /** The values of one name among the fields, in order, each without outer white space. */
  function ValuesOf(fields: seq<(string, string)>, k: string): seq<string> {
    if fields == [] then []
    else
      var n := |fields| - 1;
      ValuesOf(fields[..n], k) + if Lower(fields[n].0) == k then [Normalize(fields[n].1)] else []
  }

  /** The values in order, a comma and a blank between two of them. */
  function Joined(values: seq<string>): string {
    if values == [] then ""
    else if |values| == 1 then values[0]
    else Joined(values[..|values| - 1]) + [',', ' '] + values[|values| - 1]
  }

  /** `h` holds exactly the fields listed: every name with its values joined in order. */
  ghost predicate Holds(h: Fields, fields: seq<(string, string)>) {
    && (forall k :: k in h <==> ValuesOf(fields, k) != [])
    && (forall k | k in h :: h[k] == Joined(ValuesOf(fields, k)))
  }

  /** The fields listed determine what is held. */
  lemma HoldsOne(h: Fields, h': Fields, fields: seq<(string, string)>)
    requires Holds(h, fields) && Holds(h', fields)
    ensures h == h'
  {
    hide ValuesOf, Joined;
    assert h.Keys == h'.Keys;
  }

  predicate Legal(name: string, value: string) {
    ValidName(name) && ValidValue(Normalize(value))
  }

  predicate AllLegal(fields: seq<(string, string)>) {
    forall i | 0 <= i < |fields| :: Legal(fields[i].0, fields[i].1)
  }

  lemma NoneIllegal()
    ensures AllLegal([])
  {
  }

  lemma FirstLegal(first: (string, string), rest: seq<(string, string)>)
    ensures AllLegal([first] + rest) <==> Legal(first.0, first.1) && AllLegal(rest)
  {
    hide Legal;
    AllLegalJoin([first], rest);
    assert AllLegal([first]) <==> Legal([first][0].0, [first][0].1);
  }

  lemma AllLegalJoin(a: seq<(string, string)>, b: seq<(string, string)>)
    ensures AllLegal(a + b) <==> AllLegal(a) && AllLegal(b)
  {
    hide Legal;
    assert forall i | 0 <= i < |a| :: (a + b)[i] == a[i];
    assert forall i | 0 <= i < |b| :: (a + b)[|a| + i] == b[i];
  }

  lemma HoldsNothing()
    ensures Holds(map[], [])
  {
  }

  /** `append` succeeds iff name and value are legal, and adds the value behind those there are. */
  lemma AppendHolds(h: Fields, fields: seq<(string, string)>, name: string, value: string)
    requires Holds(h, fields)
    ensures Append(h, name, value).Ok? <==> Legal(name, value)
    ensures Append(h, name, value).Ok? ==> Holds(Append(h, name, value).value, fields + [(name, value)])
  {
    hide Normalize, ValidName, ValidValue, Lower, Joined, ValuesOf;
    if Legal(name, value) {
      var r, all := Append(h, name, value).value, fields + [(name, value)];
      forall k ensures k in r <==> ValuesOf(all, k) != []
        ensures k in r ==> r[k] == Joined(ValuesOf(all, k))
      {
        var before, v := ValuesOf(fields, k), Normalize(value);
        JoinedSnoc(before, v);
        ValuesSnoc(fields, name, value, k);
        if k == Lower(name) {
          assert r[k] == if k in h then CommaJoin(h[k], v) else v;
        } else {
          assert ValuesOf(all, k) == before;
        }
      }
    }
  }

  lemma ValuesSnoc(fields: seq<(string, string)>, name: string, value: string, k: string)
    ensures ValuesOf(fields + [(name, value)], k) ==
      ValuesOf(fields, k) + if Lower(name) == k then [Normalize(value)] else []
  {
    assert (fields + [(name, value)])[..|fields|] == fields;
  }

  lemma JoinedSnoc(values: seq<string>, v: string)
    ensures Joined(values + [v]) == if values == [] then v else Joined(values) + [',', ' '] + v
  {
    assert (values + [v])[..|values|] == values;
  }
}
