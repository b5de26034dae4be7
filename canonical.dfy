/** `parseInitData`: from the parsed form fields to the tag the client sent
    and the data-check string the tag is computed over. */
module Canonical {
  import opened Options

  /** One `name=value` field, after application/x-www-form-urlencoded decoding. */
  type Pair = (string, string)

  /** `String.prototype.localeCompare`: negative, zero or positive. */
  type Comparator = (string, string) -> int

  const HashKey: string := "hash"

  /** What `Array.prototype.sort` needs of a comparator for its result to be
      the sorted permutation: a sign-antisymmetric, transitive ordering. */
  ghost predicate Consistent(cmp: Comparator) {
    Antisymmetric(cmp) && Transitive(cmp)
  }

  ghost predicate Antisymmetric(cmp: Comparator) {
    forall a, b :: cmp(a, b) < 0 <==> cmp(b, a) > 0
  }

  ghost predicate Transitive(cmp: Comparator) {
    forall a, b, c :: cmp(a, b) <= 0 && cmp(b, c) <= 0 ==> cmp(a, c) <= 0
  }

  /** The comparator answers 0 only for equal strings (true of code-point
      order, not of every locale collation). */
  ghost predicate Discriminating(cmp: Comparator) {
    forall a, b :: cmp(a, b) == 0 ==> a == b
  }

  /** Lexicographic order on Unicode code points (a Dafny `char` is a scalar
      value). It agrees with JavaScript's UTF-16 code-unit order on names
      inside the Basic Multilingual Plane, not beyond it. */
  function CodePointCompare(a: string, b: string): int {
    if a == [] then (if b == [] then 0 else -1)
    else if b == [] then 1
    else if a[0] < b[0] then -1
    else if b[0] < a[0] then 1
    else CodePointCompare(a[1..], b[1..])
  }

  lemma {:induction false} CodePointAntisymmetric(a: string, b: string)
    ensures CodePointCompare(a, b) < 0 <==> CodePointCompare(b, a) > 0
  {
    if a != [] && b != [] && a[0] == b[0] {
      CodePointAntisymmetric(a[1..], b[1..]);
    }
  }

  lemma {:induction false} CodePointDiscriminating(a: string, b: string)
    ensures CodePointCompare(a, b) == 0 ==> a == b
  {
    if a != [] && b != [] && a[0] == b[0] {
      CodePointDiscriminating(a[1..], b[1..]);
      if a[1..] == b[1..] {
        assert a == [a[0]] + a[1..] && b == [b[0]] + b[1..];
      }
    }
  }

  lemma {:induction false} CodePointTransitive(a: string, b: string, c: string)
    ensures CodePointCompare(a, b) <= 0 && CodePointCompare(b, c) <= 0 ==> CodePointCompare(a, c) <= 0
  {
    if a != [] && b != [] && c != [] && a[0] == b[0] == c[0] {
      CodePointTransitive(a[1..], b[1..], c[1..]);
    }
  }

  /** Code-unit order meets both requirements the permutation lemmas make of a comparator. */
  lemma CodePointOrder()
    ensures Consistent(CodePointCompare) && Discriminating(CodePointCompare)
  {
    forall a, b ensures CodePointCompare(a, b) < 0 <==> CodePointCompare(b, a) > 0 {
      CodePointAntisymmetric(a, b);
    }
    forall a, b ensures CodePointCompare(a, b) == 0 ==> a == b {
      CodePointDiscriminating(a, b);
    }
    forall a, b, c ensures CodePointCompare(a, b) <= 0 && CodePointCompare(b, c) <= 0 ==> CodePointCompare(a, c) <= 0 {
      CodePointTransitive(a, b, c);
    }
  }

  /** Two fields with the same name carry the same value (in particular: no
      name occurs twice). */
  ghost predicate KeyFunctional(ps: seq<Pair>) {
    forall p, q :: p in ps && q in ps && p.0 == q.0 ==> p == q
  }

  ghost predicate SortedByKey(ps: seq<Pair>, cmp: Comparator) {
    forall i, j :: 0 <= i < j < |ps| ==> cmp(ps[i].0, ps[j].0) <= 0
  }

  /** `params.get(key)`: the value of the first field with that name. */
  function FirstValue(ps: seq<Pair>, key: string): (r: Option<string>)
    ensures r.Some? ==> (key, r.value) in ps
    ensures r.None? <==> forall p :: p in ps ==> p.0 != key
  {
    if ps == [] then None
    else if ps[0].0 == key then Some(ps[0].1)
    else FirstValue(ps[1..], key)
  }

  /** `params.get` returns the value of the FIRST field with that name,
      whatever fields with the name follow it. */
  lemma {:induction false} FirstValueFirst(a: seq<Pair>, v: string, b: seq<Pair>, key: string)
    requires forall p :: p in a ==> p.0 != key
    ensures FirstValue(a + [(key, v)] + b, key) == Some(v)
  {
    if a != [] {
      assert (a + [(key, v)] + b)[1..] == a[1..] + [(key, v)] + b;
      FirstValueFirst(a[1..], v, b, key);
    }
  }

  /** `params.delete(key)`: every field with that name goes, the rest keep their order. */
  function RemoveKey(ps: seq<Pair>, key: string): (r: seq<Pair>)
    ensures forall p :: multiset(r)[p] == if p.0 == key then 0 else multiset(ps)[p]
  {
    if ps == [] then []
    else
      assert ps == [ps[0]] + ps[1..];
      if ps[0].0 == key then RemoveKey(ps[1..], key)
      else [ps[0]] + RemoveKey(ps[1..], key)
  }

  /** Places a field before the first field whose name does not sort below it. */
  function Insert(x: Pair, ps: seq<Pair>, cmp: Comparator): (r: seq<Pair>)
    ensures multiset(r) == multiset(ps) + multiset{x}
  {
    if ps == [] then [x]
    else if cmp(x.0, ps[0].0) <= 0 then [x] + ps
    else
      assert ps == [ps[0]] + ps[1..];
      [ps[0]] + Insert(x, ps[1..], cmp)
  }

  /** The sort of the remaining fields: stable, comparing names only. */
  function SortByKey(ps: seq<Pair>, cmp: Comparator): (r: seq<Pair>)
    ensures multiset(r) == multiset(ps)
  {
    if ps == [] then []
    else
      assert ps == [ps[0]] + ps[1..];
      Insert(ps[0], SortByKey(ps[1..], cmp), cmp)
  }

  /** One line of the data-check string. */
  function Render(p: Pair): string {
    p.0 + "=" + p.1
  }

  function Lines(ps: seq<Pair>): (ls: seq<string>)
    ensures |ls| == |ps|
    ensures forall i :: 0 <= i < |ps| ==> ls[i] == Render(ps[i])
  {
    if ps == [] then [] else [Render(ps[0])] + Lines(ps[1..])
  }

  /** Joining with a newline between lines and none after the last. */
  function Join(ls: seq<string>): string {
    if ls == [] then ""
    else if |ls| == 1 then ls[0]
    else ls[0] + "\n" + Join(ls[1..])
  }

  /** Splitting at every newline: the inverse Join is checked against. */
  function Split(s: string): (ls: seq<string>)
    ensures |ls| >= 1
  {
    if s == [] then [""]
    else
      var rest := Split(s[1..]);
      if s[0] == '\n' then [""] + rest
      else [[s[0]] + rest[0]] + rest[1..]
  }

  /** The non-tag fields in data-check order. */
  function Entries(ps: seq<Pair>, cmp: Comparator): seq<Pair> {
    SortByKey(RemoveKey(ps, HashKey), cmp)
  }

  datatype ParsedInitData = ParsedInitData(hash: string, dataCheck: string, params: seq<Pair>)

  /** `parseInitData` after URLSearchParams has decoded the fields. */
  function ParseInitData(ps: seq<Pair>, cmp: Comparator): ParsedInitData {
    ParsedInitData(
      hash := match FirstValue(ps, HashKey) case Some(h) => h case None => "",
      dataCheck := Join(Lines(Entries(ps, cmp))),
      params := RemoveKey(ps, HashKey))
  }

  /** The tag is the value of the first `hash` field, whatever `hash` fields
      follow it, and "" when there is none. */
  lemma TagIsFirstHash(a: seq<Pair>, v: string, b: seq<Pair>, cmp: Comparator)
    requires forall p :: p in a ==> p.0 != HashKey
    ensures ParseInitData(a + [(HashKey, v)] + b, cmp).hash == v
    ensures (forall p :: p in a + b ==> p.0 != HashKey) ==> ParseInitData(a + b, cmp).hash == ""
  {
    FirstValueFirst(a, v, b, HashKey);
  }

  lemma PrependSorted(y: Pair, r: seq<Pair>, cmp: Comparator)
    requires SortedByKey(r, cmp)
    requires forall q :: q in r ==> cmp(y.0, q.0) <= 0
    ensures SortedByKey([y] + r, cmp)
  {
    var yr := [y] + r;
    forall i, j | 0 <= i < j < |yr| ensures cmp(yr[i].0, yr[j].0) <= 0 {
      assert yr[j] == r[j - 1];
      if i > 0 {
        assert yr[i] == r[i - 1];
      } else {
        assert yr[j] in r;
      }
    }
  }

  lemma {:induction false} InsertSorted(x: Pair, ps: seq<Pair>, cmp: Comparator)
    requires Consistent(cmp) && SortedByKey(ps, cmp)
    ensures SortedByKey(Insert(x, ps, cmp), cmp)
  {
    if ps == [] {
    } else if cmp(x.0, ps[0].0) <= 0 {
      forall q | q in ps ensures cmp(x.0, q.0) <= 0 {
        var j :| 0 <= j < |ps| && ps[j] == q;
        if j > 0 {
          assert cmp(ps[0].0, ps[j].0) <= 0;
        }
      }
      PrependSorted(x, ps, cmp);
    } else {
      var tail := Insert(x, ps[1..], cmp);
      InsertSorted(x, ps[1..], cmp);
      forall q | q in tail ensures cmp(ps[0].0, q.0) <= 0 {
        assert q in multiset(tail);
        assert q == x || q in ps[1..];
      }
      PrependSorted(ps[0], tail, cmp);
    }
  }

  lemma {:induction false} SortSorted(ps: seq<Pair>, cmp: Comparator)
    requires Consistent(cmp)
    ensures SortedByKey(SortByKey(ps, cmp), cmp)
  {
    if ps != [] {
      SortSorted(ps[1..], cmp);
      InsertSorted(ps[0], SortByKey(ps[1..], cmp), cmp);
    }
  }

  /** Two key-sorted arrangements of the same key-functional fields start
      with the same field. */
  lemma SortedHeadsAgree(s: seq<Pair>, t: seq<Pair>, cmp: Comparator)
    requires Antisymmetric(cmp) && Discriminating(cmp)
    requires SortedByKey(s, cmp) && SortedByKey(t, cmp)
    requires multiset(s) == multiset(t) && KeyFunctional(s)
    requires s != []
    ensures t != [] && s[0] == t[0]
  {
    assert s[0] in multiset(t);
    assert t[0] in multiset(s);
    var m :| 0 <= m < |s| && s[m] == t[0];
    var k :| 0 <= k < |t| && t[k] == s[0];
    assert cmp(s[0].0, s[m].0) <= 0;
    assert cmp(t[0].0, t[k].0) <= 0;
    assert t[0] in s && s[0] in s;
  }

  lemma SortedTail(s: seq<Pair>, cmp: Comparator)
    requires s != [] && SortedByKey(s, cmp) && KeyFunctional(s)
    ensures SortedByKey(s[1..], cmp) && KeyFunctional(s[1..])
    ensures multiset(s[1..]) == multiset(s) - multiset{s[0]}
  {
    assert s == [s[0]] + s[1..];
    forall p, q | p in s[1..] && q in s[1..] && p.0 == q.0 ensures p == q {
      assert p in s && q in s;
    }
  }

  /** Under an antisymmetric, discriminating comparator a key-functional
      multiset of fields has exactly one key-sorted arrangement. */
  lemma {:induction false} SortedUnique(s: seq<Pair>, t: seq<Pair>, cmp: Comparator)
    requires Antisymmetric(cmp) && Discriminating(cmp)
    requires SortedByKey(s, cmp) && SortedByKey(t, cmp)
    requires multiset(s) == multiset(t) && KeyFunctional(s)
    ensures s == t
  {
    if s == [] {
      assert |multiset(t)| == 0;
    } else {
      SortedHeadsAgree(s, t, cmp);
      SortedTail(s, cmp);
      assert SortedByKey(t[1..], cmp);
      assert multiset(t[1..]) == multiset(t) - multiset{t[0]} by {
        assert t == [t[0]] + t[1..];
      }
      SortedUnique(s[1..], t[1..], cmp);
      assert |s| == |t| by {
        assert |s| == |s[1..]| + 1 && |t| == |t[1..]| + 1;
      }
      forall i | 0 <= i < |s| ensures s[i] == t[i] {
        if i > 0 {
          assert s[i] == s[1..][i - 1] && t[i] == t[1..][i - 1];
        }
      }
    }
  }

  /** The entries are the non-tag fields, sorted, and no `hash` field is among them. */
  lemma EntriesSpec(ps: seq<Pair>, cmp: Comparator)
    requires Consistent(cmp)
    ensures forall p :: multiset(Entries(ps, cmp))[p] == if p.0 == HashKey then 0 else multiset(ps)[p]
    ensures forall i :: 0 <= i < |Entries(ps, cmp)| ==> Entries(ps, cmp)[i].0 != HashKey
    ensures SortedByKey(Entries(ps, cmp), cmp)
  {
    var es := Entries(ps, cmp);
    SortSorted(RemoveKey(ps, HashKey), cmp);
    forall i | 0 <= i < |es| ensures es[i].0 != HashKey {
      assert es[i] in multiset(es);
    }
  }

  lemma SameMembers(xs: seq<Pair>, ys: seq<Pair>)
    requires multiset(xs) == multiset(ys)
    ensures forall p :: p in xs <==> p in ys
  {
    forall p ensures p in xs <==> p in ys {
      assert p in xs <==> p in multiset(xs);
      assert p in ys <==> p in multiset(ys);
    }
  }

  /** `params.get` gives the same answer for any arrangement of a key-functional list. */
  lemma FirstValuePermutation(xs: seq<Pair>, ys: seq<Pair>, key: string)
    requires multiset(xs) == multiset(ys) && KeyFunctional(xs)
    ensures FirstValue(xs, key) == FirstValue(ys, key)
  {
    SameMembers(xs, ys);
  }

  /** The order the fields arrive in does not matter: the tag and the
      data-check string are the same for every arrangement of them. */
  lemma ParsePermutationInvariant(xs: seq<Pair>, ys: seq<Pair>, cmp: Comparator)
    requires Consistent(cmp) && Discriminating(cmp)
    requires multiset(xs) == multiset(ys) && KeyFunctional(xs)
    ensures ParseInitData(xs, cmp).hash == ParseInitData(ys, cmp).hash
    ensures ParseInitData(xs, cmp).dataCheck == ParseInitData(ys, cmp).dataCheck
    ensures multiset(ParseInitData(xs, cmp).params) == multiset(ParseInitData(ys, cmp).params)
  {
    FirstValuePermutation(xs, ys, HashKey);
    EntriesSpec(xs, cmp);
    EntriesSpec(ys, cmp);
    var ex, ey := Entries(xs, cmp), Entries(ys, cmp);
    assert multiset(ex) == multiset(ey);
    forall p, q | p in ex && q in ex && p.0 == q.0 ensures p == q {
      assert p in multiset(ex) && q in multiset(ex);
      assert p in xs && q in xs;
    }
    SortedUnique(ex, ey, cmp);
  }

  lemma {:induction false} SplitJoinStep(a: string, b: string)
    requires '\n' !in a
    ensures Split(a + "\n" + b) == [a] + Split(b)
  {
    if a == [] {
      assert a + "\n" + b == "\n" + b;
      assert ("\n" + b)[1..] == b;
    } else {
      var s := a + "\n" + b;
      assert s[1..] == a[1..] + "\n" + b;
      SplitJoinStep(a[1..], b);
      assert [a[0]] + a[1..] == a;
    }
  }

  lemma {:induction false} SplitNoNewline(a: string)
    requires '\n' !in a
    ensures Split(a) == [a]
  {
    if a != [] {
      SplitNoNewline(a[1..]);
      assert [a[0]] + a[1..] == a;
    }
  }

  /** Splitting the data-check string at its newlines gives back the lines
      when no line contains a newline itself. */
  lemma {:induction false} SplitJoin(ls: seq<string>)
    requires |ls| >= 1
    requires forall i :: 0 <= i < |ls| ==> '\n' !in ls[i]
    ensures Split(Join(ls)) == ls
  {
    if |ls| == 1 {
      SplitNoNewline(ls[0]);
    } else {
      SplitJoinStep(ls[0], Join(ls[1..]));
      SplitJoin(ls[1..]);
      assert [ls[0]] + ls[1..] == ls;
    }
  }

  /** The data-check string is exactly the rendered entries, one per line. */
  lemma DataCheckLines(ps: seq<Pair>, cmp: Comparator)
    requires Entries(ps, cmp) != []
    requires forall p :: p in ps ==> '\n' !in Render(p)
    ensures Split(ParseInitData(ps, cmp).dataCheck) == Lines(Entries(ps, cmp))
  {
    var es := Entries(ps, cmp);
    forall i | 0 <= i < |es| ensures '\n' !in Lines(es)[i] {
      assert es[i] in multiset(es);
      assert es[i] in multiset(RemoveKey(ps, HashKey));
      assert es[i] in ps;
    }
    SplitJoin(Lines(es));
  }
}
