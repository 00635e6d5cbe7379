/** The order the record store is kept in after `add`: Python's stable
    `list.sort(key=lambda item: item.get('name', ''))`. `SortByName` is a
    stable insertion sort used as the reference; `StableSortUnique` shows
    that any sorted, stable rearrangement (Timsort's included) equals it. */
module Store {
  import opened Json
  import opened Schema
  import opened Text

  /** Every element of the sequence passes schema validation. */
  predicate AllGoods(s: seq<Json>)
  {
    forall i :: 0 <= i < |s| ==> Conforms(s[i], GoodsSchema)
  }

  /** The sort key `item.get('name', '')`. For a value that passes the
      schema this is exactly the stored name or the empty string. */
  function NameKey(g: Json): string
  {
    if g.Obj? && "name" in g.fields && g.fields["name"].Str? then g.fields["name"].s else ""
  }

  lemma NameKeyOfGood(g: Json)
    requires Conforms(g, GoodsSchema)
    ensures Get(g.fields, "name", Str("")) == Str(NameKey(g))
  {
    GoodsSchemaIsGood(g);
  }

  predicate SortedByName(s: seq<Json>)
  {
    forall i, j :: 0 <= i < j < |s| ==> LexLe(NameKey(s[i]), NameKey(s[j]))
  }

  /** The elements whose key is `k`, in their order in `s`. Two sequences
      that agree on this for every `k` keep equal-named goods in the same
      relative order. */
  function WithName(s: seq<Json>, k: string): seq<Json>
  {
    if s == [] then []
    else (if NameKey(s[0]) == k then [s[0]] else []) + WithName(s[1..], k)
  }

  lemma {:induction false} WithNameMember(s: seq<Json>, k: string, x: Json)
    ensures x in WithName(s, k) <==> x in s && NameKey(x) == k
  {
    if s != [] {
      WithNameMember(s[1..], k, x);
      assert s == [s[0]] + s[1..];
    }
  }

  /** Inserts `x` in front of the first element whose key is not smaller:
      `x` ends up before every element with the same key. */
  function Ins(x: Json, t: seq<Json>): (r: seq<Json>)
    ensures multiset(r) == multiset([x] + t)
  {
    if t == [] || LexLe(NameKey(x), NameKey(t[0])) then [x] + t
    else
      assert t == [t[0]] + t[1..];
      [t[0]] + Ins(x, t[1..])
  }

  function SortByName(s: seq<Json>): (r: seq<Json>)
    ensures multiset(r) == multiset(s)
  {
    if s == [] then []
    else
      assert s == [s[0]] + s[1..];
      Ins(s[0], SortByName(s[1..]))
  }

  lemma SortedCons(x: Json, t: seq<Json>)
    requires SortedByName(t)
    requires forall y :: y in t ==> LexLe(NameKey(x), NameKey(y))
    ensures SortedByName([x] + t)
  {
    var s := [x] + t;
    forall i, j | 0 <= i < j < |s|
      ensures LexLe(NameKey(s[i]), NameKey(s[j]))
    {
      if i == 0 { assert s[j] in t; } else { assert s[i] == t[i - 1] && s[j] == t[j - 1]; }
    }
  }

  lemma SortedTail(t: seq<Json>)
    requires SortedByName(t) && t != []
    ensures SortedByName(t[1..])
  {
    var rest := t[1..];
    forall i, j | 0 <= i < j < |rest| ensures LexLe(NameKey(rest[i]), NameKey(rest[j])) {
      assert rest[i] == t[i + 1] && rest[j] == t[j + 1];
    }
  }

  /** `x` goes in front when it is not after the head of a sorted `t`. */
  lemma InsFrontSorted(x: Json, t: seq<Json>)
    requires SortedByName(t)
    requires t == [] || LexLe(NameKey(x), NameKey(t[0]))
    ensures SortedByName([x] + t)
  {
    forall y | y in t ensures LexLe(NameKey(x), NameKey(y)) {
      var j :| 0 <= j < |t| && t[j] == y;
      if j > 0 { LexLeTransitive(NameKey(x), NameKey(t[0]), NameKey(y)); }
    }
    SortedCons(x, t);
  }

  /** When `x` goes after the head, the head stays below everything that
      follows it. */
  lemma HeadBelowIns(x: Json, t: seq<Json>, r: seq<Json>)
    requires SortedByName(t) && t != [] && !LexLe(NameKey(x), NameKey(t[0]))
    requires multiset(r) == multiset([x] + t[1..])
    ensures forall y :: y in r ==> LexLe(NameKey(t[0]), NameKey(y))
  {
    forall y | y in r ensures LexLe(NameKey(t[0]), NameKey(y)) {
      assert y in multiset(r);
      if y == x {
        LexLeTotal(NameKey(x), NameKey(t[0]));
      } else {
        assert y in t[1..];
        var j :| 0 <= j < |t| - 1 && t[1..][j] == y;
        assert t[j + 1] == y;
      }
    }
  }

  lemma {:induction false} InsSorted(x: Json, t: seq<Json>)
    requires SortedByName(t)
    ensures SortedByName(Ins(x, t))
  {
    if t == [] || LexLe(NameKey(x), NameKey(t[0])) {
      InsFrontSorted(x, t);
    } else {
      SortedTail(t);
      InsSorted(x, t[1..]);
      HeadBelowIns(x, t, Ins(x, t[1..]));
      SortedCons(t[0], Ins(x, t[1..]));
    }
  }

  /** The reference sort orders the store by name. */
  lemma {:induction false} SortByNameSorted(s: seq<Json>)
    ensures SortedByName(SortByName(s))
  {
    if s != [] {
      SortByNameSorted(s[1..]);
      InsSorted(s[0], SortByName(s[1..]));
    }
  }

  lemma {:induction false} InsStable(x: Json, t: seq<Json>, k: string)
    requires SortedByName(t)
    ensures WithName(Ins(x, t), k) == if NameKey(x) == k then [x] + WithName(t, k) else WithName(t, k)
  {
    if t == [] || LexLe(NameKey(x), NameKey(t[0])) {
      assert ([x] + t)[1..] == t;
    } else {
      var rest := t[1..];
      SortedTail(t);
      InsStable(x, rest, k);
      LexLeReflexive(NameKey(x));
      assert NameKey(t[0]) != NameKey(x);
      var r := [t[0]] + Ins(x, rest);
      assert r[0] == t[0] && r[1..] == Ins(x, rest);
      assert WithName(r, k) == (if NameKey(t[0]) == k then [t[0]] else []) + WithName(Ins(x, rest), k);
      assert WithName(t, k) == (if NameKey(t[0]) == k then [t[0]] else []) + WithName(rest, k);
    }
  }

  /** The reference sort is stable: for every name, the goods carrying it
      appear in the same relative order before and after sorting. */
  lemma {:induction false} SortByNameStable(s: seq<Json>, k: string)
    ensures WithName(SortByName(s), k) == WithName(s, k)
  {
    if s != [] {
      SortByNameStable(s[1..], k);
      SortByNameSorted(s[1..]);
      InsStable(s[0], SortByName(s[1..]), k);
    }
  }

  lemma WithNameTail(s: seq<Json>, k: string)
    requires s != [] && NameKey(s[0]) != k
    ensures WithName(s[1..], k) == WithName(s, k)
  {
  }

  lemma FirstIsLeast(t: seq<Json>, y: Json)
    requires SortedByName(t) && y in t
    ensures LexLe(NameKey(t[0]), NameKey(y))
  {
    var j :| 0 <= j < |t| && t[j] == y;
    if j == 0 { LexLeReflexive(NameKey(y)); }
  }

  /** A stable sort has only one possible result: two arrangements that are
      both sorted by name and agree on the order of every equal-name group
      are the same sequence. */
  lemma {:induction false} StableSortUnique(t1: seq<Json>, t2: seq<Json>)
    requires SortedByName(t1) && SortedByName(t2)
    requires forall k :: WithName(t1, k) == WithName(t2, k)
    ensures t1 == t2
  {
    if t1 == [] || t2 == [] {
      if t1 != [] {
        var k := NameKey(t1[0]);
        WithNameMember(t1, k, t1[0]);
      } else if t2 != [] {
        var k := NameKey(t2[0]);
        WithNameMember(t2, k, t2[0]);
      }
    } else {
      var a, b := t1[0], t2[0];
      var ka, kb := NameKey(a), NameKey(b);
      WithNameMember(t1, ka, a);
      WithNameMember(t2, ka, a);
      FirstIsLeast(t2, a);
      WithNameMember(t2, kb, b);
      WithNameMember(t1, kb, b);
      FirstIsLeast(t1, b);
      LexLeAntisymmetric(ka, kb);
      assert WithName(t1, ka) == [a] + WithName(t1[1..], ka);
      assert WithName(t2, ka) == [b] + WithName(t2[1..], ka);
      assert WithName(t1, ka) == WithName(t2, ka);
      assert WithName(t1, ka)[0] == a && WithName(t2, ka)[0] == b;
      var r1, r2 := t1[1..], t2[1..];
      forall k ensures WithName(r1, k) == WithName(r2, k) {
        if k == ka {
          assert WithName(t1, k)[1..] == WithName(r1, k);
          assert WithName(t2, k)[1..] == WithName(r2, k);
        } else {
          WithNameTail(t1, k);
          WithNameTail(t2, k);
        }
      }
      SortedTail(t1);
      SortedTail(t2);
      StableSortUnique(r1, r2);
      assert t1 == [a] + r1 && t2 == [b] + r2;
    }
  }

  /** Hence the reference sort is the result of any stable sort by name. */
  lemma StableSortIsSortByName(s: seq<Json>, t: seq<Json>)
    requires SortedByName(t)
    requires forall k :: WithName(t, k) == WithName(s, k)
    ensures t == SortByName(s)
  {
    SortByNameSorted(s);
    forall k ensures WithName(t, k) == WithName(SortByName(s), k) {
      SortByNameStable(s, k);
    }
    StableSortUnique(t, SortByName(s));
  }

  /** Sorting keeps every element valid. */
  lemma SortByNameAllGoods(s: seq<Json>)
    requires AllGoods(s)
    ensures AllGoods(SortByName(s))
  {
    var r := SortByName(s);
    forall i | 0 <= i < |r| ensures Conforms(r[i], GoodsSchema) {
      assert r[i] in multiset(s);
    }
  }
}
