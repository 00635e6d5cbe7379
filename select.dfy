/** `select_goods`: the goods of one shop, in store order. The test is
    `shop == good.get('shop', shop)`, so a good without a `shop` key is
    selected by every argument. */
module Select {
  import opened Json
  import opened Schema
  import opened Messages

  predicate Matches(g: Json, shop: string)
  {
    g.Obj? && Get(g.fields, "shop", Str(shop)) == Str(shop)
  }

  /** For a valid good the test reads: no `shop` key, or that exact shop
      (case-sensitive, whole-string equality). */
  lemma MatchesGood(g: Json, shop: string)
    requires Conforms(g, GoodsSchema)
    ensures Matches(g, shop) <==> "shop" !in g.fields || g.fields["shop"].s == shop
  {
    GoodsSchemaIsGood(g);
  }

  /** The goods that pass the test, in their order in `goods`. */
  function Selected(goods: seq<Json>, shop: string): seq<Json>
  {
    if goods == [] then []
    else (if Matches(goods[0], shop) then [goods[0]] else []) + Selected(goods[1..], shop)
  }

  /** Selecting from a concatenation selects from each part, in order: the
      selection keeps the store order. */
  lemma {:induction false} SelectedAppend(a: seq<Json>, b: seq<Json>, shop: string)
    ensures Selected(a + b, shop) == Selected(a, shop) + Selected(b, shop)
  {
    if a != [] {
      assert (a + b)[1..] == a[1..] + b;
      SelectedAppend(a[1..], b, shop);
    } else {
      assert a + b == b;
    }
  }

  /** Every occurrence of a matching good is kept and no other good is. */
  lemma {:induction false} SelectedCount(goods: seq<Json>, shop: string, x: Json)
    ensures multiset(Selected(goods, shop))[x] == if Matches(x, shop) then multiset(goods)[x] else 0
  {
    if goods != [] {
      SelectedCount(goods[1..], shop, x);
      assert goods == [goods[0]] + goods[1..];
    }
  }

  lemma SelectedMember(goods: seq<Json>, shop: string, x: Json)
    ensures x in Selected(goods, shop) <==> x in goods && Matches(x, shop)
  {
    SelectedCount(goods, shop, x);
    assert x in Selected(goods, shop) <==> x in multiset(Selected(goods, shop));
  }

  /** The selection is empty exactly when no good passes the test. */
  lemma SelectedEmpty(goods: seq<Json>, shop: string)
    ensures Selected(goods, shop) == [] <==> forall i :: 0 <= i < |goods| ==> !Matches(goods[i], shop)
  {
    if Selected(goods, shop) != [] {
      var x := Selected(goods, shop)[0];
      SelectedMember(goods, shop, x);
    } else {
      forall i | 0 <= i < |goods| ensures !Matches(goods[i], shop) {
        SelectedMember(goods, shop, goods[i]);
      }
    }
  }

  /** The loop of `select_goods`: `count` counts the goods appended to
      `result`; with none it prints the "no such shop" notice and returns
      nothing, otherwise it returns the selection. */
  method SelectGoods(goods: seq<Json>, shop: string) returns (selected: Option<seq<Json>>, count: nat, out: seq<Line>)
    requires forall i :: 0 <= i < |goods| ==> goods[i].Obj?
    ensures count == |Selected(goods, shop)|
    ensures count == 0 <==> selected.None?
    ensures count == 0 ==> out == [NoSuchShop]
    ensures count > 0 ==> selected == Some(Selected(goods, shop)) && |selected.value| == count && out == []
  {
    count := 0;
    var result: seq<Json> := [];
    for i := 0 to |goods|
      invariant result == Selected(goods[..i], shop)
      invariant count == |result|
    {
      SelectedAppend(goods[..i], [goods[i]], shop);
      assert goods[..i + 1] == goods[..i] + [goods[i]];
      if Str(shop) == Get(goods[i].fields, "shop", Str(shop)) {
        count := count + 1;
        result := result + [goods[i]];
      }
    }
    assert goods[..|goods|] == goods;
    if count == 0 {
      out := [NoSuchShop];
      selected := None;
    } else {
      out := [];
      selected := Some(result);
    }
  }
}
