/** The line structure of `display_goods`: a bordered table with one row
    per good, or the "list is empty" notice. Padding and the rendering of
    cell text are not modelled; a row carries its four cell values. */
module Display {
  import opened Json
  import opened Schema
  import opened Messages
  import opened Store

  function Dashes(n: nat): string
  {
    seq(n, _ => '-')
  }

  /** The rule `'+-{}-+-{}-+-{}-+-{}-+'` filled with dash runs of the
      column widths 4, 30, 20 and 8. */
  function BorderText(): string
  {
    "+-" + Dashes(4) + "-+-" + Dashes(30) + "-+-" + Dashes(20) + "-+-" + Dashes(8) + "-+"
  }

  lemma DashesPadded(n: nat)
    ensures "-" + Dashes(n) + "-" == Dashes(n + 2)
  {
  }

  /** The rule is five `+` joined by dash runs two longer than each column
      (one blank of padding on either side of a cell): 75 characters. */
  lemma BorderShape()
    ensures BorderText() == "+" + Dashes(6) + "+" + Dashes(32) + "+" + Dashes(22) + "+" + Dashes(10) + "+"
    ensures |BorderText()| == 75
  {
    DashesPadded(4);
    DashesPadded(30);
    DashesPadded(20);
    DashesPadded(8);
    assert "+-" + Dashes(4) + "-+-" == "+" + ("-" + Dashes(4) + "-") + "+-";
  }

  /** `'| {:>4} | {:<30} | {:<20} | {:>8} |'.format(idx, good.get('name', ''),
      good.get('shop', ''), good.get('price', 0))` */
  function RowOf(idx: nat, g: Json): Line
    requires g.Obj?
  {
    Row(idx, Get(g.fields, "name", Str("")), Get(g.fields, "shop", Str("")), Get(g.fields, "price", Num(0.0)))
  }

  predicate AllObjects(s: seq<Json>)
  {
    forall i :: 0 <= i < |s| ==> s[i].Obj?
  }

  /** The rows for `s`, numbered from `first`. */
  function Rows(s: seq<Json>, first: nat): seq<Line>
    requires AllObjects(s)
  {
    if s == [] then [] else [RowOf(first, s[0])] + Rows(s[1..], first + 1)
  }

  lemma {:induction false} RowsAt(s: seq<Json>, first: nat)
    requires AllObjects(s)
    ensures |Rows(s, first)| == |s|
    ensures forall i :: 0 <= i < |s| ==> Rows(s, first)[i] == RowOf(first + i, s[i])
  {
    if s != [] {
      RowsAt(s[1..], first + 1);
    }
  }

  /** What `display_goods` prints; `None` and `[]` are both falsy. */
  function TableLines(goods: Option<seq<Json>>): seq<Line>
    requires goods.Some? ==> AllObjects(goods.value)
  {
    if goods.None? || goods.value == [] then [ListEmpty]
    else
      var rule := Border(BorderText());
      [rule, Header, rule] + Rows(goods.value, 1) + [rule]
  }

  /** A non-empty table has n + 4 lines: rule, header, rule, the goods
      numbered 1..n in store order, rule. */
  lemma TableShape(goods: seq<Json>)
    requires AllObjects(goods) && goods != []
    ensures var t := TableLines(Some(goods)); var n := |goods|;
      |t| == n + 4 &&
      t[0] == t[2] == t[n + 3] == Border(BorderText()) && t[1] == Header &&
      forall i :: 0 <= i < n ==> t[i + 3] == RowOf(i + 1, goods[i])
  {
    RowsAt(goods, 1);
  }

  /** For a valid good the row shows its name, or blank when it has none. */
  lemma RowOfGood(idx: nat, g: Json)
    requires Conforms(g, GoodsSchema)
    ensures RowOf(idx, g).index == idx && RowOf(idx, g).name == Str(NameKey(g))
  {
    NameKeyOfGood(g);
  }

  /** The loop of `display_goods`. */
  method DisplayGoods(goods: Option<seq<Json>>) returns (lines: seq<Line>)
    requires goods.Some? ==> AllObjects(goods.value)
    ensures lines == TableLines(goods)
    ensures goods.None? || goods.value == [] <==> lines == [ListEmpty]
  {
    if goods.Some? && goods.value != [] {
      var g := goods.value;
      var rule := Border("+-" + Dashes(4) + "-+-" + Dashes(30) + "-+-" + Dashes(20) + "-+-" + Dashes(8) + "-+");
      lines := [rule, Header, rule];
      for idx := 1 to |g| + 1
        invariant |lines| == idx + 2
        invariant lines[..3] == [rule, Header, rule]
        invariant forall i :: 0 <= i < idx - 1 ==> lines[i + 3] == RowOf(i + 1, g[i])
      {
        lines := lines + [RowOf(idx, g[idx - 1])];
      }
      ghost var body := lines;
      lines := lines + [rule];
      TableShape(g);
      var t := TableLines(goods);
      assert rule == Border(BorderText());
      forall i | 0 <= i < |lines| ensures lines[i] == t[i] {
        if i < 3 {
          assert lines[i] == body[..3][i];
        } else if i < |g| + 3 {
          assert lines[i] == body[i] == RowOf(i - 2, g[i - 3]);
        }
      }
    } else {
      lines := [ListEmpty];
    }
  }
}
