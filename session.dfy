/** The command loop of `main` and the record store it owns. The store is
    the Python variable `goods`: a list, or `None` once a rejected `load`
    has been assigned to it. */
module Inventory {
  import opened Json
  import opened Schema
  import opened Messages
  import opened Store
  import opened Select
  import opened Load
  import opened Display
  import opened Commands
  import opened Text

  /** The three answers `get_goods` reads for `add`; the price is the value
      `float()` produced. */
  datatype Entry = Entry(name: string, shop: string, price: real)

  /** The record `get_goods` builds: it always passes validation and is
      sorted under the name that was typed. */
  function NewGood(e: Entry): (g: Json)
    ensures Conforms(g, GoodsSchema) && NameKey(g) == e.name
    ensures Get(g.fields, "shop", Null) == Str(e.shop) && Get(g.fields, "price", Null) == Num(e.price)
  {
    var g := Obj(map["name" := Str(e.name), "shop" := Str(e.shop), "price" := Num(e.price)]);
    GoodsSchemaIsGood(g);
    g
  }

  /** The store after `add`: append, then sort by name when there is more
      than one good. */
  function Added(s: seq<Json>, g: Json): seq<Json>
  {
    var t := s + [g];
    if |t| > 1 then SortByName(t) else t
  }

  /** After `add` the store is a permutation of the old store plus the new
      good, sorted by name whenever it holds more than one good, with goods
      of equal name in their previous relative order. */
  lemma AddedOrdered(s: seq<Json>, g: Json)
    ensures multiset(Added(s, g)) == multiset(s + [g])
    ensures |Added(s, g)| > 1 ==> SortedByName(Added(s, g))
    ensures forall k :: WithName(Added(s, g), k) == WithName(s + [g], k)
  {
    var t := s + [g];
    if |t| > 1 {
      SortByNameSorted(t);
      forall k ensures WithName(SortByName(t), k) == WithName(t, k) {
        SortByNameStable(t, k);
      }
    }
  }

  lemma AddedAllGoods(s: seq<Json>, g: Json)
    requires AllGoods(s) && Conforms(g, GoodsSchema)
    ensures AllGoods(Added(s, g))
  {
    var t := s + [g];
    assert AllGoods(t) by {
      forall i | 0 <= i < |t| ensures Conforms(t[i], GoodsSchema) {
        if i < |s| { assert t[i] == s[i]; }
      }
    }
    if |t| > 1 { SortByNameAllGoods(t); }
  }

  lemma AllGoodsObjects(s: seq<Json>)
    requires AllGoods(s)
    ensures AllObjects(s)
  {
    forall i | 0 <= i < |s| ensures s[i].Obj? {
      GoodsSchemaIsGood(s[i]);
    }
  }

  lemma StoreObjects(goods: Option<seq<Json>>)
    requires goods.Some? ==> AllGoods(goods.value)
    ensures goods.Some? ==> AllObjects(goods.value)
  {
    if goods.Some? { AllGoodsObjects(goods.value); }
  }

  /** `select_goods` followed by `display_goods` on its result: an empty
      selection prints the "no such shop" notice and then, because `None`
      is falsy, the "list is empty" notice. */
  function SelectionLines(goods: seq<Json>, shop: string): (out: seq<Line>)
    requires AllObjects(goods)
    ensures Selected(goods, shop) == [] <==> out == [NoSuchShop, ListEmpty]
  {
    var sel := Selected(goods, shop);
    if sel == [] then [NoSuchShop] + TableLines(None)
    else
      assert AllObjects(sel) by {
        forall i | 0 <= i < |sel| ensures sel[i].Obj? { SelectedMember(goods, shop, sel[i]); }
      }
      TableLines(Some(sel))
  }

  datatype Status = Continue | Exited | Crashed

  /** One line read at the `>>> ` prompt, with what that command goes on to
      read: the answers for `add` and the array `json.load` parses for
      `load`. */
  datatype Input = Input(line: string, entry: Entry, loaded: seq<Json>)

  /** The store, the loop's status and the console lines after one turn. */
  datatype Outcome = Outcome(goods: Option<seq<Json>>, status: Status, out: seq<Line>)

  /** One turn of the `while True` loop of `main`, as a function of the
      store before it. `add` and `select` on a `None` store raise
      (`None.append`, iterating over `None`); `parts[1]` raises on a
      `save`/`load` without a file name. A `load` assigns whatever
      `load_goods` returned, `None` included. */
  function Transition(goods: Option<seq<Json>>, cmd: Command, entry: Entry, loaded: seq<Json>): (r: Outcome)
    requires goods.Some? ==> AllGoods(goods.value)
    ensures r.goods.Some? ==> AllGoods(r.goods.value)
  {
    match cmd
    case Exit => Outcome(goods, Exited, [])
    case Add =>
      if goods.None? then Outcome(None, Crashed, [])
      else
        AddedAllGoods(goods.value, NewGood(entry));
        Outcome(Some(Added(goods.value, NewGood(entry))), Continue, [])
    case List =>
      StoreObjects(goods);
      Outcome(goods, Continue, TableLines(goods))
    case SelectCmd(shop) =>
      if goods.None? then Outcome(None, Crashed, [])
      else
        AllGoodsObjects(goods.value);
        Outcome(goods, Continue, SelectionLines(goods.value, shop))
    case SaveCmd(_) => Outcome(goods, Continue, [])
    case LoadCmd(_) =>
      LoadAllOrNothing(loaded);
      Outcome(LoadResult(loaded), Continue, ValidationReport(loaded))
    case Help => Outcome(goods, Continue, [HelpText])
    case Unknown(c) => Outcome(goods, Continue, [UnknownCommand(c)])
    case MissingFileName(_) => Outcome(goods, Crashed, [])
  }

  /** Only `add` and `load` change the store; `list`, `help`, `select`,
      `save`, unknown lines, `exit` and crashes leave it as it was. */
  lemma OnlyAddAndLoadChangeStore(goods: Option<seq<Json>>, cmd: Command, entry: Entry, loaded: seq<Json>)
    requires goods.Some? ==> AllGoods(goods.value)
    requires !cmd.Add? && !cmd.LoadCmd?
    ensures Transition(goods, cmd, entry, loaded).goods == goods
  {
  }

  /** `add` on a `None` store crashes and leaves the store `None`. */
  lemma AddOnNoneCrashes(entry: Entry, loaded: seq<Json>)
    ensures Transition(None, Add, entry, loaded) == Outcome(None, Crashed, [])
  {
  }

  /** The loop stops exactly on `exit`, and crashes exactly on `add` or
      `select` with a `None` store and on a missing file name. */
  lemma TransitionStatus(goods: Option<seq<Json>>, cmd: Command, entry: Entry, loaded: seq<Json>)
    requires goods.Some? ==> AllGoods(goods.value)
    ensures var r := Transition(goods, cmd, entry, loaded);
      (r.status == Exited <==> cmd.Exit?) &&
      (r.status == Crashed <==> cmd.MissingFileName? || ((cmd.Add? || cmd.SelectCmd?) && goods.None?))
  {
  }

  /** A typed line stops the loop exactly when it lowercases to `exit`. */
  lemma ExitLine(goods: Option<seq<Json>>, input: Input)
    requires goods.Some? ==> AllGoods(goods.value)
    ensures Transition(goods, ParseCommand(input.line), input.entry, input.loaded).status == Exited
      <==> Lower(input.line) == "exit"
  {
    KeywordsExact(input.line);
    TransitionStatus(goods, ParseCommand(input.line), input.entry, input.loaded);
  }

  /** `add` on a list: the new store is the old one plus the new good,
      sorted by name when longer than one, equal names in their previous
      order. */
  lemma AddTransition(goods: seq<Json>, entry: Entry, loaded: seq<Json>)
    requires AllGoods(goods)
    ensures var r := Transition(Some(goods), Add, entry, loaded); var before := goods + [NewGood(entry)];
      r.status == Continue && r.goods.Some? &&
      multiset(r.goods.value) == multiset(before) &&
      (|r.goods.value| > 1 ==> SortedByName(r.goods.value)) &&
      forall k :: WithName(r.goods.value, k) == WithName(before, k)
  {
    AddedOrdered(goods, NewGood(entry));
  }

  /** `load` replaces the store with the parsed list when every item
      validates and with `None` otherwise, whatever the store held. */
  lemma LoadTransition(goods: Option<seq<Json>>, file: string, entry: Entry, loaded: seq<Json>)
    requires goods.Some? ==> AllGoods(goods.value)
    ensures Transition(goods, LoadCmd(file), entry, loaded).goods == Some(loaded) <==> AllGoods(loaded)
    ensures Transition(goods, LoadCmd(file), entry, loaded).goods == None <==> !AllGoods(loaded)
  {
    LoadAllOrNothing(loaded);
  }

  /** `select` that matches nothing prints two notices and nothing else. */
  lemma EmptySelectionTransition(goods: seq<Json>, shop: string, entry: Entry, loaded: seq<Json>)
    requires AllGoods(goods)
    requires forall i :: 0 <= i < |goods| ==> !Matches(goods[i], shop)
    ensures Transition(Some(goods), SelectCmd(shop), entry, loaded).out == [NoSuchShop, ListEmpty]
  {
    SelectedEmpty(goods, shop);
  }

  /** One turn's recognised command, with what that command goes on to
      read. */
  datatype Turn = Turn(cmd: Command, entry: Entry, loaded: seq<Json>)

  /** Each typed line lowercased and recognised. */
  function Parsed(inputs: seq<Input>): seq<Turn>
  {
    seq(|inputs|, j requires 0 <= j < |inputs| => Turn(ParseCommand(inputs[j].line), inputs[j].entry, inputs[j].loaded))
  }

  /** A parsed turn is `exit` exactly when its line lowercases to `exit`. */
  lemma ParsedExit(inputs: seq<Input>)
    ensures forall j :: 0 <= j < |inputs| ==> (Parsed(inputs)[j].cmd == Exit <==> Lower(inputs[j].line) == "exit")
  {
    forall j | 0 <= j < |inputs| ensures Parsed(inputs)[j].cmd == Exit <==> Lower(inputs[j].line) == "exit" {
      KeywordsExact(inputs[j].line);
    }
  }

  /** The store, the loop's status and the console lines once the loop
      has stopped or the input has run out, with the number of command lines read. */
  datatype RunResult = RunResult(goods: Option<seq<Json>>, status: Status, out: seq<Line>, consumed: nat)

  /** `r` with `out` printed and `n` command lines read before it. */
  function Preceded(out: seq<Line>, n: nat, r: RunResult): RunResult
  {
    RunResult(r.goods, r.status, out + r.out, n + r.consumed)
  }

  /** The `while True` loop of `main` over a finite stream of recognised
      commands: one `Transition` per turn, until a turn exits or crashes. */
  function RunFrom(goods: Option<seq<Json>>, turns: seq<Turn>): (r: RunResult)
    requires goods.Some? ==> AllGoods(goods.value)
    ensures r.goods.Some? ==> AllGoods(r.goods.value)
    ensures r.consumed <= |turns|
    decreases |turns|
  {
    if turns == [] then RunResult(goods, Continue, [], 0)
    else
      var t := Transition(goods, turns[0].cmd, turns[0].entry, turns[0].loaded);
      if t.status != Continue then RunResult(t.goods, t.status, t.out, 1)
      else Preceded(t.out, 1, RunFrom(t.goods, turns[1..]))
  }

  /** One turn of the fold, taken at position `c`. */
  lemma RunFromStep(goods: Option<seq<Json>>, turns: seq<Turn>, c: nat)
    requires goods.Some? ==> AllGoods(goods.value)
    requires c < |turns|
    ensures var t := Transition(goods, turns[c].cmd, turns[c].entry, turns[c].loaded);
      RunFrom(goods, turns[c..]) ==
        if t.status != Continue then RunResult(t.goods, t.status, t.out, 1)
        else Preceded(t.out, 1, RunFrom(t.goods, turns[c + 1..]))
  {
    assert turns[c..][0] == turns[c];
    assert turns[c..][1..] == turns[c + 1..];
  }

  lemma PrecededTwice(a: seq<Line>, n: nat, b: seq<Line>, m: nat, r: RunResult)
    ensures Preceded(a, n, Preceded(b, m, r)) == Preceded(a + b, n + m, r)
  {
    assert a + (b + r.out) == (a + b) + r.out;
  }

  /** The loop reads every turn unless it stops, and it stops only after
      reading at least one. */
  lemma {:induction false} RunFromConsumed(goods: Option<seq<Json>>, turns: seq<Turn>)
    requires goods.Some? ==> AllGoods(goods.value)
    ensures RunFrom(goods, turns).status == Continue ==> RunFrom(goods, turns).consumed == |turns|
    ensures RunFrom(goods, turns).status != Continue ==> RunFrom(goods, turns).consumed > 0
    decreases |turns|
  {
    if turns != [] {
      var t := Transition(goods, turns[0].cmd, turns[0].entry, turns[0].loaded);
      if t.status == Continue {
        RunFromConsumed(t.goods, turns[1..]);
      }
    }
  }

  /** The loop ends in `Exited` exactly when the last turn it read is
      `exit`, and no earlier turn it read is. */
  lemma {:induction false} RunFromExit(goods: Option<seq<Json>>, turns: seq<Turn>)
    requires goods.Some? ==> AllGoods(goods.value)
    ensures var r := RunFrom(goods, turns);
      r.status == Exited <==> r.consumed > 0 && turns[r.consumed - 1].cmd == Exit
    ensures var r := RunFrom(goods, turns);
      forall j :: 0 <= j < r.consumed && (r.status == Continue || j < r.consumed - 1) ==> turns[j].cmd != Exit
    decreases |turns|
  {
    if turns != [] {
      TransitionStatus(goods, turns[0].cmd, turns[0].entry, turns[0].loaded);
      var t := Transition(goods, turns[0].cmd, turns[0].entry, turns[0].loaded);
      if t.status == Continue {
        var rest := turns[1..];
        RunFromExit(t.goods, rest);
        RunFromConsumed(t.goods, rest);
        var r := RunFrom(goods, turns);
        forall j | 1 <= j < r.consumed ensures turns[j] == rest[j - 1] { }
      }
    }
  }

  /** A crash happens on an `add`, a `select` or a `save`/`load` without a
      file name, and it is the last turn the loop reads. */
  lemma {:induction false} RunFromCrash(goods: Option<seq<Json>>, turns: seq<Turn>)
    requires goods.Some? ==> AllGoods(goods.value)
    ensures var r := RunFrom(goods, turns);
      var last := r.consumed - 1;
      r.status == Crashed ==>
        (r.consumed > 0 && (turns[last].cmd.Add? || turns[last].cmd.SelectCmd? || turns[last].cmd.MissingFileName?))
    decreases |turns|
  {
    if turns != [] {
      TransitionStatus(goods, turns[0].cmd, turns[0].entry, turns[0].loaded);
      var t := Transition(goods, turns[0].cmd, turns[0].entry, turns[0].loaded);
      if t.status == Continue {
        RunFromCrash(t.goods, turns[1..]);
        RunFromConsumed(t.goods, turns[1..]);
        var r := RunFrom(goods, turns);
        if r.status == Crashed {
          assert turns[r.consumed - 1] == turns[1..][r.consumed - 2];
        }
      }
    }
  }

  /** What is left of the fold after one more turn has been executed. */
  lemma RunFromAdvance(g0: Option<seq<Json>>, turns: seq<Turn>, out: seq<Line>, c: nat,
                       goods: Option<seq<Json>>, after: Outcome)
    requires g0.Some? ==> AllGoods(g0.value)
    requires goods.Some? ==> AllGoods(goods.value)
    requires c < |turns|
    requires RunFrom(g0, turns) == Preceded(out, c, RunFrom(goods, turns[c..]))
    requires after == Transition(goods, turns[c].cmd, turns[c].entry, turns[c].loaded)
    ensures after.status != Continue ==>
      RunFrom(g0, turns) == RunResult(after.goods, after.status, out + after.out, c + 1)
    ensures after.status == Continue ==>
      RunFrom(g0, turns) == Preceded(out + after.out, c + 1, RunFrom(after.goods, turns[c + 1..]))
  {
    RunFromStep(goods, turns, c);
    if after.status == Continue {
      PrecededTwice(out, c, after.out, 1, RunFrom(after.goods, turns[c + 1..]));
    }
  }

  /** How the loop stops on typed lines: it reads all of them unless it
      stops; it stops in `Exited` exactly when the last line read
      lowercases to `exit`; and no earlier line read does. */
  predicate StopsAtExit(inputs: seq<Input>, consumed: nat, status: Status)
  {
    consumed <= |inputs| &&
    (status == Continue ==> consumed == |inputs|) &&
    (status == Exited <==> consumed > 0 && Lower(inputs[consumed - 1].line) == "exit") &&
    forall j :: 0 <= j < consumed && (status == Continue || j < consumed - 1) ==> Lower(inputs[j].line) != "exit"
  }

  lemma RunFromLines(goods: Option<seq<Json>>, inputs: seq<Input>)
    requires goods.Some? ==> AllGoods(goods.value)
    ensures var r := RunFrom(goods, Parsed(inputs)); StopsAtExit(inputs, r.consumed, r.status)
  {
    RunFromConsumed(goods, Parsed(inputs));
    RunFromExit(goods, Parsed(inputs));
    ParsedExit(inputs);
  }

  class Session {
    var goods: Option<seq<Json>>

    /** Every good in the store passes the schema: `add` builds valid
        records and `load` keeps a list only when all of it validated. */
    ghost predicate Valid()
      reads this
    {
      goods.Some? ==> AllGoods(goods.value)
    }

    constructor ()
      ensures Valid() && goods == Some([])
    {
      goods := Some([]);
    }

    /** `goods.append(good)` and the conditional `goods.sort(...)`; on
        `None` the `append` raises. */
    method AddGood(e: Entry) returns (status: Status)
      requires Valid()
      modifies this
      ensures Valid()
      ensures old(goods).None? ==> status == Crashed && goods == None
      ensures old(goods).Some? ==> status == Continue && goods == Some(Added(old(goods).value, NewGood(e)))
    {
      if goods.None? {
        return Crashed;
      }
      var good := NewGood(e);
      AddedAllGoods(goods.value, good);
      goods := Some(goods.value + [good]);
      if |goods.value| > 1 {
        goods := Some(SortByName(goods.value));
      }
      status := Continue;
    }

    /** The body of the `if`/`elif` chain of `main` for one recognised
        command, with the answers `add` reads and the list `load` parses. */
    method Execute(cmd: Command, entry: Entry, loaded: seq<Json>) returns (status: Status, out: seq<Line>)
      requires Valid()
      modifies this
      ensures Valid()
      ensures Outcome(goods, status, out) == Transition(old(goods), cmd, entry, loaded)
    {
      out := [];
      match cmd
      case Exit =>
        status := Exited;
      case Add =>
        status := AddGood(entry);
      case List =>
        StoreObjects(goods);
        out := DisplayGoods(goods);
        status := Continue;
      case SelectCmd(shop) =>
        if goods.None? {
          status := Crashed;
        } else {
          AllGoodsObjects(goods.value);
          var selected, count, notices := SelectGoods(goods.value, shop);
          if selected.Some? {
            assert AllObjects(selected.value) by {
              forall i | 0 <= i < |selected.value| ensures selected.value[i].Obj? {
                SelectedMember(goods.value, shop, selected.value[i]);
              }
            }
          }
          var table := DisplayGoods(selected);
          out := notices + table;
          status := Continue;
        }
      case SaveCmd(_) =>
        // json.dump of the store to the named file
        status := Continue;
      case LoadCmd(_) =>
        var result, errCount, report := LoadGoods(loaded);
        goods := result;
        out := report;
        status := Continue;
      case Help =>
        out := [HelpText];
        status := Continue;
      case Unknown(c) =>
        out := [UnknownCommand(c)];
        status := Continue;
      case MissingFileName(_) =>
        status := Crashed;
    }

    /** The `while True` loop over a finite stream of input lines: each line
        is lowercased and recognised, then executed; the loop stops after
        `exit`, after a crash, or when the input runs out, and never reads
        past an `exit`. */
    method Run(inputs: seq<Input>) returns (consumed: nat, status: Status, out: seq<Line>)
      requires Valid()
      modifies this
      ensures Valid()
      ensures RunResult(goods, status, out, consumed) == RunFrom(old(goods), Parsed(inputs))
      ensures StopsAtExit(inputs, consumed, status)
    {
      ghost var turns := Parsed(inputs);
      consumed, status, out := 0, Continue, [];
      while consumed < |inputs| && status == Continue
        invariant Valid()
        invariant consumed <= |inputs|
        invariant status != Continue ==> RunFrom(old(goods), turns) == RunResult(goods, status, out, consumed)
        invariant status == Continue ==>
          RunFrom(old(goods), turns) == Preceded(out, consumed, RunFrom(goods, turns[consumed..]))
        decreases |inputs| - consumed
      {
        var input := inputs[consumed];
        var cmd := ParseCommand(input.line);
        assert turns[consumed] == Turn(cmd, input.entry, input.loaded);
        ghost var before := goods;
        var lines;
        status, lines := Execute(cmd, input.entry, input.loaded);
        RunFromAdvance(old(goods), turns, out, consumed, before, Outcome(goods, status, lines));
        out := out + lines;
        consumed := consumed + 1;
      }
      if status == Continue {
        assert turns[consumed..] == [];
        assert out + [] == out;
      }
      RunFromLines(old(goods), inputs);
    }
  }

  lemma LowerLiterals()
    ensures Lower("add") == "add" && Lower("list") == "list" && Lower("load f") == "load f"
  {
  }

  lemma DispatchLoadLiteral()
    ensures Dispatch("load f") == LoadCmd("f")
  {
    FileArgument(" ", "f");
    assert "load" + " " + "f" == "load f";
  }

  /** The command lines the scenarios below type. */
  lemma ParseLiterals()
    ensures ParseCommand("add").Add? && ParseCommand("list").List?
    ensures ParseCommand("load f") == LoadCmd("f")
  {
    LowerLiterals();
    DispatchLoadLiteral();
  }

  lemma ExitLiteral()
    ensures ParseCommand("EXIT") == Exit
  {
    assert Lower("EXIT") == "exit";
    KeywordsExact("EXIT");
  }

  /** The lines `list`, `EXIT`, `add` from a fresh store: the empty notice
      is printed, the loop stops on the second line, and the third is never
      read. */
  lemma ListThenExitRun(e: Entry)
    ensures RunFrom(Some([]), Parsed([Input("list", e, []), Input("EXIT", e, []), Input("add", e, [])]))
      == RunResult(Some([]), Exited, [ListEmpty], 2)
  {
    var inputs := [Input("list", e, []), Input("EXIT", e, []), Input("add", e, [])];
    var turns := Parsed(inputs);
    assert |turns| == 3;
    assert turns[0] == Turn(ParseCommand("list"), e, []);
    assert turns[1] == Turn(ParseCommand("EXIT"), e, []);
    ParseLiterals();
    ExitLiteral();
    assert turns[0..] == turns;
    RunFromStep(Some([]), turns, 0);
    RunFromStep(Some([]), turns, 1);
  }

  /** Goods named `Bread` and `Apple` sort to `Apple`, `Bread`. */
  lemma SortTwo(bread: Json, apple: Json)
    requires NameKey(bread) == "Bread" && NameKey(apple) == "Apple"
    ensures SortByName([bread, apple]) == [apple, bread]
  {
    assert [bread, apple][1..] == [apple];
    assert SortByName([apple]) == [apple];
    assert !LexLe("Bread", "Apple");
  }

  lemma AddOutcome(goods: seq<Json>, e: Entry, loaded: seq<Json>)
    requires AllGoods(goods)
    ensures Transition(Some(goods), Add, e, loaded) == Outcome(Some(Added(goods, NewGood(e))), Continue, [])
  {
  }

  lemma AddToEmpty(e: Entry)
    ensures Transition(Some([]), Add, e, []) == Outcome(Some([NewGood(e)]), Continue, [])
  {
    AddOutcome([], e, []);
    assert Added([], NewGood(e)) == [NewGood(e)];
  }

  lemma AppleBeforeBread(eb: Entry, ea: Entry)
    requires eb.name == "Bread" && ea.name == "Apple"
    ensures Added([NewGood(eb)], NewGood(ea)) == [NewGood(ea), NewGood(eb)]
  {
    var bread, apple := NewGood(eb), NewGood(ea);
    assert [bread] + [apple] == [bread, apple];
    SortTwo(bread, apple);
  }

  lemma AddAppleAfterBread(eb: Entry, ea: Entry)
    requires eb.name == "Bread" && ea.name == "Apple"
    ensures Transition(Some([NewGood(eb)]), Add, ea, []).goods == Some([NewGood(ea), NewGood(eb)])
  {
    AddOutcome([NewGood(eb)], ea, []);
    AppleBeforeBread(eb, ea);
  }

  lemma ListTwo(a: Json, b: Json, e: Entry)
    requires Conforms(a, GoodsSchema) && Conforms(b, GoodsSchema)
    ensures var out := Transition(Some([a, b]), List, e, []).out;
      |out| == 6 && out[3] == RowOf(1, a) && out[4] == RowOf(2, b)
  {
    AllGoodsObjects([a, b]);
    TableShape([a, b]);
    var t := TableLines(Some([a, b]));
    assert t[0 + 3] == RowOf(0 + 1, [a, b][0]);
    assert t[1 + 3] == RowOf(1 + 1, [a, b][1]);
  }

  /** Two goods added out of order are listed in name order, numbered
      from 1. */
  method AddTwiceThenList() returns (out: seq<Line>)
    ensures |out| == 6
    ensures out[3] == Row(1, Str("Apple"), Str("Market"), Num(1.0))
    ensures out[4] == Row(2, Str("Bread"), Str("CoOp"), Num(2.5))
  {
    ParseLiterals();
    var eb, ea := Entry("Bread", "CoOp", 2.5), Entry("Apple", "Market", 1.0);
    AddToEmpty(eb);
    AddAppleAfterBread(eb, ea);
    ListTwo(NewGood(ea), NewGood(eb), ea);
    assert RowOf(1, NewGood(ea)) == Row(1, Str("Apple"), Str("Market"), Num(1.0));
    assert RowOf(2, NewGood(eb)) == Row(2, Str("Bread"), Str("CoOp"), Num(2.5));
    var session := new Session();
    var status, lines := session.Execute(ParseCommand("add"), eb, []);
    status, lines := session.Execute(ParseCommand("add"), ea, []);
    status, out := session.Execute(ParseCommand("list"), ea, []);
  }

  /** The loop run on `list`, `EXIT`, `add` from a fresh session. */
  method ListThenExit(e: Entry) returns (consumed: nat, status: Status, out: seq<Line>, goods: Option<seq<Json>>)
    ensures consumed == 2 && status == Exited && out == [ListEmpty] && goods == Some([])
  {
    var session := new Session();
    consumed, status, out := session.Run([Input("list", e, []), Input("EXIT", e, []), Input("add", e, [])]);
    goods := session.goods;
    ListThenExitRun(e);
  }

  /** A rejected `load` assigns `None` to the store, so the next `add`
      crashes instead of appending to the old goods. */
  method RejectedLoadThenAdd(e: Entry) returns (status: Status)
    ensures status == Crashed
  {
    ParseLiterals();
    var bad := [Obj(map["price" := Str("cheap")])];
    BadPriceRejects(bad, 0);
    var session := new Session();
    var lines;
    status, lines := session.Execute(ParseCommand("load f"), e, bad);
    assert session.goods == None;
    status, lines := session.Execute(ParseCommand("add"), e, []);
  }
}
