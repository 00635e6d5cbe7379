/** The validate-then-accept rule of `load_goods`: every parsed item is
    checked and reported, failures are counted, and the parsed list is
    handed back only when nothing failed. */
module Load {
  import opened Json
  import opened Schema
  import opened Messages
  import opened Store

  /** The number of items that fail validation. */
  function CountInvalid(f: seq<Json>): (n: nat)
    ensures n <= |f|
    ensures n == 0 <==> AllGoods(f)
  {
    if f == [] then 0
    else CountInvalid(f[..|f| - 1]) + (if Conforms(f[|f| - 1], GoodsSchema) then 0 else 1)
  }

  /** The report line for the item at index `idx`. */
  function Report(idx: nat, item: Json): Line
  {
    if Conforms(item, GoodsSchema) then RecordOk(idx) else RecordError(idx)
  }

  /** The lines `load_goods` writes: the "validation" banner, one report
      per item in index order, and the verdict. */
  function ValidationReport(f: seq<Json>): seq<Line>
  {
    [Validating] + Reports(f) + [if CountInvalid(f) > 0 then LoadRejected else LoadAccepted]
  }

  /** The per-item report lines, for indices 0..|f|-1. */
  function Reports(f: seq<Json>): (r: seq<Line>)
    ensures |r| == |f|
  {
    if f == [] then [] else Reports(f[..|f| - 1]) + [Report(|f| - 1, f[|f| - 1])]
  }

  lemma {:induction false} ReportsAt(f: seq<Json>)
    ensures |Reports(f)| == |f|
    ensures forall i :: 0 <= i < |f| ==> Reports(f)[i] == Report(i, f[i])
  {
    if f != [] {
      var g := f[..|f| - 1];
      ReportsAt(g);
      assert forall i :: 0 <= i < |g| ==> g[i] == f[i];
    }
  }

  lemma PrefixStep(f: seq<Json>, idx: nat)
    requires idx < |f|
    ensures f[..idx + 1][..idx] == f[..idx] && f[..idx + 1][idx] == f[idx]
    ensures CountInvalid(f[..idx + 1]) == CountInvalid(f[..idx]) + (if Conforms(f[idx], GoodsSchema) then 0 else 1)
    ensures Reports(f[..idx + 1]) == Reports(f[..idx]) + [Report(idx, f[idx])]
  {
    assert f[..idx + 1][..idx] == f[..idx];
  }

  /** What `load_goods` returns: the parsed list itself, or nothing. */
  function LoadResult(f: seq<Json>): Option<seq<Json>>
  {
    if CountInvalid(f) == 0 then Some(f) else None
  }

  /** All or nothing: the list is accepted unchanged exactly when every
      item validates; otherwise nothing of it is kept. */
  lemma LoadAllOrNothing(f: seq<Json>)
    ensures LoadResult(f) == Some(f) <==> AllGoods(f)
    ensures LoadResult(f) == None <==> exists i :: 0 <= i < |f| && !Conforms(f[i], GoodsSchema)
  {
  }

  /** One item whose price is present but not a number rejects the whole
      file, and its index is reported as an error. */
  lemma BadPriceRejects(f: seq<Json>, i: nat)
    requires i < |f| && f[i].Obj? && "price" in f[i].fields && !f[i].fields["price"].Num?
    ensures LoadResult(f) == None
    ensures ValidationReport(f)[i + 1] == RecordError(i)
    ensures ValidationReport(f)[|f| + 1] == LoadRejected
  {
    GoodsSchemaIsGood(f[i]);
    ReportsAt(f);
  }

  /** The indices of the items that fail validation. */
  function InvalidIndices(f: seq<Json>): set<nat>
  {
    set i: nat | i < |f| && !Conforms(f[i], GoodsSchema)
  }

  /** The running count of the loader is the number of failing items. */
  lemma {:induction false} CountInvalidIsCardinality(f: seq<Json>)
    ensures CountInvalid(f) == |InvalidIndices(f)|
  {
    if f == [] {
      assert InvalidIndices(f) == {};
    } else {
      var g := f[..|f| - 1];
      var last := |f| - 1;
      CountInvalidIsCardinality(g);
      if Conforms(f[last], GoodsSchema) {
        assert InvalidIndices(f) == InvalidIndices(g);
      } else {
        assert InvalidIndices(f) == InvalidIndices(g) + {last};
      }
    }
  }

  lemma ValidationReportAt(f: seq<Json>, i: nat)
    requires i < |f|
    ensures ValidationReport(f)[i + 1] == Report(i, f[i])
  {
    ReportsAt(f);
    var v := ValidationReport(f);
    assert v[i + 1] == Reports(f)[i];
  }

  /** Each item is reported exactly once, in index order: OK when it
      validates, ERROR when it does not, so the ERROR lines are at the
      failing indices, as many as the error count. */
  lemma ReportAtEachIndex(f: seq<Json>)
    ensures |ValidationReport(f)| == |f| + 2
    ensures forall i :: 0 <= i < |f| ==>
      ValidationReport(f)[i + 1] == (if i in InvalidIndices(f) then RecordError(i) else RecordOk(i))
    ensures |InvalidIndices(f)| == CountInvalid(f)
  {
    CountInvalidIsCardinality(f);
    forall i | 0 <= i < |f| ensures ValidationReport(f)[i + 1] == Report(i, f[i]) {
      ValidationReportAt(f, i);
    }
  }

  /** The loop of `load_goods`. */
  method LoadGoods(f: seq<Json>) returns (result: Option<seq<Json>>, errCount: nat, out: seq<Line>)
    ensures errCount == CountInvalid(f) && errCount <= |f|
    ensures result == LoadResult(f)
    ensures result.Some? <==> AllGoods(f)
    ensures out == ValidationReport(f)
  {
    errCount := 0;
    out := [Validating];
    for idx := 0 to |f|
      invariant errCount == CountInvalid(f[..idx])
      invariant out == [Validating] + Reports(f[..idx])
    {
      PrefixStep(f, idx);
      if Conforms(f[idx], GoodsSchema) {
        out := out + [RecordOk(idx)];
      } else {
        out := out + [RecordError(idx)];
        errCount := errCount + 1;
      }
    }
    assert f[..|f|] == f;
    if errCount > 0 {
      out := out + [LoadRejected];
      result := None;
    } else {
      out := out + [LoadAccepted];
      result := Some(f);
    }
  }
}
