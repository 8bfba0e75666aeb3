/** The software-vectoring dispatcher: one switch over the recorded interrupt
    numbers, in ascending order, each case calling its forwarding handler. */
module InterruptDispatch {
  import opened InterruptIR
  import opened InterruptHandlers
  import Decimal

  predicate StrictlyAscending(sv: seq<SvEntry>) {
    forall i, j :: 0 <= i < j < |sv| ==> sv[i].id < sv[j].id
  }

  /** Inserts `e` before the first entry with a larger number. */
  function Insert(e: SvEntry, sorted: seq<SvEntry>): (r: seq<SvEntry>)
    ensures |r| == |sorted| + 1
    ensures multiset(r) == multiset(sorted) + multiset{e}
  {
    if |sorted| == 0 || e.id < sorted[0].id then [e] + sorted
    else
      assert sorted == [sorted[0]] + sorted[1..];
      [sorted[0]] + Insert(e, sorted[1..])
  }

  lemma {:induction false} InsertAscending(e: SvEntry, sorted: seq<SvEntry>)
    requires StrictlyAscending(sorted)
    requires forall x :: x in sorted ==> x.id != e.id
    ensures StrictlyAscending(Insert(e, sorted))
  {
    if |sorted| > 0 && e.id >= sorted[0].id {
      var rest := Insert(e, sorted[1..]);
      InsertAscending(e, sorted[1..]);
      forall k | 0 <= k < |rest|
        ensures rest[k].id > sorted[0].id
      {
        assert rest[k] in multiset(rest);
        assert rest[k] == e || rest[k] in multiset(sorted[1..]);
      }
    }
  }

  /** Insertion sort by interrupt number (`sort.Slice(ids, ids[i] < ids[j])`). */
  function SortById(sv: seq<SvEntry>): (r: seq<SvEntry>)
    ensures |r| == |sv|
    ensures multiset(r) == multiset(sv)
  {
    if |sv| == 0 then []
    else
      assert sv == [sv[0]] + sv[1..];
      Insert(sv[0], SortById(sv[1..]))
  }

  /** A table with distinct numbers sorts into strictly ascending order. */
  lemma {:induction false} SortAscending(sv: seq<SvEntry>)
    requires DistinctIds(sv)
    ensures StrictlyAscending(SortById(sv))
  {
    if |sv| > 0 {
      var rest := SortById(sv[1..]);
      SortAscending(sv[1..]);
      forall x | x in rest
        ensures x.id != sv[0].id
      {
        assert x in multiset(sv[1..]);
        var k :| 0 <= k < |sv[1..]| && sv[1..][k] == x;
        assert sv[k + 1] == x;
      }
      InsertAscending(sv[0], rest);
    }
  }

  function CaseBlockName(id: int): string {
    "interrupt" + Decimal.FormatInt(id)
  }

  function SwitchCases(sorted: seq<SvEntry>): (cases: seq<SwitchCase>)
    ensures |cases| == |sorted|
    ensures forall i :: 0 <= i < |sorted| ==> cases[i] == SwitchCase(sorted[i].id, CaseBlockName(sorted[i].id))
  {
    seq(|sorted|, i requires 0 <= i < |sorted| => SwitchCase(sorted[i].id, CaseBlockName(sorted[i].id)))
  }

  function CaseBlocks(sorted: seq<SvEntry>): (blocks: seq<Block>)
    ensures |blocks| == |sorted|
    ensures forall i :: 0 <= i < |sorted| ==>
      blocks[i] == Block(CaseBlockName(sorted[i].id), [Call(FuncAddr(sorted[i].handler), []), RetVoid])
  {
    seq(|sorted|, i requires 0 <= i < |sorted| =>
      Block(CaseBlockName(sorted[i].id), [Call(FuncAddr(sorted[i].handler), []), RetVoid]))
  }

  /** The dispatcher's switch: over parameter 0, one case per recorded number in sorted order. */
  function DispatchSwitch(sv: seq<SvEntry>): Inst {
    Switch("default", SwitchCases(SortById(sv)))
  }

  /** Fills in the dispatcher: the entry block holding only the switch, the
      default block, then one block per recorded number; it becomes internal
      and unnamed_addr. */
  function BuildDispatcher(fn: Function, sv: seq<SvEntry>): (r: Function)
    ensures r.linkage == Internal && r.unnamedAddr
    ensures r.isEntryType == fn.isEntryType && r.section == fn.section && r.callConv == fn.callConv
    ensures |r.blocks| == |fn.blocks| + 2 + |sv| && r.blocks[..|fn.blocks|] == fn.blocks
    ensures r.blocks[|fn.blocks|] == Block("entry", [DispatchSwitch(sv)])
    ensures r.blocks[|fn.blocks| + 1] == Block("default", [RetVoid])
    ensures forall i :: 0 <= i < |sv| ==> r.blocks[|fn.blocks| + 2 + i] == CaseBlocks(SortById(sv))[i]
  {
    var added := [Block("entry", [DispatchSwitch(sv)]), Block("default", [RetVoid])] + CaseBlocks(SortById(sv));
    assert forall i :: 0 <= i < |sv| ==> added[2 + i] == CaseBlocks(SortById(sv))[i];
    fn.(
      blocks := fn.blocks + added,
      linkage := Internal,
      unnamedAddr := true)
  }

  /** The switch cases are strictly ascending, one per recorded number. */
  lemma SwitchCasesAscending(sv: seq<SvEntry>)
    requires DistinctIds(sv)
    ensures var cases := DispatchSwitch(sv).cases;
      && |cases| == |sv|
      && forall i, j :: 0 <= i < j < |cases| ==> cases[i].id < cases[j].id
  {
    SortAscending(sv);
  }

  /** Every recorded number has a case. */
  lemma SwitchCoversTable(sv: seq<SvEntry>)
    ensures var cases := DispatchSwitch(sv).cases;
      forall e :: e in sv ==> exists i :: 0 <= i < |cases| && cases[i].id == e.id
  {
    var sorted := SortById(sv);
    var cases := SwitchCases(sorted);
    assert DispatchSwitch(sv).cases == cases;
    forall e | e in sv
      ensures exists i :: 0 <= i < |cases| && cases[i].id == e.id
    {
      assert e in multiset(sorted);
      var i :| 0 <= i < |sorted| && sorted[i] == e;
      assert cases[i].id == e.id;
    }
  }

  /** Case `i` jumps to a block that calls the handler recorded for its number, then returns. */
  lemma CaseBlocksCallHandlers(fn: Function, sv: seq<SvEntry>)
    ensures var r := BuildDispatcher(fn, sv);
      var cases := DispatchSwitch(sv).cases;
      forall i :: 0 <= i < |cases| ==>
        && r.blocks[|fn.blocks| + 2 + i].name == cases[i].dest
        && SvEntry(cases[i].id, HandlerOf(r.blocks[|fn.blocks| + 2 + i])) in sv
  {
    var sorted := SortById(sv);
    var r := BuildDispatcher(fn, sv);
    var cases := SwitchCases(sorted);
    forall i | 0 <= i < |cases|
      ensures r.blocks[|fn.blocks| + 2 + i].name == cases[i].dest
      ensures SvEntry(cases[i].id, HandlerOf(r.blocks[|fn.blocks| + 2 + i])) in sv
    {
      var b := r.blocks[|fn.blocks| + 2 + i];
      assert b == CaseBlocks(sorted)[i];
      assert HandlerOf(b) == sorted[i].handler;
      assert sorted[i] in multiset(sv);
    }
  }

  /** The handler called by a case block `[call handler(); ret void]`, or "" for any other block. */
  function HandlerOf(b: Block): string {
    if |b.insts| == 2 && b.insts[0].Call? && b.insts[0].callee.FuncAddr? && b.insts[0].args == [] && b.insts[1] == RetVoid
    then b.insts[0].callee.fn
    else ""
  }
}
