/** Lowering of `select` statements: the per-case state array, the shared
    receive buffer, the blocking or non-blocking runtime call, and the
    extraction of results from the call's tuple. */
module ChannelSelect {
  import opened ChannelIR

  datatype SelectCase =
    | RecvCase(ch: Operand, elem: Ty)                      // `case v := <-ch`
    | SendCase(ch: Operand, value: Operand, valueTy: Ty)   // `case ch <- value`

  /** A select statement: `id` identifies it in the frame's side table. */
  datatype SelectStmt = SelectStmt(id: nat, cases: seq<SelectCase>, blocking: bool)

  /** The frame's side table from a select to its receive buffer. */
  type RecvBufTable = map<nat, Operand>

  /** What walking the cases produces: the send-value stores, one state per
      case, and the receive buffer's size and alignment so far. */
  datatype Scan = Scan(ops: Code, states: seq<Operand>, size: nat, align: nat, hasReceives: bool, next: nat)

  predicate HasReceive(cases: seq<SelectCase>) {
    exists i :: 0 <= i < |cases| && cases[i].RecvCase?
  }

  /** Walks the cases in order. A receive widens the receive buffer; a send
      stores its value in an entry-block alloca whose address goes in the state. */
  function ScanCases(cases: seq<SelectCase>, layout: Layout, start: nat): (r: Scan)
    ensures |r.states| == |cases| && start <= r.next
    decreases |cases|
  {
    if |cases| == 0 then Scan(Empty, [], 0, 0, false, start)
    else ScanNext(ScanCases(cases[..|cases| - 1], layout, start), cases[|cases| - 1], layout)
  }

  /** One case of the walk. */
  function ScanNext(prev: Scan, c: SelectCase, layout: Layout): (r: Scan)
    ensures |r.states| == |prev.states| + 1 && prev.next <= r.next
  {
    match c
    case RecvCase(ch, elem) =>
      var size := layout.allocSize(elem);
      var align := layout.abiAlign(elem);
      Scan(prev.ops, prev.states + [SelectState(ch, NullPtr)],
           if size > prev.size then size else prev.size,
           if align > prev.align then align else prev.align,
           true, prev.next)
    case SendCase(ch, value, valueTy) =>
      var b := prev.next;
      Scan(Then(Then(prev.ops, EntryAlloca(b, valueTy)), Store(value, Buf(b))),
           prev.states + [SelectState(ch, Buf(b))],
           prev.size, prev.align, prev.hasReceives, b + 1)
  }

  /** One step of the walk: the new state holds the case's channel. A receive
      keeps the code, takes a null payload and raises the buffer's size and
      alignment to its element's when larger, so each is the larger of the
      two. A send leaves the buffer alone and stores its value in a fresh
      entry-block alloca whose address is the payload. */
  lemma ScanNextStep(prev: Scan, c: SelectCase, layout: Layout)
    ensures var r := ScanNext(prev, c, layout);
      && r.states[..|prev.states|] == prev.states && r.states[|prev.states|].SelectState?
      && r.states[|prev.states|].ch == c.ch
      && r.hasReceives == (prev.hasReceives || c.RecvCase?)
      && prev.size <= r.size && prev.align <= r.align
      && (c.RecvCase? ==>
            && layout.allocSize(c.elem) <= r.size && layout.abiAlign(c.elem) <= r.align
            && (r.size == prev.size || r.size == layout.allocSize(c.elem))
            && (r.align == prev.align || r.align == layout.abiAlign(c.elem))
            && r.states[|prev.states|].payload == NullPtr
            && r.ops == prev.ops && r.next == prev.next)
      && (c.SendCase? ==>
            && r.size == prev.size && r.align == prev.align
            && r.states[|prev.states|].payload == Buf(prev.next) && r.next == prev.next + 1
            && ToSeq(r.ops) == ToSeq(prev.ops) + [EntryAlloca(prev.next, c.valueTy), Store(c.value, Buf(prev.next))])
  {
    var r := ScanNext(prev, c, layout);
    if c.SendCase? {
      assert ToSeq(r.ops) == ToSeq(prev.ops) + [EntryAlloca(prev.next, c.valueTy), Store(c.value, Buf(prev.next))];
    }
  }

  /** A receive buffer exists exactly when some case receives. */
  lemma {:induction false} ScanReceives(cases: seq<SelectCase>, layout: Layout, start: nat)
    ensures ScanCases(cases, layout, start).hasReceives <==> HasReceive(cases)
    decreases |cases|
  {
    if |cases| > 0 {
      var init := cases[..|cases| - 1];
      ScanReceives(init, layout, start);
      assert forall i :: 0 <= i < |init| ==> init[i] == cases[i];
      if HasReceive(init) {
        var i :| 0 <= i < |init| && init[i].RecvCase?;
        assert cases[i].RecvCase?;
      }
    }
  }

  /** The receive buffer is as large and as aligned as every receive case needs. */
  lemma {:induction false} ScanCovers(cases: seq<SelectCase>, layout: Layout, start: nat)
    ensures var r := ScanCases(cases, layout, start);
      forall i :: 0 <= i < |cases| && cases[i].RecvCase? ==>
        layout.allocSize(cases[i].elem) <= r.size && layout.abiAlign(cases[i].elem) <= r.align
    decreases |cases|
  {
    if |cases| > 0 {
      var init := cases[..|cases| - 1];
      ScanCovers(init, layout, start);
      assert forall i :: 0 <= i < |init| ==> init[i] == cases[i];
    }
  }

  /** ... and no larger: the size and the alignment are each some receive
      case's own, or zero when nothing is received. */
  lemma {:induction false} ScanAttains(cases: seq<SelectCase>, layout: Layout, start: nat)
    ensures var r := ScanCases(cases, layout, start);
      && (r.size == 0 || exists i :: 0 <= i < |cases| && cases[i].RecvCase? && layout.allocSize(cases[i].elem) == r.size)
      && (r.align == 0 || exists i :: 0 <= i < |cases| && cases[i].RecvCase? && layout.abiAlign(cases[i].elem) == r.align)
      && (!r.hasReceives ==> r.size == 0 && r.align == 0)
    decreases |cases|
  {
    if |cases| > 0 {
      var init := cases[..|cases| - 1];
      ScanAttains(init, layout, start);
      assert forall i :: 0 <= i < |init| ==> init[i] == cases[i];
    }
  }

  /** The state of case `c` in the walk whose instructions are `ops`: field 0
      is the case's channel, field 1 is null for a receive and, for a send, the
      address of an entry-block buffer the sent value is stored in. */
  predicate CaseState(c: SelectCase, s: Operand, ops: seq<Op>) {
    && s.SelectState?
    && s.ch == c.ch
    && (c.RecvCase? <==> s.payload == NullPtr)
    && (c.SendCase? ==>
          && s.payload.Buf?
          && EntryAlloca(s.payload.id, c.valueTy) in ops
          && Store(c.value, s.payload) in ops)
  }

  lemma CaseStateGrows(c: SelectCase, s: Operand, ops: seq<Op>, more: seq<Op>)
    requires CaseState(c, s, ops) && forall x :: x in ops ==> x in more
    ensures CaseState(c, s, more)
  {
  }

  /** One state per case, in case order. */
  lemma {:induction false} ScanStates(cases: seq<SelectCase>, layout: Layout, start: nat)
    ensures var r := ScanCases(cases, layout, start);
      forall i :: 0 <= i < |cases| ==> CaseState(cases[i], r.states[i], ToSeq(r.ops))
    decreases |cases|
  {
    if |cases| > 0 {
      var init := cases[..|cases| - 1];
      var prev := ScanCases(init, layout, start);
      var r := ScanCases(cases, layout, start);
      ScanStates(init, layout, start);
      NextStates(prev, cases[|cases| - 1], layout);
      forall i | 0 <= i < |cases|
        ensures CaseState(cases[i], r.states[i], ToSeq(r.ops))
      {
        if i < |init| {
          assert init[i] == cases[i];
          CaseStateGrows(cases[i], prev.states[i], ToSeq(prev.ops), ToSeq(r.ops));
        }
      }
    }
  }

  /** One step of the walk keeps the earlier states and instructions and adds
      the state of the new case. */
  lemma NextStates(prev: Scan, c: SelectCase, layout: Layout)
    ensures var r := ScanNext(prev, c, layout);
      && (forall i :: 0 <= i < |prev.states| ==> r.states[i] == prev.states[i])
      && (forall op :: op in ToSeq(prev.ops) ==> op in ToSeq(r.ops))
      && CaseState(c, r.states[|prev.states|], ToSeq(r.ops))
  {
  }

  /** The ids the cases read: every channel and every sent value. */
  function CaseIds(cases: seq<SelectCase>): set<nat> {
    if |cases| == 0 then {}
    else
      var c := cases[|cases| - 1];
      CaseIds(cases[..|cases| - 1]) + OperandIds(c.ch) + (if c.SendCase? then OperandIds(c.value) else {})
  }

  function StateIds(states: seq<Operand>): set<nat> {
    if |states| == 0 then {} else StateIds(states[..|states| - 1]) + OperandIds(states[|states| - 1])
  }

  lemma {:induction false} StateIdsSnoc(states: seq<Operand>, x: Operand)
    ensures StateIds(states + [x]) == StateIds(states) + OperandIds(x)
  {
    assert (states + [x])[..|states|] == states;
  }

  /** The walk so far is scoped, calls and ends nothing, allocates no
      temporary, and its states read only live ids. */
  predicate ScanInScope(r: Scan, start: nat, env: set<nat>) {
    && Summarized(r.ops, env, start, Summary(Top(r.ops, start), Defs(r.ops), {}, {}, []))
    && Top(r.ops, start) <= r.next
    && StateIds(r.states) <= env + Defs(r.ops)
  }

  lemma NextScoped(prev: Scan, c: SelectCase, layout: Layout, start: nat, env: set<nat>)
    requires ScanInScope(prev, start, env)
    requires OperandIds(c.ch) <= env && (c.SendCase? ==> OperandIds(c.value) <= env)
    ensures ScanInScope(ScanNext(prev, c, layout), start, env)
  {
    match c
    case RecvCase(ch, elem) =>
      StateIdsSnoc(prev.states, SelectState(ch, NullPtr));
    case SendCase(ch, value, valueTy) =>
      SendScoped(prev.ops, prev.states, prev.size, prev.align, prev.hasReceives, prev.next, ch, value, valueTy, start, env);
  }

  /** A send case keeps the walk in scope: its buffer is fresh, and its store
      reads the sent value and that buffer. */
  lemma SendScoped(ops: Code, states: seq<Operand>, size: nat, align: nat, hasReceives: bool, b: nat,
                   ch: Operand, value: Operand, valueTy: Ty, start: nat, env: set<nat>)
    requires ScanInScope(Scan(ops, states, size, align, hasReceives, b), start, env)
    requires OperandIds(ch) <= env && OperandIds(value) <= env
    ensures ScanInScope(Scan(Then(Then(ops, EntryAlloca(b, valueTy)), Store(value, Buf(b))),
                             states + [SelectState(ch, Buf(b))], size, align, hasReceives, b + 1), start, env)
  {
    var sum := Summary(Top(ops, start), Defs(ops), {}, {}, []);
    var sum1 := Summary(b + 1, sum.defs + {b}, {}, {}, []);
    var c1 := Then(ops, EntryAlloca(b, valueTy));
    EntryNext(ops, env, start, sum, b, valueTy);
    assert UsedIds(Store(value, Buf(b))) <= env + sum1.defs;
    UseNext(c1, env, start, sum1, Store(value, Buf(b)));
    SendStateScoped(states, ch, b, env, sum.defs);
  }

  /** A send case's state reads its channel and its fresh buffer. */
  lemma SendStateScoped(states: seq<Operand>, ch: Operand, b: nat, env: set<nat>, defs: set<nat>)
    requires StateIds(states) <= env + defs && OperandIds(ch) <= env
    ensures StateIds(states + [SelectState(ch, Buf(b))]) <= env + (defs + {b})
  {
    StateIdsSnoc(states, SelectState(ch, Buf(b)));
  }

  /** The value stores read only the sent values and their fresh buffers and
      end nothing; the states read only live ids. */
  lemma {:induction false} ScanScoped(cases: seq<SelectCase>, layout: Layout, start: nat, env: set<nat>)
    requires CaseIds(cases) <= env
    ensures ScanInScope(ScanCases(cases, layout, start), start, env)
    decreases |cases|
  {
    if |cases| > 0 {
      var init := cases[..|cases| - 1];
      ScanScoped(init, layout, start, env);
      NextScoped(ScanCases(init, layout, start), cases[|cases| - 1], layout, start, env);
    } else {
      SummarizedEmpty(env, start);
    }
  }

  // ---------------------------------------------------------------------------
  // The select's instructions, stage by stage, each appended to the code before.

  /** The receive buffer, present only when some case receives: a byte array of
      the largest receive size, aligned for the most demanding receive type. */
  function RecvBufferCode(p: Code, scan: Scan, layout: Layout): Code {
    if scan.hasReceives then
      var t := ByteArray(scan.size);
      Then(Then(p, TempAlloca(scan.next, t, layout.allocSize(t))), SetAlignment(scan.next, scan.align))
    else p
  }

  /** The address passed to the runtime as the receive buffer: element 0 of
      the byte array, or undef when nothing is received. */
  function RecvBuffer(scan: Scan): Operand {
    if scan.hasReceives then ElemAddr(scan.next, 0) else Undef
  }

  /** The id of the states array, which follows the receive buffer. */
  function StatesBuf(scan: Scan): nat {
    if scan.hasReceives then scan.next + 1 else scan.next
  }

  /** `states[i] = state` for each case, in order. */
  function StoreStates(p: Code, states: seq<Operand>, sb: nat): Code
    decreases |states|
  {
    if |states| == 0 then p
    else Then(StoreStates(p, states[..|states| - 1], sb), Store(states[|states| - 1], ElemAddr(sb, |states| - 1)))
  }

  /** The same stores as a list. */
  function StoreSeq(states: seq<Operand>, sb: nat): (r: seq<Op>)
    ensures |r| == |states|
  {
    seq(|states|, i requires 0 <= i < |states| => Store(states[i], ElemAddr(sb, i)))
  }

  /** The id of the runtime call's result. */
  function CallId(sb: nat, blocking: bool): nat {
    if blocking then sb + 2 else sb + 1
  }

  function ChanSelectArgs(recvbuf: Operand, sb: nat, n: nat): seq<Operand> {
    [recvbuf, ElemAddr(sb, 0), ConstInt(n), ConstInt(n), ElemAddr(sb + 1, 0), ConstInt(n), ConstInt(n)]
  }

  function TryChanSelectArgs(recvbuf: Operand, sb: nat, n: nat): seq<Operand> {
    [recvbuf, ElemAddr(sb, 0), ConstInt(n), ConstInt(n)]
  }

  /** The runtime call, with the blocked-list array a blocking select needs
      and whose lifetime ends right after the call. */
  function CallCode(p: Code, layout: Layout, recvbuf: Operand, sb: nat, n: nat, blocking: bool): Code {
    if blocking then
      var bt := BlockedListArray(n);
      Then(Then(Then(p,
        TempAlloca(sb + 1, bt, layout.allocSize(bt))),
        RuntimeCall(ChanSelect, ChanSelectArgs(recvbuf, sb, n), sb + 2)),
        LifetimeEnd(sb + 1, layout.allocSize(bt)))
    else
      Then(p, RuntimeCall(TryChanSelect, TryChanSelectArgs(recvbuf, sb, n), sb + 1))
  }

  /** The value stores, the receive buffer, and the filled states array. */
  function StatesCode(scan: Scan, layout: Layout): Code {
    var sb := StatesBuf(scan);
    var st := StateArray(|scan.states|);
    StoreStates(Then(RecvBufferCode(scan.ops, scan, layout), TempAlloca(sb, st, layout.allocSize(st))), scan.states, sb)
  }

  /** Everything a select with at least one case emits, in order: the states
      array's lifetime ends after the runtime call. */
  function SelectCode(scan: Scan, layout: Layout, blocking: bool): Code {
    var sb := StatesBuf(scan);
    var n := |scan.states|;
    Then(CallCode(StatesCode(scan, layout), layout, RecvBuffer(scan), sb, n, blocking),
         LifetimeEnd(sb, layout.allocSize(StateArray(n))))
  }

  datatype SelectEmission = SelectEmission(em: Emitter, value: Operand, table: RecvBufTable)

  /** Lowers a select. Without cases, a blocking select deadlocks and a
      non-blocking one yields index -1; otherwise the states array is handed to
      the runtime and the receive buffer is recorded for later extracts. */
  function EmitSelect(e: Emitter, layout: Layout, table: RecvBufTable, sel: SelectStmt): (r: SelectEmission)
    ensures |sel.cases| == 0 ==>
      && r.table == table && r.em.next == e.next + 1
      && (sel.blocking ==> ToSeq(r.em.code) == ToSeq(e.code) + [RuntimeCall(Deadlock, [], e.next)] && r.value == Undef)
      && (!sel.blocking ==> ToSeq(r.em.code) == ToSeq(e.code) + [InsertValue(Undef, ConstInt(-1), 0, e.next)]
                            && r.value == Reg(e.next))
    ensures |sel.cases| > 0 ==>
      var scan := ScanCases(sel.cases, layout, e.next);
      var call := CallId(StatesBuf(scan), sel.blocking);
      && ToSeq(r.em.code) == ToSeq(e.code) + ToSeq(SelectCode(scan, layout, sel.blocking))
      && r.value == Reg(call) && r.em.next == call + 1
      && r.table == table[sel.id := RecvBuffer(scan)]
  {
    if |sel.cases| == 0 then
      var c := SelectEmitted(e.next, layout, sel);
      assert ToSeq(c) == [c.last];
      SelectEmission(Emit(e, c, e.next + 1), if sel.blocking then Undef else Reg(e.next), table)
    else
      var scan := ScanCases(sel.cases, layout, e.next);
      var call := CallId(StatesBuf(scan), sel.blocking);
      SelectEmission(Emit(e, SelectEmitted(e.next, layout, sel), call + 1), Reg(call), table[sel.id := RecvBuffer(scan)])
  }

  /** The one instruction of a select without cases: `deadlock()` when it
      blocks, otherwise the tuple `{-1, undef}`. */
  function EmptySelectOp(next: nat, blocking: bool): Op {
    if blocking then RuntimeCall(Deadlock, [], next) else InsertValue(Undef, ConstInt(-1), 0, next)
  }

  /** The instructions a select emits when `next` is the first free id. */
  function SelectEmitted(next: nat, layout: Layout, sel: SelectStmt): Code {
    if |sel.cases| == 0 then Then(Empty, EmptySelectOp(next, sel.blocking))
    else SelectCode(ScanCases(sel.cases, layout, next), layout, sel.blocking)
  }

  // ---------------------------------------------------------------------------
  // The stages, summarized.

  function RecvSum(sum: Summary, scan: Scan): Summary {
    if scan.hasReceives then Summary(scan.next + 1, sum.defs + {scan.next}, sum.ended, sum.allocas + {scan.next}, sum.trace)
    else sum
  }

  lemma RecvBufferStage(p: Code, env: set<nat>, lo: nat, sum: Summary, scan: Scan, layout: Layout)
    requires Summarized(p, env, lo, sum) && sum.top <= scan.next && sum.ended == {}
    ensures Summarized(RecvBufferCode(p, scan, layout), env, lo, RecvSum(sum, scan))
    ensures RecvSum(sum, scan).top <= StatesBuf(scan) && OperandIds(RecvBuffer(scan)) <= RecvSum(sum, scan).defs
  {
    if scan.hasReceives {
      var t := ByteArray(scan.size);
      AllocaNext(p, env, lo, sum, scan.next, t, layout.allocSize(t));
      UseNext(Then(p, TempAlloca(scan.next, t, layout.allocSize(t))), env, lo, RecvSum(sum, scan),
              SetAlignment(scan.next, scan.align));
    }
  }

  lemma {:induction false} StoresStage(p: Code, env: set<nat>, lo: nat, sum: Summary, states: seq<Operand>, sb: nat, size: nat)
    requires Summarized(p, env, lo, sum) && StateIds(states) + {sb} <= env + sum.defs - sum.ended
    ensures Summarized(StoreStates(p, states, sb), env, lo, sum)
    ensures Allocated(p, sb, size) ==> Allocated(StoreStates(p, states, sb), sb, size)
    decreases |states|
  {
    if |states| > 0 {
      var n := |states|;
      StoresStage(p, env, lo, sum, states[..n - 1], sb, size);
      UseNext(StoreStates(p, states[..n - 1], sb), env, lo, sum, Store(states[n - 1], ElemAddr(sb, n - 1)));
    }
  }

  function StatesSum(sum: Summary, sb: nat): Summary {
    Summary(sb + 1, sum.defs + {sb}, sum.ended, sum.allocas + {sb}, sum.trace)
  }

  lemma StatesStage(scan: Scan, layout: Layout, env: set<nat>, lo: nat, sum: Summary)
    requires Summarized(scan.ops, env, lo, sum) && sum.top <= scan.next && sum.ended == {}
    requires StateIds(scan.states) <= env + sum.defs
    ensures var sb := StatesBuf(scan);
      var after := StatesSum(RecvSum(sum, scan), sb);
      && Summarized(StatesCode(scan, layout), env, lo, after)
      && Allocated(StatesCode(scan, layout), sb, layout.allocSize(StateArray(|scan.states|)))
      && OperandIds(RecvBuffer(scan)) <= after.defs
  {
    var sb := StatesBuf(scan);
    var st := StateArray(|scan.states|);
    var m := RecvSum(sum, scan);
    var c := RecvBufferCode(scan.ops, scan, layout);
    RecvBufferStage(scan.ops, env, lo, sum, scan, layout);
    AllocaNext(c, env, lo, m, sb, st, layout.allocSize(st));
    StoresStage(Then(c, TempAlloca(sb, st, layout.allocSize(st))), env, lo, StatesSum(m, sb), scan.states, sb,
                layout.allocSize(st));
  }

  lemma ChanSelectArgIds(recvbuf: Operand, sb: nat, n: nat)
    ensures ArgIds(ChanSelectArgs(recvbuf, sb, n)) == OperandIds(recvbuf) + {sb} + {sb + 1}
  {
    var blocked := [ElemAddr(sb + 1, 0), ConstInt(n), ConstInt(n)];
    assert ChanSelectArgs(recvbuf, sb, n) == TryChanSelectArgs(recvbuf, sb, n) + blocked;
    ArgIdsAppend(TryChanSelectArgs(recvbuf, sb, n), blocked);
    TryChanSelectArgIds(recvbuf, sb, n);
    ArgIds3(ElemAddr(sb + 1, 0), ConstInt(n), ConstInt(n));
  }

  lemma TryChanSelectArgIds(recvbuf: Operand, sb: nat, n: nat)
    ensures ArgIds(TryChanSelectArgs(recvbuf, sb, n)) == OperandIds(recvbuf) + {sb}
  {
    var a := TryChanSelectArgs(recvbuf, sb, n);
    ArgIds2(ConstInt(n), ConstInt(n));
    assert ArgIds(a[1..]) == {sb} by { assert a[1..][1..] == a[2..]; }
  }

  function CallSum(sum: Summary, sb: nat, blocking: bool): Summary {
    if blocking then
      Summary(sb + 3, sum.defs + {sb + 1} + {sb + 2}, sum.ended + {sb + 1}, sum.allocas + {sb + 1}, sum.trace + [ChanSelect])
    else
      Summary(sb + 2, sum.defs + {sb + 1}, sum.ended, sum.allocas, sum.trace + [TryChanSelect])
  }

  lemma BlockingCallStage(p: Code, env: set<nat>, lo: nat, sum: Summary, layout: Layout, recvbuf: Operand, sb: nat, n: nat)
    requires Summarized(p, env, lo, sum) && sum.top == sb + 1 && sum.ended == {}
    requires sb in sum.defs && OperandIds(recvbuf) <= sum.defs
    ensures Summarized(CallCode(p, layout, recvbuf, sb, n, true), env, lo, CallSum(sum, sb, true))
  {
    var bt := BlockedListArray(n);
    ChanSelectArgIds(recvbuf, sb, n);
    AllocCallEnd(p, env, lo, sum, sb + 1, bt, layout.allocSize(bt), ChanSelect, ChanSelectArgs(recvbuf, sb, n), sb + 2);
  }

  /** A temporary allocated, passed to a runtime call, and ended after it. */
  lemma AllocCallEnd(p: Code, env: set<nat>, lo: nat, sum: Summary, b: nat, ty: Ty, size: nat,
                     f: Callee, args: seq<Operand>, r: nat)
    requires Summarized(p, env, lo, sum) && sum.top == b && r == b + 1 && b !in sum.ended
    requires ArgIds(args) <= env + (sum.defs + {b}) - sum.ended && |args| == Arity(f)
    ensures Summarized(Then(Then(Then(p, TempAlloca(b, ty, size)), RuntimeCall(f, args, r)), LifetimeEnd(b, size)), env, lo,
                       Summary(r + 1, sum.defs + {b} + {r}, sum.ended + {b}, sum.allocas + {b}, sum.trace + [f]))
  {
    AllocCall(p, env, lo, sum, b, ty, size, f, args, r);
    EndNext(Then(Then(p, TempAlloca(b, ty, size)), RuntimeCall(f, args, r)), env, lo,
            Summary(r + 1, sum.defs + {b} + {r}, sum.ended, sum.allocas + {b}, sum.trace + [f]), b, size);
  }

  lemma CallStage(p: Code, env: set<nat>, lo: nat, sum: Summary, layout: Layout, recvbuf: Operand, sb: nat, n: nat,
                  blocking: bool, size: nat)
    requires Summarized(p, env, lo, sum) && sum.top == sb + 1 && sum.ended == {}
    requires sb in sum.defs && OperandIds(recvbuf) <= sum.defs && Allocated(p, sb, size)
    ensures Summarized(CallCode(p, layout, recvbuf, sb, n, blocking), env, lo, CallSum(sum, sb, blocking))
    ensures Allocated(CallCode(p, layout, recvbuf, sb, n, blocking), sb, size)
  {
    if blocking {
      BlockingCallStage(p, env, lo, sum, layout, recvbuf, sb, n);
    } else {
      TryChanSelectArgIds(recvbuf, sb, n);
      CallNext(p, env, lo, sum, TryChanSelect, TryChanSelectArgs(recvbuf, sb, n), sb + 1);
    }
  }

  /** What the walk leaves: defined buffers, nothing ended, no temporary, no call. */
  function ScanSum(scan: Scan, start: nat): Summary {
    Summary(Top(scan.ops, start), Defs(scan.ops), {}, {}, [])
  }

  /** What a select with cases leaves. */
  function SelectSum(scan: Scan, start: nat, blocking: bool): Summary {
    var sb := StatesBuf(scan);
    var s := CallSum(StatesSum(RecvSum(ScanSum(scan, start), scan), sb), sb, blocking);
    Summary(s.top, s.defs, s.ended + {sb}, s.allocas, s.trace)
  }

  lemma SelectStaged(scan: Scan, layout: Layout, start: nat, blocking: bool, env: set<nat>)
    requires ScanInScope(scan, start, env)
    ensures Summarized(SelectCode(scan, layout, blocking), env, start, SelectSum(scan, start, blocking))
  {
    var sb := StatesBuf(scan);
    var n := |scan.states|;
    var m := StatesSum(RecvSum(ScanSum(scan, start), scan), sb);
    StatesStage(scan, layout, env, start, ScanSum(scan, start));
    CallStage(StatesCode(scan, layout), env, start, m, layout, RecvBuffer(scan), sb, n, blocking,
              layout.allocSize(StateArray(n)));
    EndNext(CallCode(StatesCode(scan, layout), layout, RecvBuffer(scan), sb, n, blocking), env, start,
            CallSum(m, sb, blocking), sb, layout.allocSize(StateArray(n)));
  }

  /** The temporaries of a select: the receive buffer when some case receives,
      the states array, and the blocked list of a blocking select. */
  function SelectTemporaries(scan: Scan, blocking: bool): set<nat> {
    var sb := StatesBuf(scan);
    (if scan.hasReceives then {scan.next} else {}) + {sb} + (if blocking then {sb + 1} else {})
  }

  lemma SelectSumFacts(scan: Scan, start: nat, blocking: bool)
    requires Top(scan.ops, start) <= scan.next
    ensures var sum := SelectSum(scan, start, blocking);
      var sb := StatesBuf(scan);
      && sum.top == CallId(sb, blocking) + 1
      && sum.trace == [if blocking then ChanSelect else TryChanSelect]
      && sum.allocas == SelectTemporaries(scan, blocking)
      && sum.ended == (if blocking then {sb + 1} else {}) + {sb}
      && OperandIds(RecvBuffer(scan)) <= sum.defs - sum.ended
      && (scan.hasReceives ==> scan.next in sum.allocas - sum.ended)
  {
  }

  // ---------------------------------------------------------------------------
  // Properties of a select.

  /** A select calls exactly one runtime function, with the runtime's arity:
      `deadlock` for an empty blocking select, nothing for an empty
      non-blocking one, otherwise `chanSelect` when it blocks and
      `tryChanSelect` when not. It reads only its channels, its sent values
      and the ids it defines itself, defines fresh ids below the emitter's
      next one, ends only temporaries it allocated, with their own sizes, and
      leaves exactly one temporary alive: the receive buffer, when some case
      receives, which the later extracts still read. */
  lemma SelectWellFormed(e: Emitter, layout: Layout, table: RecvBufTable, sel: SelectStmt, env: set<nat>)
    requires CaseIds(sel.cases) <= env
    ensures var r := EmitSelect(e, layout, table, sel);
      var c := SelectEmitted(e.next, layout, sel);
      && r.em.code == Concat(e.code, c)
      && CallsConform(c)
      && Trace(c) == (if |sel.cases| == 0 then (if sel.blocking then [Deadlock] else [])
                      else [if sel.blocking then ChanSelect else TryChanSelect])
      && (TemporariesEnded(ToSeq(c)) <==> !HasReceive(sel.cases))
      && (Below(env, e.next) ==> WellFormed(ToSeq(c), env, e.next, r.em.next))
  {
    var r := EmitSelect(e, layout, table, sel);
    if |sel.cases| == 0 {
      EmptySelectChecked(e.next, layout, sel, env);
    } else {
      CasesSelectChecked(e.next, layout, sel, env);
    }
  }

  /** The select's own instructions, checked on their own. */
  predicate SelectChecked(next: nat, layout: Layout, sel: SelectStmt, env: set<nat>, hi: nat) {
    var c := SelectEmitted(next, layout, sel);
    && CallsConform(c)
    && Trace(c) == (if |sel.cases| == 0 then (if sel.blocking then [Deadlock] else [])
                    else [if sel.blocking then ChanSelect else TryChanSelect])
    && (TemporariesEnded(ToSeq(c)) <==> !HasReceive(sel.cases))
    && (Below(env, next) ==> WellFormed(ToSeq(c), env, next, hi))
  }

  lemma EmptySelectChecked(n: nat, layout: Layout, sel: SelectStmt, env: set<nat>)
    requires |sel.cases| == 0
    ensures SelectChecked(n, layout, sel, env, n + 1)
  {
    if sel.blocking {
      SingleCall(Deadlock, [], n, env);
    } else {
      SummarizedEmpty(env, n);
      ValueNext(Empty, env, n, Summary(n, {}, {}, {}, []), EmptySelectOp(n, false));
      Conclude(SelectEmitted(n, layout, sel), env, n, n + 1, Summary(n + 1, {} + {n}, {}, {}, []));
    }
  }

  lemma CasesSelectChecked(n: nat, layout: Layout, sel: SelectStmt, env: set<nat>)
    requires |sel.cases| > 0 && CaseIds(sel.cases) <= env
    ensures SelectChecked(n, layout, sel, env, CallId(StatesBuf(ScanCases(sel.cases, layout, n)), sel.blocking) + 1)
  {
    var scan := ScanCases(sel.cases, layout, n);
    ScanScoped(sel.cases, layout, n, env);
    ScanReceives(sel.cases, layout, n);
    SelectStaged(scan, layout, n, sel.blocking, env);
    SelectSumFacts(scan, n, sel.blocking);
    Conclude(SelectEmitted(n, layout, sel), env, n, CallId(StatesBuf(scan), sel.blocking) + 1,
             SelectSum(scan, n, sel.blocking));
  }

  // ---------------------------------------------------------------------------
  // The select's instructions as a list.

  function RecvBufferSeq(scan: Scan, layout: Layout): seq<Op> {
    if scan.hasReceives then
      var t := ByteArray(scan.size);
      [TempAlloca(scan.next, t, layout.allocSize(t)), SetAlignment(scan.next, scan.align)]
    else []
  }

  lemma RecvBufferCodeSeq(p: Code, scan: Scan, layout: Layout)
    ensures ToSeq(RecvBufferCode(p, scan, layout)) == ToSeq(p) + RecvBufferSeq(scan, layout)
  {
  }

  lemma {:induction false} StoreStatesSeq(p: Code, states: seq<Operand>, sb: nat)
    ensures ToSeq(StoreStates(p, states, sb)) == ToSeq(p) + StoreSeq(states, sb)
    decreases |states|
  {
    if |states| > 0 {
      var n := |states|;
      StoreStatesSeq(p, states[..n - 1], sb);
      assert StoreSeq(states, sb) == StoreSeq(states[..n - 1], sb) + [Store(states[n - 1], ElemAddr(sb, n - 1))];
    } else {
      assert StoreSeq(states, sb) == [];
    }
  }

  function CallSeq(layout: Layout, recvbuf: Operand, sb: nat, n: nat, blocking: bool): seq<Op> {
    if blocking then
      var bt := BlockedListArray(n);
      [TempAlloca(sb + 1, bt, layout.allocSize(bt)),
       RuntimeCall(ChanSelect, ChanSelectArgs(recvbuf, sb, n), sb + 2),
       LifetimeEnd(sb + 1, layout.allocSize(bt))]
    else
      [RuntimeCall(TryChanSelect, TryChanSelectArgs(recvbuf, sb, n), sb + 1)]
  }

  lemma CallCodeSeq(p: Code, layout: Layout, recvbuf: Operand, sb: nat, n: nat, blocking: bool)
    ensures ToSeq(CallCode(p, layout, recvbuf, sb, n, blocking)) == ToSeq(p) + CallSeq(layout, recvbuf, sb, n, blocking)
  {
    if blocking {
      var bt := BlockedListArray(n);
      var c1 := Then(p, TempAlloca(sb + 1, bt, layout.allocSize(bt)));
      assert ToSeq(Then(c1, RuntimeCall(ChanSelect, ChanSelectArgs(recvbuf, sb, n), sb + 2)))
          == ToSeq(p) + [c1.last, RuntimeCall(ChanSelect, ChanSelectArgs(recvbuf, sb, n), sb + 2)];
    }
  }

  /** The instructions of a select with cases: the value stores of the send
      cases, the receive buffer, the states array and its stores, the runtime
      call, and the end of the states array's lifetime. */
  lemma SelectCodeSeq(scan: Scan, layout: Layout, blocking: bool)
    ensures var sb := StatesBuf(scan);
      var n := |scan.states|;
      ToSeq(SelectCode(scan, layout, blocking))
        == ToSeq(scan.ops) + RecvBufferSeq(scan, layout) + [TempAlloca(sb, StateArray(n), layout.allocSize(StateArray(n)))]
           + StoreSeq(scan.states, sb) + CallSeq(layout, RecvBuffer(scan), sb, n, blocking)
           + [LifetimeEnd(sb, layout.allocSize(StateArray(n)))]
  {
    var sb := StatesBuf(scan);
    var n := |scan.states|;
    var head := Then(RecvBufferCode(scan.ops, scan, layout), TempAlloca(sb, StateArray(n), layout.allocSize(StateArray(n))));
    RecvBufferCodeSeq(scan.ops, scan, layout);
    StoreStatesSeq(head, scan.states, sb);
    CallCodeSeq(StatesCode(scan, layout), layout, RecvBuffer(scan), sb, n, blocking);
  }

  /** `size` and `align` are the largest allocation size and the largest ABI
      alignment over the receive cases. */
  predicate RecvBufferFits(cases: seq<SelectCase>, layout: Layout, size: nat, align: nat) {
    && (forall i :: 0 <= i < |cases| && cases[i].RecvCase? ==>
          layout.allocSize(cases[i].elem) <= size && layout.abiAlign(cases[i].elem) <= align)
    && (exists i :: 0 <= i < |cases| && cases[i].RecvCase? && layout.allocSize(cases[i].elem) == size)
    && (exists i :: 0 <= i < |cases| && cases[i].RecvCase? && layout.abiAlign(cases[i].elem) == align)
  }

  lemma RecvBufferSized(cases: seq<SelectCase>, layout: Layout, start: nat)
    requires HasReceive(cases)
    ensures var scan := ScanCases(cases, layout, start);
      RecvBufferFits(cases, layout, scan.size, scan.align)
  {
    var scan := ScanCases(cases, layout, start);
    ScanCovers(cases, layout, start);
    ScanAttains(cases, layout, start);
    var j :| 0 <= j < |cases| && cases[j].RecvCase?;
    if scan.size == 0 {
      assert layout.allocSize(cases[j].elem) == scan.size;
    }
    if scan.align == 0 {
      assert layout.abiAlign(cases[j].elem) == scan.align;
    }
  }

  /** The side table records, for the select, its receive buffer: the address of
      a byte array allocated in the select's own instructions, exactly as large
      and as aligned as the most demanding receive case, and still alive after
      the select; undef when no case receives. An empty select records nothing. */
  lemma SelectRecvBuffer(e: Emitter, layout: Layout, table: RecvBufTable, sel: SelectStmt)
    ensures var r := EmitSelect(e, layout, table, sel);
      var scan := ScanCases(sel.cases, layout, e.next);
      var c := SelectEmitted(e.next, layout, sel);
      && (|sel.cases| == 0 ==> r.table == table)
      && (|sel.cases| > 0 ==>
            && r.table == table[sel.id := r.table[sel.id]]
            && (r.table[sel.id] != Undef <==> HasReceive(sel.cases))
            && (HasReceive(sel.cases) ==>
                  && r.table[sel.id] == ElemAddr(scan.next, 0)
                  && TempAlloca(scan.next, ByteArray(scan.size), layout.allocSize(ByteArray(scan.size))) in ToSeq(c)
                  && SetAlignment(scan.next, scan.align) in ToSeq(c)
                  && scan.next in AllocaBufs(c) - Ended(c)
                  && RecvBufferFits(sel.cases, layout, scan.size, scan.align)))
  {
    if |sel.cases| > 0 {
      var scan := ScanCases(sel.cases, layout, e.next);
      ScanReceives(sel.cases, layout, e.next);
      if scan.hasReceives {
        RecvBufferSized(sel.cases, layout, e.next);
        RecvBufferAlive(sel.cases, layout, e.next, sel.blocking);
        SelectCodeSeq(scan, layout, sel.blocking);
        var k := |ToSeq(scan.ops)|;
        var ops := ToSeq(SelectCode(scan, layout, sel.blocking));
        assert ops[k] == TempAlloca(scan.next, ByteArray(scan.size), layout.allocSize(ByteArray(scan.size)));
        assert ops[k + 1] == SetAlignment(scan.next, scan.align);
      }
    }
  }

  lemma RecvBufferAlive(cases: seq<SelectCase>, layout: Layout, start: nat, blocking: bool)
    requires |cases| > 0
    ensures var scan := ScanCases(cases, layout, start);
      var c := SelectCode(scan, layout, blocking);
      scan.hasReceives ==> scan.next in AllocaBufs(c) - Ended(c)
  {
    var scan := ScanCases(cases, layout, start);
    ScanScoped(cases, layout, start, CaseIds(cases));
    SelectStaged(scan, layout, start, blocking, CaseIds(cases));
    SelectSumFacts(scan, start, blocking);
  }

  /** Each case's state is stored, in case order, in the states array: its
      channel, and for a send the address of the buffer the sent value was
      stored in, null for a receive. */
  lemma SelectStoresStates(e: Emitter, layout: Layout, table: RecvBufTable, sel: SelectStmt)
    requires |sel.cases| > 0
    ensures var scan := ScanCases(sel.cases, layout, e.next);
      var ops := ToSeq(SelectEmitted(e.next, layout, sel));
      forall i :: 0 <= i < |sel.cases| ==>
        && Store(scan.states[i], ElemAddr(StatesBuf(scan), i)) in ops
        && scan.states[i].SelectState?
        && scan.states[i].ch == sel.cases[i].ch
        && (sel.cases[i].RecvCase? <==> scan.states[i].payload == NullPtr)
        && (sel.cases[i].SendCase? ==>
              && Store(sel.cases[i].value, scan.states[i].payload) in ops
              && scan.states[i].payload.Buf?
              && EntryAlloca(scan.states[i].payload.id, sel.cases[i].valueTy) in ops)
  {
    var scan := ScanCases(sel.cases, layout, e.next);
    ScanStates(sel.cases, layout, e.next);
    StoresInSelect(scan, layout, sel.blocking);
  }

  lemma StoresInSelect(scan: Scan, layout: Layout, blocking: bool)
    ensures var ops := ToSeq(SelectCode(scan, layout, blocking));
      && (forall i :: 0 <= i < |scan.states| ==> Store(scan.states[i], ElemAddr(StatesBuf(scan), i)) in ops)
      && (forall x :: x in ToSeq(scan.ops) ==> x in ops)
  {
    var sb := StatesBuf(scan);
    var n := |scan.states|;
    SelectCodeSeq(scan, layout, blocking);
    InMiddle(ToSeq(scan.ops), RecvBufferSeq(scan, layout), [TempAlloca(sb, StateArray(n), layout.allocSize(StateArray(n)))],
             StoreSeq(scan.states, sb), CallSeq(layout, RecvBuffer(scan), sb, n, blocking),
             [LifetimeEnd(sb, layout.allocSize(StateArray(n)))]);
    forall i | 0 <= i < n
      ensures Store(scan.states[i], ElemAddr(sb, i)) in ToSeq(SelectCode(scan, layout, blocking))
    {
      assert StoreSeq(scan.states, sb)[i] == Store(scan.states[i], ElemAddr(sb, i));
    }
  }

  lemma InMiddle(a: seq<Op>, b: seq<Op>, c: seq<Op>, m: seq<Op>, d: seq<Op>, f: seq<Op>)
    ensures var s := a + b + c + m + d + f;
      && (forall i :: 0 <= i < |m| ==> m[i] in s)
      && (forall x :: x in a ==> x in s)
  {
    var s := a + b + c + m + d + f;
    forall i | 0 <= i < |m| ensures m[i] in s {
      assert s[|a| + |b| + |c| + i] == m[i];
    }
  }

  // ---------------------------------------------------------------------------
  // Extracting from a select's result.

  /** An extract of field `index` from the tuple a select returned. */
  datatype Extract = Extract(sel: nat, tuple: Operand, index: nat, ty: Ty)

  /** The instructions of an extract: field 0 extracted and, when the runtime
      returns the index narrower than `int`, sign-extended; field 1 extracted;
      any later field loaded from the receive buffer the table records. */
  function ExtractEmitted(table: RecvBufTable, x: Extract, next: nat, indexWidth: nat, intWidth: nat): Option<Code> {
    if x.index == 0 then
      var extract := Then(Empty, ExtractValue(x.tuple, 0, next));
      Some(if indexWidth < intWidth then Then(extract, SExt(Reg(next), next + 1)) else extract)
    else if x.index == 1 then Some(Then(Empty, ExtractValue(x.tuple, 1, next)))
    else if x.sel in table then Some(Then(Empty, Load(table[x.sel], x.ty, next)))
    else None
  }

  /** Lowers an extract from a select's result. Field 0 is the chosen case's
      index, sign-extended to `int` when the runtime returns it narrower;
      field 1 is the comma-ok flag; any later field is the received value,
      loaded as the extract's type from the receive buffer the side table
      recorded for the select. None when the table records no buffer for it. */
  function GetChanSelectResult(e: Emitter, table: RecvBufTable, x: Extract, indexWidth: nat, intWidth: nat): (r: Option<Emission>)
    ensures r.None? <==> x.index >= 2 && x.sel !in table
    ensures r.Some? ==> ToSeq(e.code) <= ToSeq(r.value.em.code) && e.next < r.value.em.next
    ensures r.Some? ==>
      var added := ToSeq(r.value.em.code)[|ToSeq(e.code)|..];
      && |added| == r.value.em.next - e.next
      && r.value.value == Reg(r.value.em.next - 1)
      && (x.index == 0 && indexWidth < intWidth ==>
            added == [ExtractValue(x.tuple, 0, e.next), SExt(Reg(e.next), e.next + 1)])
      && (x.index == 0 && indexWidth >= intWidth ==> added == [ExtractValue(x.tuple, 0, e.next)])
      && (x.index == 1 ==> added == [ExtractValue(x.tuple, 1, e.next)])
      && (x.index >= 2 ==> added == [Load(table[x.sel], x.ty, e.next)])
  {
    if x.index >= 2 && x.sel !in table then None
    else
      ExtractEmissionAdds(e, table, x, indexWidth, intWidth);
      Some(ExtractEmission(e, table, x, indexWidth, intWidth))
  }

  function ExtractEmission(e: Emitter, table: RecvBufTable, x: Extract, indexWidth: nat, intWidth: nat): Emission
    requires x.index < 2 || x.sel in table
  {
    var next := ExtractNext(x, e.next, indexWidth, intWidth);
    Emission(Emit(e, ExtractEmitted(table, x, e.next, indexWidth, intWidth).value, next), Reg(next - 1))
  }

  lemma ExtractEmissionAdds(e: Emitter, table: RecvBufTable, x: Extract, indexWidth: nat, intWidth: nat)
    requires x.index < 2 || x.sel in table
    ensures var r := ExtractEmission(e, table, x, indexWidth, intWidth);
      && ToSeq(e.code) <= ToSeq(r.em.code) && e.next < r.em.next
      && var added := ToSeq(r.em.code)[|ToSeq(e.code)|..];
      && |added| == r.em.next - e.next
      && r.value == Reg(r.em.next - 1)
      && (x.index == 0 && indexWidth < intWidth ==>
            added == [ExtractValue(x.tuple, 0, e.next), SExt(Reg(e.next), e.next + 1)])
      && (x.index == 0 && indexWidth >= intWidth ==> added == [ExtractValue(x.tuple, 0, e.next)])
      && (x.index == 1 ==> added == [ExtractValue(x.tuple, 1, e.next)])
      && (x.index >= 2 ==> added == [Load(table[x.sel], x.ty, e.next)])
  {
    var c := ExtractEmitted(table, x, e.next, indexWidth, intWidth).value;
    var next := ExtractNext(x, e.next, indexWidth, intWidth);
    ExtractShape(table, x, e.next, indexWidth, intWidth);
    EmitAppends(e, c, next);
  }

  lemma ExtractShape(table: RecvBufTable, x: Extract, n: nat, indexWidth: nat, intWidth: nat)
    requires x.index < 2 || x.sel in table
    ensures var ops := ToSeq(ExtractEmitted(table, x, n, indexWidth, intWidth).value);
      && |ops| == ExtractNext(x, n, indexWidth, intWidth) - n
      && (x.index == 0 && indexWidth < intWidth ==> ops == [ExtractValue(x.tuple, 0, n), SExt(Reg(n), n + 1)])
      && (x.index == 0 && indexWidth >= intWidth ==> ops == [ExtractValue(x.tuple, 0, n)])
      && (x.index == 1 ==> ops == [ExtractValue(x.tuple, 1, n)])
      && (x.index >= 2 ==> ops == [Load(table[x.sel], x.ty, n)])
  {
    if x.index == 0 && indexWidth < intWidth {
      Seq2(ExtractValue(x.tuple, 0, n), SExt(Reg(n), n + 1));
    } else {
      var c := ExtractEmitted(table, x, n, indexWidth, intWidth).value;
      assert ToSeq(c) == [c.last];
    }
  }

  /** The ids an extract reads: the tuple for fields 0 and 1, the recorded
      receive buffer for the others. */
  function ExtractIds(table: RecvBufTable, x: Extract): set<nat> {
    if x.index < 2 then OperandIds(x.tuple)
    else if x.sel in table then OperandIds(table[x.sel])
    else {}
  }

  /** An extract calls nothing, allocates nothing, reads only what it
      extracts from, and defines fresh ids. */
  lemma ExtractWellFormed(e: Emitter, table: RecvBufTable, x: Extract, indexWidth: nat, intWidth: nat, env: set<nat>)
    requires ExtractIds(table, x) <= env
    ensures var r := GetChanSelectResult(e, table, x, indexWidth, intWidth);
      r.Some? ==>
        var c := ExtractEmitted(table, x, e.next, indexWidth, intWidth).value;
        && r.value.em.code == Concat(e.code, c)
        && CallsConform(c) && Trace(c) == [] && TemporariesEnded(ToSeq(c))
        && (Below(env, e.next) ==> WellFormed(ToSeq(c), env, e.next, r.value.em.next))
  {
    var r := GetChanSelectResult(e, table, x, indexWidth, intWidth);
    if r.Some? {
      ExtractChecked(table, x, e.next, indexWidth, intWidth, env);
    }
  }

  /** One past the last id an extract defines. */
  function ExtractNext(x: Extract, next: nat, indexWidth: nat, intWidth: nat): nat {
    if x.index == 0 && indexWidth < intWidth then next + 2 else next + 1
  }

  lemma ExtractChecked(table: RecvBufTable, x: Extract, n: nat, indexWidth: nat, intWidth: nat, env: set<nat>)
    requires ExtractIds(table, x) <= env && (x.index < 2 || x.sel in table)
    ensures var c := ExtractEmitted(table, x, n, indexWidth, intWidth).value;
      && CallsConform(c) && Trace(c) == [] && TemporariesEnded(ToSeq(c))
      && (Below(env, n) ==> WellFormed(ToSeq(c), env, n, ExtractNext(x, n, indexWidth, intWidth)))
  {
    if x.index == 0 && indexWidth < intWidth {
      WidenWellFormed(x.tuple, n, env);
    } else if x.index < 2 {
      SingleValue(ExtractValue(x.tuple, x.index, n), env);
    } else {
      SingleValue(Load(table[x.sel], x.ty, n), env);
    }
  }

  /** The index extracted and sign-extended to `int`. */
  lemma WidenWellFormed(tuple: Operand, n: nat, env: set<nat>)
    requires OperandIds(tuple) <= env
    ensures var c := Then(Then(Empty, ExtractValue(tuple, 0, n)), SExt(Reg(n), n + 1));
      && CallsConform(c) && Trace(c) == [] && TemporariesEnded(ToSeq(c))
      && (Below(env, n) ==> WellFormed(ToSeq(c), env, n, n + 2))
  {
    SummarizedEmpty(env, n);
    ValueNext(Empty, env, n, Summary(n, {}, {}, {}, []), ExtractValue(tuple, 0, n));
    ValueNext(Then(Empty, ExtractValue(tuple, 0, n)), env, n, Summary(n + 1, {} + {n}, {}, {}, []), SExt(Reg(n), n + 1));
    Conclude(Then(Then(Empty, ExtractValue(tuple, 0, n)), SExt(Reg(n), n + 1)), env, n, n + 2,
             Summary(n + 2, {} + {n} + {n + 1}, {}, {}, []));
  }

  /** Extracting a received value after a select with cases loads from the
      receive buffer that select recorded, a temporary of the select still
      alive there, and the select together with the load is well formed. */
  lemma SelectThenExtract(e: Emitter, layout: Layout, table: RecvBufTable, sel: SelectStmt, x: Extract,
                          indexWidth: nat, intWidth: nat, env: set<nat>)
    requires |sel.cases| > 0 && CaseIds(sel.cases) <= env
    requires x.sel == sel.id && x.index >= 2
    ensures var s := EmitSelect(e, layout, table, sel);
      var scan := ScanCases(sel.cases, layout, e.next);
      var g := GetChanSelectResult(s.em, s.table, x, indexWidth, intWidth);
      var c := Then(SelectEmitted(e.next, layout, sel), Load(RecvBuffer(scan), x.ty, s.em.next));
      && g.Some?
      && g.value.em.code == Concat(e.code, c)
      && (HasReceive(sel.cases) ==>
            RecvBuffer(scan) == ElemAddr(scan.next, 0) && scan.next in AllocaBufs(c) - Ended(c))
      && (Below(env, e.next) ==> WellFormed(ToSeq(c), env, e.next, g.value.em.next))
  {
    var s := EmitSelect(e, layout, table, sel);
    var scan := ScanCases(sel.cases, layout, e.next);
    var call := CallId(StatesBuf(scan), sel.blocking);
    var g := GetChanSelectResult(s.em, s.table, x, indexWidth, intWidth);
    SelectEmissionFacts(e, layout, table, sel);
    LoadEmission(s.em, s.table, x, indexWidth, intWidth);
    ScanReceives(sel.cases, layout, e.next);
    ScanScoped(sel.cases, layout, e.next, env);
    SelectLoadChecked(scan, layout, e.next, sel.blocking, env, x.ty,
                      SelectEmitted(e.next, layout, sel), s.em.next, g.value.em.next);
  }

  /** A select with cases appends its code and records its receive buffer. */
  lemma SelectEmissionFacts(e: Emitter, layout: Layout, table: RecvBufTable, sel: SelectStmt)
    requires |sel.cases| > 0
    ensures var s := EmitSelect(e, layout, table, sel);
      var scan := ScanCases(sel.cases, layout, e.next);
      && SelectEmitted(e.next, layout, sel) == SelectCode(scan, layout, sel.blocking)
      && s.em.code == Concat(e.code, SelectEmitted(e.next, layout, sel))
      && s.em.next == CallId(StatesBuf(scan), sel.blocking) + 1
      && sel.id in s.table && s.table[sel.id] == RecvBuffer(scan)
  {
  }

  /** Extracting a received value appends one load from the recorded buffer. */
  lemma LoadEmission(em: Emitter, table: RecvBufTable, x: Extract, indexWidth: nat, intWidth: nat)
    requires x.index >= 2 && x.sel in table
    ensures var g := GetChanSelectResult(em, table, x, indexWidth, intWidth);
      && g.Some?
      && g.value.em.code == Then(em.code, Load(table[x.sel], x.ty, em.next))
      && g.value.em.next == em.next + 1
  {
    var load := Load(table[x.sel], x.ty, em.next);
    assert ExtractEmitted(table, x, em.next, indexWidth, intWidth) == Some(Then(Empty, load));
    assert Concat(em.code, Then(Empty, load)) == Then(em.code, load);
  }

  lemma SelectLoadChecked(scan: Scan, layout: Layout, start: nat, blocking: bool, env: set<nat>, ty: Ty,
                          sc: Code, id: nat, hi: nat)
    requires ScanInScope(scan, start, env) && sc == SelectCode(scan, layout, blocking)
    requires id == CallId(StatesBuf(scan), blocking) + 1 && hi == id + 1
    ensures scan.hasReceives ==> scan.next in AllocaBufs(Then(sc, Load(RecvBuffer(scan), ty, id))) - Ended(Then(sc, Load(RecvBuffer(scan), ty, id)))
    ensures Below(env, start) ==> WellFormed(ToSeq(Then(sc, Load(RecvBuffer(scan), ty, id))), env, start, hi)
  {
    var sum := SelectSum(scan, start, blocking);
    SelectStaged(scan, layout, start, blocking, env);
    SelectSumLoadable(scan, start, blocking, env, ty, id);
    ValueNext(sc, env, start, sum, Load(RecvBuffer(scan), ty, id));
    Conclude(Then(sc, Load(RecvBuffer(scan), ty, id)), env, start, hi,
             Summary(id + 1, sum.defs + {id}, sum.ended, sum.allocas, sum.trace));
  }

  /** The load from the receive buffer meets `ValueNext`'s demands after a
      select, and the buffer is a temporary still alive. */
  lemma SelectSumLoadable(scan: Scan, start: nat, blocking: bool, env: set<nat>, ty: Ty, id: nat)
    requires Top(scan.ops, start) <= scan.next && id == CallId(StatesBuf(scan), blocking) + 1
    ensures var sum := SelectSum(scan, start, blocking);
      && sum.top <= Load(RecvBuffer(scan), ty, id).result
      && UsedIds(Load(RecvBuffer(scan), ty, id)) <= env + sum.defs - sum.ended
      && (scan.hasReceives ==> scan.next in sum.allocas - sum.ended)
  {
    SelectSumFacts(scan, start, blocking);
  }
}
