/** Lowering of `make(chan T, n)`, `ch <- v`, `<-ch` and `close(ch)` into
    runtime calls and scratch buffers. */
module ChannelOps {
  import opened ChannelIR

  /** `chanMake(TypeAllocSize(elem), size)`: the runtime learns the element size from the layout. */
  function MakeChanCode(layout: Layout, elem: Ty, size: Operand, id: nat): Code {
    Then(Empty, RuntimeCall(ChanMake, [ConstInt(layout.allocSize(elem)), size], id))
  }

  function EmitMakeChan(e: Emitter, layout: Layout, elem: Ty, size: Operand): (r: Emission)
    ensures ToSeq(r.em.code) == ToSeq(e.code) + [RuntimeCall(ChanMake, [ConstInt(layout.allocSize(elem)), size], e.next)]
    ensures r.value == Reg(e.next) && r.em.next == e.next + 1
  {
    var c := MakeChanCode(layout, elem, size, e.next);
    assert ToSeq(c) == [c.last];
    Emission(Emit(e, c, e.next + 1), Reg(e.next))
  }

  /** `make(chan T, n)` calls only `chanMake`, and reads nothing but the buffer size. */
  lemma MakeChanWellFormed(e: Emitter, layout: Layout, elem: Ty, size: Operand)
    ensures var r := EmitMakeChan(e, layout, elem, size);
      var c := MakeChanCode(layout, elem, size, e.next);
      && r.em.code == Concat(e.code, c)
      && CallsConform(c) && Trace(c) == [ChanMake] && TemporariesEnded(ToSeq(c))
      && (Below(OperandIds(size), e.next) ==> WellFormed(ToSeq(c), OperandIds(size), e.next, r.em.next))
  {
    ArgIds2(ConstInt(layout.allocSize(elem)), size);
    SingleCall(ChanMake, [ConstInt(layout.allocSize(elem)), size], e.next, OperandIds(size));
  }

  /** `chanSend(ch, buf)` with `value` stored in a temporary buffer whose
      lifetime ends right after the call. */
  function SendCode(b: nat, ch: Operand, value: Operand, valueTy: Ty, size: nat): Code {
    Then(Then(Then(Then(Empty,
      TempAlloca(b, valueTy, size)),
      Store(value, Buf(b))),
      RuntimeCall(ChanSend, [ch, Buf(b)], b + 1)),
      LifetimeEnd(b, size))
  }

  function EmitChanSend(e: Emitter, layout: Layout, ch: Operand, value: Operand, valueTy: Ty): (r: Emitter)
    ensures var b := e.next; var size := layout.allocSize(valueTy);
      && ToSeq(r.code) == ToSeq(e.code) + [TempAlloca(b, valueTy, size), Store(value, Buf(b)),
                                           RuntimeCall(ChanSend, [ch, Buf(b)], b + 1), LifetimeEnd(b, size)]
      && r.next == e.next + 2
  {
    var b := e.next;
    var size := layout.allocSize(valueTy);
    Seq4(TempAlloca(b, valueTy, size), Store(value, Buf(b)), RuntimeCall(ChanSend, [ch, Buf(b)], b + 1), LifetimeEnd(b, size));
    Emit(e, SendCode(b, ch, value, valueTy, size), b + 2)
  }

  lemma SendSteps(b: nat, ch: Operand, value: Operand, valueTy: Ty, size: nat)
    ensures Summarized(SendCode(b, ch, value, valueTy, size), OperandIds(ch) + OperandIds(value), b,
                       Summary(b + 2, {} + {b} + {b + 1}, {} + {b}, {} + {b}, [] + [ChanSend]))
  {
    var env := OperandIds(ch) + OperandIds(value);
    var c1 := Then(Empty, TempAlloca(b, valueTy, size));
    var c2 := Then(c1, Store(value, Buf(b)));
    var c3 := Then(c2, RuntimeCall(ChanSend, [ch, Buf(b)], b + 1));
    var m1 := Summary(b + 1, {} + {b}, {}, {} + {b}, []);
    SummarizedEmpty(env, b);
    AllocaNext(Empty, env, b, Summary(b, {}, {}, {}, []), b, valueTy, size);
    UseNext(c1, env, b, m1, Store(value, Buf(b)));
    ArgIds2(ch, Buf(b));
    CallNext(c2, env, b, m1, ChanSend, [ch, Buf(b)], b + 1);
    EndNext(c3, env, b, Summary(b + 2, m1.defs + {b + 1}, {}, m1.allocas, [] + [ChanSend]), b, size);
  }

  /** A send calls only `chanSend`, with the runtime's arity, reads the value
      buffer only while it lives, and ends its lifetime. */
  lemma SendWellFormed(e: Emitter, layout: Layout, ch: Operand, value: Operand, valueTy: Ty)
    ensures var r := EmitChanSend(e, layout, ch, value, valueTy);
      var c := SendCode(e.next, ch, value, valueTy, layout.allocSize(valueTy));
      var env := OperandIds(ch) + OperandIds(value);
      && r.code == Concat(e.code, c)
      && CallsConform(c) && Trace(c) == [ChanSend] && TemporariesEnded(ToSeq(c))
      && (Below(env, e.next) ==> WellFormed(ToSeq(c), env, e.next, r.next))
  {
    var size := layout.allocSize(valueTy);
    SendSteps(e.next, ch, value, valueTy, size);
    Conclude(SendCode(e.next, ch, value, valueTy, size), OperandIds(ch) + OperandIds(value), e.next, e.next + 2,
             Summary(e.next + 2, {} + {e.next} + {e.next + 1}, {} + {e.next}, {} + {e.next}, [] + [ChanSend]));
  }

  /** `chanRecv(ch, buf)` into a temporary buffer, the received value loaded
      from it, and the buffer's lifetime ended. */
  function ReceiveCode(b: nat, ch: Operand, elemTy: Ty, size: nat): Code {
    Then(Then(Then(Then(Empty,
      TempAlloca(b, elemTy, size)),
      RuntimeCall(ChanRecv, [ch, Buf(b)], b + 1)),
      Load(Buf(b), elemTy, b + 2)),
      LifetimeEnd(b, size))
  }

  /** With comma-ok, the `(received, ok)` tuple follows. */
  function RecvCode(b: nat, ch: Operand, elemTy: Ty, size: nat, commaOk: bool): Code {
    if commaOk then
      Then(Then(ReceiveCode(b, ch, elemTy, size),
        InsertValue(Undef, Reg(b + 2), 0, b + 3)),
        InsertValue(Reg(b + 3), Reg(b + 1), 1, b + 4))
    else ReceiveCode(b, ch, elemTy, size)
  }

  /** The instructions of a receive, in order. */
  function RecvOps(b: nat, ch: Operand, elemTy: Ty, size: nat, commaOk: bool): seq<Op> {
    [TempAlloca(b, elemTy, size), RuntimeCall(ChanRecv, [ch, Buf(b)], b + 1),
     Load(Buf(b), elemTy, b + 2), LifetimeEnd(b, size)]
    + (if commaOk then [InsertValue(Undef, Reg(b + 2), 0, b + 3), InsertValue(Reg(b + 3), Reg(b + 1), 1, b + 4)] else [])
  }

  lemma RecvCodeSeq(b: nat, ch: Operand, elemTy: Ty, size: nat, commaOk: bool)
    ensures ToSeq(RecvCode(b, ch, elemTy, size, commaOk)) == RecvOps(b, ch, elemTy, size, commaOk)
  {
    Seq4(TempAlloca(b, elemTy, size), RuntimeCall(ChanRecv, [ch, Buf(b)], b + 1), Load(Buf(b), elemTy, b + 2), LifetimeEnd(b, size));
  }

  /** A receive yields the value loaded from the buffer after the call; with
      comma-ok it yields the tuple of that value and the call's result. */
  function EmitChanRecv(e: Emitter, layout: Layout, ch: Operand, elemTy: Ty, commaOk: bool): (r: Emission)
    ensures ToSeq(r.em.code) == ToSeq(e.code) + RecvOps(e.next, ch, elemTy, layout.allocSize(elemTy), commaOk)
    ensures commaOk ==> r.value == Reg(e.next + 4) && r.em.next == e.next + 5
    ensures !commaOk ==> r.value == Reg(e.next + 2) && r.em.next == e.next + 3
  {
    var b := e.next;
    var size := layout.allocSize(elemTy);
    var c := RecvCode(b, ch, elemTy, size, commaOk);
    RecvCodeSeq(b, ch, elemTy, size, commaOk);
    if commaOk then Emission(Emit(e, c, b + 5), Reg(b + 4))
    else Emission(Emit(e, c, b + 3), Reg(b + 2))
  }

  function ReceiveSummary(b: nat): Summary {
    Summary(b + 3, {} + {b} + {b + 1} + {b + 2}, {} + {b}, {} + {b}, [] + [ChanRecv])
  }

  lemma ReceiveSteps(b: nat, ch: Operand, elemTy: Ty, size: nat)
    ensures Summarized(ReceiveCode(b, ch, elemTy, size), OperandIds(ch), b, ReceiveSummary(b))
  {
    var env := OperandIds(ch);
    var c2 := Then(Then(Empty, TempAlloca(b, elemTy, size)), RuntimeCall(ChanRecv, [ch, Buf(b)], b + 1));
    SummarizedEmpty(env, b);
    ArgIds2(ch, Buf(b));
    AllocCall(Empty, env, b, Summary(b, {}, {}, {}, []), b, elemTy, size, ChanRecv, [ch, Buf(b)], b + 1);
    LoadEnd(c2, env, b, Summary(b + 2, {} + {b} + {b + 1}, {}, {} + {b}, [] + [ChanRecv]), b, elemTy, size);
  }

  /** Loading from a live temporary, then ending its lifetime. */
  lemma LoadEnd(c: Code, env: set<nat>, lo: nat, sum: Summary, b: nat, ty: Ty, size: nat)
    requires Summarized(c, env, lo, sum) && sum.top == b + 2 && Allocated(c, b, size) && b in sum.defs - sum.ended
    ensures Summarized(Then(Then(c, Load(Buf(b), ty, b + 2)), LifetimeEnd(b, size)), env, lo,
                       Summary(b + 3, sum.defs + {b + 2}, sum.ended + {b}, sum.allocas, sum.trace))
  {
    ValueNext(c, env, lo, sum, Load(Buf(b), ty, b + 2));
    EndNext(Then(c, Load(Buf(b), ty, b + 2)), env, lo, Summary(b + 3, sum.defs + {b + 2}, sum.ended, sum.allocas, sum.trace), b, size);
  }

  lemma TupleSteps(c: Code, env: set<nat>, b: nat)
    requires Summarized(c, env, b, ReceiveSummary(b))
    ensures Summarized(Then(Then(c, InsertValue(Undef, Reg(b + 2), 0, b + 3)), InsertValue(Reg(b + 3), Reg(b + 1), 1, b + 4)),
                       env, b, Summary(b + 5, ReceiveSummary(b).defs + {b + 3} + {b + 4}, {} + {b}, {} + {b}, [] + [ChanRecv]))
  {
    var m := ReceiveSummary(b);
    ValueNext(c, env, b, m, InsertValue(Undef, Reg(b + 2), 0, b + 3));
    ValueNext(Then(c, InsertValue(Undef, Reg(b + 2), 0, b + 3)), env, b, Summary(b + 4, m.defs + {b + 3}, m.ended, m.allocas, m.trace),
              InsertValue(Reg(b + 3), Reg(b + 1), 1, b + 4));
  }

  /** The receive's own code, checked: it calls only `chanRecv`, ends its
      buffer, and is well formed up to `hi`. */
  predicate RecvChecked(c: Code, env: set<nat>, b: nat, hi: nat) {
    && CallsConform(c) && Trace(c) == [ChanRecv] && TemporariesEnded(ToSeq(c))
    && (Below(env, b) ==> WellFormed(ToSeq(c), env, b, hi))
  }

  lemma PlainRecvChecked(b: nat, ch: Operand, elemTy: Ty, size: nat)
    ensures RecvChecked(ReceiveCode(b, ch, elemTy, size), OperandIds(ch), b, b + 3)
  {
    ReceiveSteps(b, ch, elemTy, size);
    Conclude(ReceiveCode(b, ch, elemTy, size), OperandIds(ch), b, b + 3, ReceiveSummary(b));
  }

  lemma TupleRecvChecked(b: nat, ch: Operand, elemTy: Ty, size: nat)
    ensures RecvChecked(RecvCode(b, ch, elemTy, size, true), OperandIds(ch), b, b + 5)
  {
    ReceiveSteps(b, ch, elemTy, size);
    TupleSteps(ReceiveCode(b, ch, elemTy, size), OperandIds(ch), b);
    Conclude(RecvCode(b, ch, elemTy, size, true), OperandIds(ch), b, b + 5,
             Summary(b + 5, ReceiveSummary(b).defs + {b + 3} + {b + 4}, {} + {b}, {} + {b}, [] + [ChanRecv]));
  }

  /** A receive calls only `chanRecv`, with the runtime's arity, reads the
      buffer only while it lives, and ends its lifetime. */
  lemma RecvWellFormed(e: Emitter, layout: Layout, ch: Operand, elemTy: Ty, commaOk: bool)
    ensures var r := EmitChanRecv(e, layout, ch, elemTy, commaOk);
      var c := RecvCode(e.next, ch, elemTy, layout.allocSize(elemTy), commaOk);
      && r.em.code == Concat(e.code, c)
      && CallsConform(c) && Trace(c) == [ChanRecv] && TemporariesEnded(ToSeq(c))
      && (Below(OperandIds(ch), e.next) ==> WellFormed(ToSeq(c), OperandIds(ch), e.next, r.em.next))
  {
    var b := e.next;
    var size := layout.allocSize(elemTy);
    if commaOk {
      TupleRecvChecked(b, ch, elemTy, size);
    } else {
      PlainRecvChecked(b, ch, elemTy, size);
    }
  }

  function EmitChanClose(e: Emitter, ch: Operand): (r: Emitter)
    ensures ToSeq(r.code) == ToSeq(e.code) + [RuntimeCall(ChanClose, [ch], e.next)]
    ensures r.next == e.next + 1
  {
    var c := Then(Empty, RuntimeCall(ChanClose, [ch], e.next));
    assert ToSeq(c) == [c.last];
    Emit(e, c, e.next + 1)
  }

  /** Closing calls only `chanClose`, with the channel as its one argument. */
  lemma CloseWellFormed(e: Emitter, ch: Operand)
    ensures var r := EmitChanClose(e, ch);
      var c := Then(Empty, RuntimeCall(ChanClose, [ch], e.next));
      && r.code == Concat(e.code, c)
      && CallsConform(c) && Trace(c) == [ChanClose] && TemporariesEnded(ToSeq(c))
      && (Below(OperandIds(ch), e.next) ==> WellFormed(ToSeq(c), OperandIds(ch), e.next, r.next))
  {
    ArgIds1(ch);
    SingleCall(ChanClose, [ch], e.next, OperandIds(ch));
  }
}
