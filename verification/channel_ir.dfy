/** Abstract instructions emitted by channel lowering, and the well-formedness
    every emitted sequence keeps: fresh result ids, nothing used before it is
    defined or after its lifetime ended, and lifetime ends only of temporary
    allocas with their own size. */
module ChannelIR {

  datatype Option<T> = None | Some(value: T)

  /** LLVM types, as far as lowering distinguishes them. */
  datatype Ty =
    | SourceTy(name: string)         // the LLVM type of a source-level type
    | ByteArray(len: nat)            // [len x i8]
    | StateArray(len: nat)           // [len x runtime.chanSelectState]
    | BlockedListArray(len: nat)     // [len x runtime.channelBlockedList]

  /** The target's data layout: `TypeAllocSize` and `ABITypeAlignment`. */
  datatype Layout = Layout(allocSize: Ty -> nat, abiAlign: Ty -> nat)

  datatype Operand =
    | Src(v: nat)                     // a value of the source function (`getValue`)
    | Reg(id: nat)                    // the result of an emitted instruction
    | Buf(id: nat)                    // the address of an emitted alloca (or its i8* cast)
    | ElemAddr(buf: nat, index: nat)  // a constant GEP `buf[0][index]`
    | ConstInt(n: int)
    | Undef
    | NullPtr
    | SelectState(ch: Operand, payload: Operand)  // a `chanSelectState` value {ch, payload}

  /** The runtime functions channel lowering calls. */
  datatype Callee = ChanMake | ChanSend | ChanRecv | ChanClose | ChanSelect | TryChanSelect | Deadlock

  /** The runtime's ABI: how many arguments each function takes. */
  function Arity(f: Callee): nat {
    match f
    case ChanMake => 2
    case ChanSend => 2
    case ChanRecv => 2
    case ChanClose => 1
    case ChanSelect => 7
    case TryChanSelect => 4
    case Deadlock => 0
  }

  datatype Op =
    | TempAlloca(buf: nat, ty: Ty, size: nat)     // entry-block alloca plus lifetime.start(size)
    | EntryAlloca(buf: nat, ty: Ty)               // entry-block alloca, no lifetime markers
    | SetAlignment(buf: nat, align: nat)
    | Store(value: Operand, dest: Operand)
    | Load(src: Operand, ty: Ty, result: nat)
    | LifetimeEnd(buf: nat, size: nat)
    | RuntimeCall(callee: Callee, args: seq<Operand>, result: nat)
    | InsertValue(agg: Operand, value: Operand, index: nat, result: nat)
    | ExtractValue(agg: Operand, index: nat, result: nat)
    | SExt(value: Operand, result: nat)

  /** Emitted code, built the way the builder appends: each instruction after
      the code before it. */
  datatype Code = Empty | Then(prefix: Code, last: Op)

  /** The instructions in emission order. */
  function ToSeq(c: Code): (r: seq<Op>)
    ensures c.Then? ==> |r| > 0 && r[|r| - 1] == c.last
  {
    match c
    case Empty => []
    case Then(p, op) => ToSeq(p) + [op]
  }

  function Concat(a: Code, b: Code): (r: Code) {
    match b
    case Empty => a
    case Then(p, op) => Then(Concat(a, p), op)
  }

  /** The id an instruction defines: an alloca's buffer or a value's register. */
  function DefinedId(op: Op): Option<nat> {
    match op
    case TempAlloca(b, _, _) => Some(b)
    case EntryAlloca(b, _) => Some(b)
    case SetAlignment(_, _) => None
    case Store(_, _) => None
    case Load(_, _, r) => Some(r)
    case LifetimeEnd(_, _) => None
    case RuntimeCall(_, _, r) => Some(r)
    case InsertValue(_, _, _, r) => Some(r)
    case ExtractValue(_, _, r) => Some(r)
    case SExt(_, r) => Some(r)
  }

  function OperandIds(o: Operand): set<nat> {
    match o
    case Src(_) => {}
    case Reg(id) => {id}
    case Buf(id) => {id}
    case ElemAddr(b, _) => {b}
    case ConstInt(_) => {}
    case Undef => {}
    case NullPtr => {}
    case SelectState(ch, p) => OperandIds(ch) + OperandIds(p)
  }

  function ArgIds(args: seq<Operand>): set<nat> {
    if |args| == 0 then {} else OperandIds(args[0]) + ArgIds(args[1..])
  }

  /** The ids an instruction reads; a lifetime end counts as a use of its buffer. */
  function UsedIds(op: Op): set<nat> {
    match op
    case TempAlloca(_, _, _) => {}
    case EntryAlloca(_, _) => {}
    case SetAlignment(b, _) => {b}
    case Store(v, d) => OperandIds(v) + OperandIds(d)
    case Load(s, _, _) => OperandIds(s)
    case LifetimeEnd(b, _) => {b}
    case RuntimeCall(_, args, _) => ArgIds(args)
    case InsertValue(a, v, _, _) => OperandIds(a) + OperandIds(v)
    case ExtractValue(a, _, _) => OperandIds(a)
    case SExt(v, _) => OperandIds(v)
  }

  // ---------------------------------------------------------------------------
  // The declarative reading, over the flat instruction list.

  /** `x` is defined by one of the first `j` instructions. */
  predicate DefinedBefore(ops: seq<Op>, j: nat, x: nat)
    requires j <= |ops|
  {
    exists i :: 0 <= i < j && DefinedId(ops[i]) == Some(x)
  }

  /** One of the first `j` instructions ends the lifetime of `x`. */
  predicate EndedBefore(ops: seq<Op>, j: nat, x: nat)
    requires j <= |ops|
  {
    exists i :: 0 <= i < j && ops[i].LifetimeEnd? && ops[i].buf == x
  }

  /** Before instruction `j`, `x` comes from `env` or an earlier definition,
      and its lifetime has not ended. */
  predicate LiveAt(ops: seq<Op>, env: set<nat>, j: nat, x: nat)
    requires j <= |ops|
  {
    (x in env || DefinedBefore(ops, j, x)) && !EndedBefore(ops, j, x)
  }

  /** Each instruction reads only ids live at that point. */
  predicate UsesInScope(ops: seq<Op>, env: set<nat>) {
    forall j, x :: 0 <= j < |ops| && x in UsedIds(ops[j]) ==> LiveAt(ops, env, j, x)
  }

  /** Lifetime ends only follow a temporary alloca of the same buffer and size. */
  predicate EndsTemporaries(ops: seq<Op>) {
    forall j :: 0 <= j < |ops| && ops[j].LifetimeEnd? ==>
      exists i :: 0 <= i < j && ops[i].TempAlloca? && ops[i].buf == ops[j].buf && ops[i].size == ops[j].size
  }

  /** Defined ids lie in [lo, hi) and increase along the sequence. */
  predicate FreshDefs(ops: seq<Op>, lo: nat, hi: nat) {
    && (forall i :: 0 <= i < |ops| && DefinedId(ops[i]).Some? ==> lo <= DefinedId(ops[i]).value < hi)
    && (forall i, j :: 0 <= i < j < |ops| && DefinedId(ops[i]).Some? && DefinedId(ops[j]).Some? ==>
          DefinedId(ops[i]).value < DefinedId(ops[j]).value)
  }

  predicate Below(env: set<nat>, n: nat) {
    forall x :: x in env ==> x < n
  }

  /** The declarative well-formedness of an emitted sequence: `env` holds the
      values it reads from outside, all below the ids `[lo, hi)` it may define. */
  predicate WellFormed(ops: seq<Op>, env: set<nat>, lo: nat, hi: nat) {
    && Below(env, lo)
    && lo <= hi
    && UsesInScope(ops, env)
    && EndsTemporaries(ops)
    && FreshDefs(ops, lo, hi)
  }

  /** Every temporary alloca's lifetime is ended in the sequence (after it,
      since `EndsTemporaries` and `FreshDefs` order the two). */
  predicate TemporariesEnded(ops: seq<Op>) {
    forall i :: 0 <= i < |ops| && ops[i].TempAlloca? ==>
      exists j :: 0 <= j < |ops| && ops[j].LifetimeEnd? && ops[j].buf == ops[i].buf
  }

  // ---------------------------------------------------------------------------
  // The incremental reading, the way an emitter appends.

  function DefSet(op: Op): set<nat> {
    match DefinedId(op)
    case None => {}
    case Some(x) => {x}
  }

  /** The ids the code defines. */
  function Defs(c: Code): set<nat> {
    match c
    case Empty => {}
    case Then(p, op) => Defs(p) + DefSet(op)
  }

  /** The buffers whose lifetime the code ends. */
  function Ended(c: Code): set<nat> {
    match c
    case Empty => {}
    case Then(p, op) => Ended(p) + (if op.LifetimeEnd? then {op.buf} else {})
  }

  /** The buffers of the code's temporary allocas. */
  function AllocaBufs(c: Code): set<nat> {
    match c
    case Empty => {}
    case Then(p, op) => AllocaBufs(p) + (if op.TempAlloca? then {op.buf} else {})
  }

  /** One past the last id the code defines; `lo` when it defines none. */
  function Top(c: Code, lo: nat): (r: nat)
    ensures r == lo || r > 0
  {
    match c
    case Empty => lo
    case Then(p, op) => if DefinedId(op).Some? then DefinedId(op).value + 1 else Top(p, lo)
  }

  /** A temporary alloca of `buf` with this size occurs in the code. */
  predicate Allocated(c: Code, buf: nat, size: nat) {
    match c
    case Empty => false
    case Then(p, op) => (op.TempAlloca? && op.buf == buf && op.size == size) || Allocated(p, buf, size)
  }

  /** The ids live after the code: read from outside or defined, and not ended. */
  function Live(c: Code, env: set<nat>): set<nat> {
    env + Defs(c) - Ended(c)
  }

  /** Each instruction reads only live ids, defines an id above every earlier
      one, and ends only a temporary allocated earlier with the same size. */
  predicate Scoped(c: Code, env: set<nat>, lo: nat) {
    match c
    case Empty => true
    case Then(p, op) =>
      && Scoped(p, env, lo)
      && UsedIds(op) <= Live(p, env)
      && (DefinedId(op).Some? ==> Top(p, lo) <= DefinedId(op).value)
      && (op.LifetimeEnd? ==> Allocated(p, op.buf, op.size))
  }

  /** Every runtime call passes as many arguments as the runtime function takes. */
  predicate CallsConform(c: Code) {
    match c
    case Empty => true
    case Then(p, op) => CallsConform(p) && (op.RuntimeCall? ==> |op.args| == Arity(op.callee))
  }

  /** The runtime functions called, in order. */
  function Trace(c: Code): seq<Callee> {
    match c
    case Empty => []
    case Then(p, op) => Trace(p) + (if op.RuntimeCall? then [op.callee] else [])
  }

  // ---------------------------------------------------------------------------
  // Appending one instruction at a time.

  /** What an emitter needs to know about the code so far: the next id above
      every defined one, the defined and the ended ids, the temporaries, and
      the runtime calls made. */
  datatype Summary = Summary(top: nat, defs: set<nat>, ended: set<nat>, allocas: set<nat>, trace: seq<Callee>)

  /** `c` is scoped, calls the runtime with its arities, and `sum` describes it. */
  predicate Summarized(c: Code, env: set<nat>, lo: nat, sum: Summary) {
    && Scoped(c, env, lo) && CallsConform(c)
    && Top(c, lo) == sum.top && Defs(c) == sum.defs && Ended(c) == sum.ended
    && AllocaBufs(c) == sum.allocas && Trace(c) == sum.trace
  }

  lemma SummarizedEmpty(env: set<nat>, lo: nat)
    ensures Summarized(Empty, env, lo, Summary(lo, {}, {}, {}, []))
  {
  }

  lemma AllocaNext(c: Code, env: set<nat>, lo: nat, sum: Summary, b: nat, ty: Ty, size: nat)
    requires Summarized(c, env, lo, sum) && sum.top <= b
    ensures Summarized(Then(c, TempAlloca(b, ty, size)), env, lo,
                       Summary(b + 1, sum.defs + {b}, sum.ended, sum.allocas + {b}, sum.trace))
    ensures Allocated(Then(c, TempAlloca(b, ty, size)), b, size)
  {
  }

  lemma EntryNext(c: Code, env: set<nat>, lo: nat, sum: Summary, b: nat, ty: Ty)
    requires Summarized(c, env, lo, sum) && sum.top <= b
    ensures Summarized(Then(c, EntryAlloca(b, ty)), env, lo,
                       Summary(b + 1, sum.defs + {b}, sum.ended, sum.allocas, sum.trace))
  {
  }

  lemma UseNext(c: Code, env: set<nat>, lo: nat, sum: Summary, op: Op)
    requires op.Store? || op.SetAlignment?
    requires Summarized(c, env, lo, sum) && UsedIds(op) <= env + sum.defs - sum.ended
    ensures Summarized(Then(c, op), env, lo, sum)
  {
  }

  lemma CallNext(c: Code, env: set<nat>, lo: nat, sum: Summary, f: Callee, args: seq<Operand>, r: nat)
    requires Summarized(c, env, lo, sum) && sum.top <= r
    requires ArgIds(args) <= env + sum.defs - sum.ended && |args| == Arity(f)
    ensures Summarized(Then(c, RuntimeCall(f, args, r)), env, lo,
                       Summary(r + 1, sum.defs + {r}, sum.ended, sum.allocas, sum.trace + [f]))
  {
  }

  lemma ValueNext(c: Code, env: set<nat>, lo: nat, sum: Summary, op: Op)
    requires op.Load? || op.InsertValue? || op.ExtractValue? || op.SExt?
    requires Summarized(c, env, lo, sum) && sum.top <= op.result && UsedIds(op) <= env + sum.defs - sum.ended
    ensures Summarized(Then(c, op), env, lo,
                       Summary(op.result + 1, sum.defs + {op.result}, sum.ended, sum.allocas, sum.trace))
  {
  }

  lemma EndNext(c: Code, env: set<nat>, lo: nat, sum: Summary, b: nat, size: nat)
    requires Summarized(c, env, lo, sum) && Allocated(c, b, size) && b in env + sum.defs - sum.ended
    ensures Summarized(Then(c, LifetimeEnd(b, size)), env, lo,
                       Summary(sum.top, sum.defs, sum.ended + {b}, sum.allocas, sum.trace))
  {
  }


  /** A temporary allocated and then passed to a runtime call. */
  lemma AllocCall(p: Code, env: set<nat>, lo: nat, sum: Summary, b: nat, ty: Ty, size: nat,
                  f: Callee, args: seq<Operand>, r: nat)
    requires Summarized(p, env, lo, sum) && sum.top == b && r == b + 1 && b !in sum.ended
    requires ArgIds(args) <= env + (sum.defs + {b}) - sum.ended && |args| == Arity(f)
    ensures Summarized(Then(Then(p, TempAlloca(b, ty, size)), RuntimeCall(f, args, r)), env, lo,
                       Summary(r + 1, sum.defs + {b} + {r}, sum.ended, sum.allocas + {b}, sum.trace + [f]))
    ensures Allocated(Then(Then(p, TempAlloca(b, ty, size)), RuntimeCall(f, args, r)), b, size)
  {
    AllocaNext(p, env, lo, sum, b, ty, size);
    CallNext(Then(p, TempAlloca(b, ty, size)), env, lo, Summary(b + 1, sum.defs + {b}, sum.ended, sum.allocas + {b}, sum.trace),
             f, args, r);
  }

  // ---------------------------------------------------------------------------
  // The two readings agree.

  lemma SnocLive(s: seq<Op>, op: Op, env: set<nat>, j: nat, x: nat)
    requires j <= |s|
    ensures DefinedBefore(s + [op], j, x) == DefinedBefore(s, j, x)
    ensures EndedBefore(s + [op], j, x) == EndedBefore(s, j, x)
    ensures LiveAt(s + [op], env, j, x) == LiveAt(s, env, j, x)
  {
    assert forall i :: 0 <= i < j ==> (s + [op])[i] == s[i];
  }

  lemma {:induction false} DefsMeans(c: Code, x: nat)
    ensures x in Defs(c) <==> DefinedBefore(ToSeq(c), |ToSeq(c)|, x)
    ensures x in Ended(c) <==> EndedBefore(ToSeq(c), |ToSeq(c)|, x)
  {
    match c
    case Empty =>
    case Then(p, op) =>
      DefsMeans(p, x);
      var s := ToSeq(p);
      SnocLive(s, op, {}, |s|, x);
      assert ToSeq(c) == s + [op];
      if DefinedId(op) == Some(x) {
        assert DefinedId(ToSeq(c)[|s|]) == Some(x);
      }
      if DefinedBefore(ToSeq(c), |ToSeq(c)|, x) && !DefinedBefore(s, |s|, x) {
        var i :| 0 <= i < |s| + 1 && DefinedId(ToSeq(c)[i]) == Some(x);
        assert i == |s|;
      }
      if op.LifetimeEnd? && op.buf == x {
        assert ToSeq(c)[|s|] == op;
      }
      if EndedBefore(ToSeq(c), |ToSeq(c)|, x) && !EndedBefore(s, |s|, x) {
        var i :| 0 <= i < |s| + 1 && ToSeq(c)[i].LifetimeEnd? && ToSeq(c)[i].buf == x;
        assert i == |s|;
      }
  }

  lemma {:induction false} AllocatedMeans(c: Code, buf: nat, size: nat)
    ensures Allocated(c, buf, size) <==>
      exists i :: 0 <= i < |ToSeq(c)| && ToSeq(c)[i].TempAlloca? && ToSeq(c)[i].buf == buf && ToSeq(c)[i].size == size
  {
    match c
    case Empty =>
    case Then(p, op) =>
      AllocatedMeans(p, buf, size);
      var s := ToSeq(p);
      assert ToSeq(c) == s + [op];
      assert forall i :: 0 <= i < |s| ==> ToSeq(c)[i] == s[i];
  }

  lemma {:induction false} AllocasMeans(c: Code, x: nat)
    ensures x in AllocaBufs(c) <==> exists i :: 0 <= i < |ToSeq(c)| && ToSeq(c)[i].TempAlloca? && ToSeq(c)[i].buf == x
  {
    match c
    case Empty =>
    case Then(p, op) =>
      AllocasMeans(p, x);
      var s := ToSeq(p);
      assert ToSeq(c) == s + [op];
      assert forall i :: 0 <= i < |s| ==> ToSeq(c)[i] == s[i];
  }

  /** `Top` is `lo` or one past some defined id. */
  lemma {:induction false} TopIsDefined(c: Code, lo: nat)
    ensures Top(c, lo) == lo || DefinedBefore(ToSeq(c), |ToSeq(c)|, Top(c, lo) - 1)
  {
    match c
    case Empty =>
    case Then(p, op) =>
      var s := ToSeq(p);
      assert ToSeq(c) == s + [op];
      if DefinedId(op).Some? {
        assert DefinedId(ToSeq(c)[|s|]) == Some(Top(c, lo) - 1);
      } else {
        TopIsDefined(p, lo);
        if Top(p, lo) != lo {
          SnocLive(s, op, {}, |s|, Top(p, lo) - 1);
        }
      }
  }

  lemma SnocScope(s: seq<Op>, op: Op, env: set<nat>)
    requires UsesInScope(s, env)
    requires forall x :: x in UsedIds(op) ==> LiveAt(s, env, |s|, x)
    ensures UsesInScope(s + [op], env)
  {
    var r := s + [op];
    forall j, x | 0 <= j < |r| && x in UsedIds(r[j]) ensures LiveAt(r, env, j, x) {
      SnocLive(s, op, env, j, x);
      if j < |s| {
        assert r[j] == s[j];
      }
    }
  }

  lemma SnocEnds(s: seq<Op>, op: Op)
    requires EndsTemporaries(s)
    requires op.LifetimeEnd? ==>
      exists i :: 0 <= i < |s| && s[i].TempAlloca? && s[i].buf == op.buf && s[i].size == op.size
    ensures EndsTemporaries(s + [op])
  {
    var r := s + [op];
    forall j | 0 <= j < |r| && r[j].LifetimeEnd?
      ensures exists i :: 0 <= i < j && r[i].TempAlloca? && r[i].buf == r[j].buf && r[i].size == r[j].size
    {
      if j < |s| {
        assert r[j] == s[j];
        var i :| 0 <= i < j && s[i].TempAlloca? && s[i].buf == s[j].buf && s[i].size == s[j].size;
        assert r[i] == s[i];
      } else {
        var i :| 0 <= i < |s| && s[i].TempAlloca? && s[i].buf == op.buf && s[i].size == op.size;
        assert r[i] == s[i];
      }
    }
  }

  lemma SnocFresh(s: seq<Op>, op: Op, lo: nat, hi: nat, hi': nat)
    requires FreshDefs(s, lo, hi) && hi <= hi'
    requires DefinedId(op).Some? ==> lo <= hi <= DefinedId(op).value < hi'
    ensures FreshDefs(s + [op], lo, hi')
  {
    var r := s + [op];
    forall i | 0 <= i < |r| && DefinedId(r[i]).Some? ensures lo <= DefinedId(r[i]).value < hi' {
      if i < |s| { assert r[i] == s[i]; }
    }
    forall i, j | 0 <= i < j < |r| && DefinedId(r[i]).Some? && DefinedId(r[j]).Some?
      ensures DefinedId(r[i]).value < DefinedId(r[j]).value
    {
      assert r[i] == s[i];
      if j < |s| { assert r[j] == s[j]; }
    }
  }

  /** The incremental reading implies the declarative one. */
  lemma {:induction false} ScopedWellFormed(c: Code, env: set<nat>, lo: nat)
    requires Below(env, lo) && Scoped(c, env, lo)
    ensures lo <= Top(c, lo) && WellFormed(ToSeq(c), env, lo, Top(c, lo))
  {
    match c
    case Empty =>
    case Then(p, op) =>
      ScopedWellFormed(p, env, lo);
      var s := ToSeq(p);
      assert ToSeq(c) == s + [op];
      forall x | x in UsedIds(op) ensures LiveAt(s, env, |s|, x) {
        DefsMeans(p, x);
      }
      SnocScope(s, op, env);
      if op.LifetimeEnd? {
        AllocatedMeans(p, op.buf, op.size);
      }
      SnocEnds(s, op);
      SnocFresh(s, op, lo, Top(p, lo), Top(c, lo));
  }

  lemma ScopeInit(s: seq<Op>, op: Op, env: set<nat>)
    requires UsesInScope(s + [op], env)
    ensures UsesInScope(s, env)
    ensures forall x :: x in UsedIds(op) ==> LiveAt(s, env, |s|, x)
  {
    var r := s + [op];
    forall j, x | 0 <= j < |s| && x in UsedIds(s[j]) ensures LiveAt(s, env, j, x) {
      assert r[j] == s[j];
      SnocLive(s, op, env, j, x);
    }
    forall x | x in UsedIds(op) ensures LiveAt(s, env, |s|, x) {
      assert r[|s|] == op;
      SnocLive(s, op, env, |s|, x);
    }
  }

  lemma EndsInit(s: seq<Op>, op: Op)
    requires EndsTemporaries(s + [op])
    ensures EndsTemporaries(s)
    ensures op.LifetimeEnd? ==>
      exists i :: 0 <= i < |s| && s[i].TempAlloca? && s[i].buf == op.buf && s[i].size == op.size
  {
    var r := s + [op];
    forall j | 0 <= j < |s| && s[j].LifetimeEnd?
      ensures exists i :: 0 <= i < j && s[i].TempAlloca? && s[i].buf == s[j].buf && s[i].size == s[j].size
    {
      assert r[j] == s[j];
      var i :| 0 <= i < j && r[i].TempAlloca? && r[i].buf == r[j].buf && r[i].size == r[j].size;
      assert r[i] == s[i];
    }
    if op.LifetimeEnd? {
      assert r[|s|] == op;
      var i :| 0 <= i < |s| && r[i].TempAlloca? && r[i].buf == op.buf && r[i].size == op.size;
      assert r[i] == s[i];
    }
  }

  lemma FreshInit(s: seq<Op>, op: Op, lo: nat, hi: nat)
    requires FreshDefs(s + [op], lo, hi)
    ensures FreshDefs(s, lo, hi)
    ensures DefinedId(op).Some? ==> lo <= DefinedId(op).value < hi
    ensures DefinedId(op).Some? ==> forall x: nat :: DefinedBefore(s, |s|, x) ==> x < DefinedId(op).value
  {
    var r := s + [op];
    assert forall i :: 0 <= i < |s| ==> r[i] == s[i];
    assert r[|s|] == op;
    if DefinedId(op).Some? {
      forall x: nat | DefinedBefore(s, |s|, x) ensures x < DefinedId(op).value {
        var i :| 0 <= i < |s| && DefinedId(s[i]) == Some(x);
        assert DefinedId(r[i]) == Some(x);
      }
    }
  }

  /** The declarative reading implies the incremental one. */
  lemma {:induction false} WellFormedScoped(c: Code, env: set<nat>, lo: nat, hi: nat)
    requires WellFormed(ToSeq(c), env, lo, hi)
    ensures Scoped(c, env, lo) && Top(c, lo) <= hi
  {
    match c
    case Empty =>
    case Then(p, op) =>
      var s := ToSeq(p);
      assert ToSeq(c) == s + [op];
      ScopeInit(s, op, env);
      EndsInit(s, op);
      FreshInit(s, op, lo, hi);
      WellFormedScoped(p, env, lo, hi);
      forall x | x in UsedIds(op) ensures x in Live(p, env) {
        DefsMeans(p, x);
      }
      if op.LifetimeEnd? {
        AllocatedMeans(p, op.buf, op.size);
      }
      if DefinedId(op).Some? {
        TopIsDefined(p, lo);
      }
  }

  lemma TemporariesEndedMeans(c: Code)
    ensures TemporariesEnded(ToSeq(c)) <==> AllocaBufs(c) <= Ended(c)
  {
    var s := ToSeq(c);
    if AllocaBufs(c) <= Ended(c) {
      forall i | 0 <= i < |s| && s[i].TempAlloca?
        ensures exists j :: 0 <= j < |s| && s[j].LifetimeEnd? && s[j].buf == s[i].buf
      {
        AllocasMeans(c, s[i].buf);
        DefsMeans(c, s[i].buf);
      }
    }
    if TemporariesEnded(s) {
      forall x | x in AllocaBufs(c) ensures x in Ended(c) {
        AllocasMeans(c, x);
        DefsMeans(c, x);
      }
    }
  }

  lemma WidenFresh(ops: seq<Op>, env: set<nat>, lo: nat, hi: nat, hi': nat)
    requires WellFormed(ops, env, lo, hi) && hi <= hi'
    ensures WellFormed(ops, env, lo, hi')
  {
  }

  /** A summarized code, read declaratively. */
  lemma Conclude(c: Code, env: set<nat>, lo: nat, hi: nat, sum: Summary)
    requires Summarized(c, env, lo, sum) && sum.top <= hi
    ensures CallsConform(c) && Trace(c) == sum.trace
    ensures TemporariesEnded(ToSeq(c)) <==> sum.allocas <= sum.ended
    ensures Below(env, lo) ==> WellFormed(ToSeq(c), env, lo, hi)
  {
    TemporariesEndedMeans(c);
    if Below(env, lo) {
      ScopedWellFormed(c, env, lo);
      WidenFresh(ToSeq(c), env, lo, Top(c, lo), hi);
    }
  }

  lemma {:induction false} ConcatSeq(a: Code, b: Code)
    ensures ToSeq(Concat(a, b)) == ToSeq(a) + ToSeq(b)
  {
    match b
    case Empty =>
    case Then(p, op) =>
      ConcatSeq(a, p);
  }

  /** One runtime call with the runtime's arity, reading only `env`. */
  lemma SingleCall(f: Callee, args: seq<Operand>, id: nat, env: set<nat>)
    requires ArgIds(args) <= env && |args| == Arity(f)
    ensures var c := Then(Empty, RuntimeCall(f, args, id));
      && CallsConform(c) && Trace(c) == [f] && TemporariesEnded(ToSeq(c))
      && (Below(env, id) ==> WellFormed(ToSeq(c), env, id, id + 1))
  {
    SummarizedEmpty(env, id);
    CallNext(Empty, env, id, Summary(id, {}, {}, {}, []), f, args, id);
    Conclude(Then(Empty, RuntimeCall(f, args, id)), env, id, id + 1, Summary(id + 1, {} + {id}, {}, {}, [] + [f]));
  }

  /** One value instruction reading only `env`. */
  lemma SingleValue(op: Op, env: set<nat>)
    requires op.Load? || op.InsertValue? || op.ExtractValue? || op.SExt?
    requires UsedIds(op) <= env
    ensures var c := Then(Empty, op);
      && CallsConform(c) && Trace(c) == [] && TemporariesEnded(ToSeq(c))
      && (Below(env, op.result) ==> WellFormed(ToSeq(c), env, op.result, op.result + 1))
  {
    SummarizedEmpty(env, op.result);
    ValueNext(Empty, env, op.result, Summary(op.result, {}, {}, {}, []), op);
    Conclude(Then(Empty, op), env, op.result, op.result + 1, Summary(op.result + 1, {} + {op.result}, {}, {}, []));
  }

  // ---------------------------------------------------------------------------
  // The emitter.

  /** The code emitted so far and the next unused id. */
  datatype Emitter = Emitter(code: Code, next: nat)

  /** An emitter after some emission, and the value the emission produced. */
  datatype Emission = Emission(em: Emitter, value: Operand)

  /** Appends `c` to the emitter and moves the next free id to `next`. */
  function Emit(e: Emitter, c: Code, next: nat): (r: Emitter)
    requires e.next <= next
    ensures ToSeq(r.code) == ToSeq(e.code) + ToSeq(c) && r.next == next
  {
    ConcatSeq(e.code, c);
    Emitter(Concat(e.code, c), next)
  }

  /** What an emission appends is exactly the emitted code, after what was there. */
  lemma EmitAppends(e: Emitter, c: Code, next: nat)
    requires e.next <= next
    ensures var after := ToSeq(Emit(e, c, next).code);
      ToSeq(e.code) <= after && after[|ToSeq(e.code)|..] == ToSeq(c)
  {
    var after := ToSeq(Emit(e, c, next).code);
    assert after == ToSeq(e.code) + ToSeq(c);
  }

  lemma ArgIds1(x: Operand)
    ensures ArgIds([x]) == OperandIds(x)
  {
    assert [x][1..] == [];
  }

  lemma ArgIds2(x: Operand, y: Operand)
    ensures ArgIds([x, y]) == OperandIds(x) + OperandIds(y)
  {
    assert [x, y][1..] == [y];
    ArgIds1(y);
  }

  lemma ArgIds3(x: Operand, y: Operand, z: Operand)
    ensures ArgIds([x, y, z]) == OperandIds(x) + OperandIds(y) + OperandIds(z)
  {
    assert [x, y, z][1..] == [y, z];
    ArgIds2(y, z);
  }

  lemma {:induction false} ArgIdsAppend(a: seq<Operand>, b: seq<Operand>)
    ensures ArgIds(a + b) == ArgIds(a) + ArgIds(b)
    decreases |a|
  {
    if |a| > 0 {
      assert (a + b)[1..] == a[1..] + b;
      ArgIdsAppend(a[1..], b);
    } else {
      assert a + b == b;
    }
  }

  lemma Seq2(a: Op, b: Op)
    ensures ToSeq(Then(Then(Empty, a), b)) == [a, b]
  {
    assert ToSeq(Then(Empty, a)) == [a];
  }

  lemma Seq4(a: Op, b: Op, c: Op, d: Op)
    ensures ToSeq(Then(Then(Then(Then(Empty, a), b), c), d)) == [a, b, c, d]
  {
    Seq2(a, b);
    assert ToSeq(Then(Then(Then(Empty, a), b), c)) == [a, b] + [c];
  }
}
