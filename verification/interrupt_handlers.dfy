/** Phase B of interrupt lowering: each `runtime/interrupt.handle` descriptor
    becomes a forwarding interrupt entry function, or a diagnostic. */
module InterruptHandlers {
  import opened InterruptIR
  import Decimal

  /** The placeholder symbol used under software vectoring. */
  function SyntheticName(num: int): string {
    SyntheticPrefix + Decimal.FormatInt(num)
  }

  /** Placeholder names of distinct numbers never collide. */
  lemma SyntheticNameInjective(a: int, b: int)
    ensures SyntheticName(a) == SyntheticName(b) <==> a == b
  {
    if SyntheticName(a) == SyntheticName(b) {
      assert Decimal.FormatInt(a) == SyntheticName(a)[|SyntheticPrefix|..];
      assert Decimal.FormatInt(b) == SyntheticName(b)[|SyntheticPrefix|..];
      Decimal.FormatIntInjective(a, b);
    }
  }

  datatype NameChoice = Registered(name: string) | Synthetic(name: string) | Unnamed

  /** A Go map yields "" for a missing key, so an empty registered name counts as no name. */
  predicate HasRegisteredName(table: map<int, string>, num: int) {
    num in table && table[num] != ""
  }

  function ChooseName(table: map<int, string>, hasSoftwareVectoring: bool, num: int): (c: NameChoice)
    ensures c.Registered? <==> HasRegisteredName(table, num)
    ensures c.Registered? ==> c.name == table[num]
    ensures c.Synthetic? <==> hasSoftwareVectoring && !HasRegisteredName(table, num)
    ensures c.Synthetic? ==> c.name == SyntheticName(num)
    ensures !c.Unnamed? ==> c.name != ""
  {
    var name := if num in table then table[num] else "";
    if name != "" then Registered(name)
    else if hasSoftwareVectoring then Synthetic(SyntheticName(num))
    else Unnamed
  }

  datatype Resolved = Resolved(value: Value) | Failed(diag: Diag)

  /** Peels exactly one func-lowering layer: `ptrtoint @g`, where `@g` is a
      global initialized with a `runtime.funcValueWithSignature` whose field 0
      is `ptrtoint f`, resolves to `f`. Any other value is returned unchanged. */
  function UnwrapFuncLowering(m: Module, v: Value): (r: Resolved)
    ensures !v.PtrToInt? ==> r == Resolved(v)
    ensures v.PtrToInt? && r.Resolved? ==>
      IsGlobalValue(m, v.operand) && InitializerOf(m, v.operand) == FuncValueWithSignature(PtrToInt(r.value))
    ensures v.PtrToInt? && !IsGlobalValue(m, v.operand) ==> r == Failed(ExpectedFuncLoweringGlobal)
    ensures v.PtrToInt? && IsGlobalValue(m, v.operand) ==>
      && (!InitializerOf(m, v.operand).FuncValueWithSignature? ==> r == Failed(FuncLoweringUnexpectedType))
      && (InitializerOf(m, v.operand).FuncValueWithSignature? && !InitializerOf(m, v.operand).funcPtr.PtrToInt? ==>
            r == Failed(FuncLoweringUnexpectedFuncPtr))
      && (forall f :: InitializerOf(m, v.operand) == FuncValueWithSignature(PtrToInt(f)) ==> r == Resolved(f))
    ensures r.Failed? ==> r.diag.IsInternal()
  {
    if !v.PtrToInt? then Resolved(v)
    else if !IsGlobalValue(m, v.operand) then Failed(ExpectedFuncLoweringGlobal)
    else match InitializerOf(m, v.operand)
      case FuncValueWithSignature(field0) =>
        if field0.PtrToInt? then Resolved(field0.operand) else Failed(FuncLoweringUnexpectedFuncPtr)
      case _ => Failed(FuncLoweringUnexpectedType)
  }

  /** The function a descriptor forwards to, from its context and func-pointer fields. */
  function HandlerTarget(m: Module, context: Value, funcPtr: Value): (r: Resolved)
    ensures r.Resolved? ==> context.IsConstant() && funcPtr.IsConstant() && r.value.FuncAddr?
    ensures r.Resolved? ==>
      || r.value == funcPtr
      || (funcPtr.PtrToInt? && InitializerOf(m, funcPtr.operand) == FuncValueWithSignature(PtrToInt(r.value)))
    ensures !context.IsConstant() || !funcPtr.IsConstant() ==> r == Failed(FuncValueNotConstant)
    ensures context.IsConstant() && funcPtr.IsConstant() ==>
      && (UnwrapFuncLowering(m, funcPtr).Failed? ==> r == UnwrapFuncLowering(m, funcPtr))
      && (UnwrapFuncLowering(m, funcPtr).Resolved? && UnwrapFuncLowering(m, funcPtr).value.FuncAddr? ==>
            r == UnwrapFuncLowering(m, funcPtr))
      && (UnwrapFuncLowering(m, funcPtr).Resolved? && !UnwrapFuncLowering(m, funcPtr).value.FuncAddr? ==>
            r == Failed(UnexpectedFuncValueType))
    ensures r.Failed? ==> r.diag.IsInternal()
  {
    if !context.IsConstant() || !funcPtr.IsConstant() then Failed(FuncValueNotConstant)
    else match UnwrapFuncLowering(m, funcPtr)
      case Failed(d) => Failed(d)
      case Resolved(f) => if f.FuncAddr? then Resolved(f) else Failed(UnexpectedFuncValueType)
  }

  /** Reference definition of a descriptor's forwarding target: the context is
      constant and the target is a function, either given directly or wrapped
      once by a func-lowering global. */
  predicate ResolvesTo(m: Module, context: Value, funcPtr: Value, f: Value) {
    && context.IsConstant()
    && f.FuncAddr?
    && (|| funcPtr == f
        || (&& funcPtr.PtrToInt? && IsGlobalValue(m, funcPtr.operand)
            && InitializerOf(m, funcPtr.operand) == FuncValueWithSignature(PtrToInt(f))))
  }

  /** The target resolves to `f` exactly when the reference definition says so. */
  lemma HandlerTargetResolves(m: Module, context: Value, funcPtr: Value, f: Value)
    ensures HandlerTarget(m, context, funcPtr) == Resolved(f) <==> ResolvesTo(m, context, funcPtr, f)
  {
  }

  /** Only one layer is peeled: a func-lowering global wrapping a second
      `ptrtoint` is rejected, not unwrapped again. */
  lemma UnwrapIsOneLayer(m: Module, g: string, f: string)
    requires g in m.globals && m.globals[g].init == FuncValueWithSignature(PtrToInt(PtrToInt(FuncAddr(f))))
    ensures HandlerTarget(m, NullPtr, PtrToInt(GlobalAddr(g))) == Failed(UnexpectedFuncValueType)
  {
  }

  /** The first instruction of an existing entry function already forwards
      `num` and `context` to `target` (the third argument is not compared). */
  predicate ForwardsTo(fn: Function, target: Value, num: int, context: Value) {
    && |fn.blocks| > 0
    && |fn.blocks[0].insts| > 0
    && var first := fn.blocks[0].insts[0];
    && first.Call? && |first.args| == 3 && first.callee == target
    && first.args[0] == IntConst(num) && first.args[1] == context
  }

  datatype Decision =
    | Skip(diag: Diag)
    | Duplicate
    | Synthesize(name: string, softwareVectored: bool, target: Value)

  /** What happens to one descriptor, given the current functions. */
  function Decide(m: Module, table: map<int, string>, hasSoftwareVectoring: bool, d: Descriptor): (r: Decision)
    ensures r == Skip(NoInterruptName(d.num)) <==> !hasSoftwareVectoring && !HasRegisteredName(table, d.num)
    ensures r.Synthesize? ==>
      && r.target.FuncAddr?
      && (r.name !in m.functions || (m.functions[r.name].isEntryType && m.functions[r.name].IsDeclaration()))
    ensures r.Synthesize? ==>
      (r.softwareVectored <==> !HasRegisteredName(table, d.num))
      && (r.softwareVectored ==> r.name == SyntheticName(d.num))
      && (!r.softwareVectored ==> r.name == table[d.num])
    ensures r.Duplicate? <==>
      && !ChooseName(table, hasSoftwareVectoring, d.num).Unnamed?
      && HandlerTarget(m, d.context, d.funcPtr).Resolved?
      && var name := ChooseName(table, hasSoftwareVectoring, d.num).name;
      && name in m.functions && m.functions[name].isEntryType && !m.functions[name].IsDeclaration()
      && ForwardsTo(m.functions[name], HandlerTarget(m, d.context, d.funcPtr).value, d.num, d.context)
    ensures r.Skip? && r.diag.RedeclaredSignature? ==> r.diag.name in m.functions && !m.functions[r.diag.name].isEntryType
    ensures r.Skip? && r.diag.Redeclared? ==> r.diag.name in m.functions && !m.functions[r.diag.name].IsDeclaration()
    ensures r.Synthesize? ==>
      HandlerTarget(m, d.context, d.funcPtr) == Resolved(r.target)
      && r.name == ChooseName(table, hasSoftwareVectoring, d.num).name
    ensures var choice := ChooseName(table, hasSoftwareVectoring, d.num);
      var t := HandlerTarget(m, d.context, d.funcPtr);
      !choice.Unnamed? ==>
        && (t.Failed? ==> r == Skip(t.diag))
        && (t.Resolved? && choice.name !in m.functions ==> r == Synthesize(choice.name, choice.Synthetic?, t.value))
        && (t.Resolved? && choice.name in m.functions ==>
              var fn := m.functions[choice.name];
              && (!fn.isEntryType ==> r == Skip(RedeclaredSignature(choice.name)))
              && (fn.isEntryType && fn.IsDeclaration() ==> r == Synthesize(choice.name, choice.Synthetic?, t.value))
              && (fn.isEntryType && !fn.IsDeclaration() && !ForwardsTo(fn, t.value, d.num, d.context) ==>
                    r == Skip(Redeclared(choice.name))))
  {
    match ChooseName(table, hasSoftwareVectoring, d.num)
    case Unnamed => Skip(NoInterruptName(d.num))
    case _ =>
      var choice := ChooseName(table, hasSoftwareVectoring, d.num);
      match HandlerTarget(m, d.context, d.funcPtr)
      case Failed(diag) => Skip(diag)
      case Resolved(target) =>
        if choice.name !in m.functions then Synthesize(choice.name, choice.Synthetic?, target)
        else
          var fn := m.functions[choice.name];
          if !fn.isEntryType then Skip(RedeclaredSignature(choice.name))
          else if !fn.IsDeclaration() then
            if ForwardsTo(fn, target, d.num, d.context) then Duplicate else Skip(Redeclared(choice.name))
          else Synthesize(choice.name, choice.Synthetic?, target)
  }

  /** The body of a forwarding handler: `target(num, context, null); ret void`. */
  function ForwardingEntry(target: Value, num: int, context: Value): Block {
    Block("entry", [Call(target, [IntConst(num), context, NullPtr]), RetVoid])
  }

  predicate IsAvr(triple: string) {
    HasPrefix(triple, "avr")
  }

  /** The definition given to the handler `name` (reusing its declaration if there is one). */
  function Synthesized(m: Module, name: string, softwareVectored: bool, target: Value, d: Descriptor): (fn: Function)
    requires name !in m.functions || m.functions[name].IsDeclaration()
    ensures fn.isEntryType == (name !in m.functions || m.functions[name].isEntryType)
    ensures fn.blocks == [ForwardingEntry(target, d.num, d.context)]
    ensures fn.unnamedAddr && fn.section == SectionPrefix + name
    ensures IsAvr(m.target) ==> fn.callConv == AvrSignalCallConv
    ensures !IsAvr(m.target) ==> fn.callConv == (if name in m.functions then m.functions[name].callConv else CCallConv)
    ensures softwareVectored ==> fn.linkage == Internal
    ensures !softwareVectored ==> fn.linkage == (if name in m.functions then m.functions[name].linkage else External)
  {
    var base := if name in m.functions then m.functions[name] else NewEntryDecl;
    base.(
      unnamedAddr := true,
      section := SectionPrefix + name,
      linkage := if softwareVectored then Internal else base.linkage,
      callConv := if IsAvr(m.target) then AvrSignalCallConv else base.callConv,
      blocks := base.blocks + [ForwardingEntry(target, d.num, d.context)])
  }

  /** Every `ptrtoint` use of the descriptor `global` now reads the literal number. */
  function ReplaceHandleUses(sites: seq<IdSite>, global: string, num: int): (r: seq<IdSite>)
    ensures |r| == |sites|
    ensures HandleAddr(global) !in r
    ensures forall i :: 0 <= i < |sites| && sites[i] != HandleAddr(global) ==> r[i] == sites[i]
    ensures forall i :: 0 <= i < |sites| && sites[i] == HandleAddr(global) ==> r[i] == IdLiteral(num)
  {
    seq(|sites|, i requires 0 <= i < |sites| => if sites[i] == HandleAddr(global) then IdLiteral(num) else sites[i])
  }

  /** A software-vector table entry: interrupt number and forwarding function. */
  datatype SvEntry = SvEntry(id: int, handler: string)

  predicate DistinctIds(sv: seq<SvEntry>) {
    forall i, j :: 0 <= i < j < |sv| ==> sv[i].id != sv[j].id
  }

  /** `softwareVector[id] = handler` on a table kept as a list with distinct ids. */
  function PutEntry(sv: seq<SvEntry>, id: int, handler: string): (r: seq<SvEntry>)
    requires DistinctIds(sv)
    ensures DistinctIds(r)
    ensures SvEntry(id, handler) in r
    ensures forall e :: e in r && e.id != id ==> e in sv
    ensures forall e :: e in sv && e.id != id ==> e in r
    ensures forall e :: e in r && e.id == id ==> e.handler == handler
  {
    if |sv| == 0 then [SvEntry(id, handler)]
    else if sv[0].id == id then [SvEntry(id, handler)] + sv[1..]
    else [sv[0]] + PutEntry(sv[1..], id, handler)
  }

  /** The pass state while descriptors are processed: the module, the
      descriptors that stay in it, the software-vector table and the diagnostics. */
  datatype PassState = PassState(mod: Module, kept: seq<Descriptor>, sv: seq<SvEntry>, errs: seq<Diag>)

  /** Replaces the descriptor's `ptrtoint` uses by its number, reports each
      other use, and erases it (it is not kept). */
  function Retire(st: PassState, d: Descriptor): (r: PassState)
    ensures r.mod.idSites == ReplaceHandleUses(st.mod.idSites, d.global, d.num)
    ensures r.errs == st.errs + seq(d.otherUses, _ => ExpectedPtrToInt)
    ensures r.kept == st.kept && r.sv == st.sv && r.mod.functions == st.mod.functions
  {
    st.(mod := st.mod.(idSites := ReplaceHandleUses(st.mod.idSites, d.global, d.num)),
        errs := st.errs + seq(d.otherUses, _ => ExpectedPtrToInt))
  }

  /** One iteration of the descriptor loop. With `fixDuplicates` false this is
      the code as written, where a harmless duplicate is left in the module. */
  function ProcessDescriptor(st: PassState, table: map<int, string>, hasSoftwareVectoring: bool,
                             d: Descriptor, fixDuplicates: bool): (r: PassState)
    requires DistinctIds(st.sv)
    ensures DistinctIds(r.sv)
    ensures |st.errs| <= |r.errs| && r.errs[..|st.errs|] == st.errs
    ensures r.mod.target == st.mod.target && r.mod.globals == st.mod.globals
    ensures r.mod.registerUses == st.mod.registerUses && r.mod.useSites == st.mod.useSites
    ensures r.kept == st.kept || r.kept == st.kept + [d]
    ensures r.kept == st.kept + [d] ==> |r.errs| > |st.errs| || (!fixDuplicates && Decide(st.mod, table, hasSoftwareVectoring, d).Duplicate?)
    ensures r.kept == st.kept ==> HandleAddr(d.global) !in r.mod.idSites
    ensures forall g :: HandleAddr(g) !in st.mod.idSites ==> HandleAddr(g) !in r.mod.idSites
    ensures forall f :: f in st.mod.functions ==> f in r.mod.functions
    ensures forall f :: f in r.mod.functions && !Decide(st.mod, table, hasSoftwareVectoring, d).Synthesize? ==>
      f in st.mod.functions && r.mod.functions[f] == st.mod.functions[f]
    ensures var dec := Decide(st.mod, table, hasSoftwareVectoring, d);
      forall f :: f in r.mod.functions && dec.Synthesize? && f != dec.name ==>
        f in st.mod.functions && r.mod.functions[f] == st.mod.functions[f]
  {
    match Decide(st.mod, table, hasSoftwareVectoring, d)
    case Skip(diag) => st.(kept := st.kept + [d], errs := st.errs + [diag])
    case Duplicate => if fixDuplicates then Retire(st, d) else st.(kept := st.kept + [d])
    case Synthesize(name, softwareVectored, target) =>
      var fn := Synthesized(st.mod, name, softwareVectored, target, d);
      var st1 := st.(
        mod := st.mod.(functions := st.mod.functions[name := fn]),
        sv := if softwareVectored then PutEntry(st.sv, d.num, name) else st.sv);
      Retire(st1, d)
  }

  /** A synthesized handler has exactly the promised shape, and a software-vectored
      one is recorded under its number. */
  lemma SynthesizedHandlerShape(st: PassState, table: map<int, string>, hasSoftwareVectoring: bool,
                                d: Descriptor, fixDuplicates: bool)
    requires DistinctIds(st.sv)
    requires Decide(st.mod, table, hasSoftwareVectoring, d).Synthesize?
    ensures var dec := Decide(st.mod, table, hasSoftwareVectoring, d);
      var r := ProcessDescriptor(st, table, hasSoftwareVectoring, d, fixDuplicates);
      && dec.name in r.mod.functions
      && var fn := r.mod.functions[dec.name];
      && fn.isEntryType
      && fn.blocks == [Block("entry", [Call(dec.target, [IntConst(d.num), d.context, NullPtr]), RetVoid])]
      && fn.unnamedAddr && fn.section == ".text." + dec.name
      && (IsAvr(st.mod.target) ==> fn.callConv == 85)
      && (dec.softwareVectored ==> fn.linkage == Internal && SvEntry(d.num, dec.name) in r.sv)
      && (!dec.softwareVectored ==> r.sv == st.sv)
      && r.kept == st.kept
      && HandleAddr(d.global) !in r.mod.idSites
      && |r.errs| == |st.errs| + d.otherUses
  {
  }

  /** Every recorded entry names its placeholder handler, which is a defined internal function. */
  predicate SvRecorded(st: PassState) {
    forall e :: e in st.sv ==>
      && e.handler == SyntheticName(e.id)
      && e.handler in st.mod.functions
      && st.mod.functions[e.handler].linkage == Internal
      && !st.mod.functions[e.handler].IsDeclaration()
  }

  lemma ProcessDescriptorKeepsSvRecorded(st: PassState, table: map<int, string>, hasSoftwareVectoring: bool,
                                         d: Descriptor, fixDuplicates: bool)
    requires DistinctIds(st.sv) && SvRecorded(st)
    ensures SvRecorded(ProcessDescriptor(st, table, hasSoftwareVectoring, d, fixDuplicates))
  {
    var r := ProcessDescriptor(st, table, hasSoftwareVectoring, d, fixDuplicates);
    var dec := Decide(st.mod, table, hasSoftwareVectoring, d);
    if dec.Synthesize? {
      forall e | e in r.sv
        ensures e.handler == SyntheticName(e.id)
        ensures e.handler in r.mod.functions
        ensures r.mod.functions[e.handler].linkage == Internal
        ensures !r.mod.functions[e.handler].IsDeclaration()
      {
        if e.handler == dec.name {
          if e !in st.sv {
            assert dec.softwareVectored && e == SvEntry(d.num, dec.name);
          }
        } else {
          assert e in st.sv;
        }
      }
    }
  }

  /** The target of a descriptor depends only on the module's globals. */
  lemma HandlerTargetGlobals(m1: Module, m2: Module, context: Value, funcPtr: Value)
    requires m1.globals == m2.globals
    ensures HandlerTarget(m1, context, funcPtr) == HandlerTarget(m2, context, funcPtr)
  {
  }

  /** `d` has its handler among `fns`: the name chosen for its number is a
      defined entry function whose first instruction forwards the number and
      the context to the descriptor's target (resolved against `m`'s globals). */
  predicate HasHandler(fns: map<string, Function>, m: Module, table: map<int, string>,
                       hasSoftwareVectoring: bool, d: Descriptor) {
    var choice := ChooseName(table, hasSoftwareVectoring, d.num);
    var t := HandlerTarget(m, d.context, d.funcPtr);
    && !choice.Unnamed? && t.Resolved?
    && choice.name in fns && fns[choice.name].isEntryType && !fns[choice.name].IsDeclaration()
    && ForwardsTo(fns[choice.name], t.value, d.num, d.context)
  }

  /** Handlers survive any change of the function map that keeps every
      function and replaces at most one, which was not defined before. */
  lemma HandlersKept(before: map<string, Function>, after: map<string, Function>, m: Module,
                     table: map<int, string>, hasSoftwareVectoring: bool, name: string, touched: bool)
    requires forall f :: f in before ==> f in after
    requires forall f :: f in after && (!touched || f != name) ==> f in before && after[f] == before[f]
    requires touched ==> name !in before || before[name].IsDeclaration()
    ensures forall d :: HasHandler(before, m, table, hasSoftwareVectoring, d) ==>
                        HasHandler(after, m, table, hasSoftwareVectoring, d)
  {
    forall d | HasHandler(before, m, table, hasSoftwareVectoring, d)
      ensures HasHandler(after, m, table, hasSoftwareVectoring, d)
    {
      var n := ChooseName(table, hasSoftwareVectoring, d.num).name;
      assert after[n] == before[n];
    }
  }

  /** A descriptor step keeps every existing handler. */
  lemma ProcessDescriptorKeepsHandlers(st: PassState, table: map<int, string>, hasSoftwareVectoring: bool,
                                       d: Descriptor, fixDuplicates: bool, m: Module)
    requires DistinctIds(st.sv)
    ensures var r := ProcessDescriptor(st, table, hasSoftwareVectoring, d, fixDuplicates);
      forall d' :: HasHandler(st.mod.functions, m, table, hasSoftwareVectoring, d') ==>
                   HasHandler(r.mod.functions, m, table, hasSoftwareVectoring, d')
  {
    var r := ProcessDescriptor(st, table, hasSoftwareVectoring, d, fixDuplicates);
    var dec := Decide(st.mod, table, hasSoftwareVectoring, d);
    HandlersKept(st.mod.functions, r.mod.functions, m, table, hasSoftwareVectoring,
                 if dec.Synthesize? then dec.name else "", dec.Synthesize?);
  }

  /** A descriptor the step drops has its handler afterwards: a synthesized
      one, or the existing definition it duplicates. */
  lemma ProcessDescriptorHandles(st: PassState, table: map<int, string>, hasSoftwareVectoring: bool,
                                 d: Descriptor, fixDuplicates: bool, m: Module)
    requires DistinctIds(st.sv) && st.mod.globals == m.globals
    ensures var r := ProcessDescriptor(st, table, hasSoftwareVectoring, d, fixDuplicates);
      r.kept == st.kept ==> HasHandler(r.mod.functions, m, table, hasSoftwareVectoring, d)
  {
    var dec := Decide(st.mod, table, hasSoftwareVectoring, d);
    HandlerTargetGlobals(st.mod, m, d.context, d.funcPtr);
    if dec.Synthesize? {
      SynthesizedHandlerShape(st, table, hasSoftwareVectoring, d, fixDuplicates);
    }
  }
}
