/** The whole interrupt-lowering pass: name discovery, descriptor processing,
    dispatcher synthesis and `runtime/interrupt.use` cleanup. Every per-item
    problem is recorded and the pass carries on; only a Go slice-bounds panic
    aborts it. */
module InterruptLowering {
  import opened InterruptIR
  import opened InterruptNames
  import opened InterruptHandlers
  import opened InterruptDispatch

  /** Software vectoring is on exactly when the dispatcher exists and has uses. */
  predicate HasSoftwareVectoring(m: Module) {
    DispatcherFn in m.functions && m.functions[DispatcherFn].uses > 0
  }

  /** The descriptor loop, over the descriptors collected before it starts. */
  function ProcessAll(st: PassState, table: map<int, string>, hasSoftwareVectoring: bool,
                      ds: seq<Descriptor>, fixDuplicates: bool): (r: PassState)
    requires DistinctIds(st.sv)
    ensures DistinctIds(r.sv)
    ensures |st.errs| <= |r.errs| && r.errs[..|st.errs|] == st.errs
    ensures |st.kept| <= |r.kept| <= |st.kept| + |ds| && r.kept[..|st.kept|] == st.kept
    ensures fixDuplicates ==> |r.kept| - |st.kept| <= |r.errs| - |st.errs|
    ensures r.mod.target == st.mod.target && r.mod.globals == st.mod.globals
    ensures r.mod.registerUses == st.mod.registerUses && r.mod.useSites == st.mod.useSites
    ensures forall f :: f in st.mod.functions ==> f in r.mod.functions
    ensures forall g :: HandleAddr(g) !in st.mod.idSites ==> HandleAddr(g) !in r.mod.idSites
    decreases |ds|
  {
    if |ds| == 0 then st
    else
      var prev := ProcessAll(st, table, hasSoftwareVectoring, ds[..|ds| - 1], fixDuplicates);
      ProcessDescriptor(prev, table, hasSoftwareVectoring, ds[|ds| - 1], fixDuplicates)
  }

  /** Every descriptor processed is either kept or has its address-of uses rewritten. */
  lemma {:induction false} ProcessAllRetires(st: PassState, table: map<int, string>, hasSoftwareVectoring: bool,
                                             ds: seq<Descriptor>, fixDuplicates: bool)
    requires DistinctIds(st.sv)
    ensures var r := ProcessAll(st, table, hasSoftwareVectoring, ds, fixDuplicates);
      forall i :: 0 <= i < |ds| ==> ds[i] in r.kept[|st.kept|..] || HandleAddr(ds[i].global) !in r.mod.idSites
    decreases |ds|
  {
    if |ds| > 0 {
      var init := ds[..|ds| - 1];
      var d := ds[|ds| - 1];
      var prev := ProcessAll(st, table, hasSoftwareVectoring, init, fixDuplicates);
      var r := ProcessAll(st, table, hasSoftwareVectoring, ds, fixDuplicates);
      ProcessAllRetires(st, table, hasSoftwareVectoring, init, fixDuplicates);
      RetiresLast(st, table, hasSoftwareVectoring, ds, fixDuplicates);
      assert ds == init + [d];
      RetiresStep(prev.kept, r.kept, prev.mod.idSites, r.mod.idSites, init, d, |st.kept|);
    }
  }

  /** The last descriptor of the loop is kept or has its address-of uses rewritten. */
  lemma RetiresLast(st: PassState, table: map<int, string>, hasSoftwareVectoring: bool,
                    ds: seq<Descriptor>, fixDuplicates: bool)
    requires DistinctIds(st.sv) && |ds| > 0
    ensures var prev := ProcessAll(st, table, hasSoftwareVectoring, ds[..|ds| - 1], fixDuplicates);
      var r := ProcessAll(st, table, hasSoftwareVectoring, ds, fixDuplicates);
      && (r.kept == prev.kept || r.kept == prev.kept + [ds[|ds| - 1]])
      && (r.kept == prev.kept ==> HandleAddr(ds[|ds| - 1].global) !in r.mod.idSites)
  {
  }

  /** One more descriptor: kept, or its address-of uses gone; earlier ones stay so. */
  lemma RetiresStep(prevKept: seq<Descriptor>, kept: seq<Descriptor>, prevIds: seq<IdSite>, ids: seq<IdSite>,
                    init: seq<Descriptor>, d: Descriptor, k: nat)
    requires k <= |prevKept| && (kept == prevKept || kept == prevKept + [d])
    requires kept == prevKept ==> HandleAddr(d.global) !in ids
    requires forall g :: HandleAddr(g) !in prevIds ==> HandleAddr(g) !in ids
    requires forall i :: 0 <= i < |init| ==> init[i] in prevKept[k..] || HandleAddr(init[i].global) !in prevIds
    ensures forall i :: 0 <= i < |init + [d]| ==>
      (init + [d])[i] in kept[k..] || HandleAddr((init + [d])[i].global) !in ids
  {
    assert kept[k..] == prevKept[k..] || kept[k..] == prevKept[k..] + [d] by {
      if kept != prevKept {
        assert kept[k..] == prevKept[k..] + [d];
      }
    }
  }

  lemma {:induction false} ProcessAllKeepsSvRecorded(st: PassState, table: map<int, string>, hasSoftwareVectoring: bool,
                                                     ds: seq<Descriptor>, fixDuplicates: bool)
    requires DistinctIds(st.sv) && SvRecorded(st)
    ensures SvRecorded(ProcessAll(st, table, hasSoftwareVectoring, ds, fixDuplicates))
    decreases |ds|
  {
    if |ds| > 0 {
      var init := ds[..|ds| - 1];
      ProcessAllKeepsSvRecorded(st, table, hasSoftwareVectoring, init, fixDuplicates);
      ProcessDescriptorKeepsSvRecorded(ProcessAll(st, table, hasSoftwareVectoring, init, fixDuplicates),
                                       table, hasSoftwareVectoring, ds[|ds| - 1], fixDuplicates);
    }
  }

  /** Across the loop, existing handlers stay. */
  lemma {:induction false} ProcessAllKeepsHandlers(st: PassState, table: map<int, string>, hasSoftwareVectoring: bool,
                                                   ds: seq<Descriptor>, fixDuplicates: bool, m: Module)
    requires DistinctIds(st.sv)
    ensures var r := ProcessAll(st, table, hasSoftwareVectoring, ds, fixDuplicates);
      forall d :: HasHandler(st.mod.functions, m, table, hasSoftwareVectoring, d) ==>
                  HasHandler(r.mod.functions, m, table, hasSoftwareVectoring, d)
    decreases |ds|
  {
    if |ds| > 0 {
      var init := ds[..|ds| - 1];
      var prev := ProcessAll(st, table, hasSoftwareVectoring, init, fixDuplicates);
      ProcessAllKeepsHandlers(st, table, hasSoftwareVectoring, init, fixDuplicates, m);
      ProcessDescriptorKeepsHandlers(prev, table, hasSoftwareVectoring, ds[|ds| - 1], fixDuplicates, m);
    }
  }

  /** Across the loop, every descriptor processed is either kept or has its
      handler afterwards. */
  lemma {:induction false} ProcessAllHandles(st: PassState, table: map<int, string>, hasSoftwareVectoring: bool,
                                             ds: seq<Descriptor>, fixDuplicates: bool, m: Module)
    requires DistinctIds(st.sv) && st.mod.globals == m.globals
    ensures var r := ProcessAll(st, table, hasSoftwareVectoring, ds, fixDuplicates);
      forall i :: 0 <= i < |ds| ==>
        ds[i] in r.kept[|st.kept|..] || HasHandler(r.mod.functions, m, table, hasSoftwareVectoring, ds[i])
    decreases |ds|
  {
    if |ds| > 0 {
      var init := ds[..|ds| - 1];
      var d := ds[|ds| - 1];
      var prev := ProcessAll(st, table, hasSoftwareVectoring, init, fixDuplicates);
      ProcessAllHandles(st, table, hasSoftwareVectoring, init, fixDuplicates, m);
      ProcessDescriptorKeepsHandlers(prev, table, hasSoftwareVectoring, d, fixDuplicates, m);
      ProcessDescriptorHandles(prev, table, hasSoftwareVectoring, d, fixDuplicates, m);
      assert ds == init + [d];
      HandlesStep(prev, ProcessDescriptor(prev, table, hasSoftwareVectoring, d, fixDuplicates),
                  table, hasSoftwareVectoring, init, d, |st.kept|, m);
    }
  }

  /** One more descriptor: kept or handled; earlier ones stay so. */
  lemma HandlesStep(prev: PassState, r: PassState, table: map<int, string>, hasSoftwareVectoring: bool,
                    init: seq<Descriptor>, d: Descriptor, k: nat, m: Module)
    requires k <= |prev.kept| && (r.kept == prev.kept || r.kept == prev.kept + [d])
    requires r.kept == prev.kept ==> HasHandler(r.mod.functions, m, table, hasSoftwareVectoring, d)
    requires forall d' :: HasHandler(prev.mod.functions, m, table, hasSoftwareVectoring, d') ==>
                          HasHandler(r.mod.functions, m, table, hasSoftwareVectoring, d')
    requires forall i :: 0 <= i < |init| ==>
      init[i] in prev.kept[k..] || HasHandler(prev.mod.functions, m, table, hasSoftwareVectoring, init[i])
    ensures forall i :: 0 <= i < |init + [d]| ==>
      (init + [d])[i] in r.kept[k..] || HasHandler(r.mod.functions, m, table, hasSoftwareVectoring, (init + [d])[i])
  {
    assert r.kept[k..] == prev.kept[k..] || r.kept[k..] == prev.kept[k..] + [d] by {
      if r.kept != prev.kept {
        assert r.kept[k..] == prev.kept[k..] + [d];
      }
    }
  }

  /** Building the dispatcher keeps every handler: it only appends blocks. */
  lemma DispatcherKeepsHandlers(fns: map<string, Function>, sv: seq<SvEntry>, m: Module,
                                table: map<int, string>, hasSoftwareVectoring: bool)
    requires DispatcherFn in fns
    ensures forall d :: HasHandler(fns, m, table, hasSoftwareVectoring, d) ==>
      HasHandler(fns[DispatcherFn := BuildDispatcher(fns[DispatcherFn], sv)], m, table, hasSoftwareVectoring, d)
  {
    var fns' := fns[DispatcherFn := BuildDispatcher(fns[DispatcherFn], sv)];
    forall d | HasHandler(fns, m, table, hasSoftwareVectoring, d)
      ensures HasHandler(fns', m, table, hasSoftwareVectoring, d)
    {
      var n := ChooseName(table, hasSoftwareVectoring, d.num).name;
      if n == DispatcherFn {
        assert fns'[n].blocks[0] == fns[n].blocks[0];
      }
    }
  }

  /** Phase C: non-call uses of `runtime/interrupt.use` stay and are reported; calls are erased. */
  function UseSitesLeft(sites: seq<UseSite>): (r: seq<UseSite>)
    ensures UseCall !in r
    ensures |r| == |UseErrors(sites)|
    ensures r == seq(multiset(sites)[UseNonCall], _ => UseNonCall)
  {
    if |sites| == 0 then []
    else
      CountCons(sites);
      if sites[0] == UseNonCall then
        var rest := UseSitesLeft(sites[1..]);
        RepeatCons(UseNonCall, |rest|);
        [UseNonCall] + rest
      else UseSitesLeft(sites[1..])
  }

  /** One "expected call" diagnostic per non-call use. */
  function UseErrors(sites: seq<UseSite>): (errs: seq<Diag>)
    ensures forall e :: e in errs ==> e == ExpectedUseCall
    ensures |errs| <= |sites|
    ensures errs == seq(multiset(sites)[UseNonCall], _ => ExpectedUseCall)
  {
    if |sites| == 0 then []
    else
      CountCons(sites);
      if sites[0] == UseNonCall then
        var rest := UseErrors(sites[1..]);
        RepeatCons(ExpectedUseCall, |rest|);
        [ExpectedUseCall] + rest
      else UseErrors(sites[1..])
  }

  /** The non-call uses of a non-empty list: the head's plus the tail's. */
  lemma CountCons(sites: seq<UseSite>)
    requires |sites| > 0
    ensures multiset(sites)[UseNonCall] ==
      (if sites[0] == UseNonCall then 1 else 0) + multiset(sites[1..])[UseNonCall]
  {
    assert sites == [sites[0]] + sites[1..];
  }

  lemma RepeatCons<T>(x: T, n: nat)
    ensures [x] + seq(n, _ => x) == seq(n + 1, _ => x)
  {
  }

  datatype Outcome = Lowered(mod: Module, errs: seq<Diag>) | Panicked

  /** The pass; `fixDuplicates` selects the corrected handling of harmless duplicates. */
  function Lower(m: Module, fixDuplicates: bool): (o: Outcome)
    ensures o.Panicked? <==> ScanRegisters(m, m.registerUses).ScanPanic?
    ensures o.Lowered? ==> o.mod.target == m.target && o.mod.globals == m.globals
    ensures o.Lowered? ==> o.mod.registerUses == RejectedUses(m, m.registerUses)
    ensures o.Lowered? ==> UseCall !in o.mod.useSites
    ensures o.Lowered? ==> forall f :: f in m.functions ==> f in o.mod.functions
    ensures o.Lowered? ==> forall d :: d in m.descriptors ==> d in o.mod.descriptors || HandleAddr(d.global) !in o.mod.idSites
    ensures o.Lowered? && fixDuplicates ==>
      |o.mod.registerUses| + |o.mod.descriptors| + |o.mod.useSites| <= |o.errs|
  {
    match ScanRegisters(m, m.registerUses)
    case ScanPanic => Panicked
    case Scanned(scan) =>
      var m1 := m.(registerUses := scan.kept);
      var hasSv := HasSoftwareVectoring(m1);
      var st := ProcessAll(PassState(m1, [], [], scan.errs), scan.table, hasSv, m.descriptors, fixDuplicates);
      ProcessAllRetires(PassState(m1, [], [], scan.errs), scan.table, hasSv, m.descriptors, fixDuplicates);
      var fns := if hasSv then st.mod.functions[DispatcherFn := BuildDispatcher(st.mod.functions[DispatcherFn], st.sv)]
                 else st.mod.functions;
      var m2 := st.mod.(descriptors := st.kept, functions := fns, useSites := UseSitesLeft(m.useSites));
      assert forall d :: d in m.descriptors ==> exists i :: 0 <= i < |m.descriptors| && m.descriptors[i] == d;
      assert st.kept[0..] == st.kept;
      Lowered(m2, st.errs + UseErrors(m.useSites))
  }

  /** The pass with the duplicate finding corrected: a harmless duplicate is retired like every synthesized descriptor. */
  function LowerInterruptsCorrected(m: Module): Outcome {
    Lower(m, true)
  }

  /** `LowerInterrupts` as written: a harmless duplicate descriptor is left in the module. */
  function LowerInterruptsAsWritten(m: Module): Outcome {
    Lower(m, false)
  }

  /** An error-free run leaves no `Register` call, no descriptor global, no
      `use` call and no address-of-descriptor site behind. */
  lemma ErrorFreeRunLeavesNoPseudoConstructs(m: Module)
    requires LowerInterruptsCorrected(m).Lowered? && LowerInterruptsCorrected(m).errs == []
    ensures var m' := LowerInterruptsCorrected(m).mod;
      && m'.registerUses == [] && m'.descriptors == [] && m'.useSites == []
      && forall d :: d in m.descriptors ==> HandleAddr(d.global) !in m'.idSites
  {
  }

  /** Every descriptor the pass removes has its interrupt handler: the name
      chosen for its number is a defined entry function whose first
      instruction forwards the number and context to the descriptor's target. */
  lemma RemovedDescriptorsHaveHandlers(m: Module)
    requires LowerInterruptsCorrected(m).Lowered?
    ensures var o := LowerInterruptsCorrected(m).mod;
      var table := ScanRegisters(m, m.registerUses).scan.table;
      forall d :: d in m.descriptors && d !in o.descriptors ==>
        HasHandler(o.functions, m, table, HasSoftwareVectoring(m), d)
  {
    var scan := ScanRegisters(m, m.registerUses).scan;
    var hasSv := HasSoftwareVectoring(m);
    var st0 := PassState(m.(registerUses := scan.kept), [], [], scan.errs);
    var st := ProcessAll(st0, scan.table, hasSv, m.descriptors, true);
    ProcessAllHandles(st0, scan.table, hasSv, m.descriptors, true, m);
    LowerFunctions(m, true);
    LowerDescriptors(m, true);
    var fns := LowerInterruptsCorrected(m).mod.functions;
    if hasSv {
      DispatcherKeepsHandlers(st.mod.functions, st.sv, m, scan.table, hasSv);
    }
    assert st.kept[0..] == st.kept;
    RemovedHandled(m.descriptors, st.kept, st.mod.functions, fns, m, scan.table, hasSv);
  }

  lemma RemovedHandled(ds: seq<Descriptor>, kept: seq<Descriptor>, fns: map<string, Function>,
                       fns': map<string, Function>, m: Module, table: map<int, string>, hasSoftwareVectoring: bool)
    requires forall i :: 0 <= i < |ds| ==> ds[i] in kept || HasHandler(fns, m, table, hasSoftwareVectoring, ds[i])
    requires forall d :: HasHandler(fns, m, table, hasSoftwareVectoring, d) ==>
                         HasHandler(fns', m, table, hasSoftwareVectoring, d)
    ensures forall d :: d in ds && d !in kept ==> HasHandler(fns', m, table, hasSoftwareVectoring, d)
  {
    forall d | d in ds && d !in kept
      ensures HasHandler(fns', m, table, hasSoftwareVectoring, d)
    {
      var i :| 0 <= i < |ds| && ds[i] == d;
    }
  }

  /** The descriptors left after a run are those the descriptor loop kept. */
  lemma LowerDescriptors(m: Module, fixDuplicates: bool)
    requires Lower(m, fixDuplicates).Lowered?
    ensures var scan := ScanRegisters(m, m.registerUses).scan;
      Lower(m, fixDuplicates).mod.descriptors ==
        ProcessAll(PassState(m.(registerUses := scan.kept), [], [], scan.errs), scan.table, HasSoftwareVectoring(m),
                   m.descriptors, fixDuplicates).kept
  {
  }

  /** Under software vectoring the dispatcher is the built switch over a table
      whose every entry names a defined, internal placeholder handler. */
  lemma SoftwareVectoredDispatcher(m: Module)
    requires Lower(m, true).Lowered? && HasSoftwareVectoring(m)
    ensures var m' := Lower(m, true).mod;
      && DispatcherFn in m'.functions
      && exists base: Function, sv: seq<SvEntry> ::
        && DistinctIds(sv)
        && m'.functions[DispatcherFn] == BuildDispatcher(base, sv)
        && forall e :: e in sv ==> PlaceholderDefined(m', e)
  {
    var scan := ScanRegisters(m, m.registerUses).scan;
    var st0 := PassState(m.(registerUses := scan.kept), [], [], scan.errs);
    var st := ProcessAll(st0, scan.table, true, m.descriptors, true);
    ProcessAllKeepsSvRecorded(st0, scan.table, true, m.descriptors, true);
    LowerFunctions(m, true);
    var m' := Lower(m, true).mod;
    var base := st.mod.functions[DispatcherFn];
    assert m'.functions == st.mod.functions[DispatcherFn := BuildDispatcher(base, st.sv)];
    forall e | e in st.sv
      ensures PlaceholderDefined(m', e)
    {
      SyntheticNameIsNotDispatcher(e.id);
      assert m'.functions[e.handler] == st.mod.functions[e.handler];
    }
    assert m'.functions[DispatcherFn] == BuildDispatcher(base, st.sv);
  }

  lemma SyntheticNameIsNotDispatcher(n: int)
    ensures SyntheticName(n) != DispatcherFn
  {
    assert SyntheticName(n)[7] == '/';
  }

  /** A software-vector entry names its placeholder handler, defined and internal in `m`. */
  predicate PlaceholderDefined(m: Module, e: SvEntry) {
    && e.handler == SyntheticName(e.id)
    && e.handler in m.functions
    && m.functions[e.handler].linkage == Internal
    && !m.functions[e.handler].IsDeclaration()
  }

  /** The functions after a run: those after the descriptor loop, with the
      dispatcher built under software vectoring. */
  lemma LowerFunctions(m: Module, fixDuplicates: bool)
    requires Lower(m, fixDuplicates).Lowered?
    ensures var scan := ScanRegisters(m, m.registerUses).scan;
      var hasSv := HasSoftwareVectoring(m);
      var st := ProcessAll(PassState(m.(registerUses := scan.kept), [], [], scan.errs), scan.table, hasSv,
                           m.descriptors, fixDuplicates);
      && DistinctIds(st.sv)
      && (hasSv ==> DispatcherFn in st.mod.functions)
      && Lower(m, fixDuplicates).mod.functions ==
        if hasSv then st.mod.functions[DispatcherFn := BuildDispatcher(st.mod.functions[DispatcherFn], st.sv)]
        else st.mod.functions
  {
  }

  /** After the descriptor loop, the pass touches only the dispatcher, and
      only under software vectoring: every other function is the one the loop
      left, and the dispatcher keeps its blocks and becomes internal. */
  lemma OnlyDispatcherRewritten(m: Module, fixDuplicates: bool)
    requires Lower(m, fixDuplicates).Lowered?
    ensures var scan := ScanRegisters(m, m.registerUses).scan;
      var loop := ProcessAll(PassState(m.(registerUses := scan.kept), [], [], scan.errs), scan.table,
                             HasSoftwareVectoring(m), m.descriptors, fixDuplicates).mod.functions;
      var fns := Lower(m, fixDuplicates).mod.functions;
      && fns.Keys == loop.Keys
      && (forall f :: f in fns && f != DispatcherFn ==> fns[f] == loop[f])
      && (!HasSoftwareVectoring(m) ==> fns == loop)
      && (HasSoftwareVectoring(m) ==>
            && DispatcherFn in fns
            && |loop[DispatcherFn].blocks| <= |fns[DispatcherFn].blocks|
            && fns[DispatcherFn].blocks[..|loop[DispatcherFn].blocks|] == loop[DispatcherFn].blocks
            && fns[DispatcherFn].linkage == Internal)
  {
    LowerFunctions(m, fixDuplicates);
  }

  /** Two descriptors for number 7 with the same handler and context, the
      number registered under the name "A". */
  function DuplicateModule(): Module {
    Module(
      "thumbv7m-none-eabi",
      [RegisterCall(ConstantInt(7), ConstGep(GlobalAddr("name")), ConstantInt(1))],
      map["name" := GlobalVar(true, ByteData([65]))],
      [DupFirst, DupSecond],
      map[],
      [HandleAddr("handle1"), HandleAddr("handle2")],
      [])
  }

  /** As written, the second, harmless duplicate is skipped before its uses
      are rewritten: the run reports nothing, yet the descriptor global and
      its address-of use survive. */
  lemma DuplicateDescriptorSurvivesAsWritten()
    ensures var o := LowerInterruptsAsWritten(DuplicateModule());
      && o.Lowered? && o.errs == []
      && o.mod.descriptors == [DupSecond]
      && HandleAddr("handle2") in o.mod.idSites
  {
    DuplicateRunSteps(false);
  }

  /** Corrected, the duplicate is retired too: one handler, no error, nothing left. */
  lemma DuplicateDescriptorRetired()
    ensures var o := LowerInterruptsCorrected(DuplicateModule());
      && o.Lowered? && o.errs == [] && o.mod.descriptors == []
      && o.mod.idSites == [IdLiteral(7), IdLiteral(7)]
      && o.mod.functions.Keys == {"A"}
  {
    DuplicateRunSteps(true);
  }

  const DupTable := map[7 := "A"]
  const DupFirst := Descriptor("handle1", 7, NullPtr, FuncAddr("main.isr"), 0)
  const DupSecond := Descriptor("handle2", 7, NullPtr, FuncAddr("main.isr"), 0)

  lemma DuplicateScan()
    ensures ScanRegisters(DuplicateModule(), DuplicateModule().registerUses) == Scanned(NameScan(DupTable, [], []))
  {
    var m := DuplicateModule();
    assert BytesToString([65]) == "A";
    assert CheckRegister(m, m.registerUses[0]) == Named(7, "A");
    assert m.registerUses[..0] == [];
  }

  /** The state after the first descriptor: handler "A" is synthesized and "handle1" retired. */
  lemma DuplicateFirstStep(fixDuplicates: bool)
    ensures var st0 := PassState(DuplicateModule().(registerUses := []), [], [], []);
      var st1 := ProcessAll(st0, DupTable, false, [DupFirst], fixDuplicates);
      && st1.kept == [] && st1.errs == [] && st1.sv == []
      && st1.mod.functions == map["A" := Synthesized(st0.mod, "A", false, FuncAddr("main.isr"), DupFirst)]
      && st1.mod.idSites == [IdLiteral(7), HandleAddr("handle2")]
      && st1.mod.registerUses == [] && st1.mod.useSites == [] && !HasSoftwareVectoring(st1.mod)
  {
    var st0 := PassState(DuplicateModule().(registerUses := []), [], [], []);
    ProcessAllOne(st0, DupTable, false, DupFirst, fixDuplicates);
    assert Decide(st0.mod, DupTable, false, DupFirst) == Synthesize("A", false, FuncAddr("main.isr"));
    FirstRewrite();
    assert seq(DupFirst.otherUses, _ => ExpectedPtrToInt) == [];
  }

  lemma FirstRewrite()
    ensures ReplaceHandleUses([HandleAddr("handle1"), HandleAddr("handle2")], "handle1", 7) == [IdLiteral(7), HandleAddr("handle2")]
  {
    var r := ReplaceHandleUses([HandleAddr("handle1"), HandleAddr("handle2")], "handle1", 7);
    assert r[0] == IdLiteral(7) && r[1] == HandleAddr("handle2");
  }

  /** The loop over one descriptor is that descriptor's iteration. */
  lemma ProcessAllOne(st: PassState, table: map<int, string>, hasSoftwareVectoring: bool, d: Descriptor, fixDuplicates: bool)
    requires DistinctIds(st.sv)
    ensures ProcessAll(st, table, hasSoftwareVectoring, [d], fixDuplicates)
         == ProcessDescriptor(st, table, hasSoftwareVectoring, d, fixDuplicates)
  {
    assert [d][..0] == [];
  }

  lemma DuplicateSecondStep(st1: PassState, fixDuplicates: bool)
    requires st1.sv == [] && st1.kept == [] && st1.errs == []
    requires st1.mod.functions == map["A" := Synthesized(DuplicateModule(), "A", false, FuncAddr("main.isr"), DupFirst)]
    requires st1.mod.idSites == [IdLiteral(7), HandleAddr("handle2")]
    ensures var st2 := ProcessDescriptor(st1, DupTable, false, DupSecond, fixDuplicates);
      && st2.errs == [] && st2.mod.functions == st1.mod.functions
      && (fixDuplicates ==> st2.kept == [] && st2.mod.idSites == [IdLiteral(7), IdLiteral(7)])
      && (!fixDuplicates ==> st2.kept == [DupSecond] && st2.mod.idSites == st1.mod.idSites)
  {
    assert ForwardingEntry(FuncAddr("main.isr"), 7, NullPtr).insts[0] == Call(FuncAddr("main.isr"), [IntConst(7), NullPtr, NullPtr]);
    assert Decide(st1.mod, DupTable, false, DupSecond) == Duplicate;
  }

  lemma DuplicateRunSteps(fixDuplicates: bool)
    ensures var m := DuplicateModule();
      var o := Lower(m, fixDuplicates);
      && o.Lowered? && o.errs == []
      && o.mod.functions.Keys == {"A"}
      && (fixDuplicates ==> o.mod.descriptors == [] && o.mod.idSites == [IdLiteral(7), IdLiteral(7)])
      && (!fixDuplicates ==> o.mod.descriptors == [DupSecond] && o.mod.idSites == [IdLiteral(7), HandleAddr("handle2")])
  {
    var m := DuplicateModule();
    var st0 := PassState(m.(registerUses := []), [], [], []);
    var st2 := ProcessAll(st0, DupTable, false, m.descriptors, fixDuplicates);
    DuplicateScan();
    LowerPlain(m, fixDuplicates, NameScan(DupTable, [], []));
    DuplicateProcessed(fixDuplicates);
    assert UseSitesLeft([]) == [] && UseErrors([]) == [];
  }

  /** Both descriptors processed, from the state the name scan leaves. */
  lemma DuplicateProcessed(fixDuplicates: bool)
    ensures var st0 := PassState(DuplicateModule().(registerUses := []), [], [], []);
      var st2 := ProcessAll(st0, DupTable, false, DuplicateModule().descriptors, fixDuplicates);
      && st2.errs == [] && st2.mod.functions.Keys == {"A"} && st2.mod.useSites == []
      && (fixDuplicates ==> st2.kept == [] && st2.mod.idSites == [IdLiteral(7), IdLiteral(7)])
      && (!fixDuplicates ==> st2.kept == [DupSecond] && st2.mod.idSites == [IdLiteral(7), HandleAddr("handle2")])
  {
    var m := DuplicateModule();
    var st0 := PassState(m.(registerUses := []), [], [], []);
    DuplicateFirstStep(fixDuplicates);
    var st1 := ProcessAll(st0, DupTable, false, [DupFirst], fixDuplicates);
    DuplicateSecondStep(st1, fixDuplicates);
    assert m.descriptors == [DupFirst] + [DupSecond];
    ProcessAllSnoc(st0, DupTable, false, [DupFirst], DupSecond, fixDuplicates);
  }

  /** The loop over one more descriptor is one more iteration. */
  lemma ProcessAllSnoc(st: PassState, table: map<int, string>, hasSoftwareVectoring: bool, ds: seq<Descriptor>,
                       d: Descriptor, fixDuplicates: bool)
    requires DistinctIds(st.sv)
    ensures ProcessAll(st, table, hasSoftwareVectoring, ds + [d], fixDuplicates)
         == ProcessDescriptor(ProcessAll(st, table, hasSoftwareVectoring, ds, fixDuplicates), table, hasSoftwareVectoring, d, fixDuplicates)
  {
    assert (ds + [d])[..|ds|] == ds;
  }

  /** Without software vectoring, the pass is the descriptor loop followed by the `use` cleanup. */
  lemma LowerPlain(m: Module, fixDuplicates: bool, scan: NameScan)
    requires ScanRegisters(m, m.registerUses) == Scanned(scan)
    requires !HasSoftwareVectoring(m.(registerUses := scan.kept))
    ensures var st := ProcessAll(PassState(m.(registerUses := scan.kept), [], [], scan.errs), scan.table, false,
                                 m.descriptors, fixDuplicates);
      Lower(m, fixDuplicates) == Lowered(st.mod.(descriptors := st.kept, useSites := UseSitesLeft(m.useSites)),
                                         st.errs + UseErrors(m.useSites))
  {
  }
}
