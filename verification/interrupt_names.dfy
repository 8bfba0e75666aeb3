/** Phase A of interrupt lowering: the calls to `runtime/interrupt.Register`
    map interrupt numbers to handler symbol names. */
module InterruptNames {
  import opened InterruptIR

  /** What one `Register` use contributes: a name for a number, a diagnostic
      (the use is then left in place), or a Go slice-bounds panic when the
      length operand lies outside the global's bytes. */
  datatype Check = Named(num: int, name: string) | Rejected(diag: Diag) | SliceOutOfRange

  /** `IsAGlobalValue() && IsGlobalConstant()` for a GEP base. */
  predicate IsConstantGlobal(m: Module, v: Value) {
    v.GlobalAddr? && v.global in m.globals && m.globals[v.global].isConstant
  }

  /** The bytes of a global's initializer; anything but byte data reads as empty. */
  function GlobalBytes(m: Module, v: Value): seq<Byte> {
    match InitializerOf(m, v)
    case ByteData(b) => b
    case _ => []
  }

  /** Go's `string(bytes)`: one character per byte. */
  function BytesToString(b: seq<Byte>): (s: string)
    ensures |s| == |b|
    ensures forall i :: 0 <= i < |b| ==> s[i] as int == b[i]
  {
    seq(|b|, i requires 0 <= i < |b| => b[i] as char)
  }

  /** A call whose number, name operand and length pass every check of the
      scan (the length itself may still lie outside the name's bytes). */
  predicate ConstantOperands(m: Module, u: RegisterUse) {
    && u.RegisterCall? && u.num.ConstantInt? && u.name.ConstGep?
    && IsConstantGlobal(m, u.name.base) && u.len.ConstantInt?
  }

  /** The checks, in the order the scan applies them. */
  function CheckRegister(m: Module, u: RegisterUse): (c: Check)
    ensures c.Named? ==>
      && ConstantOperands(m, u) && u.num.value == c.num
      && |c.name| == u.len.value <= |GlobalBytes(m, u.name.base)|
      && forall i :: 0 <= i < |c.name| ==> c.name[i] as int == GlobalBytes(m, u.name.base)[i]
    ensures ConstantOperands(m, u) && 0 <= u.len.value <= |GlobalBytes(m, u.name.base)| ==> c.Named?
    ensures u.RegisterNonCall? ==> c == Rejected(ExpectedRegisterCall)
    ensures u.RegisterCall? && u.num.NonConstantInt? ==> c == Rejected(NonConstantNumber)
    ensures u.RegisterCall? && u.num.ConstantInt? && u.name.NotConstGep? ==> c == Rejected(ExpectedStringOperand)
    ensures u.RegisterCall? && u.num.ConstantInt? && u.name.ConstGep? ==>
      (!IsConstantGlobal(m, u.name.base) || u.len.NonConstantInt?) ==> c == Rejected(NonConstantName)
    ensures c.SliceOutOfRange? <==>
      ConstantOperands(m, u) && (u.len.value < 0 || u.len.value > |GlobalBytes(m, u.name.base)|)
  {
    match u
    case RegisterNonCall => Rejected(ExpectedRegisterCall)
    case RegisterCall(num, nameOp, len) =>
      if num.NonConstantInt? then Rejected(NonConstantNumber)
      else if nameOp.NotConstGep? then Rejected(ExpectedStringOperand)
      else if !IsConstantGlobal(m, nameOp.base) || len.NonConstantInt? then Rejected(NonConstantName)
      else
        var bytes := GlobalBytes(m, nameOp.base);
        if len.value < 0 || len.value > |bytes| then SliceOutOfRange
        else Named(num.value, BytesToString(bytes[..len.value]))
  }

  /** The uses that are rejected with a diagnostic, in order. */
  function RejectedUses(m: Module, uses: seq<RegisterUse>): seq<RegisterUse> {
    if |uses| == 0 then []
    else
      var last := uses[|uses| - 1];
      RejectedUses(m, uses[..|uses| - 1]) + (if CheckRegister(m, last).Rejected? then [last] else [])
  }

  predicate NamesNumber(m: Module, u: RegisterUse, k: int) {
    CheckRegister(m, u).Named? && CheckRegister(m, u).num == k
  }

  /** The name table, the uses left in place, and the diagnostics, in use order. */
  datatype NameScan = NameScan(table: map<int, string>, kept: seq<RegisterUse>, errs: seq<Diag>)

  datatype ScanOutcome = Scanned(scan: NameScan) | ScanPanic

  /** Processes the uses in order. A rejected use is kept and reported; a
      well-formed one sets the table entry for its number (a later one wins)
      and is erased; a slice out of range panics. */
  function ScanRegisters(m: Module, uses: seq<RegisterUse>): (r: ScanOutcome)
    ensures r.ScanPanic? <==> exists i :: 0 <= i < |uses| && CheckRegister(m, uses[i]).SliceOutOfRange?
    ensures r.Scanned? ==> r.scan.kept == RejectedUses(m, uses) && |r.scan.errs| == |r.scan.kept|
    decreases |uses|
  {
    if |uses| == 0 then Scanned(NameScan(map[], [], []))
    else
      var init := uses[..|uses| - 1];
      var u := uses[|uses| - 1];
      assert forall i :: 0 <= i < |init| ==> init[i] == uses[i];
      match ScanRegisters(m, init)
      case ScanPanic => ScanPanic
      case Scanned(s) =>
        match CheckRegister(m, u)
        case SliceOutOfRange => ScanPanic
        case Rejected(d) => Scanned(s.(kept := s.kept + [u], errs := s.errs + [d]))
        case Named(k, name) => Scanned(s.(table := s.table[k := name]))
  }

  /** Reference definition: the name given to `k` by the last use that names it. */
  function LastNameFor(m: Module, uses: seq<RegisterUse>, k: int): (r: Option<string>)
    ensures r.Some? ==> exists i :: 0 <= i < |uses| && CheckRegister(m, uses[i]) == Named(k, r.value)
    ensures r.None? ==> forall i :: 0 <= i < |uses| ==> !NamesNumber(m, uses[i], k)
  {
    if |uses| == 0 then None
    else
      var last := uses[|uses| - 1];
      var init := uses[..|uses| - 1];
      assert forall i :: 0 <= i < |init| ==> init[i] == uses[i];
      if NamesNumber(m, last, k) then Some(CheckRegister(m, last).name) else LastNameFor(m, init, k)
  }

  /** The table holds exactly the numbers some use names, each mapped to the
      name of the last use naming it. */
  lemma {:induction false} NameTableIsLastName(m: Module, uses: seq<RegisterUse>, k: int)
    requires ScanRegisters(m, uses).Scanned?
    ensures var t := ScanRegisters(m, uses).scan.table;
      (k in t <==> LastNameFor(m, uses, k).Some?) && (k in t ==> t[k] == LastNameFor(m, uses, k).value)
    decreases |uses|
  {
    if |uses| > 0 {
      NameTableIsLastName(m, uses[..|uses| - 1], k);
    }
  }

  /** Each kept use is reported with the diagnostic its check gives, in order. */
  lemma {:induction false} KeptUsesMatchErrors(m: Module, uses: seq<RegisterUse>)
    requires ScanRegisters(m, uses).Scanned?
    ensures var s := ScanRegisters(m, uses).scan;
      forall i :: 0 <= i < |s.kept| ==> CheckRegister(m, s.kept[i]) == Rejected(s.errs[i])
    decreases |uses|
  {
    if |uses| > 0 {
      KeptUsesMatchErrors(m, uses[..|uses| - 1]);
    }
  }
}
