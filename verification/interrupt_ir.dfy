/** The slice of an IR module that interrupt lowering reads and rewrites:
    pseudo-calls to `runtime/interrupt.Register` and `runtime/interrupt.use`,
    `runtime/interrupt.handle` descriptor globals, ordinary globals (for their
    initializers), functions, and the places where a descriptor's address is
    converted to an integer. LLVM values are replaced by small datatypes. */
module InterruptIR {
  import Decimal

  const RegisterFn := "runtime/interrupt.Register"
  const UseFn := "runtime/interrupt.use"
  /** The software-vectoring dispatcher; it having uses switches software vectoring on. */
  const DispatcherFn := "runtime.callInterruptHandler"
  const SyntheticPrefix := "runtime/interrupt.interruptHandler"
  const SectionPrefix := ".text."
  /** LLVM's `CallingConv::AVR_SIGNAL`. */
  const AvrSignalCallConv: int := 85
  /** LLVM's default C calling convention. */
  const CCallConv: int := 0

  type Byte = b: int | 0 <= b < 256

  datatype Option<T> = None | Some(value: T)

  /** Constant (or non-constant) values: descriptor fields and call operands. */
  datatype Value =
    | NonConstant
    | NullPtr
    | IntConst(n: int)
    | FuncAddr(fn: string)        // a pointer to a function: a global value of pointer-to-function type
    | GlobalAddr(global: string)  // a pointer to a global variable
    | PtrToInt(operand: Value)    // a constant `ptrtoint` expression
    | OtherConst
  {
    predicate IsConstant() {
      !NonConstant?
    }
  }

  /** Integer operands of a `Register` call. */
  datatype IntOperand = ConstantInt(value: int) | NonConstantInt

  /** The name operand of a `Register` call: a constant GEP expression over some
      base (assumed to point at the first byte), or anything else. */
  datatype NameOperand = ConstGep(base: Value) | NotConstGep

  /** One use of `runtime/interrupt.Register`. */
  datatype RegisterUse =
    | RegisterCall(num: IntOperand, name: NameOperand, len: IntOperand)
    | RegisterNonCall

  datatype Initializer =
    | ByteData(bytes: seq<Byte>)
    | FuncValueWithSignature(funcPtr: Value)  // a `runtime.funcValueWithSignature` struct; field 0 is shown
    | OtherInitializer
    | NoInitializer                             // an external declaration

  datatype GlobalVar = GlobalVar(isConstant: bool, init: Initializer)

  /** A `runtime/interrupt.handle` global `{ {context, funcPtr}, {num} }`, plus
      the number of its uses that are not constant `ptrtoint` expressions. */
  datatype Descriptor = Descriptor(global: string, num: int, context: Value, funcPtr: Value, otherUses: nat)

  /** A use of a descriptor's address as an integer (a `ptrtoint` user), or the
      literal interrupt number that replaced it. */
  datatype IdSite = HandleAddr(global: string) | IdLiteral(n: int)

  /** One use of `runtime/interrupt.use`. */
  datatype UseSite = UseCall | UseNonCall

  datatype SwitchCase = SwitchCase(id: int, dest: string)

  datatype Inst =
    | Call(callee: Value, args: seq<Value>)
    | RetVoid
    | Switch(defaultLabel: string, cases: seq<SwitchCase>)  // switches on the function's parameter 0
    | OtherInst

  datatype Block = Block(name: string, insts: seq<Inst>)

  datatype Linkage = External | Internal

  /** A function: whether its type is the interrupt-entry type `void()`, its
      body (no blocks: a declaration), attributes, and how many uses it has. */
  datatype Function = Function(
    isEntryType: bool,
    blocks: seq<Block>,
    unnamedAddr: bool,
    section: string,
    linkage: Linkage,
    callConv: int,
    uses: nat)
  {
    predicate IsDeclaration() {
      |blocks| == 0
    }
  }

  /** A fresh `void()` declaration, as `llvm.AddFunction` creates it. */
  const NewEntryDecl := Function(true, [], false, "", External, CCallConv, 0)

  datatype Module = Module(
    target: string,
    registerUses: seq<RegisterUse>,
    globals: map<string, GlobalVar>,
    descriptors: seq<Descriptor>,
    functions: map<string, Function>,
    idSites: seq<IdSite>,
    useSites: seq<UseSite>)

  /** The diagnostics of the pass; `Message` gives their text. */
  datatype Diag =
    | ExpectedRegisterCall
    | NonConstantNumber
    | ExpectedStringOperand
    | NonConstantName
    | NoInterruptName(num: int)
    | FuncValueNotConstant
    | ExpectedFuncLoweringGlobal
    | FuncLoweringUnexpectedType
    | FuncLoweringUnexpectedFuncPtr
    | UnexpectedFuncValueType
    | RedeclaredSignature(name: string)
    | Redeclared(name: string)
    | ExpectedPtrToInt
    | ExpectedUseCall
  {
    predicate IsInternal() {
      FuncValueNotConstant? || ExpectedFuncLoweringGlobal? || FuncLoweringUnexpectedType?
      || FuncLoweringUnexpectedFuncPtr? || UnexpectedFuncValueType? || ExpectedPtrToInt? || ExpectedUseCall?
    }

    function Message(): string {
      match this
      case ExpectedRegisterCall => "expected a call to runtime/interrupt.Register?"
      case NonConstantNumber => "non-constant interrupt number?"
      case ExpectedStringOperand => "expected a string operand?"
      case NonConstantName => "non-constant interrupt name?"
      case NoInterruptName(n) => "cannot find interrupt name for number " + Decimal.FormatInt(n)
      case FuncValueNotConstant => "func value must be constant"
      case ExpectedFuncLoweringGlobal => "internal error: expected a global for func lowering"
      case FuncLoweringUnexpectedType => "internal error: func lowering global has unexpected type"
      case FuncLoweringUnexpectedFuncPtr => "internal error: func lowering global has unexpected func ptr type"
      case UnexpectedFuncValueType => "internal error: unexpected LLVM types in func value"
      case RedeclaredSignature(name) => name + " redeclared with a different signature"
      case Redeclared(name) => name + " redeclared in this program"
      case ExpectedPtrToInt => "internal error: expected a ptrtoint"
      case ExpectedUseCall => "internal error: expected call to runtime/interrupt.use"
    }
  }

  /** `strings.HasPrefix(s, p)`. */
  predicate HasPrefix(s: string, p: string) {
    |p| <= |s| && s[..|p|] == p
  }

  /** `IsAGlobalValue`: functions and (existing) global variables. */
  predicate IsGlobalValue(m: Module, v: Value) {
    v.FuncAddr? || (v.GlobalAddr? && v.global in m.globals)
  }

  /** The initializer of a global value; functions have none. */
  function InitializerOf(m: Module, v: Value): Initializer {
    if v.GlobalAddr? && v.global in m.globals then m.globals[v.global].init else NoInitializer
  }
}
