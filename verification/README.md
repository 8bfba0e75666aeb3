# TinyGo interrupt lowering and channel lowering, in Dafny

This project models two parts of the TinyGo compiler.

**Interrupt lowering** is the `LowerInterrupts` pass over an LLVM module (`transform/interrupt.go`).
It runs in four phases:
- It collects the names given to interrupt numbers by `runtime/interrupt.Register` pseudo-calls.
- It turns every `runtime/interrupt.handle` descriptor global into a forwarding interrupt handler.
  The handler is named after the registered name. Under software vectoring it gets a `runtime/interrupt.interruptHandlerN` placeholder instead.
  Each `ptrtoint` use of the descriptor becomes the literal interrupt number.
- Under software vectoring, it fills in `runtime.callInterruptHandler` as a switch over the recorded numbers in ascending order.
- It erases the `runtime/interrupt.use` calls.

Every per-item problem becomes a diagnostic and the pass carries on. The module is a datatype (`InterruptIR.Module`) with the descriptor globals, register uses, address-of sites, use sites and functions the pass reads and rewrites. The pass is a pure function `InterruptLowering.Lower` from a module to `Lowered(module, diagnostics)` or `Panicked`. `Panicked` stands for the one Go slice-bounds panic the pass can hit.

**Channel lowering** is the set of emitters in `compiler/channel.go`: `make(chan T, n)`, send, receive (with or without comma-ok), close, `select`, and the later extraction of a select's results. Emitted instructions are abstract operations (`ChannelIR.Op`) on numbered values, held in a snoc-list `Code`. An `Emitter` holds the code so far and the next free id.

Every emitter is shown to produce *well-formed* code (`ChannelIR.WellFormed`):
- each instruction reads only ids that are live at that point, that is, from the surrounding code or defined earlier, and not ended;
- defined ids are fresh and ascending;
- a lifetime end only follows a temporary alloca of the same buffer and size.

Each emitter is also shown to:
- call exactly the expected runtime function with the runtime's arity;
- end the lifetime of every temporary it allocates.

The one exception to the last point is the select receive buffer, whose lifetime the code never ends.

Modules:
- `Decimal`: `strconv.FormatInt(n, 10)` and its inverse.
- `InterruptIR`: the module datatype and the pass's constants.
- `InterruptNames`: the register scan.
- `InterruptHandlers`: name choice, func-value resolution, the per-descriptor decision and rewrite.
- `InterruptDispatch`: the sort and the dispatcher.
- `InterruptLowering`: the whole pass.
- `ChannelIR`: instructions and well-formedness. It has an incremental reading (`Summarized`), proved equivalent to the declarative one.
- `ChannelOps`: make, send, receive, close.
- `ChannelSelect`: select and result extraction.

## Model

| member | source | states |
|---|---|---|
| Decimal.FormatInt | transform/interrupt.go:111 | The rendering of a number starts with '-' exactly when the number is negative; the rest is a non-empty run of decimal digits. |
| Decimal.ParseNatDigits | transform/interrupt.go:111 | Reading back the digits of a natural number gives that number. |
| Decimal.FormatIntRoundTrip | transform/interrupt.go:111 | The rendering of any integer is a decimal numeral that parses back to the integer. |
| Decimal.FormatIntInjective | transform/interrupt.go:259 | Two numbers render to the same string only when they are equal, so case-block names of distinct numbers differ. |
| InterruptNames.BytesToString | transform/interrupt.go:57 | Go's `string(bytes)` gives one character per byte, with the byte's value, and nothing else. |
| InterruptNames.CheckRegister | transform/interrupt.go:31-58 | A non-call is rejected as "expected a call". A non-constant number is rejected as "non-constant interrupt number". A name operand that is not a constant GEP is rejected as "expected a string operand". A GEP into a non-constant global, or a non-constant length, is rejected as "non-constant interrupt name". A use names its number exactly when it has a constant number, a constant GEP into a constant global and a constant length that fits the global's bytes. The name is then exactly that prefix of the bytes. A constant length outside the bytes, and only that, is the slice panic. |
| InterruptNames.ScanRegisters | transform/interrupt.go:28-63 | The scan panics exactly when some use has an out-of-range length. Otherwise the uses left in the module are exactly the rejected ones, in order, one diagnostic each. |
| InterruptNames.LastNameFor | transform/interrupt.go:56-58 | Reference definition: a name is returned only when some use gives it to the number; none is returned only when no use names the number. |
| InterruptNames.NameTableIsLastName | transform/interrupt.go:56-58 | The name table holds a number exactly when some use names it, and maps it to the name given by the last such use, because later entries overwrite earlier ones. |
| InterruptNames.KeptUsesMatchErrors | transform/interrupt.go:32-53 | The i-th use kept in the module is rejected with exactly the i-th diagnostic reported. |
| InterruptHandlers.SyntheticNameInjective | transform/interrupt.go:111 | The placeholder names of two interrupt numbers coincide only when the numbers are equal. |
| InterruptHandlers.ChooseName | transform/interrupt.go:96-117 | A registered non-empty name is used as it is. Without one, software vectoring picks the placeholder name for the number; otherwise there is no name. A chosen name is never empty. |
| InterruptHandlers.UnwrapFuncLowering | transform/interrupt.go:126-145 | A non-`ptrtoint` func pointer is used as it is. A `ptrtoint` of a non-global is the "expected a global" error. Through a global, an initializer that is not a `funcValueWithSignature` is the "unexpected type" error. A wrapped func pointer that is not a `ptrtoint` is the "unexpected func ptr type" error. A wrapped `ptrtoint` of `f` resolves to exactly `f`. |
| InterruptHandlers.HandlerTarget | transform/interrupt.go:119-150 | A non-constant context or func pointer is rejected as "func value must be constant". Otherwise an unwrapping failure is reported as it is. An unwrapped function address is the target, and any other unwrapped value is the "unexpected LLVM types" error. |
| InterruptHandlers.HandlerTargetResolves | transform/interrupt.go:119-150 | A descriptor's func value resolves to `f` exactly when its context and func pointer are constant and `f` is a function address: either the func pointer itself, or the one a func-lowering global wraps in a `ptrtoint`. |
| InterruptHandlers.UnwrapIsOneLayer | transform/interrupt.go:140-150 | Only one func-lowering layer is peeled: a global wrapping a doubly cast function is rejected with "unexpected LLVM types". |
| InterruptHandlers.ForwardsTo | transform/interrupt.go:165-167 | An existing handler counts as identical when its first block's first instruction is a call with three arguments (four operands, counting the callee). The callee must be the target, the first argument the literal number and the second the context. The third argument, the null pointer, is not compared. |
| InterruptHandlers.Decide | transform/interrupt.go:96-180 | A descriptor is skipped for a missing name exactly when there is neither a registered name nor software vectoring. Given a name, a target failure is reported as it is. A resolved target under a free name is synthesized under that name. It is software-vectored exactly when no name was registered, and then the name is the placeholder. An existing function with the wrong signature is "redeclared with a different signature". An entry-signature declaration is synthesized over. A definition forwarding the same target, number and context is a duplicate, and any other definition is "redeclared in this program". Every synthesized handler has the resolved target and the chosen name. |
| InterruptHandlers.Synthesized | transform/interrupt.go:154-208 | The new handler's body is `target(num, context, null); ret void`. It has unnamed_addr and section ".text.<name>". On AVR it uses calling convention 85; elsewhere it keeps an existing declaration's calling convention, or uses the C convention. It is internal when software-vectored; otherwise it keeps an existing declaration's linkage, or is external. |
| InterruptHandlers.ReplaceHandleUses | transform/interrupt.go:210-220 | Every address-of use of the descriptor becomes the literal interrupt number; every other site is unchanged; no use of the descriptor's address remains. |
| InterruptHandlers.PutEntry | transform/interrupt.go:188 | Recording a handler for a number behaves as a Go map write on a list with distinct numbers: the new entry is present, entries of other numbers are kept, and no other entry for the number remains. |
| InterruptHandlers.Retire | transform/interrupt.go:210-225 | Retiring a descriptor rewrites its address-of uses into the number and reports one "expected a ptrtoint" per other use; functions, the kept list and the vector table are untouched. |
| InterruptHandlers.ProcessDescriptor | transform/interrupt.go:93-226 | One descriptor step only appends diagnostics. It keeps the descriptor only when it reports a problem, or when it is the as-written duplicate. A descriptor it drops leaves no address-of use behind. It keeps every existing function and changes none except the one it synthesizes. |
| InterruptHandlers.ProcessDescriptorKeepsHandlers | transform/interrupt.go:153-208 | A descriptor step never takes away a handler: a function that forwarded some descriptor's number and context to its target still does afterwards. |
| InterruptHandlers.ProcessDescriptorHandles | transform/interrupt.go:153-225 | A descriptor that a step does not keep has a handler afterwards. The function under its chosen name is defined with the handler signature, and its first instruction forwards the descriptor's number and context to the resolved target. The handler is either newly built or the identical one already there. |
| InterruptHandlers.SynthesizedHandlerShape | transform/interrupt.go:182-225 | When a handler is synthesized, it is defined under the chosen name with the forwarding body, section, AVR calling convention and (if software-vectored) internal linkage plus a vector entry. The descriptor is dropped, its address-of uses are gone, and exactly one diagnostic is added per non-`ptrtoint` use. |
| InterruptHandlers.ProcessDescriptorKeepsSvRecorded | transform/interrupt.go:186-189 | Every recorded vector entry names a defined, internal placeholder handler before and after a descriptor step. |
| InterruptDispatch.Insert | transform/interrupt.go:246 | Insertion adds exactly the new entry: the result is a permutation of the input plus the entry. |
| InterruptDispatch.InsertAscending | transform/interrupt.go:246 | Inserting an entry with a fresh number into a strictly ascending list keeps it strictly ascending. |
| InterruptDispatch.SortById | transform/interrupt.go:241-246 | The sorted table is a permutation of the recorded one. |
| InterruptDispatch.SortAscending | transform/interrupt.go:241-246 | A table with distinct numbers sorts into strictly ascending order. |
| InterruptDispatch.SwitchCases | transform/interrupt.go:258-264 | There is one switch case per sorted entry, on its number, jumping to the block named "interrupt<number>". |
| InterruptDispatch.CaseBlocks | transform/interrupt.go:258-262 | There is one block per sorted entry, named "interrupt<number>", that calls the entry's handler and returns. |
| InterruptDispatch.BuildDispatcher | transform/interrupt.go:248-276 | The dispatcher keeps its existing blocks. It then gets an entry block holding only the switch, a default block that returns, and one case block per entry in sorted order. It becomes internal with unnamed_addr. |
| InterruptDispatch.SwitchCasesAscending | transform/interrupt.go:241-264 | The switch has one case per recorded number, in strictly ascending order of number. |
| InterruptDispatch.SwitchCoversTable | transform/interrupt.go:243-264 | Every recorded number has a switch case. |
| InterruptDispatch.CaseBlocksCallHandlers | transform/interrupt.go:258-263 | Each case jumps to a block that calls the handler recorded for its number. |
| InterruptLowering.HasSoftwareVectoring | transform/interrupt.go:65 | Software vectoring is on exactly when the dispatcher `runtime.callInterruptHandler` exists in the module and has uses. |
| InterruptLowering.ProcessAll | transform/interrupt.go:93-226 | The descriptor loop only appends diagnostics. It adds at most one kept descriptor per descriptor processed, after those kept before, and never loses a function. With duplicates retired, it keeps no more descriptors than it reports problems. |
| InterruptLowering.ProcessAllRetires | transform/interrupt.go:210-225 | Every descriptor the loop processes is either kept or has no address-of use left. |
| InterruptLowering.ProcessAllKeepsSvRecorded | transform/interrupt.go:186-189 | Across the whole loop, every recorded vector entry names a defined, internal placeholder handler. |
| InterruptLowering.ProcessAllKeepsHandlers | transform/interrupt.go:93-226 | The descriptor loop never takes away a handler that existed before it. |
| InterruptLowering.ProcessAllHandles | transform/interrupt.go:93-226 | Every descriptor the loop processes is either among those it kept or has its forwarding handler when the loop ends. |
| InterruptLowering.UseSitesLeft | transform/interrupt.go:283-290 | No `runtime/interrupt.use` call survives. The uses left are exactly the non-call uses, as many as the input has, one per diagnostic. |
| InterruptLowering.UseErrors | transform/interrupt.go:283-288 | The use cleanup reports "expected call to runtime/interrupt.use" exactly once per non-call use in the input, and nothing else. |
| InterruptLowering.Lower | transform/interrupt.go:25-293 | The pass panics exactly when the register scan does. Otherwise it keeps target, globals and every function. It leaves exactly the rejected register uses and no `use` call. Every descriptor is kept or has its address-of uses rewritten. With duplicates retired, every leftover pseudo-construct is accounted for by a diagnostic. |
| InterruptLowering.ErrorFreeRunLeavesNoPseudoConstructs | transform/interrupt.go:222-225 | In the pass with duplicates retired (`LowerInterruptsCorrected`), a run without diagnostics leaves no Register call, no descriptor, no use call and no address-of use of any descriptor. |
| InterruptLowering.SoftwareVectoredDispatcher | transform/interrupt.go:240-276 | In the pass with duplicates retired (`LowerInterruptsCorrected`), under software vectoring, the dispatcher is the built switch over a table with distinct numbers whose every entry names a defined internal placeholder handler. |
| InterruptLowering.OnlyDispatcherRewritten | transform/interrupt.go:227-276 | After the descriptor loop, the pass defines no new function and changes none but the dispatcher. Without software vectoring, the functions are exactly those the loop left. With it, the dispatcher keeps its existing blocks as a prefix and becomes internal. |
| InterruptLowering.DispatcherKeepsHandlers | transform/interrupt.go:248-276 | Filling in the dispatcher never takes away a handler, since it only appends blocks to that function. |
| InterruptLowering.RemovedDescriptorsHaveHandlers | transform/interrupt.go:93-276 | In the pass with duplicates retired (`LowerInterruptsCorrected`), every descriptor the run removes has its interrupt handler in the output. The function under the name chosen for its number is a defined entry function whose first instruction forwards the number and context to the descriptor's resolved target. |
| InterruptLowering.DuplicateDescriptorSurvivesAsWritten | transform/interrupt.go:166-171 | As written, a module with two identical descriptors for one number lowers without diagnostics, yet the second descriptor and its address-of use remain. |
| InterruptLowering.DuplicateDescriptorRetired | transform/interrupt.go:166-171 | With the duplicate retired, the same module lowers to one handler, no descriptor and both address-of uses replaced by the number. |
| ChannelOps.EmitMakeChan | compiler/channel.go:14-19 | A `make(chan T, n)` appends one `chanMake` call whose arguments are the element's allocation size from the target layout and the buffer size; its result is the channel. |
| ChannelOps.MakeChanWellFormed | compiler/channel.go:14-19 | The make code calls only `chanMake` with its arity, allocates no temporary, and is well-formed reading only the size operand. |
| ChannelOps.EmitChanSend | compiler/channel.go:23-39 | A send stores the value into a fresh temporary of the value's size, passes it to `chanSend` and then ends the temporary's lifetime. |
| ChannelOps.SendWellFormed | compiler/channel.go:23-39 | The send code calls only `chanSend` with its arity, ends every temporary it allocates, and is well-formed reading only the channel and the value. |
| ChannelOps.RecvCodeSeq | compiler/channel.go:43-63 | The receive code, as emitted, is exactly the listed instruction sequence for the chosen comma-ok form. |
| ChannelOps.EmitChanRecv | compiler/channel.go:43-63 | A receive allocates a temporary, calls `chanRecv` into it, loads the value and ends the lifetime. With comma-ok it builds the `(value, ok)` tuple from the loaded value and the call's result; otherwise the value is the result. |
| ChannelOps.RecvWellFormed | compiler/channel.go:43-63 | The receive code calls only `chanRecv` with its arity, ends its temporary after the load, and is well-formed reading only the channel. |
| ChannelOps.EmitChanClose | compiler/channel.go:66-69 | A close appends one `chanClose` call on the channel. |
| ChannelOps.CloseWellFormed | compiler/channel.go:66-69 | The close code calls only `chanClose` with one argument and is well-formed reading only the channel. |
| ChannelSelect.ScanCases | compiler/channel.go:100-134 | Definition: the cases are walked in order, one `ScanNext` step each, from a walk with no code, no states, size 0, alignment 0 and no receives. Its contract: exactly one state per case, and the ids it allocates start at the given id. The walk-level facts are `ScanReceives`, `ScanCovers`, `ScanAttains`, `ScanStates` and `ScanScoped`. |
| ChannelSelect.ScanNext | compiler/channel.go:107-133 | Definition: one step of the walk for one case. Its contract: one more state, and the next free id never decreases. The step's meaning is stated by `ScanNextStep`. |
| ChannelSelect.ScanNextStep | compiler/channel.go:107-133 | Earlier states are kept, and the new state holds the case's channel. The walk receives afterwards exactly when it did before or the case receives. A receive keeps the code and ids and takes a null payload. It makes the buffer size and alignment at least its element's, each being either the old value or the element's, so each is the larger of the two. A send leaves size and alignment unchanged. It appends an entry-block alloca of the value's type at the next id, then a store of the value into it, and that buffer is the payload. |
| ChannelSelect.ScanReceives | compiler/channel.go:102-134 | The walk records a receive buffer exactly when some case receives. |
| ChannelSelect.ScanCovers | compiler/channel.go:112-121 | The receive buffer is at least as large and as aligned as each receive case's element needs. |
| ChannelSelect.ScanAttains | compiler/channel.go:112-121 | The buffer's size and alignment are each zero or attained by some receive case, and both are zero when nothing receives. |
| ChannelSelect.ScanStates | compiler/channel.go:107-134 | Each case gets a state, in case order, holding its channel. A receive case has a null payload. A send case's payload is an entry-block alloca of the value's type into which the value was stored. |
| ChannelSelect.ScanScoped | compiler/channel.go:107-134 | The walk reads only the cases' channels and sent values, defines fresh buffers, and neither calls nor ends anything. |
| ChannelSelect.EmitSelect | compiler/channel.go:73-207 | Without cases, a blocking select calls `deadlock` and yields undef, and a non-blocking one yields the tuple `{-1, …}`. With cases, the select emits the value stores, the receive buffer, the states array and the runtime call. It records the receive buffer for the select in the side table and yields the call's result. |
| ChannelSelect.SelectWellFormed | compiler/channel.go:73-207 | A select calls exactly `deadlock`, nothing, `chanSelect` or `tryChanSelect` as blocking and case count dictate, each with its arity, and is well-formed. It ends every temporary exactly when no case receives. |
| ChannelSelect.SelectRecvBuffer | compiler/channel.go:136-146 | The side table changes only at the select's own entry. That entry is undef unless some case receives. A receiving select's entry is element 0 of a temporary byte array of the scanned size, given the scanned alignment, which is still live when the select ends. |
| ChannelSelect.RecvBufferSized | compiler/channel.go:112-121 | The receive buffer's size is the largest element size among the receive cases, and its alignment is the largest element alignment among them. |
| ChannelSelect.SelectStoresStates | compiler/channel.go:148-158 | The emitted code stores each case's state, in case order, into its slot of the states array; each state carries the case's channel and, for a send, the stored value's buffer. |
| ChannelSelect.SelectCodeSeq | compiler/channel.go:136-194 | A select with cases emits, in order: the sent values' stores; the receive buffer when some case receives; the states array and one store per case. A blocking select then allocates the blocked-list array, calls `chanSelect(recvbuf, states, n, n, blocked, n, n)` and ends the blocked list's lifetime. A non-blocking one calls `tryChanSelect(recvbuf, states, n, n)`. Either way, the states array's lifetime ends last. |
| ChannelSelect.GetChanSelectResult | compiler/channel.go:213-236 | Index 0 extracts the chosen case, followed by a sign extension exactly when the index type is narrower than `int`. Index 1 extracts only the ok flag. Any later index is a single load of the extract's type from the select's receive buffer, and fails only when the select has no side-table entry. The code so far is kept as a prefix, and the result is the last id defined. |
| ChannelSelect.ExtractWellFormed | compiler/channel.go:213-236 | An extraction calls nothing, allocates nothing and is well-formed reading only the tuple or the receive buffer. |
| ChannelSelect.SelectThenExtract | compiler/channel.go:201-204 | Extracting a received value right after its select always succeeds. The load reads the receive buffer, which is still live, and the select together with the load is well-formed. |

## Left out

- LLVM itself is not modelled. Values, types, basic blocks and module iteration become small datatypes and sequences, and names such as `getUses` or `ReplaceAllUsesWith` become direct rewrites of the module's fields.
- The only `errorAt` detail modelled is the diagnostic kind: source positions and the "previous declaration at" suffix built from `getPosition` are dropped.
- `runtime/interrupt.handle` is recognised by being in the module's descriptor list. The type lookup at transform/interrupt.go:80-89 is folded into that list.
- UnwrapFuncLowering: when the func-lowering `ptrtoint` wraps a function, or a global that has no initializer, the model reports "func lowering global has unexpected type". In Go, `global.Initializer()` and `initializer.Type()` (transform/interrupt.go:135-136) are then a nil dereference or a read of a function as a global variable, with no diagnostic. The model replaces that crash path with the diagnostic.
- The LLVM type checks at transform/interrupt.go:136 and 147 are modelled through the shape of the value (`FuncValueWithSignature`, `FuncAddr`). They are not modelled as a type system.
- InterruptHandlers.Synthesized: the handler's function type is a flag (`isEntryType`), not an LLVM function type.
- The order in which Go iterates `softwareVector` is irrelevant after the sort. The table is a list with distinct numbers.
- The semantics of the runtime functions (`chanMake`, `chanSend`, `chanRecv`, `chanClose`, `chanSelect`, `tryChanSelect`, `deadlock`) is not modelled. Only the call contract is: callee, arguments, buffers and lifetimes.
- Bitcasts (`valueAllocaCast`, the select payload cast, the extraction's pointer cast) and the two GEPs that only take element 0 of an array are folded into the operand they cast. They define no id in the model.
- The select state is a structured operand `SelectState(ch, payload)` rather than the two `insertvalue` instructions that build it.
- Target data (`TypeAllocSize`, `ABITypeAlignment`) is a `Layout` value with two function fields passed in.
- `createRuntimeCall`'s callee is an enumeration, and its arity table is stated in `ChannelIR.Arity`.
- The code never ends the select receive buffer's lifetime; `SelectWellFormed` states this.
- The `panic("unreachable")` for a select case that is neither send nor receive cannot occur: cases are a two-constructor datatype.
- `ScanCases` does not model the 64-bit width of `recvbufSize`: sizes are unbounded naturals.
- GetChanSelectResult: for a select with no side-table entry, Go reads the zero `llvm.Value` and then fails in the bitcast. The model returns `None` instead.
- The Register scan's `call.ReplaceAllUsesWith(llvm.ConstNull(call.Type()))` (transform/interrupt.go:61) is not modelled. A Register call's result has no users in the model, so erasing the call is the whole effect.
- GlobalBytes: an initializer that is not byte data reads as no bytes. `getGlobalBytes` is not part of this model, and this is an assumption about it.
- Retire: a descriptor is dropped even when it still has non-`ptrtoint` uses. The source reports each such use (transform/interrupt.go:215) and still erases the global (225), which would leave LLVM with dangling uses; the model does not represent that broken state.
- Go's `int64` interrupt numbers are unbounded integers in the model, and `num.SExtValue()` is the identity.
- The other files of the repository (builder, runtime, machine packages) are not part of this model.

## Findings

| source | as written | input that shows it | evidently intended | confidence | as-written member | corrected member |
|---|---|---|---|---|---|---|
| transform/interrupt.go:166-171 | A descriptor whose handler is already defined with an identical forwarding call is skipped with `continue` before its `ptrtoint` uses are replaced (210-220) and before the global is erased (225). | Two `runtime/interrupt.handle` globals for number 7, with the same handler and context, and the number registered as "A". The run reports no error, but the second global and its `ptrtoint` use remain. | A harmless duplicate is retired like any handled descriptor: its uses become the number and the global is erased. | medium, not executed | InterruptLowering.DuplicateDescriptorSurvivesAsWritten | InterruptLowering.DuplicateDescriptorRetired |
