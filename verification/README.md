# Konoha: verified models

Dafny models of the parts of Konoha in which a concrete encoding stands for a simple idea, with
proofs that it does. `dafny verify dfyconfig.toml` checks everything.

**Register VM** (`include/konoha1/konoha_vm.h`, `gentools/gen_vm.py`). One flat word stack holds
locals, return slots and call linkage; handlers are chained through heap objects.

* `Machine` is the VM as a pure step function over that stack; `Vm` is the same machine as a class
  that updates an array and its registers in place, proved equal to it method by method.
* `Refinement` is an abstract machine with an explicit list of calls and of live handlers that
  never looks at linkage words or handler objects. Every step of a program that obeys the
  compiler's discipline keeps the two machines related. `Runs` draws the conclusions for whole
  runs: calls return, throws and TRYENDs restore. `Launch` does so for a C caller
  (`KNH_SCALL`) and shows that a VM run started by a native method behaves, to the run around
  it, as a native method has to. `Handlers` says exactly when the discipline is needed, and
  `Nesting` when properly ended TRYs, whose registers all end up with the one default handler
  object, keep the handler chain acyclic.
* `Effects` says what each instruction does to single words and registers.
* `Operands` computes the operand table of an instruction line and compares it with the C struct
  it describes; `Registers` executes encoded lines and `Instructions`
  says what every instruction computes, without the functions that execute it; `Relocation` shows that a shifted program runs
  like the original; `Fusion`, `FusionRuns` and `FusionExact` do the same for the
  compare-and-jump peephole of `src/lang/asm.c`, and say when it is wrong.
* `RefCounts` (the RCGC build, with the cascade of `src/gc/rcgc.h`) and `Barrier` (the
  generational build) cover the pointer moves.

**Run-time library.** `Scratch` is the shared buffer of `CWB_open`/`CWB_close`; `JsonConvert`,
`JsonRead` and `PlainArrays` are the JSON conversions.

**Tools and packages.** `SafePoint` is the LLVM pass; `Numbering`, `Declarations` and `Generator`
are the tables of `genkonoha.py`, from the declarations that are read to the rows that are
written; `Terms` are those of `genlang.py`; `Kinect` and `Hands` are the image loops and the hand
history of the Kinect package.

## Where the code falls short

These are proved as exact conditions, with the code left as it is. Each entry names an input on
which the condition fails.

* `Nesting.ProperlyEndedIff`: TRYEND puts the class's one default handler object into its
  register, and the next TRY there takes it up. Properly ended TRYs keep the chain acyclic
  throughout iff no TRY is on the register of a live one and at most one live TRY, enclosing runs
  included, is on a register on which a TRY was ended before. `Nesting.SharedDefault` is a
  run of six instructions that ends with the default handler as its own parent.
* `Handlers.TryAcyclicIff`: a TRY whose register holds a live handler overwrites it and closes
  the parent chain into a cycle (`Handlers.ReenteredTry`: the same TRY twice).
* `Handlers.CaughtIff`: `knh_throw` scans downwards from where it is raised; a handler object
  found only above that point is not found, and the process exits although a handler is live
  (`Handlers.HandlerAbove`).
* `Handlers.RetKeepsIff`: leaving a frame before its TRYEND breaks the correspondence. In
  `Handlers.ResumesDeadFrame` an error in the caller then resumes in the callee's frame. The
  assembler's own TRY statement (`src/lang/asm.c`) emits no TRYEND; only the launching code does.
* `FusionExact.ChainIff`: the peephole does not compare the tested register with the destinations
  that it drops. `FusionExact.UnrelatedNots` is a block of two bNOTs that changes its exit.
* `Registers.UnsignedCheckIff`: the one unsigned compare of CHKIDX is right up to sizes of 2^63;
  above, the index -2^63 passes (`Registers.NegativePasses`).
* `Barrier.ArrayStoreCoveredIff`: an array store goes through the barrier-free move
  (`Barrier.UnrememberedElement`).
* `JsonConvert.RoundTripIff`: integers are cut to 32 bits and strings at the first NUL
  (`JsonConvert.WideInt`, `JsonConvert.CutString`).
* `JsonConvert.SetGetIff`: `Json.set` stores the negation of a Boolean.
* `JsonRead.Context.Unpack`, `JsonRead.DepthBoundsIff`: a non-empty object uses the slots `sfp[2]`
  and `sfp[3]` (through `knh_DataMap_set`, which works at `esp`), so reading can go up to two slots
  past the nesting depth of the text (`JsonRead.ObjectExceedsDepth`).
* `Declarations.IdsFitIff`: a class that gets no id shifts everything after it, the array and
  iterator types included that mentioning them brings into being
  (`Declarations.SkippedClassShifts`: such a class, then a type).
* `Terms.NamesRightIff`, `Terms.MacrosRightIff`: tables with repeated names
  (`Terms.SharedMethod`, `Terms.SameMacro`).
* `Kinect.DepthRightIff`: the conversion of 16-bit images steps in whole words, so with rows of odd
  length it is wrong from the second row on (`Kinect.LowByte`: two rows of three bytes). OpenCV
  pads the rows that it allocates to an even length; only an image header filled in by hand has
  such rows, and the package passes no 16-bit image itself.

## Model

| member | source | states |
|---|---|---|
| Refinement.StepRefines | include/konoha1/konoha_vm.h:235-363 | every disciplined VM step (calls, returns, natives, TRY, TRYEND, throws) is a step of the machine with explicit call and handler lists |
| Refinement.EnterRefines | include/konoha1/konoha_vm.h:260-285 | VCALL and VCALL_ push exactly one (base, return pc) and disturb no older linkage, for frames at least eight words up |
| Refinement.LinksFrame | include/konoha1/konoha_class.h:1612-1623 | the chain of shift and pc words survives any change outside the linkage words below the base |
| Refinement.LinksPrefix | include/konoha1/konoha_vm.h:289-296 | following the chain from an outer frame yields the outer part of the call list |
| Refinement.BasesGrow | include/konoha1/konoha_vm.h:260-274 | frame bases lie at least eight words apart along the chain |
| Refinement.RetRefines | include/konoha1/konoha_vm.h:289-296 | RET pops exactly the innermost call when no handler of the frame is live |
| Refinement.VexecRefines | include/konoha1/konoha_vm.h:343-357 | VEXEC and ENTER start a call in place that returns to the op after them |
| Refinement.UnwindSpec | src/main/evidence.c:1123-1156 | the downward scan finds a handler iff its object is in an object word at or below the start |
| Refinement.UnwindSweeps | src/main/evidence.c:1123-1156 | the scan clears exactly the method words from the start down to the handler's pair |
| Refinement.ThrowSweeps | src/main/evidence.c:1123-1156 | after a caught throw every method word from where it was raised down to the handler's register is NULL and every other word is what it was |
| Refinement.UnwindStops | src/main/evidence.c:1123-1156 | the scan leaves everything below the handler's register alone |
| Refinement.ThrowRefines | src/main/evidence.c:1123-1156 | a caught throw restores base, esp, calls and handlers of the innermost TRY and continues at its jump target |
| Refinement.TryRefines | include/konoha1/konoha_vm.h:503-528 | TRY pushes one handler that records the frame, esp and parent |
| Refinement.TryEndRefines | include/konoha1/konoha_vm.h:530-537 | TRYEND drops its handler and all that were entered after it, and leaves the class's default handler object, cleared, in the register |
| Refinement.HandlersKeep | include/konoha1/konoha_vm.h:494-499 | handlers that are not live, here or in an enclosing run, may change at will |
| Refinement.ScallRefines | include/konoha1/konoha_vm.h:240-250 | a native call that writes its own frame and return slot leaves calls and handlers alone, or throws to the innermost handler |
| Runs.RunExtends | include/konoha1/konoha_vm.h:235-363 | the abstract machine can follow any disciplined concrete step |
| Runs.StepPreserves | include/konoha1/konoha_vm.h:235-363 | one step keeps the outer calls, the outer handlers, those of enclosing runs included, and every word below the return slot of the frame it is in |
| Runs.RunPreserves | include/konoha1/konoha_vm.h:235-363 | over any run the VM stays related to the explicit lists, and nothing older than the shallowest frame visited changes |
| Runs.CallReturns | include/konoha1/konoha_vm.h:260-316 | from a call to its matching RET, with any calls, natives and caught throws between: same base, next op, method word cleared, all words below the return slot unchanged |
| Runs.ThrowRestores | include/konoha1/konoha_vm.h:466-499 | a throw caught by a TRY restores rbp, esp, the handler chain and the abstract call stack of that TRY and continues at its target |
| Runs.TryEndRestores | include/konoha1/konoha_vm.h:494-499 | TRYEND restores the chain from just before its TRY, even with inner handlers left open, also for a TRY that took up the default handler |
| Handlers.ChainMirrors | include/konoha1/konoha_class.h:669-677 | the parentNC chain is acyclic and lists exactly the live handlers, innermost first, then those of the enclosing runs |
| Handlers.TryAcyclicIff | include/konoha1/konoha_vm.h:466-492 | TRY keeps the chain acyclic iff the handler object it takes up is not already in it, enclosing runs included |
| Handlers.CaughtIff | src/main/evidence.c:1123-1156 | a throw with a live handler is caught iff some pair of words at or below the start of the scan holds that handler object, otherwise the process exits |
| Handlers.RetKeepsIff | include/konoha1/konoha_vm.h:289-296 | RET keeps chain and list together iff no TRY of the frame is live |
| Handlers.ReenteredTry | include/konoha1/konoha_vm.h:466-492 | a run of two TRYs on one register ends with a handler that is its own parent |
| Handlers.HandlerAbove | src/main/evidence.c:1123-1156 | a run of a TRY and an error ends the process although the handler is live |
| Handlers.ResumesDeadFrame | include/konoha1/konoha_vm.h:289-296 | a callee returns inside its TRY; an error in the caller then resumes in the callee's frame |
| Nesting.ProperlyEndedIff | include/konoha1/konoha_vm.h:466-499 | any sequence of TRYs, each TRYEND for the innermost one, in any frames and nested runs: the chain stays acyclic iff no TRY is on the register of a live one and at most one live TRY, enclosing runs included, is on a register on which one was ended |
| Nesting.SharedDefault | src/main/class.c:385-419 | six instructions with every TRYEND in its place end with the shared default handler as its own parent |
| Nesting.TryPair | include/konoha1/konoha_vm.h:503-537 | TRY and TRYEND give the chain back and leave the default handler in the register |
| Launch.ScallReturns | include/konoha1/konoha_class.h:1612-1648 | KNH_SCALL inside any runs: VEXEC enters the stored method, the matching RET returns to the op after VEXEC with rbp and the caller's handlers unchanged; afterwards esp is lsfp+rtnidx, the method word NULL, older words unchanged |
| Launch.ArgumentsBelow | include/konoha1/konoha_class.h:1629-1648 | KNH_SCALL sets esp right above the last argument |
| Launch.NestedIsNative | src/main/evidence.c:786-821 | a VM run started by a native method leaves the live handlers of the run around it and everything below its launching slot alone |
| Launch.ScallBegins | include/konoha1/konoha_class.h:1612-1648 | KNH_SCALL from a native method begins a run whose outer chain is that of the run around it |
| Launch.NestedThrow | src/main/evidence.c:1123-1156 | an error in a nested run without a handler of its own continues at the innermost TRY of the run around it, with that TRY's base, esp, calls and handlers |
| Launch.InsideTrans | src/main/evidence.c:1123-1156 | so through any number of nested runs without handlers |
| Vm.VirtualMachine.Enter | include/konoha1/konoha_vm.h:260-285 | the in-place update equals the step function |
| Vm.VirtualMachine.Ret | include/konoha1/konoha_vm.h:289-296 | the in-place update equals the step function |
| Vm.VirtualMachine.Vexec | include/konoha1/konoha_vm.h:343-357 | the in-place update equals the step function |
| Vm.VirtualMachine.Try | include/konoha1/konoha_vm.h:503-528 | the in-place update equals the step function |
| Vm.VirtualMachine.TryEnd | include/konoha1/konoha_vm.h:530-537 | the in-place update, default handler included, equals the step function |
| Vm.VirtualMachine.UnwindTo | src/main/evidence.c:1123-1156 | the scan loop equals the recursive scan and clears exactly the method words that it passes |
| Vm.VirtualMachine.Throw | src/main/evidence.c:1123-1156 | the throw equals the step function, uncaught case included; `Refinement.ThrowSweeps` says which words a caught one has cleared |
| Effects.MoveWrites | include/konoha1/konoha_vm.h:81-82 | NSET, NMOV and OMOV give one register the number or the other register's word, and nothing else changes |
| Effects.JumpGoes | gentools/gen_vm.py:601-682 | JMPF jumps iff its register holds NULL or zero |
| Effects.CallWrites | include/konoha1/konoha_vm.h:260-285 | a call writes shift, return pc and method, each to its word, and no other; rbp, pc and esp as declared |
| Effects.RetReads | include/konoha1/konoha_vm.h:289-296 | RET goes back by those words and clears the method word |
| Effects.NativeWrites | include/konoha1/konoha_vm.h:240-250 | after a native call: linkage, then the method's own writes in order, then the method word cleared |
| Effects.CatchTakes | include/konoha1/konoha_vm.h:557-562 | CATCH stores the exception and clears the pending flag, or goes to the next clause |
| Vm.VirtualMachine.Scall | include/konoha1/konoha_vm.h:240-250 | the native call equals the step function, throwing or not |
| Vm.VirtualMachine.Execute | gentools/gen_vm.py:601-682 | one turn of the dispatch loop equals the step function |
| Vm.VirtualMachine.ExecuteAll | gentools/gen_vm.py:601-682 | the dispatch loop passes through the states of the run |
| Vm.VirtualMachine.ExecuteCall | include/konoha1/konoha_vm.h:260-316 | from a call to its matching RET the object has the same rbp, the next pc and all words below the return slot unchanged |
| Vm.VirtualMachine.ExecuteTry | include/konoha1/konoha_vm.h:466-499 | from a TRY to the throw it catches the object has the same rbp, esp and handler, and pc is the TRY's target |
| Operands.Kcode | gentools/gen_vm.py:227-265 | the loop over a line yields the entries of its operands plus a final VOID, and size counts the entries before it |
| Operands.LayoutAgrees | gentools/gen_vm.py:285-301 | in both word-size builds size is the struct's word count, each type sits at its field's word and second words are VOID |
| Operands.EntryOrigin | gentools/gen_vm.py:241-265 | every table entry is the first word of a field or a VOID second word |
| Operands.Reftrace | gentools/gen_vm.py:408-420 | the loop visits exactly the object and string operands of `_CONST` ops, in order |
| Operands.OpcodeShift | gentools/gen_vm.py:524-536 | the in-place loop shifts each word by what its table type says |
| Operands.ShiftThroughFields | gentools/gen_vm.py:524-536 | register fields move by 2s words, SFPIDX2 fields by s, the second word of an sfx and all others not at all |
| Relocation.ShiftCopy | src/lang/asm.c:1316-1351 | the inlined copy is the shifted line and the original is untouched |
| Relocation.ShiftAll | src/lang/asm.c:1316-1351 | every line of the inlined code is shifted |
| Relocation.OperandRelocates | include/konoha1/konoha_class.h:1487-1514 | any operand of a shifted line at base b is the original operand at base b+2s |
| Relocation.RunRelocates | gentools/gen_vm.py:524-536 | any shifted program at base b runs in lockstep with the original at base b+2s, faults included, where each step is what `Instructions` says |
| Relocation.ShiftBack | gentools/gen_vm.py:524-536 | shifting by -s undoes shifting by s |
| Registers.UnsignedCheckIff | include/konoha1/konoha_vm.h:706-725 | the unsigned compare decides 0 <= n < size for all 64-bit n iff size <= 2^63 |
| Registers.CheckedGet | include/konoha1/konoha_vm.h:716-725 | CHKIDX passes iff 0 <= n < size, and then the unguarded get reads element n |
| Registers.NegativePasses | include/konoha1/konoha_vm.h:706-725 | above that size a negative index passes |
| Registers.ArrayIndexExact | include/konoha1/inlinelibs.h:224-231 | accepts exactly -size <= n < size and maps into [0, size), counting negative indexes from the end |
| Instructions.FetchedOperand | include/konoha1/konoha_class.h:1487-1514 | which word, field, literal or target an operand field of a line names |
| Instructions.MoveGives | include/konoha1/konoha_vm.h:81-228 | all ten sets and moves give their first operand the value of their second, and nothing else changes |
| Instructions.ArithmeticGives | include/konoha1/konoha_vm.h:593-612 | ADD, SUB and MUL give the 64-bit number congruent to the exact result, DIV the truncated quotient, MOD a remainder smaller than the divisor with the dividend's sign; DIV and MOD trap iff the divisor is 0 or it is -1 under -2^63 |
| Instructions.DivisionLaw | include/konoha1/konoha_vm.h:599-612 | quotient and remainder of the same registers: a == d * q + r |
| Instructions.CountGives | include/konoha1/konoha_vm.h:587-590 | iINC, iDEC and iNEG up to wrap-around |
| Instructions.FlagGives | include/konoha1/konoha_vm.h:585-625 | compares and tests give 1 or 0, by the sign of the difference |
| Instructions.BranchSteps | include/konoha1/konoha_vm.h:639-656 | a branch goes on behind itself if its condition holds and to its target otherwise |
| Instructions.GetGives | include/konoha1/konoha_vm.h:746-773 | an array get gives the element |
| Instructions.SetGives | include/konoha1/konoha_vm.h:756-782 | an array set gives the element and the destination the value and changes nothing else |
| Instructions.CheckGives | include/konoha1/konoha_vm.h:716-725 | CHKIDX passes without effect iff the index is that of an element |
| Instructions.RunSteps | gentools/gen_vm.py:601-682 | a run is its first step and then the rest, until one stops |
| Fusion.BlockBuilder.AsmJMPF | src/lang/asm.c:161-216 | the loop drops bNOTs and fuses a compare or appends the JMPF |
| Fusion.BlockBuilder.AsmBranch | src/lang/asm.c:717-735 | the exits are exchanged for an odd number of dropped bNOTs |
| Fusion.CompareStep | include/konoha1/konoha_vm.h:614-656 | a compare writes the truth value on which the fused branch decides |
| Fusion.FuseDecides | src/lang/asm.c:161-216 | the fused block takes the same exit as compare, bNOTs and JMPF, and memory differs in the dropped registers only |
| FusionRuns.ExecAgrees | include/konoha1/konoha_vm.h:81-228 | an instruction that reads no dead register cannot tell the two memories apart |
| FusionRuns.RunGoesOn | gentools/gen_vm.py:601-682 | a run of a graph is its first block and then the rest |
| FusionRuns.FusePreservesRuns | src/lang/asm.c:161-216 | in any control-flow graph in which the dropped registers are dead at the exits, runs of any length agree in control flow and all other registers |
| FusionExact.ChainIff | src/lang/asm.c:161-216 | for any chain of bNOTs, with or without a compare in front, the exits are kept iff the tested register, followed back through the chain, is what the fused branch tests with the same polarity, or the compare is itself that test against zero |
| FusionExact.MatchIff | src/lang/asm.c:161-216 | dropping one instruction keeps the exits iff it wrote the register that JMPF tests or is itself the constant compare `a != 0` |
| FusionExact.MatchingChain | src/lang/asm.c:161-216 | chains in which every instruction wrote what comes to be tested meet that condition |
| FusionExact.UnrelatedNots | src/lang/asm.c:161-216 | a block of two bNOTs of unrelated registers whose exit changes |
| RefCounts.Heap.KlrMov | include/konoha1/konoha_vm.h:170-179 | one counted move: the plain assignment, counts exact, nothing revived, self-assignment a no-op |
| RefCounts.Heap.RCfree | src/gc/rcgc.h:27-46 | the release cascade frees exactly the objects whose count drops to zero and leaves all counts exact |
| RefCounts.Heap.DerefOstack | src/gc/rcgc.h:20-25 | one decrement; the object is stacked iff no pointer is left |
| RefCounts.Heap.ReleaseFields | src/gc/rcgc.h:27-46 | the field loop decrements once per pointer and queues each object that reaches zero once |
| RefCounts.Heap.Exec | include/konoha1/konoha_vm.h:183-257 | one instruction: registers, numbers and fields afterwards are what its macro assigns, counts exact |
| RefCounts.ApplyEffect | include/konoha1/konoha_vm.h:183-228 | the registers, numbers and fields after each of the fifteen instructions, said without the counted moves |
| RefCounts.Heap.Run | include/konoha1/konoha_vm.h:183-229 | over any run of such instructions each live object's count is the number of registers, fields and elements pointing to it plus a fixed external count, and an object is freed only when none remain |
| RefCounts.PointersAfterWrite | include/konoha1/konoha_vm.h:170-179 | overwriting a slot moves one pointer from the old object to the new one |
| RefCounts.Released | src/gc/rcgc.h:27-46 | releasing an object with its fields counted down keeps every count exact |
| RefCounts.Unreferenced | src/gc/rcgc.h:27-46 | an object with count zero is pointed to by nothing, itself included |
| RefCounts.NoDangling | include/konoha1/konoha_gc.h:120-132 | nothing in use points to a freed object |
| Barrier.Machine.Execute | include/konoha1/konoha_vm.h:145-155 | the in-place store with barrier equals the step function |
| Barrier.StepEffect | include/konoha1/konoha_vm.h:145-228 | registers, fields and remembered set after each instruction |
| Barrier.RunRemembers | include/konoha1/konoha_gc.h:202-226 | a run remembers exactly the objects that its field stores put into old objects, overwritten ones included |
| Barrier.RunCovered | include/konoha1/konoha_gc.h:202-226 | after any run an old object's slot holds what it held at the start, a remembered object, or what an array store put there |
| Barrier.FieldStoresCovered | include/konoha1/konoha_gc.h:202-226 | after a run without array stores every slot of an old object holds what it held at the start or a remembered object |
| Barrier.ArrayStoreCoveredIff | include/konoha1/konoha_vm.h:756-764 | the exact condition under which an array store keeps that property |
| Barrier.UnrememberedElement | include/konoha1/konoha_vm.h:756-764 | an array store that breaks it |
| Scratch.Bytes.Write | src/main/bytes.c:186-197 | appends, growing the block when needed |
| Scratch.Bytes.Clear | src/main/bytes.c:139-145 | cuts back to a position |
| Scratch.Cwb.Open0 | include/konoha1/inlinelibs.h:156-163 | opens behind a zero byte |
| Scratch.Cwb.Close0 | include/konoha1/inlinelibs.h:165-174 | cuts the sentinel off as well |
| Scratch.Cwb.Close | include/konoha1/inlinelibs.h:194-197 | cuts back to where the writer was opened |
| Scratch.Cwb.ToBytes | include/konoha1/inlinelibs.h:214-220 | the bytes from the writer's start |
| Scratch.NestedRun | include/konoha1/inlinelibs.h:156-220 | any well-nested continuation closes the inner writers and adds exactly the bytes written outside them |
| Scratch.SessionIsolated | include/konoha1/inlinelibs.h:156-220 | tobytes shows exactly what was written through the writer, and closing restores the buffer from before the open |
| Scratch.Session.Execute | include/konoha1/inlinelibs.h:156-220 | the functions on shared mutable objects behave like the value-level steps |
| Scratch.Session.ExecuteAll | include/konoha1/inlinelibs.h:156-220 | any session on the objects is the value-level run |
| Scratch.Session.Isolated | include/konoha1/inlinelibs.h:156-220 | opening, any well-nested body, tobytes and closing on the objects: exactly the bytes written through the writer, and everything as before |
| JsonConvert.ArrayToJson | package/konoha.json/json.c:131-142 | the loop yields the JSON forms of the elements that have one, in order; for which forms see the round trips below |
| JsonConvert.ElemToJson | package/konoha.json/json.c:145-201 | one element, directed by its class |
| JsonConvert.ConvertJson | package/konoha.json/json.c:88-122 | the reader, directed by the class it is given |
| JsonConvert.ElemRoundTrip | package/konoha.json/json.c:88-201 | a typed element reads back as itself iff it fits |
| JsonConvert.RoundTripIff | package/konoha.json/json.c:88-201 | array to JSON to array is the identity on nested generic arrays of Boolean, Float, Int and String iff integers have 32 bits and strings no NUL |
| JsonConvert.WideInt | package/konoha.json/json.c:145-201 | an array of 2^31 reads back as an array of -2^31 |
| JsonConvert.CutString | package/konoha.json/json.c:88-122 | an array of a string with a NUL reads back with the string cut there |
| PlainArrays.PlainRoundTripIff | package/konoha.json/json.c:131-201 | a plain Array of boxed numbers, Strings and plain Arrays to any depth is written element for element, and json_read gives it back iff whole numbers have 32 bits and strings no NUL |
| PlainArrays.OneMoreElement | package/konoha.json/json.c:131-142 | an element without a JSON form, or with the NULL one, leaves no item; a Json object is its own item |
| PlainArrays.JsonRoundTrip | package/konoha.json/json.c:88-201 | arrays of class Json holding JSON objects come back as they are |
| PlainArrays.SetPlainIff | package/konoha.json/json.c:208-262 | the same for Json.set of a plain Array |
| JsonConvert.SetGetIff | package/konoha.json/json.c:208-262 | a value set and got back is itself iff it survives the conversion and is not a Boolean, which comes back negated |
| JsonRead.Context.JsonRead | package/konoha.json/json.c:477-522 | the translation and the tag that matches it, a scalar in its word; the highest slot written is exactly sfp plus the reach, and no other slot changes |
| JsonRead.Context.Unpack | package/konoha.json/json.c:477-522 | the highest slot written stays within the nesting depth iff no non-empty object lies within two levels of the bottom |
| JsonRead.Context.ReadFields | package/konoha.json/json.c:508-519 | the object loop builds the map and leaves esp at sfp+2 |
| JsonRead.Context.DataMapSet | src/main/map.c:1457-1463 | sets one key, by way of two slots at esp |
| JsonRead.Context.Boxing | src/main/number.c:162-184 | boxes unboxed numbers only |
| JsonRead.ElementAt | package/konoha.json/json.c:495-507 | arrays are translated element by element |
| JsonRead.LastFieldFound | package/konoha.json/json.c:508-519 | the map has the last field of each key |
| JsonRead.EntryOrigin | package/konoha.json/json.c:508-519 | every entry of the map comes from such a field |
| JsonRead.ObjectReaches | package/konoha.json/json.c:508-519 | a non-empty object k levels down uses slot k+3 at least |
| JsonRead.DepthBoundsIff | package/konoha.json/json.c:477-522 | the reach, which is what the reader uses, is within the nesting depth under that same condition |
| JsonRead.ObjectExceedsDepth | package/konoha.json/json.c:508-519 | an object with one number has depth one and reaches slot three |
| SafePoint.Emit | package/konoha.compiler.optllvm/opt.cpp:116-170 | inserts a check before the terminator unless one is there |
| SafePoint.RunOnFunction | package/konoha.compiler.optllvm/opt.cpp:177-213 | every block ends up as specified, however often its node is listed; true iff some block is registered |
| SafePoint.OthersKept | package/konoha.compiler.optllvm/opt.cpp:116-170 | all other instructions keep their order |
| SafePoint.ExactlyOneCheck | package/konoha.compiler.optllvm/opt.cpp:116-213 | without checks before, exactly one after, right in front of a registered terminator and with its shift |
| SafePoint.RunTwice | package/konoha.compiler.optllvm/opt.cpp:177-213 | a second run changes nothing and reports the same |
| Numbering.IdsAreRowsIff | gentools/genkonoha.py:751-777 | every class id is the row of its class iff no entry with an id follows a skipped class |
| Numbering.ResolveTwice | gentools/genkonoha.py:557-582 | asking twice for an array or iterator type gives the same type and generates nothing new |
| Numbering.SplitType | gentools/genkonoha.py:364-368 | types, iterator dots included, are read off a signature key uniquely |
| Numbering.TailInjective | gentools/genkonoha.py:364-368 | the parameter part of a key determines the parameters |
| Numbering.SameKeySameRow | gentools/genkonoha.py:364-389 | methods with one signature key have the same parameter row |
| Numbering.KeyIgnoresMarks | gentools/genkonoha.py:364-368 | methods whose signatures differ in "!" only share a key |
| Generator.Data.GetClass | gentools/genkonoha.py:557-582 | finds or generates; a generated name is new |
| Generator.Data.ParseMethod | gentools/genkonoha.py:417-444 | asks for the types of the signature, interns its row and appends the method |
| Generator.Data.Parse | gentools/genkonoha.py:626-633 | one declaration changes the classes, types, rows and methods as declared, and nothing else |
| Generator.Data.BuildKey | gentools/genkonoha.py:364-368 | the loop builds the key |
| Generator.Data.WriteNameH | gentools/genkonoha.py:751-777 | ids go to the rows without the skipped classes, in order |
| Generator.Data.WriteClassData | gentools/genkonoha.py:887-899 | struct classes, other classes, generic types |
| Generator.Read | gentools/genkonoha.py:626-633 | classes, types, parameter rows and methods are those of the declarations |
| Declarations.TypesOfInput | gentools/genkonoha.py:557-582 | types nobody declared are made once and shadow no earlier type; the others are exactly the declared ones, in order |
| Declarations.GenericMade | gentools/genkonoha.py:557-578 | mentioning X[] or X.. makes the array or iterator type of X, under the name by which it is found from then on |
| Declarations.RowsComplete | gentools/genkonoha.py:887-899 | struct classes, then other classes, then types, every one of them once |
| Declarations.IdsFitIff | gentools/genkonoha.py:751-777 | every class id is the row of its class iff, in the declarations, struct-less classes without an id come after those with one and, if there are any, no type is declared or needed |
| Declarations.NoTypesIff | gentools/genkonoha.py:557-593 | there are no generic types iff none is declared and every name looked up is a class declared before, or no array or iterator type, or one whose ARRAY or ITR name is such a class |
| Declarations.AllNumberedIff | gentools/genkonoha.py:751-777 | every row has an id iff no declared class is skipped |
| Declarations.SkippedClassShifts | gentools/genkonoha.py:751-777 | two declarations for which the type's id is the row of the class |
| Declarations.OneRowPerKey | gentools/genkonoha.py:438-444 | there is exactly one parameter row for every signature key of the input and one for "void" |
| Declarations.RowIsOwn | gentools/genkonoha.py:438-444 | a method's mf is a row of ParamData0 that holds its own parameters, also when another method made the row |
| Declarations.RowOfDecl | gentools/genkonoha.py:377-389 | the row has a result iff the declared one is not void, namely its type without marks; as many parameters as declared, each with its name and its type without marks; it is variadic iff the declaration is |
| Generator.Run | gentools/genkonoha.py:751-925 | for any declarations: the rows are the declared classes and the types, every one once; ids are rows iff the declarations fit; and for every method the row at its mf in ParamData0 has the declared result, parameters and variadic flag |
| Terms.Lists.ReadData | gentools/genlang.py:345-407 | the loops number statements, tokens, operators and values without a gap and keep the parallel lists parallel |
| Terms.Lists.WriteHfile | gentools/genlang.py:417-590 | the generated tables are those of the lists |
| Terms.RowDescribesTerm | gentools/genlang.py:451-460 | row tt of the term data holds printed name, flag and target of the term numbered tt |
| Terms.StatementRow | gentools/genlang.py:347-354 | row and macro of a statement, from the tables |
| Terms.TokenRowIs | gentools/genlang.py:371-383 | row and macro of a token: a keyword that is a statement leads to it unless its row says otherwise |
| Terms.OperatorRowIs | gentools/genlang.py:385-399 | row and macro of an operator |
| Terms.ValueRowIs | gentools/genlang.py:401-407 | row and macro of a value |
| Terms.MacrosRightIff | gentools/genlang.py:430-435 | every term's macro is its number iff macros are distinct |
| Terms.SameMacro | gentools/genlang.py:430-435 | two tokens that differ in case only share a macro |
| Terms.OperatorRow | gentools/genlang.py:561-578 | TT_toMN and TT_priority use each operator's own row, and only operators have one |
| Terms.NamesRightIff | gentools/genlang.py:540-584 | the opname entry at TT_toMN(tt) is the operator's own name iff operators that share a method share their name |
| Terms.SharedMethod | gentools/genlang.py:540-584 | two operators with one method, one of which goes by the other's name |
| Kinect.ConvertGray | package/konoha.kinect/kinect.cpp:24-32 | source pixel (x,y) is output pixel y*width+x, in bounds |
| Kinect.ConvertColor | package/konoha.kinect/kinect.cpp:33-47 | three bytes become those three and a zero at pixel y*width+x |
| Kinect.ConvertDepth | package/konoha.kinect/kinect.cpp:54-63 | each output byte is the high byte of the word the pointer reached |
| Kinect.DepthByte | package/konoha.kinect/kinect.cpp:54-63 | which byte that is, for even and odd row lengths |
| Kinect.DepthRightIff | package/konoha.kinect/kinect.cpp:54-63 | for every image of a shape each output byte is the high byte of its own pixel iff rows have an even length, or there is at most one row, or no column |
| Kinect.LowByte | package/konoha.kinect/kinect.cpp:54-63 | an image of two rows of three bytes whose second pixel comes out as its low byte |
| Kinect.UpdateMask | package/konoha.kinect/kinect.cpp:384-411 | despite exchanged bounds each of the width*height pixels is treated once, by its label; the flag is set iff some label is not zero |
| Hands.PointDrawer.Push | package/konoha.kinect/kinect.cpp:197-199 | in at the front, out at the back |
| Hands.Run | package/konoha.kinect/kinect.cpp:180-205 | after any events the tracked hands are those with an entry, and it is a prefix of the positions since the hand was created, newest first, all of them or as many as the history holds |
| Hands.StartsOver | package/konoha.kinect/kinect.cpp:180-186 | what happened before a hand was created again does not matter |

## Left out

* Threaded code, profiling, prefetch and debug macros; floating-point and bitwise instructions; casts, thunks, iterators and the inline caches of TCAST and ACAST.
* The compiler. Its obligations towards the VM are the predicate `Refinement.Disciplined`: frames eight words apart, writes within frame and return slot, no RET out of a frame with a live TRY, no TRY that takes up a live handler, those of enclosing runs included, and no write over a live one. A launched method may use the handler register below its return slot, as the launching code does.
* Growing the stack: above `stack_uplimit` VCALL throws in the model; `knh_stack_initexpand` is not part of this model.
* Handler objects are entries of a map and allocation gives a fresh identity. A native method is a list of writes, an optional throw and the handlers it leaves behind; a VM run inside it is such a method by `Launch.NestedIsNative`, and its uncaught errors are such throws by `Launch.NestedThrow`. TRYEND's clearing of the return and frame address of a handler (builds without setjmp) is not modelled.
* Relocation of call instructions: their linkage writes a shift that moves with the code, so the two runs agree only up to that word.
* The liveness of the dropped compare result is given as a certificate on the control-flow graph; how the compiler knows it is not modelled.
- RefCounts.Heap.Run: explicit RCINC and RCDEC instructions are not in the runs, because they change counts without moving pointers.
- Barrier.RunCovered: only mutator steps; promotion of objects and clearing of the remembered set between collections are not modelled.
* The barrier remembers the stored object, not the parent; the model follows the code.
* Scratch buffers are created with positive capacity and addressed by position, so the repair of raw pointers when the block moves has no counterpart; `CWB_newString` and the string pool are not modelled.
* JSON text in and out, and json-c itself: its trees are values whose object keys are C strings. A Konoha map is a finite map; how `dmap` stores it is not modelled. Overflow of the VM stack while reading is a precondition, since the code does not check.
* SafePoint: a block is its instructions plus its one terminator; the declaration that the pass adds to the module, and the partial evaluation pass, are not modelled.
* `genkonoha.py`: file scanning, names, flags, method counters and event rows. Parameter rows keep type names with their nullability marks dropped; `classname` is applied to them later. Type names are dot-free but for a final "..", and `void` carries no mark.
* `genlang.py`: blank and comment lines are dropped beforehand; the type-check and parse columns of statements play no part in the numbering.
* Kinect: pixels are bytes and words little endian; `width*height` does not overflow; locking, the user generator, colour conversion and the conversion of hand positions are not modelled.
* Bindings of foreign libraries, dffi, logging, time and `System` functions: thin wrappers.
