# Qumir verification

A Dafny model of the parts of Qumir in which a mistake would be silent: the bytecode compiler and its
interpreter, the object cache that several processes share, the managed UTF-8 strings, the module loader and
composer, foreign calls, the expression parser, type keys, and the event loop of the executors.
`dafny verify dfyconfig.toml` checks everything.

## How the project is organised

**Compiler and interpreter.** `Words`, `Types`, `Ir` hold machine words, types and the IR. `IrMachine` gives the IR a
meaning of its own: labelled blocks, a map of defined temporaries per activation, and memory as a set of bytes in
which the variables of an activation may lie anywhere as long as they are disjoint. `VmMachine` is the bytecode
machine with one shared register file, spilled to a byte stack; an address is an index into that stack. `VmCompiler`
is the translation. `FrameLayout`, `OpcodeSelection`, `SimValues`, `SimEffects`, `Simulation`, `SimCalls` and
`SimReturns` lead to the simulation in `CompilerCorrectness`; `CallingConvention` and `Evaluation` build on it;
`FrameBytes` is about the bytes of the frames below a call, with `EscapedAddress` as the program in which they change.
What the theorems relate is pinned down on its own: `OpcodeLaws` says in plain integers what the opcodes compute and
which types select them, `ValueLaws` the same of the instructions of the IR, `IrLaws` what variables, pointers,
parameters, results and branches of the IR do, and `CompilableCode` what is compiled and when the machine overflows.
`CompileMethod` and `Interpreter` are the imperative forms: the loops of the compiler and a class whose fields are the
state of the runtime, both proved equal to the functions that the theorems are about.

**Object cache.** `CacheText` is the file format, `CacheProtocol` the interleaved steps of any number of
processes that may die between any two of them, `CacheRuns` what holds over whole runs and the link plan,
`CacheProgress` what an undisturbed operation comes to.
`SymbolObjectCache` and `KernelLinking` are the methods as one process carries them out, where what others did
while it waited for the lock comes in as a parameter.

**Strings.** `Utf8` is the encoding of RFC 3629 with its bit operations, `Utf8Search` comparison and search,
`ManagedStrings` the reference-counted heap.

**Modules.** `SourceModules` and `SourceModuleLoader` are loading, `Compose` and `LoadCompose` the merge.

**Foreign calls.** `StructLayout` and `ForeignCalls` compare layout and classification with the System V AMD64 ABI
(sections 3.1.2 and 3.2.3), which is written down independently of the code. `ArgumentPassing`, `FfiThunk` and
`FfiCorrectness` are the thunk builder, and `ForeignSignatures` goes from the types of a signature to registers and
stack slots and compares those with the ABI's own.

**Front end.** `ExpressionGrammar` is the grammar as trees of tokens with their meanings, `Expressions` the parser as
functions on token lists, and `ExpressionParser` the parser over a stream that it consumes and puts back.
`GrammarComplete` and `GrammarSound` prove that the parser reads exactly the grammar, `ExpressionRoundTrip` that it
inverts rendering. `TypeKeys` (with `Decimals`) is the textual key of a type.

**Event loop.** `EventQueues` is one queue of commands and futures, `EventLoop` the program, five queues and the
polling around them.

## What the code does and does not guarantee

- A caller gets its registers, stack size and links back. The bytes of its frame change through addresses only
  (`FrameBytes.CallKeepsBytes`), and not at all if the callee and all it reaches write through none
  (`FrameBytes.TameCallKeepsFrames`); `EscapedAddress.CalleeChangesCaller` is a program where they do.
- `AlignInBytes` of an empty field is 0 and `AlignUp(v, 0)` is 0, so a field after an empty one starts again at 0
  (`StructLayout.EmptyFieldOverlaps`). `FieldsApartExactly` gives the exact condition.
- A nested struct is aligned to its size up to 8, not to its most aligned field
  (`StructLayout.NestedStructDiffers`), and struct classification walks a nested struct at its size rather than
  at its offset (`ForeignCalls.NestedWalkDiffers`). It also takes every nested struct for integers
  (`ForeignCalls.NestedFloatDiffers`); `PlacedAsInCExactly`, `WalkedRightExactly` and `NestedKindExactly` give the
  exact conditions.
- The offset of an eightbyte is kept in a byte, so structs of more than 256 bytes passed in memory repeat their
  beginning. Stack arguments that need 16-byte alignment do not get it
  (`ForeignSignatures.SeventhIntegerMisplaces`). An empty struct as a result is taken for one in memory, so the
  arguments start in the second register (`EmptyResultShifts`). `MovesMatchAbi` gives the exact condition.
- A 128-bit immediate used as an operand is sign-extended (`OpcodeSelection.WideOperandExact`), and a 128-bit
  parameter of an entry point keeps old stack bytes in its upper half (`Evaluation.WideParamHalf`).
- An evaluation that hits the stack limit leaves the arguments of the failed call pending: the next evaluation passes
  them on with its first call, and takes them for its own 128-bit parameters (`Evaluation.EvalCorrect`). Return links
  that it leaves do no harm (`Interpreter.DoEvalRaw`).
- A symbol with a tab does not survive the cache's map file (`CacheText.TabbedSymbolLost`).
- The comment above the composer's interface says that the composed program has no `use` statements left; the code
  keeps the first one of each name, and the model follows the code.
- Deleting symbols adds position and count in 64 bits; if the sum does not fit, nothing is deleted
  (`ManagedStrings.HugeCountDeletesNothing`, `DeletedRangeExact`).
- Names and values are put into type keys as they are, so two types can share a key; `TypeKeys.KeysTellApartExactly` gives
  the exact set of characters that must be kept out.
- A null string compares below the empty string (`Utf8Search.StrCompareIsBelow`).

## Assumptions

The IR that reaches the compiler has distinct labels, at most one storage slot per temporary, arguments that are
locals, and wide immediates below 2^63; reading an undefined temporary or a byte outside the live variables makes
the IR stuck, and nothing is claimed for a program that can get stuck. File operations may fail at any point, but a
rename is atomic and the lock excludes. Text is well-formed UTF-8 without zero bytes. Positions
passed by a Qumir program are arbitrary 64-bit integers, 32-bit ones where a string is sliced or one symbol is read,
and their sums wrap around, which C++ leaves undefined.

## Model

| member | source | states |
|---|---|---|
| CompilerCorrectness.RunSimulation | qumir/ir/vmcompiler.cpp:154-738 | for every number of steps: if the IR cannot get stuck, the bytecode machine does not crash and, unless the stack limit is hit, makes the same steps with the same variables, temporaries, branches and results, across calls of any depth |
| CompilerCorrectness.StepSimulation | qumir/ir/vmcompiler.cpp:293-738 | one bytecode instruction for one IR instruction: related states step to related states, the IR's objects being placed where the compiled frame has them |
| CompilerCorrectness.Fetch | qumir/ir/vmcompiler.cpp:732-738 | the program counter of a related state stands at the translation of the IR's current instruction |
| Evaluation.EvalCorrect | qumir/ir/eval.cpp:174-218 | a whole evaluation of any entry point, with whatever earlier evaluations left in registers, stack and pending arguments, aborted ones included: no crash, and the result is the low word of the IR's |
| Evaluation.StartRelated | qumir/ir/eval.cpp:174-218 | the runtime's set-up is the IR's set-up: leftover registers are invisible, leftover stack bytes are the unset variables, and leftover arguments are pending on both sides |
| Evaluation.WideParamHalf | qumir/ir/eval.cpp:214-215 | of a 128-bit entry parameter only the low half is written: the upper one keeps what the stack held |
| Evaluation.CopyEntry | qumir/ir/eval.cpp:200-218 | for all parameters together, on any old stack and with any leftover arguments: the set-up leaves what a call with the entry values would leave |
| Evaluation.FreshEntry | qumir/ir/eval.cpp:200-218 | when no arguments are left over, no parameter disturbs another: each 128-bit one is its word below the old bytes of its own upper half |
| Evaluation.ParamBoundExactly | qumir/ir/eval.cpp:200-218 | an entry parameter gets the word that was passed, on every old stack, if and only if it is not 128 bits wide |
| CallingConvention.CallRestoresCaller | qumir/ir/eval.cpp:794-914 | from the call over any number of deeper steps back to the caller: code position, both register files except the destination, stack size, return links and all save areas below are as before |
| FrameBytes.CallKeepsBytes | qumir/ir/eval.cpp:794-914 | all of that, and every byte of the caller's frame and of all frames below becomes what the writes through an address in between make of it, so without one it is as before; the slot of a struct result is the one exception |
| FrameBytes.TameCallKeepsFrames | qumir/ir/eval.cpp:794-914 | what a caller can check: if the callee and everything it can reach write through no address, all those bytes are as before |
| FrameBytes.StepBytes | qumir/ir/eval.cpp:248-920 | a step that writes through no address changes bytes of its own frame only, a call changes none below, a return at most the slot of the result |
| EscapedAddress.CalleeChangesCaller | qumir/ir/eval.cpp:281-292 | a compiled program of two functions whose callee stores through an address that it was passed: the variable of the caller is another after the call |
| CallingConvention.StepKinds | qumir/ir/eval.cpp:248-920 | every step of a run stays in its frame, enters one callee above a spilled caller, or returns one level and reloads; in each case no save area further down changes |
| CallingConvention.WaitingRun | qumir/ir/eval.cpp:794-914 | however deep the run goes in between, the caller's saved state is still what it spilled when the run comes back |
| SimEffects.EffectSim | qumir/ir/vmcompiler.cpp:293-729 | every translated instruction has the effect of its IR instruction: same register, bytes, slot, branch target, argument, callee or result |
| SimEffects.MemorySim | qumir/ir/vmcompiler.cpp:327-731 | the memory instructions, by the type of the operand or of the destination, read and write the same bytes at the same addresses |
| SimEffects.ControlSim | qumir/ir/vmcompiler.cpp:557-691 | jumps go to the code of the labelled block; arguments, calls and returns pass the same values |
| SimValues.ValueSim | qumir/ir/vmcompiler.cpp:362-619 | arithmetic, comparisons, conversions and moves compute the same value in the register file that the types call for |
| OpcodeSelection.Arith64 | qumir/ir/vmcompiler.cpp:362-463 | the signed, unsigned and bitwise opcode selected by type computes the IR operation on 64-bit words |
| OpcodeSelection.Arith128 | qumir/ir/vmcompiler.cpp:362-463 | the same for 128-bit words |
| OpcodeSelection.Compare64 | qumir/ir/vmcompiler.cpp:464-529 | the selected comparison compares the numbers that the operands mean, signed or unsigned by the left type |
| OpcodeSelection.Compare128 | qumir/ir/vmcompiler.cpp:262-292 | the same when either operand is 128 bits wide |
| OpcodeSelection.UnaryOnQuad | qumir/ir/vmcompiler.cpp:530-619 | negation, not, moves, casts and conversions from wide operands, by source and destination type |
| OpcodeSelection.MovImmediate | qumir/ir/vmcompiler.cpp:567-589 | an immediate is widened by the type of the destination register |
| OpcodeSelection.WideOperandExact | qumir/ir/eval.cpp:45-60 | a wide immediate used as an operand has the literal's value exactly when the low half is below 2^63 |
| FrameLayout.FrameLayoutSound | qumir/ir/vmcompiler.cpp:174-211 | locals, struct temporaries and reserved areas of a frame are pairwise disjoint and inside the frame, padding to full words counted |
| FrameLayout.ObjectInside | qumir/ir/vmcompiler.cpp:174-211 | each object starts at a multiple of 8 and ends, padding included, inside the frame |
| FrameLayout.ScalarAccessInside | qumir/ir/eval.cpp:326-365 | a full 8- or 16-byte access to a scalar stays inside its own padded slot exactly when the scalar has a size |
| FrameLayout.StoreStaysInVariable | qumir/ir/eval.cpp:347-365 | assigning to one variable changes no byte of any other object of the frame |
| FrameLayout.SlotOffsetAt | qumir/ir/vmcompiler.cpp:183-208 | the offset recorded for a temporary is that of its own object, whatever later instructions record |
| FrameLayout.FlattenAt | qumir/ir/vmcompiler.cpp:162-171 | instruction i of block b is at the block's start plus i in the flat code |
| FrameLayout.LabelPc | qumir/ir/vmcompiler.cpp:160-171 | the label map sends every label to the start of its block |
| CompileMethod.CompileUltraLow | qumir/ir/vmcompiler.cpp:154-738 | the compiler's loops produce the code, label map, frame layout and register counts that the theorems above are about, and fail where those do |
| CompileMethod.EmitCode | qumir/ir/vmcompiler.cpp:732-738 | the placeholders are filled block by block with the translation of the flattened code |
| SimCalls.SpillReload | qumir/ir/eval.cpp:810-820 | reloading both register files from the bytes that a call spilled gives every register back |
| SimCalls.InvokeSim | qumir/ir/eval.cpp:794-848 | a call that does not overflow enters the callee as the IR does: fresh zeroed variables, arguments bound, nothing below changed |
| SimCalls.BindArgsSim | qumir/ir/eval.cpp:200-218 | arguments are copied as the IR binds them: structs by content, wide scalars in full, others as words |
| SimReturns.ReturnValueSim | qumir/ir/eval.cpp:865-914 | a return with a value delivers it to the same destination on both sides and resumes the caller |
| SimReturns.ReturnVoidSim | qumir/ir/eval.cpp:869-914 | a return without a value resumes the caller and leaves all its temporaries |
| SimReturns.DeliverStruct | qumir/ir/eval.cpp:222-246 | a struct result is copied out of the dying frame into the caller's own slot, and only there |
| Simulation.WriteSim | qumir/ir/eval.cpp:281-292 | a store through an address that the IR may use hits the same bytes and no save area |
| Simulation.BelowTop | qumir/ir/eval.cpp:797-820 | bytes owned by suspended frames are below the running frame and outside every save area |
| Simulation.GlobalSim | qumir/ir/eval.cpp:347-365 | the global slots keep the same words on both sides while their array grows |
| Interpreter.Interpreter.CopyArgsToFrame | qumir/ir/eval.cpp:200-216 | the copying loop writes what the argument-passing theorems assume |
| Interpreter.Interpreter.MaterializeStructTmp | qumir/ir/eval.cpp:222-246 | the struct of a result is copied into the slot of the destination, or the slot is cleared when there is no source, or nothing happens |
| Interpreter.Interpreter.Call | qumir/ir/eval.cpp:794-848 | new registers, stack, frames, links and argument lists of a call, or the stack limit, at which the arguments stay pending |
| Interpreter.Interpreter.ReloadRegs | qumir/ir/eval.cpp:886-896 | whatever two register files a call spilled below the frame that returned are in the files again, and the stack is as it was before the spill |
| Interpreter.Interpreter.Ret | qumir/ir/eval.cpp:865-914 | the whole state after a return: struct delivered, frame cut, registers reloaded, destination set; or the end of the run |
| Interpreter.Interpreter.StepOnce | qumir/ir/eval.cpp:248-254 | one turn of the loop over the mutable state is one step of the machine in the theorems |
| Interpreter.Interpreter.DoEvalRaw | qumir/ir/eval.cpp:174-920 | set-up and loop together are the evaluation that EvalCorrect speaks of, leftovers included; with a wrong number of arguments it ends without a value; return links of an aborted evaluation are never used and are there at the end |
| Words.BytesRoundTrip | qumir/ir/eval.cpp:270-325 | storing a number in bytes and reading it back gives the number, at every width |
| Words.SignIrrelevant | qumir/ir/vmcompiler.cpp:279-292 | additions, subtractions and products of words do not depend on signedness |
| Words.UnsignedDivision | qumir/ir/eval.cpp:421-436 | on non-negative operands the signed and the unsigned division agree |
| OpcodeLaws.Sums64 | qumir/ir/eval.cpp:368-415 | sums, products and negatives are those of the integers up to multiples of 2^64, and a difference is the word that added to the subtrahend gives the minuend |
| OpcodeLaws.Sums128 | qumir/ir/eval.cpp:578-600 | the same up to multiples of 2^128 |
| OpcodeLaws.Division64 | qumir/ir/eval.cpp:421-436 | signed: there is a result unless the divisor is 0 or the lowest number is divided by -1; dividend = divisor * quotient + remainder, the remainder is smaller than the divisor and has the sign of the dividend; unsigned: the same without signs |
| OpcodeLaws.Division128 | qumir/ir/eval.cpp:599-610 | the same at 128 bits |
| OpcodeLaws.Shifts64 | qumir/ir/eval.cpp:454-475 | by the count modulo 64: to the left a multiplication by a power of two, to the right the division by it rounded down, of the signed or of the unsigned number |
| OpcodeLaws.Shifts128 | qumir/ir/eval.cpp:622-639 | the same modulo 128 |
| OpcodeLaws.Bits64 | qumir/ir/eval.cpp:442-453 | bit i of and, or, exclusive or and complement, from bit i of the operands |
| OpcodeLaws.Bits128 | qumir/ir/eval.cpp:581-621 | the same for 128 bits |
| OpcodeLaws.Comparisons64 | qumir/ir/eval.cpp:476-545 | 1 if the integers that the words stand for, or the words, are in that relation, else 0 |
| OpcodeLaws.Comparisons128 | qumir/ir/eval.cpp:640-669 | the same for 128-bit words |
| OpcodeLaws.Extensions | qumir/ir/eval.cpp:672-690 | sign extension keeps the integer, zero extension the word, truncation the low half |
| OpcodeLaws.OpcodeByType | qumir/ir/vmcompiler.cpp:362-463 | division, remainder and right shift are unsigned, wide or floating exactly for these types, listed one by one |
| OpcodeLaws.ComparisonByTypes | qumir/ir/vmcompiler.cpp:464-529 | a comparison is floating if either operand is, wide if either is, and unsigned exactly for the listed types on the left |
| OpcodeLaws.MoveByTypes | qumir/ir/vmcompiler.cpp:567-589 | a word moved to a wide register keeps the number that it means at its own type, a constant at the new one |
| OpcodeLaws.ConversionByTypes | qumir/ir/vmcompiler.cpp:590-619 | a wide integer is converted with the sign of its type |
| OpcodeLaws.WidthByTypes | qumir/ir/vmcompiler.cpp:530-566 | negation and complement work at the width of the result, not at that of the operand |
| ValueLaws.ArithMeaning | qumir/ir/eval.cpp:390-475 | an instruction with two operands computes that relation between its left operand, its right operand and the result, at the width and sign of the destination's type: sums, quotients with remainders, shifts and bits as in the laws of the opcodes |
| ValueLaws.CompareMeaning | qumir/ir/eval.cpp:476-545 | a comparison tells how the numbers relate that left and right operand are at the type of the left one |
| ValueLaws.UnaryOnWord | qumir/ir/eval.cpp:368-389 | negation, not, complement, moves, conversions and casts of a word, at every pair of types |
| ValueLaws.UnaryOnQuad | qumir/ir/eval.cpp:578-588 | the same of a 128-bit word |
| ValueLaws.MovedConstant | qumir/ir/vmcompiler.cpp:567-589 | a moved constant has its value at the type of the destination |
| ValueLaws.OperandReads | qumir/ir/eval.cpp:45-60 | a temporary reads as its value, a constant as a word that stands for it |
| ValueLaws.MemoryOperands | qumir/ir/vmcompiler.cpp:327-361 | which operand of the memory instructions is the target and which the source |
| ValueLaws.ValueOperands | qumir/ir/vmcompiler.cpp:362-619 | operations assign to their destination what the first and the second operand give, at the types of destination and operands |
| ValueLaws.ReservationMeaning | qumir/ir/eval.cpp:270-280 | a reservation clears the temporary's own storage and gives its address |
| ValueLaws.ControlOperands | qumir/ir/vmcompiler.cpp:620-691 | jumps, branches, arguments, calls and returns by their operands |
| ValueLaws.Applied | qumir/ir/eval.cpp:744-774 | an assignment changes its temporary only, a jump the position only, an argument goes behind all others |
| CompilableCode.IntArithDefined | qumir/ir/eval.cpp:390-475 | of any two words each operation has a value, but for a division by 0 or of the lowest number by -1 |
| CompilableCode.ArithDefined | qumir/ir/eval.cpp:390-475 | at each type: floats are added, subtracted, multiplied and divided; integers have a value unless the division is a bad one |
| CompilableCode.MeaningCompiles | qumir/ir/vmcompiler.cpp:293-731 | every instruction that has a meaning in some state is compiled, if its labels exist and the types that select its opcode are known |
| CompilableCode.FunctionCompiles | qumir/ir/vmcompiler.cpp:732-738 | a function is compiled if and only if each of its instructions is |
| CompilableCode.LastRegister | qumir/ir/vmcompiler.cpp:160-171 | there are registers up to the greatest destination and no further |
| CompilableCode.LastWideRegister | qumir/ir/vmcompiler.cpp:183-190 | there are wide registers up to the last 128-bit temporary, none without one |
| CompilableCode.OverflowsExactly | qumir/ir/eval.cpp:807-823 | a call overflows if and only if the caller's registers and the callee's frame do not fit into 128 MB |
| CompilableCode.OnlyCallsOverflow | qumir/ir/eval.cpp:248-920 | no other instruction overflows |
| IrLaws.VariableHolds | qumir/ir/eval.cpp:326-365 | a variable has the value that was assigned to it last |
| IrLaws.WideVariableHolds | qumir/ir/eval.cpp:326-365 | so has a 128-bit one, in full |
| IrLaws.StructVariableHolds | qumir/ir/eval.cpp:255-262 | a struct variable has the bytes of the struct assigned to it |
| IrLaws.OtherVariablesKeep | qumir/ir/eval.cpp:347-365 | the other objects of the activation keep every byte |
| IrLaws.PointerReadsBack | qumir/ir/eval.cpp:281-305 | a pointer reads back what was stored through it, cut to the size of its type, or of the value's where the pointer's is not known |
| IrLaws.WidePointerReadsBack | qumir/ir/eval.cpp:281-305 | 128-bit values in full |
| IrLaws.GlobalHolds | qumir/ir/eval.cpp:326-365 | a global has the value stored last, others keep theirs, and those in between begin at 0 |
| IrLaws.CopyArrives | qumir/ir/eval.cpp:263-269 | a copy leaves at its destination what was at its source |
| IrLaws.AddressOfVariable | qumir/ir/eval.cpp:306-325 | a pointer to a variable reads the variable |
| IrLaws.SlotsExactly | qumir/ir/vmcompiler.cpp:174-211 | storage of its own have exactly the temporaries of struct types, in their size, and the destinations of reservations |
| IrLaws.BranchGoes | qumir/ir/eval.cpp:755-767 | a branch goes to the first block with the label that the condition picks, and nowhere if there is none |
| IrLaws.ParamsHold | qumir/ir/eval.cpp:794-848 | a call starts its callee at the first instruction, each parameter holds the argument of its position, struct arguments by content, and what was alive before is unchanged |
| IrLaws.OthersStartZero | qumir/ir/eval.cpp:822-848 | variables that are no parameters start at zero |
| IrLaws.ReturnDelivers | qumir/ir/eval.cpp:865-914 | a return gives the destination the value, or its storage the bytes of the struct, takes the objects of the callee away and changes nothing else |
| IrLaws.ImageDigit | qumir/ir/eval.cpp:281-292 | byte i of a stored number is its digit of weight 256^i |
| SimReturns.LowWordIsLow | qumir/ir/eval.cpp:860-868 | the word of a wide result is its low half |
| Types.AlignUpIsLeastMultiple | qumir/align.h:5-7 | the bit trick gives the least multiple of a power of two that is not below the value |
| Types.ComputeSizeInBytes | qumir/ir/type.cpp:373-415 | the loop over the fields computes the recursive size |
| Types.ComputeFieldOffset | qumir/ir/type.cpp:426-439 | the loop up to a field computes the offset that the layout theorems are about, also past the last field |
| StructLayout.FieldsApartExactly | qumir/ir/type.cpp:373-439 | for all structs, nested ones included: field intervals are ordered, disjoint and inside the struct if and only if no empty field comes after one that takes space |
| StructLayout.EmptyFieldOverlaps | qumir/ir/type.cpp:417-439 | a struct where it fails: a field after an empty one starts again at offset 0 |
| StructLayout.OffsetsMatchAbi | qumir/ir/type.cpp:373-439 | section 3.1.2 of the System V AMD64 ABI: every offset is the least aligned one, and the size is the C size and a multiple of the alignment, for structs whose nested structs have their C alignment |
| StructLayout.PlacedAsInCExactly | qumir/ir/type.cpp:417-439 | a struct of C size is placed as in C behind any number of bytes if and only if its alignment, taken from its size, is that of its most aligned field |
| StructLayout.ScalarFieldsAreCLike | qumir/ir/type.cpp:417-424 | structs of scalars always meet that condition |
| StructLayout.NestedStructDiffers | qumir/ir/type.cpp:417-424 | a nested struct where it fails: C puts it at 4, this layout at 8 |
| ForeignCalls.ClassifyStruct | qumir/ir/vmcompiler.cpp:36-69 | the loop finds, per eightbyte, whether all fields touching it are floating point |
| ForeignCalls.WalkMatchesLayout | qumir/ir/vmcompiler.cpp:42-48 | the classification meets every field at the offset of the layout, where fields are aligned to their own size |
| ForeignCalls.WalkedRightExactly | qumir/ir/vmcompiler.cpp:42-48 | a field is found behind any number of bytes if and only if it is aligned to its own size, a power of two |
| ForeignCalls.NestedWalkDiffers | qumir/ir/vmcompiler.cpp:42-48 | a nested struct where it does not: looked for at 3, laid out at 1 |
| ForeignCalls.KindMatchesAbi | qumir/ir/vmcompiler.cpp:36-69 | section 3.2.3, for every struct laid out as in C, nested ones included: memory beyond two eightbytes, or for an empty struct; else one class per eightbyte, all of them what merging the classes of the scalars gives if and only if every eightbyte with a part of a nested struct has an integer |
| ForeignCalls.NestedKindExactly | qumir/ir/vmcompiler.cpp:36-69 | the same for the kind as a whole: it is the ABI's if and only if no floating-point eightbyte holds a part of a nested struct |
| ForeignCalls.NestedFloatDiffers | qumir/ir/vmcompiler.cpp:48-53 | a struct around a struct around a double, passed as an integer |
| ArgumentPassing.DestinationsConsecutive | qumir/ir/ffi.cpp:345-445 | in each register file and on the stack, destinations are consecutive in argument order from the first free one, so none is shared and stack slots have no gaps |
| ArgumentPassing.AllOrNothing | qumir/ir/ffi.cpp:376-410 | a struct is passed all in registers or all on the stack, every eightbyte once |
| FfiThunk.MoveBuilder.PlaceStruct | qumir/ir/ffi.cpp:376-410 | counting the needed registers first and then placing each eightbyte gives what taking one register after another gives: all or none |
| FfiThunk.MoveBuilder.PlaceMemory | qumir/ir/ffi.cpp:436-445 | a struct in memory class takes one stack slot per eight bytes, in order |
| FfiThunk.BuildFFI | qumir/ir/ffi.cpp:329-506 | a thunk exists exactly for passable arguments, at most the supported stack slots and a returnable result, and its moves are the assignment with each field cut to a byte |
| FfiThunk.ResultMatchesAbi | qumir/ir/ffi.cpp:460-500 | a struct result is read from the registers in which the ABI returns its classes |
| FfiCorrectness.FieldsHoldMoves | qumir/ir/ffi.cpp:428-445 | the 8-bit fields hold all moves if and only if no struct in memory class is larger than 256 bytes |
| ForeignSignatures.ArgAgrees | qumir/ir/vmcompiler.cpp:79-86 | for every type that can be passed, nested structs included, the words that the code passes are the ABI's, and so are the classes if and only if no floating-point eightbyte holds a part of a nested struct |
| ForeignSignatures.MovesMatchAbi | qumir/ir/ffi.cpp:345-445 | section 3.2.3, stack alignment included: for every signature of integers, pointers, doubles and structs laid out as in C, the moves and the hidden address are the ABI's if and only if no struct in memory is larger than 256 bytes, no argument that needs 16-byte alignment reaches the stack at an odd slot, no misclassified nested struct finds registers, and the result is not an empty struct |
| ForeignSignatures.RegsAgree | qumir/ir/ffi.cpp:345-445 | the ABI's registers, by counting how many of each class are needed and free, are those that taking one after another gives |
| ForeignSignatures.SeventhIntegerMisplaces | qumir/ir/ffi.cpp:436-445 | seven integers before a struct of two 128-bit integers: slot 1 instead of 2 |
| ForeignSignatures.NestedFloatMisclassed | qumir/ir/vmcompiler.cpp:48-53 | a struct around a struct around a double: the first general register instead of the first vector register |
| ForeignSignatures.EmptyResultShifts | qumir/ir/ffi.cpp:342-351 | an empty struct as the result of any signature that begins with an integer: the second register instead of the first |
| ForeignSignatures.CreateThunk | qumir/ir/vmcompiler.cpp:89-128 | classifying the signature type by type and building the thunk, from types |
| ForeignSignatures.PassArguments | qumir/ir/ffi.cpp:230-263 | from types and values to registers: under that condition every word of every argument is where the ABI wants it; a hidden address is in the first register, and a struct result in registers is read from the ABI's if and only if its classes are right |
| ForeignSignatures.TakeResult | qumir/ir/ffi.cpp:263-290 | the result mode decides: nothing, the general register, the vector register, or the words of the listed registers, of which exactly the copied bytes are written to the hidden address |
| ForeignSignatures.ScalarResult | qumir/ir/ffi.cpp:455-460 | a scalar result is taken from the register in which the ABI returns it |
| ForeignSignatures.ScalarsExactly | qumir/ir/ffi.cpp:201-216 | what can be passed and returned, besides structs: exactly pointers, integers of up to eight bytes and doubles |
| ForeignSignatures.ReturnStruct | qumir/ir/ffi.cpp:460-500 | a struct in registers is written with the words of the registers in which the ABI returns its classes, as many bytes as the struct has |
| FfiCorrectness.MovesSeparate | qumir/ir/ffi.cpp:345-445 | no two moves share a destination, all destinations exist, and none is the register of a hidden result address |
| FfiCorrectness.CallFrame.Load | qumir/ir/ffi.cpp:230-263 | after the move loop every destination holds its word, and a hidden address is in the first register |
| CacheText.MetaRoundTrip | qumir/codegen/llvm/symbol_object_cache.cpp:60-90 | reading a written map in any order of its entries gives the map if and only if no symbol holds a tab or newline and no file name a newline |
| CacheText.TabbedSymbolLost | qumir/codegen/llvm/symbol_object_cache.cpp:60-90 | a symbol with a tab comes back as another symbol |
| CacheText.ReadMeta | qumir/codegen/llvm/symbol_object_cache.cpp:60-72 | the reading loop, line by line, first mapping of a symbol wins |
| CacheText.FirstLineCounts | qumir/codegen/llvm/symbol_object_cache.cpp:60-72 | what a metadata text means: a symbol has a file if and only if the first line that is the symbol, a tab and a file says so |
| CacheText.ScannedVersion | qumir/codegen/llvm/symbol_object_cache.cpp:92-101 | the number of a file name is read past spaces and a sign, whatever follows the digits |
| CacheText.NextIncVer | qumir/codegen/llvm/symbol_object_cache.cpp:92-101 | the next number is above that of every numbered file in the map |
| CacheText.NextNameIsFresh | qumir/codegen/llvm/symbol_object_cache.cpp:92-101 | a new object never takes the name of a mapped one |
| CacheText.VersionRoundTrip | qumir/codegen/llvm/symbol_object_cache.cpp:92-101 | the number of a file name is read back as it was written |
| CacheProtocol.StepKeepsInv | qumir/codegen/llvm/symbol_object_cache.cpp:128-212 | the protocol invariant survives every step of every process, failures and death between any two steps included |
| CacheProgress.LockReturns | qumir/codegen/llvm/symbol_object_cache.cpp:24-54 | whoever holds the directory lock, in any phase, can come to an end by steps of its own, after which the lock is free and the map as before |
| CacheProgress.OpenCompletes | qumir/codegen/llvm/symbol_object_cache.cpp:128-140 | an undisturbed opening ends with the map on disk as the process's memory and changes nothing else |
| CacheProgress.RegistrationCompletes | qumir/codegen/llvm/symbol_object_cache.cpp:166-212 | an undisturbed registration ends: with the map taken over if a symbol is there, else with all symbols mapped to a new object of the next number, no temporary and a free lock |
| CacheRuns.MappedForever | qumir/codegen/llvm/symbol_object_cache.cpp:128-212 | over any run the map on disk only grows and never remaps a symbol, and every mapped object keeps its contents |
| CacheRuns.StepKeepsMapped | qumir/codegen/llvm/symbol_object_cache.cpp:166-212 | no single step touches a mapped object or lets a process's memory run backwards |
| CacheRuns.TraceInv | qumir/codegen/llvm/symbol_object_cache.cpp:128-212 | in every state of every run the memory of each process is a sub-map of the disk map and each mapped object defines exactly its symbols |
| CacheRuns.ResultsHold | qumir/codegen/llvm/symbol_object_cache.cpp:166-212 | what finished registrations reported is and stays true: installed means mapped to one's own object, already present means another holds one of the symbols |
| CacheRuns.StepKeepsResults | qumir/codegen/llvm/symbol_object_cache.cpp:166-212 | each step keeps the earlier reports true and adds only true ones |
| CacheRuns.Resolve | qumir/codegen/llvm/symbol_object_cache.cpp:146-164 | the loop with its seen-sets returns the hit files and the misses in order of first occurrence |
| CacheRuns.ResolvedSets | qumir/codegen/llvm/symbol_object_cache.cpp:146-164 | hits and misses have no duplicates, hits are exactly the files of required known symbols, misses exactly the unknown ones |
| CacheRuns.MissOrder | qumir/codegen/llvm/symbol_object_cache.cpp:146-164 | misses come in the order in which the symbols are first asked for |
| CacheRuns.FileOrder | qumir/codegen/llvm/symbol_object_cache.cpp:146-164 | hit files come in the order in which one of their symbols is first asked for |
| CacheRuns.PlanDefinesOnce | qumir/runner/runner_llvm.cpp:583-632 | hit objects and compiled misses define no symbol twice and each required one once, also after the disk has moved on |
| CacheRuns.LinkPlanHolds | qumir/runner/runner_llvm.cpp:583-632 | a plan resolved at one moment of a run links at every later one, whatever other processes registered |
| SymbolObjectCache.SymbolObjectCache.Open | qumir/codegen/llvm/symbol_object_cache.cpp:128-140 | with the lock, the memory is the map on disk after whatever others did until then; without it there is no cache |
| SymbolObjectCache.SymbolObjectCache.InstallObject | qumir/codegen/llvm/symbol_object_cache.cpp:183-199 | succeeds if and only if the temporary can be created and the object written and renamed; the object appears under its final name with all its contents or not at all, and no temporary stays |
| SymbolObjectCache.SymbolObjectCache.InstallMeta | qumir/codegen/llvm/symbol_object_cache.cpp:74-90 | succeeds if and only if the file can be written and renamed; the map on disk is replaced as a whole or stays |
| SymbolObjectCache.SymbolObjectCache.Install | qumir/codegen/llvm/symbol_object_cache.cpp:183-211 | object and map together: succeeds if and only if no file operation fails, and a failure leaves the map as it was |
| SymbolObjectCache.SymbolObjectCache.Register | qumir/codegen/llvm/symbol_object_cache.cpp:166-212 | reports another's exactly if the lock is granted and a provided symbol is in the map by then, success exactly if the lock is granted, none is there and no file operation fails, and failure otherwise; all provided symbols are mapped to the new object or none, memory is the disk map unless it failed, and a failed object is removed if that works |
| KernelLinking.RegisterMisses | qumir/runner/runner_llvm.cpp:587-612 | succeeds if and only if each miss in turn generates exactly itself and its registration does not fail; then there is one compiled object for each miss, in order, and nothing mapped was lost |
| KernelLinking.PrepareFusedKernelsCached | qumir/runner/runner_llvm.cpp:564-644 | succeeds if and only if the cache opens, each miss generates itself and no registration fails; then hit files and compiled objects link: every required symbol once, none twice, all files there |
| KernelLinking.PlanLinks | qumir/runner/runner_llvm.cpp:583-632 | why: resolving against an older map still gives a linkable plan on any later disk |
| Utf8.DecodeOne | qumir/runtime/string.cpp:159-203 | decoding inverts encoding for every code point, whatever bytes follow |
| Utf8.EncodedBytes | qumir/runtime/string.cpp:183-203 | masks, shifts and tags give the bytes of section 3 of RFC 3629 |
| Utf8.SymbolShape | qumir/runtime/string.cpp:52-63 | exactly the first byte of a symbol counts as its start, and none is zero |
| Utf8.EncodeInjective | qumir/runtime/string.cpp:159-203 | different texts have different bytes |
| Utf8.LeadsAreOffsets | qumir/runtime/string.cpp:52-63 | the start bytes of a text's bytes are the offsets of its symbols |
| Utf8.BuildUtf8Indices | qumir/runtime/string.cpp:52-63 | one pass over the bytes builds the offsets of all symbols and their number |
| Utf8Search.CompareIsLexicographic | qumir/runtime/string.cpp:134-148 | section 1 of RFC 3629: comparing bytes is comparing code points lexicographically |
| Utf8Search.StrCompareIsOrder | qumir/runtime/string.cpp:134-148 | on all strings, the null one included, the comparison is a total order in which only equal strings tie |
| Utf8Search.StrCompareIsBelow | qumir/runtime/string.cpp:134-148 | the whole result: -1, 0 or 1 as the first is below, equal to or above the second, null being below every string and texts ordered by the code points where they first differ |
| Utf8Search.BytesToText | qumir/runtime/string.cpp:205-246 | self-synchronisation: a needle's bytes occur only where its symbols occur |
| Utf8Search.TextToBytes | qumir/runtime/string.cpp:205-246 | where its symbols occur its bytes do |
| Utf8Search.SearchFrom | qumir/runtime/string.cpp:222-246 | a byte search that starts inside a symbol finds the first occurrence at or after the symbol position |
| Utf8Search.StrStr | qumir/runtime/string.cpp:205-220 | one plus the least symbol position of the needle, or 0 |
| Utf8Search.StrStrFrom | qumir/runtime/string.cpp:222-246 | the same at or after a start position, which is clamped to the string |
| Utf8Search.SymbolsBeforeExact | qumir/runtime/string.cpp:222-233 | the search passes over the symbols before the position, clamped to the string, if and only if the position is not the lowest number or the string is empty |
| Utf8Search.ClampIsNearest | qumir/runtime/string.cpp:299-304 | a position outside the string is moved to the nearest end |
| ManagedStrings.DeletedRangeExact | qumir/runtime/string.cpp:257-269 | the right symbols are deleted if and only if the last position fits into 64 bits, or nothing is to be deleted anyway |
| ManagedStrings.HugeCountDeletesNothing | qumir/runtime/string.cpp:263-269 | an input for which it does not |
| ManagedStrings.SliceHolds | qumir/runtime/string.cpp:65-87 | symbol k is in a slice if and only if start <= k <= end, in order and with nothing else |
| ManagedStrings.IdealRangeHolds | qumir/runtime/string.cpp:248-269 | symbol k is deleted if and only if it is one of count symbols from the start on |
| ManagedStrings.InsertHolds | qumir/runtime/string.cpp:288-320 | symbols before the position stay, those from it on move behind the inserted ones, which are there in order; positions outside the text are its ends |
| ManagedStrings.DeleteUndoesInsert | qumir/runtime/string.cpp:248-319 | deleting what was inserted restores the text, for every position with the clamping of the code |
| ManagedStrings.InsertUndoesDelete | qumir/runtime/string.cpp:248-319 | inserting a deleted slice restores the text |
| ManagedStrings.ReplaceIsDeleteInsert | qumir/runtime/string.cpp:375-423 | replacing a symbol is deleting it and inserting the new one; at a position outside the string nothing is replaced |
| ManagedStrings.DeletedBytes | qumir/runtime/string.cpp:270-282 | cutting bytes at two indexed offsets cuts symbols |
| ManagedStrings.InsertedBytes | qumir/runtime/string.cpp:306-315 | splicing bytes at an indexed offset splices symbols |
| ManagedStrings.ReplacedBytes | qumir/runtime/string.cpp:395-422 | overwriting the bytes of one symbol replaces that symbol only |
| ManagedStrings.SameOffsets | qumir/runtime/string.cpp:395-400 | after an in-place replacement of equal length the index is still right |
| ManagedStrings.StringRuntime.Retain | qumir/runtime/string.cpp:104-108 | one more owner, nothing else |
| ManagedStrings.StringRuntime.Release | qumir/runtime/string.cpp:110-118 | one owner less; the string dies with its last owner and not before |
| ManagedStrings.StringRuntime.EnsureIndex | qumir/runtime/string.cpp:52-63 | after the lazy build the index is what a rebuild gives and no text has changed |
| ManagedStrings.StringRuntime.Slice | qumir/runtime/string.cpp:65-87 | a new string of the symbols in the clamped range, or null |
| ManagedStrings.StringRuntime.SymbolAt | qumir/runtime/string.cpp:89-102 | the code point at a position, or -1 |
| ManagedStrings.StringRuntime.Len | qumir/runtime/string.cpp:150-157 | the number of symbols |
| ManagedStrings.StringRuntime.Concat | qumir/runtime/string.cpp:120-132 | a new string of both texts, null counting as empty |
| ManagedStrings.StringRuntime.DeleteSymbols | qumir/runtime/string.cpp:248-286 | the variable holds a new string without the symbols, its old one has an owner less, others keep theirs |
| ManagedStrings.StringRuntime.InsertSymbols | qumir/runtime/string.cpp:288-320 | the variable holds a new string with the text inserted, also when it is inserted into itself |
| ManagedStrings.StringRuntime.ReplaceSym | qumir/runtime/string.cpp:375-423 | the result has the symbol replaced and is the argument or a new string; no string changes but the argument, and that only if it has a single owner |
| ManagedStrings.StringRuntime.AssignFromStr | qumir/runtime/string.cpp:450-456 | assigning a borrowed string to its own variable keeps it alive; owners are counted right in every case |
| SourceModules.CollectInterface | qumir/frontend/source_module_loader.cpp:88-114 | admits a module exactly when all its statements are of the handled kinds, and lists its uses and exports; a module is among the dependencies if and only if some statement uses it |
| SourceModules.UsesExactly | qumir/frontend/source_module_loader.cpp:94-97 | a name is among the dependencies if and only if some statement uses it |
| SourceModules.InterfaceAt | qumir/frontend/source_module_loader.cpp:94-112 | in order and with repetitions: the n-th use is the n-th dependency, the n-th other statement the n-th export, with its name and kind |
| SourceModules.SoundStep | qumir/frontend/source_module_loader.cpp:188-287 | a name is sound (everything reachable valid and acyclic) if and only if it is valid and all it uses is sound |
| SourceModules.Circle | qumir/frontend/source_module_loader.cpp:188-204 | a module met again on the load stack is not sound |
| SourceModuleLoader.SourceModuleLoader.Load | qumir/frontend/source_module_loader.cpp:188-226 | terminates, and succeeds exactly when everything reachable through uses is valid and acyclic, whatever was loaded before; an error names its cause; the stack is restored, and the modules completed are exactly the ones a depth-first walk over the uses completes, in that order |
| SourceModuleLoader.SourceModuleLoader.LoadAst | qumir/frontend/source_module_loader.cpp:228-287 | the same for a parsed file, whose state goes from loading to loaded or failed |
| SourceModuleLoader.SourceModuleLoader.LoadDependencies | qumir/frontend/source_module_loader.cpp:273-281 | the loop over the uses succeeds exactly when all of them are sound, and completes them in order |
| SourceModuleLoader.SourceModuleLoader.ChainFrom | qumir/frontend/source_module_loader.cpp:191-204 | the chain that is reported really is a circle of uses |
| SourceModuleLoader.SourceModuleLoader.TopologicalOrder | qumir/frontend/source_module_loader.cpp:289-296 | completed modules, each once, dependencies before their users |
| Compose.Conservation | qumir/frontend/compose.cpp:121-210 | every type, global and function of every module and of main appears exactly as often as written, and uses once a name |
| Compose.NothingDropped | qumir/frontend/compose.cpp:160-190 | no statement that the interface check admits falls through the grouping |
| Compose.RankPlace | qumir/frontend/compose.cpp:158-197 | each statement has a place of its own in its group |
| Compose.RankOrder | qumir/frontend/compose.cpp:158-197 | places keep the written order, module by module |
| Compose.RankOnto | qumir/frontend/compose.cpp:158-197 | every place in a group is some statement's |
| Compose.UsesOnce | qumir/frontend/compose.cpp:168-176 | each used module name is kept exactly once |
| Compose.MainFunctionsFirst | qumir/frontend/compose.cpp:155-197 | of two functions of the composed program, one of main never comes after one of a module |
| Compose.ComposedOrder | qumir/frontend/compose.cpp:155-197 | types come before globals, globals before functions, functions before other statements, uses before all |
| Compose.ClashExactly | qumir/frontend/compose.cpp:100-110 | a name clashes if and only if two declarations of it stand at different positions and are not both functions that may overload |
| Compose.OverloadsKept | qumir/frontend/compose.cpp:69-78 | functions may share names exactly if some module or main asks for it in a pragma of the language group, which merging keeps |
| Compose.MergeExact | qumir/frontend/compose.cpp:32-67 | merging succeeds if and only if no group has two values, and keeps one pragma a group |
| Compose.CheckConflicts | qumir/frontend/compose.cpp:85-119 | reports a conflict if and only if some name is declared at two positions, other than by functions that may overload |
| Compose.Compose | qumir/frontend/compose.cpp:121-210 | fails exactly on a pragma conflict or a name declared twice and otherwise builds the grouped program |
| LoadCompose.DependencyGlobalsFirst | qumir/frontend/compose.cpp:212-235 | in the composed program a global of a module stands before every global of a module that uses it |
| LoadCompose.LoadAndCompose | qumir/frontend/compose.cpp:212-235 | loading fails exactly when something main needs is not sound, with its cause, and composing exactly on a conflict; otherwise no declaration of any loaded module or of main is lost |
| GrammarSound.ParsesExactly | qumir/parser/parser.cpp:986-1254 | the parser is the grammar: at every level it reads an expression and stops before the rest if and only if the tokens in between are a tree of the grammar of that level with that meaning, and the rest cannot continue it |
| GrammarSound.FailsExactly | qumir/parser/parser.cpp:986-1254 | it fails if and only if no tree of that level begins the tokens |
| GrammarSound.Unambiguous | qumir/parser/parser.cpp:986-1254 | trees that are written the same mean the same |
| GrammarComplete.Complete | qumir/parser/parser.cpp:986-1254 | every tree is read back from its tokens, up to the token that follows |
| GrammarComplete.Spine | qumir/parser/parser.cpp:1134-1180 | the left-associative levels read a left-nested tree of any depth before they look at the rest |
| GrammarSound.ParseSound | qumir/parser/parser.cpp:986-1254 | whatever is read is a tree of the grammar |
| ExpressionRoundTrip.RoundTrip | qumir/parser/parser.cpp:986-1254 | for every expression and every level, parsing its rendering, with parentheses where the level needs them, returns the expression and stops at the token that follows |
| ExpressionRoundTrip.ComparisonChain | qumir/parser/parser.cpp:1182-1228 | a chain of comparisons, of whatever kinds, is read as as many conjuncts as it has operators, the k-th comparing operands k and k + 1 |
| ExpressionGrammar.ChainConjuncts | qumir/parser/parser.cpp:1217-1228 | the conjunction of a chain, taken apart: one comparison for every two neighbours, in order |
| ExpressionRoundTrip.OperatorsAssociateLeft | qumir/parser/parser.cpp:1134-1180 | two operators of one level group to the left |
| ExpressionRoundTrip.NumberSuffix | qumir/parser/parser.cpp:989-1001 | a number before the name of a suffix is the call of the suffix's function on the number |
| ExpressionRoundTrip.PowerAssociatesRight | qumir/parser/parser.cpp:1101-1114 | powers associate to the right |
| ExpressionRoundTrip.SignBeforePower | qumir/parser/parser.cpp:1116-1131 | a sign before a power applies to the power |
| ExpressionParser.ExpressionParser.ParseExpr | qumir/parser/parser.cpp:1252-1254 | the stream-consuming parser reads what the parser of these theorems reads, leaving the same tokens, and fails where it does; it terminates |
| ExpressionParser.ExpressionParser.FactorExpr | qumir/parser/parser.cpp:986-1033 | literals with their suffixes, identifiers and parentheses, with the same errors |
| ExpressionParser.ExpressionParser.CallExpr | qumir/parser/parser.cpp:1040-1093 | the loop over calls, indices and slices |
| ExpressionParser.ExpressionParser.BinaryOpHelper | qumir/parser/parser.cpp:1134-1156 | the loop of the left-associative levels |
| ExpressionParser.ExpressionParser.CompChainExpr | qumir/parser/parser.cpp:1182-1228 | the loop that collects a comparison chain, whose conjuncts ComparisonChain lists |
| ExpressionParser.PairUp | qumir/parser/parser.cpp:1217-1228 | pairing neighbours in a loop gives the conjunction that ChainConjuncts takes apart |
| TypeKeys.BuildKey | qumir/parser/type.h:489-534 | the loops that append arguments, parameters and fields build the recursive key |
| TypeKeys.KeyUnique | qumir/parser/type.h:489-534 | two keys, each followed by something that ends a key, are equal only if the types and what follows are |
| TypeKeys.KeyInjective | qumir/parser/type.h:489-534 | two types with the same key are the same type, when their names and values avoid six of the nine delimiters |
| TypeKeys.KeysTellApartExactly | qumir/parser/type.h:489-534 | for every choice of delimiters: keys tell apart all types whose names and values avoid them if and only if colon, comma, semicolon, both brackets and the closing parenthesis are among them |
| TypeKeys.MarkCollides | qumir/parser/type.h:489-534 | each of those six alone, in a name or value, makes two different types share a key |
| Decimals.ScanDecimal | qumir/parser/type.h:510-512 | a written number is read back in full before anything that is no digit |
| EventLoop.EventLoop.DoEvalRaw | qumir/ir/eval.cpp:164-172 | the assertion of the polling loop holds, polling ends, every command of the program has run once in its queue's order, all futures are complete, each wait ended once, and no call is left in any queue |
| EventLoop.EventLoop.ProcessAsyncRuntimeEvents | qumir/ir/eval.cpp:154-162 | a pass while the program waits handles an event and brings the program forward; a pass after its end empties all queues |
| EventLoop.EventLoop.ProcessPaired | qumir/runtime/robot.cpp:71-82 | the turn of robot, turtle or drawer: a program waiting for it is woken, even when waking enqueues more |
| EventLoop.EventLoop.ProcessSplit | qumir/runtime/painter.cpp:206-219 | the turn of painter or io: all commands before any future, with the same promise |
| EventLoop.EventLoop.Complete | qumir/future.h:81-96 | a future gets its result once, gives up its caller, and only after its command was run |
| EventLoop.EventLoop.AwaitNext | qumir/future.h:102-116 | a complete future does not stop the program; an open one registers it as its caller |
| EventLoop.EventLoop.RunProgram | qumir/future.h:126-135 | a woken program runs until it waits or ends, and gives each queue exactly the next commands of its plan |
| EventLoop.FullPass | qumir/ir/eval.cpp:154-162 | five turns in order: some turn wakes a waiting program; without one each turn leaves its queue empty for good |
| EventLoop.PassEnds | qumir/runtime/robot.cpp:71-82 | whoever waited for a queue has been woken when its turn is over |
| EventLoop.RunEnded | qumir/ir/eval.cpp:164-172 | once all queues are empty, what was planned at the start is what has been run |
| EventLoop.CommandsExactly | qumir/runtime/robot.cpp:24-31 | the plan of a queue: the commands of the actions that are for it, each once, in the order of the program, and no others |
| EventQueues.EnqueuedSound | qumir/runtime/robot.cpp:24-31 | a new command goes behind all others and its future behind all open ones, also while the queue is being worked through |
| EventQueues.CompletedSound | qumir/runtime/painter.cpp:212-217 | completing the next future keeps commands before their futures and wakes only the caller of that future |
| EventQueues.FuturesTakenSound | qumir/runtime/painter.cpp:207-213 | when the futures of a split queue are taken, all their commands have been run |
| EventQueues.WaiterHasEvent | qumir/ir/eval.cpp:166-168 | a suspended program always has an open future in some queue |
| EventQueues.DrainedMeansAllRun | qumir/ir/eval.cpp:170-170 | in an empty queue every command given has been run, every future is complete and nobody waits |

## Left out

- CompileMethod.CompileUltraLow: has no translation for external calls, `await`, `i2b`, `f2b`, string literal arguments and the address of a global slot.
- Interpreter.Interpreter.Ret: does not wrap the result of a coroutine callee into a completed future.
- External calls and `await` inside the bytecode machine, and results of coroutine callees: the event loop is modelled around a program given by its actions instead.
- Address of a global slot, 128-bit globals, `i2b` and `f2b`, string literal arguments: instructions with these have no translation in the model.
- The code cache and lazy compilation in `Compile`: every function is compiled beforehand.
- Phi removal, lowering and name resolution, whose output is assumed to be well formed.
- Floating-point arithmetic: an uninterpreted record of functions on words, the same on both sides.
- Signed overflow of 64- and 128-bit arithmetic, which C++ leaves undefined: it wraps around on both sides.
- 32-bit overflow of frame offsets, and negative sizes of `salloc`.
- Type identifiers and their interning, `SetPointerSize`, unification of types: types are structural values and a pointer has 8 bytes.
- ForeignCalls.KindMatchesAbi: asks that the struct is laid out as in C, without which its bytes are elsewhere; `PlacedAsInCExactly` says when a nested struct is.
- ForeignSignatures.MovesMatchAbi: asks the same of all structs of a signature.
- ForeignSignatures.PassArguments: asks the same.
- `F32` and `Undef`, which the source marks as unused.
- ManagedStrings.DeleteUndoesInsert: asks that the lengths together fit into 64 bits.
- StructLayout.OffsetsMatchAbi: asks that nested structs have their C alignment; `PlacedAsInCExactly` shows that no other condition on the nested struct will do in every context.
- ForeignCalls.WalkMatchesLayout: asks that each field is aligned to its own size; `WalkedRightExactly` shows that other fields are missed in some context.
- CompilerCorrectness.RunSimulation: says nothing about a program whose IR can get stuck, for instance on an undefined temporary.
- SymbolObjectCache.SymbolObjectCache.Register: asks that symbols hold no tab or newline, without which the map is not read back (`MetaRoundTrip`, `TabbedSymbolLost`).
- KernelLinking.RegisterMisses: asks the same of the missing symbols, which it registers.
- KernelLinking.PrepareFusedKernelsCached: asks the same of the required symbols.
- ManagedStrings.StringRuntime.InsertSymbols: asks for a variable that holds a string, which the runtime does not check.
- TypeKeys.KeyInjective: asks that names and values avoid six delimiters; `KeysTellApartExactly` shows that none of the six can be allowed.
- Simulation and calling convention speak of runs below the stack limit of 128 MB; beyond it the outcome is the limit and nothing else.
- The digest of a build fingerprint, stream flush errors, search of the directory, and 32-bit overflow of version numbers in the cache.
- Emitting object code: an object is the set of symbols that it defines, and code generation is a parameter.
- `assign_from_lit`, number formatting and parsing, input, and 32-bit overflow of string lengths.
- Search paths, aliases, module registration and reading of files in the loader: files are a fixed map from names to parsed contents; diagnostics carry no text or position.
- Cloning of statements, their origin, and lists of bitcode modules in the composer.
- The AArch64 branch of foreign calls, the assembly trampoline, `dlsym`, and signatures whose kind and struct lists differ in length.
- Statements, locations and error texts of the parser, and the character lexer.
- Mutability flags, underlying types of named types and `TypeMangleKey`.
- What a command of an executor draws, moves or prints, and futures that are coroutines themselves: a command is a number, and running it is recorded.
- A program that never ends: the event loop is proved for programs with finitely many actions.
