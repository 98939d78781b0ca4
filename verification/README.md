# Silverfir in Dafny

Silverfir runs WebAssembly in place. While a function is validated, a jump table is compiled for
it: one slot for each instruction that can leave the straight line, patched when the frame it
leaves is closed, and linked to the next slot that execution can meet. The interpreter then needs
no label stack and no lookup: a program counter, a stack pointer and the index of the next slot
are enough, and `block`, `loop` and `end` do nothing.

This project models that pipeline and proves it correct.

- `Leb128`, `Decoder`, `DecodeLoop`: the number readers, one instruction at a position, and the
  decoder's loop over a stream.
- `Validation` is the validator as a function on abstract states; `Validator` is the validator as
  the program has it, a context updated in place by callbacks with a list of pending slots in every
  control frame, proved against the function. `JumpTable` and `Compiled` are the table, its linking
  and what it satisfies.
- `Reference` is section 4.4.8 of the WebAssembly Core Specification: nested bodies and a stack of
  labels. It knows nothing of bytes, positions or tables.
- `InPlace` is the interpreter as a step function on a position, an index and operands;
  `Interpreter` and `Calls` are the interpreter as the program has it, on registers and arrays,
  with callee locals inside the caller's stack, proved against the step function.
- `Invariants`, `Nesting`, `Control`, `ControlTheorem`: what validation keeps, how bytes become
  nested bodies, and the control theorem. `Boundaries` keeps the position on the decoder's
  instructions, `Patching` says when a slot learns its target. `Typing`, `Simulation`,
  `Correctness`: the data theorem; `Acts` has each simple instruction by itself, and `Example` a
  function that meets the theorem's hypotheses.
- `Declarative` and `Acceptance`: the typing rules of section 3.3 of the WebAssembly Core
  Specification for nested bodies, and that the validator with all checks accepts exactly what they
  type. `Strictness` and `Counterexamples`: exactly where the source's validator checks less, and
  what follows.
- `Opcodes` says what every opcode does in bytes of code and memory and bits of cells, and `StackSize`
  that the validated stack size is attained.
- `LittleEndian` and `Memory`: numbers in memory, and linear memory over runs. `TailCalls`: the
  tail-call interpreter's memory cache. `ConstExpr`, `Linking`, `Utf8`, `LinkedList`: constant
  expressions, import linking, the UTF-8 check, and the doubly linked list.

Five checks of the specification are missing in the source's validator (`Strictness`). Three of
them execution relies on: no operand left over when a frame closes (src/runtime/validator.c:137-148),
equal parameters and results for an `if` without `else` (src/runtime/validator.c:328-362), and a
memory for `memory.size` and `memory.grow` (src/runtime/validator.c:706-719). Two it does not: the
alignment of loads and stores, whose exponent is compared with the size of the operand's type
(src/runtime/validator.c:643-657), and the mutability of the global that `global.set` writes
(src/runtime/validator.c:601-611). For each, `Counterexamples` has a function that the source
accepts and the specification does not. This is about instructions as the decoder delivers them.
The decoder itself reads a single byte where the specification has a LEB128 number for the labels
of `br` and `br_if`, for alignments and for block types (`Strictness` says exactly when that is the
same), and it does not check that brackets close exactly at the last byte (`Nesting.WellNested` says
how a caller can).

The hypotheses of the main theorem (`Correctness.Compiles`) are what the code forces:

- Brackets close exactly at the last byte. The decoder stops at any `end` with nothing left
  (src/common/op_decoder.c:100-107), and nothing looks at the control stack afterwards.
- The function passes the three missing checks that execution relies on. The control theorem needs
  none of them.
- Labels of `br_table` take one byte each: the validator reads them as LEB128 numbers
  (src/runtime/validator.c:404-422), the decoder and the interpreters skip one byte each.
- Labels of `br` and `br_if` are the byte after the opcode, in the decoder and so in the reference
  bodies. For a byte below 128 that is the label the specification reads; a longer label is refused
  or read wrongly (`Strictness.RawLabel`, `Counterexamples.LongLabelRefused` and `LongLabelMisread`).
- The table has at most 65536 slots, and the stack size plus the cell limit fits 32 bits.
- Function types use the specification's value types only. The parser also lets two internal type
  codes through (src/common/wasm_format.h:123-125). Counts fit 16 bits, which the parser does
  enforce (src/common/wasm_format.h:180).

## Model

| member | source | states |
|---|---|---|
| Correctness.CallSame | src/interpreter/in_place_dt.c:33-1013 | Correctness of the whole pipeline: for every module whose functions the source compiles and which meet the three checks that the validator leaves out and execution relies on, every call with arguments of the declared types, any store, any frames already in use and any number of steps, ends in the interpreter (position, table index, operand stack) exactly as in the label-stack reference semantics: same results, same memory and globals, same trap, same exhaustion. It never reads below its operand stack, and results and globals keep their declared types |
| Correctness.RunSame | src/interpreter/in_place_dt.c:85-1003 | The same from every point of every function that both machines can reach together |
| ControlTheorem.ControlCorrect | docs/Interpreter.md:1-122 | For every accepted, well-nested body, with no hypothesis on types or heights, and every sequence of tested operands: after it the interpreter is at an instruction that the decoder's walk over the function meets, the bytes there spell exactly the body that the reference machine has still to run (at its end, an end or an else), and the table index is the first slot beyond the position if there is one; or both have stopped in the same way |
| Boundaries.SeenStep | src/common/op_decoder.c:76-107 | One step of the machine goes from an instruction that the decoder's walk meets to another: through brackets, along branches forward and back to the starts of loops |
| Boundaries.VisitsBody | src/common/op_decoder.c:76-107 | The decoder's walk passes through a nested body to what follows it |
| Example.LoopCompiles | docs/Interpreter.md:1-122 | The hypotheses of the correctness theorem can be met: a function with a loop and a branch back meets them all |
| Control.ControlStep | src/interpreter/in_place_dt.c:112-184 | One step of control: at corresponding points the interpreter follows the slot that belongs to its own position and arrives where the label stack leads |
| Simulation.StepSame | src/interpreter/in_place_dt.c:107-416 | One step on data: the two machines do the same to operands, locals, memory and globals, the step is defined, and the operand types stay those the validator computed for the point reached |
| Simulation.LandsState | src/runtime/validator.c:364-447 | At the target of a branch the validator's operands are those below the target frame followed by its label types |
| Simulation.BranchLive | src/interpreter/in_place_dt.c:144-161 | A taken branch: moving the top operands by the slot's distance is unwinding to the label's height with the label's arity kept |
| Simulation.Frames | src/runtime/validator.c:137-148 | Seen from any point inside, each enclosing frame closes to its results on what lay below it, and a loop starts again with its parameters there |
| Calls.Call | src/interpreter/in_place_dt.c:33-63 | One activation on arrays: every index into the operand stack of exactly stack_size_max cells and into the caller's array is in bounds, the cells below the arguments do not change, the call ends as the flat machine does, the results lie where the arguments were, the frame and cell counters are restored on success, and the depth never exceeds the limit plus one |
| Calls.RunFrame | src/interpreter/in_place_dt.c:85-101 | The loop over a function's instructions ends as the flat machine's run does; leaving it, the results lie where the arguments were and the counters are as at its start |
| Calls.Open | src/interpreter/in_place_dt.c:33-63 | A frame for a call: an operand stack of exactly the validated size, the position at zero, and in the caller's array the arguments kept, every other local a zero of its declared type, and nothing below them touched |
| Calls.Turn | src/interpreter/in_place_dt.c:85-101 | One turn of the loop keeps the correspondence with the reference machine, or leaves or stops as it does |
| Calls.CallTurn | src/interpreter/in_place_dt.c:185-208 | A call inside a run, its callee running in the caller's operand array |
| Calls.OpCall | src/interpreter/in_place_dt.c:185-208 | The callee's arguments and locals lie at the top of the caller's stack, its results take their place, and nothing below moves |
| Calls.Room | src/runtime/validator.c:471-483 | stack_size_max covers the operands after every step and the locals and results of every callee |
| StackSize.StackSizeAttained | src/runtime/validator.c:44-52 | The validated stack size is attained: it is the number of parameters, with which the walk begins, or the largest height that one of its callbacks asks for; never less and never more |
| StackSize.StepPeak | src/runtime/validator.c:459-489 | What one instruction does to it: the largest of what it was, the operands after the instruction, and for a call the operands left below its arguments with all of the callee's locals, for a br_table what its labels take |
| StackSize.TableTopIs | src/runtime/validator.c:396-447 | What that is for a br_table: its labels' arity on top of the frame's height, or the operands without the index, whichever is more, also in dead code where checking a label pushes what was never popped |
| Example.LeafCompiles | src/runtime/validator.c:459-489 | A function that calls a leaf with k locals and does nothing else gets the stack size k, the leaf 0 |
| Example.LeafReturns | src/interpreter/in_place_dt.c:33-63 | Called with no frames in use it returns exactly if k is at most 102400, and is exhausted otherwise |
| Calls.ZeroLocals | src/interpreter/in_place_dt.c:54-56 | Cell by cell: arguments stay, each further local becomes a zero of its declared type, nothing below them changes |
| Calls.CallStarts | src/interpreter/in_place_dt.c:33-63 | How a call begins, in both machines: refused beyond 256 frames or 102400 cells; otherwise with an empty operand stack, one frame and the validated size more on the counters, and locals that are the arguments followed by zeros of the declared types |
| Calls.CopyResults | src/interpreter/in_place_dt.c:1005-1011 | The top operands move to where the arguments were |
| Calls.CallInThread | src/interpreter/interpreter.c:24-91 | A call from outside is refused exactly for a trapped thread or wrong arguments; otherwise it ends as the reference semantics says; the thread is trapped exactly if it fails, and a thread that is not trapped has both counters at zero |
| Interpreter.Activation.Step | src/interpreter/in_place_dt.c:85-104 | Every instruction but a call does on registers and arrays what the flat machine's step does |
| Interpreter.Activation.TakeBranch | src/interpreter/in_place_dt.c:144-161 | Follows the slot at the index and shuffles the operands |
| Interpreter.Activation.OpBrTable | src/interpreter/in_place_dt.c:171-181 | Clamps the operand to the table, advances the index by it and follows that label's slot |
| Interpreter.Activation.OpBrIf | src/interpreter/in_place_dt.c:162-170 | Follows its slot, or skips one slot and one byte |
| Interpreter.Activation.OpIf | src/interpreter/in_place_dt.c:118-130 | Enters the first arm past its slot, or follows it |
| Interpreter.Activation.OpElse | src/interpreter/in_place_dt.c:131-137 | Jumps over the second arm |
| Interpreter.Activation.OpLocal | src/interpreter/in_place_dt.c:288-304 | local.get, local.set and local.tee on the caller's array |
| Interpreter.Activation.OpLoad | src/interpreter/in_place_dt.c:345-371 | All fourteen loads: past the alignment byte and the offset, traps beyond the memory, otherwise pushes the little-endian number of the opcode's width, extended as the opcode says |
| Interpreter.Activation.OpStore | src/interpreter/in_place_dt.c:373-394 | All nine stores: traps beyond the memory, otherwise writes the low bytes of the operand and nothing else |
| Interpreter.Activation.OpMemoryGrow | src/interpreter/in_place_dt.c:400-413 | Grows within the limit if the allocator agrees, and pushes the old size; otherwise keeps the memory and pushes -1 |
| Interpreter.Activation.OpBulk | src/interpreter/in_place_dt.c:716-719 | memory.copy and memory.fill: the second opcode, then the reserved bytes, then the step |
| Interpreter.Activation.MoveBytes | src/interpreter/in_place_dt.c:837-849 | Traps if either range leaves the memory; otherwise the range is copied, overlapping or not, and no other byte moves |
| Interpreter.Activation.SetBytes | src/interpreter/in_place_dt.c:850-862 | Traps if the range leaves the memory; otherwise it is filled with the operand's low byte |
| Interpreter.Instance.Write | src/utils/mem_util.h:84-97 | The byte-writing loop stores the little-endian digits of a number, for any width |
| Interpreter.Instance.Read | src/utils/mem_util.h:23-80 | The reads of 1, 2, 4 and 8 bytes give the number that the bytes spell, by one load or byte by byte |
| Interpreter.Instance.MoveRange | src/interpreter/in_place_dt.c:837-849 | Moving a range of bytes in place, upwards or downwards as the overlap asks, leaves what a copy of the old range would |
| Interpreter.Instance.SetRange | src/interpreter/in_place_dt.c:850-862 | Filling a range byte by byte touches nothing else |
| Interpreter.Instance.ResizeMemory | src/utils/vec_impl.h:100-114 | Only growth asks the allocator; refused, it changes nothing |
| Interpreter.MoveCells | src/interpreter/in_place_dt.c:155-159 | Moving cells down in place, the ranges overlapping, leaves what a copy would |
| Interpreter.TableFlat | src/interpreter/in_place_dt.c:171-181 | A defined step at a br_table follows the slot of the label it picks |
| Opcodes.Load8 | src/interpreter/in_place_dt.c:345-371 | From the bytes of the code to the bits of the cell: i32.load8_s (0x2c) and i64.load8_s (0x30) push the byte at the low 32 bits of the operand plus the offset with copies of its sign above, i32.load8_u (0x2d) and i64.load8_u (0x31) the byte itself; beyond the memory they trap |
| Opcodes.Load16 | src/interpreter/in_place_dt.c:345-371 | The same for two bytes: 0x2e and 0x32 with the sign, 0x2f and 0x33 without |
| Opcodes.Load32 | src/interpreter/in_place_dt.c:345-371 | Four bytes: i32.load (0x28), f32.load (0x2a), i64.load32_u (0x35), and i64.load32_s (0x34) with the sign |
| Opcodes.Load64 | src/interpreter/in_place_dt.c:345-371 | Eight bytes: i64.load (0x29) and f64.load (0x2b) |
| Opcodes.Stores | src/interpreter/in_place_dt.c:373-394 | The nine stores write the low 1, 2, 4 or 8 bytes of the cell at the low 32 bits of the address operand plus the offset, the least significant first, and no other byte, or trap |
| Opcodes.I32Constant | src/interpreter/in_place_dt.c:414-418 | i32.const pushes its number, a negative one as 2^32 more |
| Opcodes.I64Constant | src/interpreter/in_place_dt.c:419-423 | i64.const likewise with 2^64 |
| Opcodes.OneOperand | src/interpreter/in_place_dt.c:466 | i32.eqz, i32.wrap_i64 and i64.extend_i32_u on the bits of their operand |
| Opcodes.TwoOperands | src/interpreter/in_place_dt.c:503-520 | i32.add modulo 2^32, i64.add modulo 2^64, i32.div_u with its trap on a divisor whose low 32 bits are zero |
| Opcodes.ReadBack | src/interpreter/in_place_dt.c:350 | A number below 2^32 is what its cell is read as; -1 is all ones |
| Opcodes.StackOps | src/interpreter/in_place_dt.c:270-283 | unreachable, nop, drop, and select by the low 32 bits of its top operand |
| Opcodes.LocalOps | src/interpreter/in_place_dt.c:288-304 | local.get pushes, local.set pops, local.tee keeps its operand |
| Opcodes.GlobalOps | src/interpreter/in_place_dt.c:305-319 | global.get and global.set |
| Opcodes.Pages | src/interpreter/in_place_dt.c:396-413 | memory.size counts pages of 65536 bytes; memory.grow appends zeros and pushes the old count if limit and allocator allow it, and pushes all ones otherwise |
| Opcodes.Copies | src/interpreter/in_place_dt.c:837-849 | memory.copy, byte by byte of the memory after it |
| Opcodes.Fills | src/interpreter/in_place_dt.c:850-862 | memory.fill likewise, with the low byte of its operand |
| Opcodes.Headers | src/common/op_decoder.c:88-95 | The one byte of a block type: void, the seven value types, an index into the module's types, and nothing else |
| Opcodes.Brackets | src/interpreter/in_place_dt.c:112-143 | block and loop go on; if enters exactly if the low 32 bits of its operand are not zero and follows its slot otherwise; else follows its slot |
| Opcodes.Branch | src/interpreter/in_place_dt.c:144-161 | br follows its slot, with the arity's cells moved down over the offset's |
| Opcodes.BranchIf | src/interpreter/in_place_dt.c:162-170 | br_if does so exactly if the low 32 bits of its operand are not zero, and otherwise skips its slot |
| Opcodes.TableBranch | src/interpreter/in_place_dt.c:171-181 | br_table follows the slot of the label that the low 32 bits of its operand pick, or of the last |
| Opcodes.Leaves | src/interpreter/in_place_dt.c:138-143 | end inside the function goes on; the last end and return leave with the top cells, as many as there are results |
| Opcodes.Invokes | src/interpreter/in_place_dt.c:185-208 | call hands over the top cells, as many as there are parameters, in order |
| Opcodes.RefTests | docs/Interpreter.md:1-122 | In the reference machine too, br_if and br_table are the br that the low 32 bits of their operand say, and an if without else falls through on zero |
| Opcodes.RefArms | docs/Interpreter.md:1-122 | And an arm of an if is entered like a block, the one that those bits say |
| Opcodes.TableAt | src/common/op_decoder.c:115-120 | A br_table with one-byte labels decodes to these labels |
| Opcodes.Refused | src/common/op_decoder.c:76-107 | Bytes that are no opcode of the model are refused |
| Opcodes.ReservedZero | src/common/op_decoder.c:231-248 | A reserved byte that is not zero is refused |
| Opcodes.BulkZeros | src/common/op_decoder.c:501-520 | And so are those of memory.copy and memory.fill, and any other second opcode |
| Calls.FinishTop | src/interpreter/in_place_dt.c:182-184 | A function leaves with the top of its operand stack |
| Compiled.AllLinked | src/runtime/validator.c:1247-1273 | In the final table of an accepted body every link is the first slot beyond its target, or the mark for none |
| Compiled.AllPatched | src/runtime/validator.c:328-362 | In the final table of an accepted body every slot has been given its target |
| Patching.StepPatches | src/runtime/validator.c:280-362 | One instruction keeps every slot but for its target; a target once known stays, and a waiting slot gets one exactly when the frame it waits for is the innermost and ends, or, for the slot of an if, meets its else: that frame's own target |
| Patching.WalkPatches | src/runtime/validator.c:280-362 | From any point of the walk to its end no slot changes position, offset or arity, and none changes a target it has |
| Compiled.AcceptedSlots | src/runtime/validator.c:328-362 | All slots lie in order inside the code, and the final table is that of the last end with the function's own slots resolved to that end |
| Compiled.FinalTable | src/runtime/validator.c:352-353 | The table is sorted, its positions lie inside the body, and a slot that jumps to itself sits on the function's last end |
| JumpTable.LinkFinds | src/runtime/validator.c:1249-1273 | In a sorted table linking finds the first slot beyond the target cut to 16 bits or reports none; for a self-jump it always reports none |
| JumpTable.LinkRight | src/runtime/validator.c:1249-1273 | Exactly when the link is the index the interpreter needs: it exists, fits 16 bits, and the slot does not jump to itself |
| JumpTable.ScanUpFinds | src/runtime/validator.c:1252-1260 | The forward search finds the least index whose slot lies beyond the target |
| JumpTable.ScanDownFinds | src/runtime/validator.c:1263-1271 | The backward search finds it too |
| Strictness.StricterRefuses | src/runtime/validator.c:1362-1374 | A validator that makes more of the missing checks accepts less, and what it accepts has the same table and stack size |
| Strictness.StepAgrees | src/runtime/validator.c:137-148 | One instruction of the specification's algorithm, for the checks that execution relies on, for the others, or for both: accepted is exactly what the source accepts with nothing left in a closed frame, equal parameters and results for an if without else, and a memory for memory.size and memory.grow (the first kind); an alignment that 2 to its power fits the bytes touched and a mutable global under global.set (the second) |
| Strictness.ValidateAgrees | src/runtime/validator.c:1362-1374 | A whole function: the specification's algorithm, which is the source's with those checks added, accepts exactly what the source accepts with all the conditions met along the walk, and the result is the same |
| Acceptance.TypedExactly | src/runtime/validator.c:1362-1374 | That algorithm against the typing rules themselves: code that spells a nested body is accepted with all checks exactly if the body has the function's type in the declarative system of section 3.3 of the WebAssembly Core Specification (Declarative.FunctionType), with label contexts, the bottom type and any stack after a jump, and no control stack, heights or positions |
| Acceptance.SourceTyped | src/runtime/validator.c:1362-1374 | And so the source: it accepts every body of the function's type, and accepts another one only where one of the five missing checks would have failed along its walk |
| Acceptance.BytesTyped | src/common/op_decoder.c:76-107 | From bytes: all checks pass and the brackets close at the last byte exactly if the code spells some body of the function's type |
| Acceptance.BodyBack | src/runtime/validator.c:364-447 | Soundness, for any nested body from any state: what the validator passes has a typing that ends in whatever operands the code after it takes, those below a jump included |
| Acceptance.BodyForth | src/runtime/validator.c:364-447 | Completeness: from operands at most less known than a typing's the validator passes the body and is left with such operands again |
| Acceptance.PlainBack | src/runtime/validator.c:364-520 | Soundness of each instruction that is no bracket: branches, tables, calls, select, drop and the simple ones |
| Acceptance.PlainForth | src/runtime/validator.c:364-520 | And their completeness |
| Strictness.RawLabel | src/common/op_decoder.c:108-114 | br and br_if: the byte that the decoder takes for the label is the LEB128 number there exactly when it is below 128 |
| Strictness.AlignmentByte | src/common/op_decoder.c:201-233 | The same for the alignment of loads and stores, unless no number is there |
| Strictness.BlockTypeByte | src/common/op_decoder.c:37-56 | The same for block types and the 33-bit number of the specification |
| Strictness.TableSkew | src/runtime/validator.c:396-422 | Validator and decoder agree where a br_table ends exactly when each of its labels is one byte |
| Counterexamples.OperandLeftOver | src/runtime/validator.c:280-290 | A well-nested function the source accepts and compiles, whose run pops from an empty operand stack, because else does not compare heights |
| Counterexamples.IfWithoutElse | src/runtime/validator.c:328-338 | The same for an if without else whose parameters and results differ |
| Counterexamples.NoMemory | src/runtime/validator.c:706-719 | The same for memory.size in a module without a memory: its first step is not defined |
| Counterexamples.Overaligned | src/runtime/validator.c:643-657 | An i32.load aligned to eight bytes is refused by exactly the validators that check alignment |
| Counterexamples.ConstantWritten | src/runtime/validator.c:601-611 | A write to an immutable global is refused by exactly the validators that check mutability |
| Counterexamples.EarlyEnd | src/common/op_decoder.c:100-107 | An accepted function that stops at an inner end, its branch never patched |
| Counterexamples.LongLabelRefused | src/common/op_decoder.c:108-114 | A br whose label is 0 in two bytes: refused by every validator, for label 128 |
| Counterexamples.LongLabelMisread | src/common/op_decoder.c:108-114 | The same br inside 128 blocks: accepted by every validator, and its slot leads to the end of the function instead of the end of the innermost block, past an unreachable |
| Counterexamples.DeepBranch | src/interpreter/in_place_dt.c:152-160 | For every n a function accepted by every validator whose execution comes to a branch that drops n cells; from n = 32767 on that breaks the source's assertion |
| Counterexamples.DropsWithin | src/interpreter/in_place_dt.c:152-160 | A branch never drops more cells than there are operands, so the assertion holds wherever there are fewer than 32767 |
| Counterexamples.TwoByteLabel | src/common/op_decoder.c:115-120 | An accepted function whose br_table slot does not belong to the position at which the interpreter looks for it |
| Invariants.RunEvolves | src/runtime/validator.c:244-456 | Validating a nested body changes no operand below it, no other control frame and no earlier slot, and its own slots lie in order inside its bytes |
| Invariants.StepEvolves | src/runtime/validator.c:364-484 | The same for each instruction that is not a bracket |
| Invariants.EndEvolves | src/runtime/validator.c:328-362 | Closing a frame brings validation back to where it was opened |
| Invariants.ElseOpens | src/runtime/validator.c:280-326 | else replaces the frame of the if by its own and keeps what lies outside |
| Nesting.WellNested | src/common/op_decoder.c:76-107 | For accepted code, a caller's count of brackets closes exactly at the last byte if and only if the code spells a nested body and the function's own end |
| Nesting.ValidateRun | src/common/op_decoder.c:76-107 | On such code the decoder's walk is the structural run over the body |
| Nesting.WalkRun | src/common/op_decoder.c:76-107 | The walk over a laid-out body inside a function |
| Typing.PopReachable | src/runtime/validator.c:62-116 | In reachable code popping proper types takes exactly those types off the top |
| Typing.BranchTyped | src/runtime/validator.c:364-447 | In reachable code each slot of a branch has the exact distance and arity, and the label's types lie on top |
| Typing.TableExact | src/runtime/validator.c:425-443 | br_table puts back what it pops, so all its slots are taken from the same operands |
| Typing.OuterFrames | src/runtime/validator.c:137-148 | What every enclosing frame leads to, out to the function |
| Typing.SimpleTyped | src/interpreter/in_place_dt.c:270-416 | A simple instruction on operands of the validated types is defined and leaves operands of the validated types |
| Typing.CallTyped | src/runtime/validator.c:458-484 | Arguments on top, room for the callee's locals, results in their place |
| Control.ChainTable | src/runtime/validator.c:301-355 | At every point the final table continues what has been emitted so far, each waiting slot landing where its frame leads, and every later slot lies further on |
| Control.HereFirst | src/runtime/validator.c:1247-1273 | At every point the next table entry is the first one beyond it |
| Validator.Context.PushVal | src/runtime/validator.c:42-50 | Pushes a type and keeps the largest size seen |
| Validator.Context.PopVal | src/runtime/validator.c:62-76 | Stops at the frame's height; unreachable code yields unknown types |
| Validator.Context.PopValExpect | src/runtime/validator.c:78-89 | Refuses another type |
| Validator.Context.PopValsToVec | src/runtime/validator.c:91-107 | Pops types from last to first and gives what was popped in that order |
| Validator.Context.PushCtrl | src/runtime/validator.c:118-134 | A new frame with an empty pending list |
| Validator.Context.PopCtrl | src/runtime/validator.c:137-148 | Pops the results and the frame, without a look at the height |
| Validator.Context.SetUnreachable | src/runtime/validator.c:164-176 | Cuts the operands to the frame's height and keeps the pending lists a partition |
| Validator.Context.OnDecodeBegin | src/runtime/validator.c:189-219 | The function's own frame, its parameters being locals |
| Validator.Context.OnBlock | src/runtime/validator.c:244-278 | block, loop and if; the slot of an if becomes the first on its frame's list |
| Validator.Context.OnElse | src/runtime/validator.c:280-326 | The slot of the if gets its target, the others go over to the frame of the else, and the pending lists still partition the slots without a target |
| Validator.Context.OnEnd | src/runtime/validator.c:328-362 | Every slot on the closed frame's list, and no other, gets its target |
| Validator.Context.OnBrOrIf | src/runtime/validator.c:364-394 | One slot on the list of the target frame; operands as specified |
| Validator.Context.OnBrTable | src/runtime/validator.c:396-447 | Refuses labels that name no frame or differ in arity, and emits one slot per label |
| Validator.Context.OnReturn | src/runtime/validator.c:449-456 | Pops the results of the function |
| Validator.Context.OnCall | src/runtime/validator.c:459-489 | Arguments popped, results pushed, and the stack size the largest of what it was, the operands left with parameters and locals of the callee, and the operands after the results |
| Validator.Context.OnSelect | src/runtime/validator.c:526-540 | Two operands of one numeric or vector type |
| Validator.Context.OnSimpleOp | src/runtime/validator.c:552-733 | Each simple instruction pops and pushes by its signature, and refuses bad indices and alignments |
| Validator.Context.OnDecodeEnd | src/runtime/validator.c:1240-1298 | The nested loops link each slot as the table's specification says |
| Validator.NewSlot | src/runtime/validator.c:377-385 | Adding a slot to a list keeps the lists a partition |
| Validator.CloseFrame | src/runtime/validator.c:339-355 | Closing a frame keeps the lists of the other frames |
| Validator.ElseFrame | src/runtime/validator.c:301-324 | Handing the list of an if over to its else keeps the partition and drops exactly the slot of the if |
| DecodeLoop.ReadOp | src/common/op_decoder.c:76-260 | The decoder reads exactly the instruction at the stream's position and ends after it |
| DecodeLoop.ReadBlockType | src/common/op_decoder.c:37-56 | Reads one byte: empty, a value type, or an index into the module's types |
| DecodeLoop.ReadLabels | src/runtime/validator.c:404-416 | The loop reads the labels of a table |
| DecodeLoop.ReadTable | src/common/op_decoder.c:115-120 | Labels are read as LEB128 numbers but skipped as one byte each |
| DecodeLoop.ValidateFunction | src/common/op_decoder.c:65-107 | The imperative decoder and validator together compute exactly the table and stack size that the theorems are about, and refuse exactly when those are undefined |
| Leb128.UnsignedRoundTrip | src/utils/stream.h:220-244 | The grammar of section 5.2.2 inverts an unsigned encoder, whatever surrounds the bytes |
| Leb128.SignedRoundTrip | src/utils/stream.h:246-280 | The same for signed numbers |
| Leb128.UnsignedExact | src/utils/stream.h:220-244 | In closed form: a number of n bits is at a place exactly if at most ceil(n/7) bytes stand there of which only the last is below 128, and their low seven bits, taken to the base 128, spell it and are below 2^n |
| Leb128.SignedExact | src/utils/stream.h:246-280 | The same in two's complement, with the seventh bit of the last byte as the sign and the range from -2^(n-1) |
| Leb128.NumbersFit | src/utils/stream.h:217-280 | Accepted numbers are in range |
| Leb128.Stream.ReadVu | src/utils/stream.h:220-244 | The loop accepts exactly the unsigned grammar (length, last byte), returns its value, consumes its bytes, and does not move when it refuses |
| Leb128.Stream.ReadVi | src/utils/stream.h:246-280 | The same for signed numbers with the sign rule on a full-length encoding |
| Leb128.Stream.ReadVu7 | src/utils/stream.h:175-187 | One-byte unsigned numbers |
| Leb128.Stream.ReadVi7 | src/utils/stream.h:189-201 | One-byte signed numbers |
| Leb128.Stream.ReadU8 | src/utils/stream.h:134-140 | The next byte, if there is one |
| Leb128.Stream.Seek | src/utils/stream.h:161-171 | Moves exactly if the position stays inside |
| Leb128.UncheckedVu32 | src/utils/stream.h:307-323 | Wherever the checked reader accepts, adding whole bytes and taking continuation bits away modulo 2^32 gives the same value and length |
| Leb128.UncheckedVi32 | src/utils/stream.h:325-346 | The same for signed 32-bit numbers |
| Leb128.UncheckedVu64 | src/utils/stream.h:348-374 | The same for unsigned 64-bit numbers |
| Leb128.UncheckedVi64 | src/utils/stream.h:376-407 | The same for signed 64-bit numbers |
| TailCalls.CallsSame | src/interpreter/in_place_tco.c:1169-1217 | Wherever the direct-threaded interpreter is defined, the tail-call interpreter with its cached memory address and size ends the same way, through any nesting of calls that grow the memory; and however it ends, the frame and cell counters are what they were before the call |
| TailCalls.MemorySame | src/interpreter/in_place_tco.c:78-108 | Loads, stores, memory.size, memory.grow, memory.copy and memory.fill through an up-to-date cache do the same, and leave it up to date, whether a growth succeeds or not |
| TailCalls.StaleLoads | src/interpreter/in_place_tco.c:320-379 | With a cache that was not reloaded, as after call_indirect: exactly the loads between the cached and the present size trap where they must not, exactly those within the cached size access a block that is no longer the memory or lies beyond its end if it has moved or shrunk, and all others do what they should |
| TailCalls.StaleStores | src/interpreter/in_place_tco.c:320-379 | The same for stores |
| TailCalls.StaleSize | src/interpreter/in_place_tco.c:517-521 | And memory.size is right exactly if the cached size has as many pages |
| Memory.StoreThenLoad | src/interpreter/in_place_dt.c:345-394 | For every store and every load of its width: the load finds the stored cell cut to that width, a signed load as the same signed number, an unsigned load as the same number, and no other byte has moved |
| Memory.Extension | src/interpreter/in_place_dt.c:345-371 | The _s loads keep the signed number, the _u loads and the full-width ones the number; the cell's low bytes are those read, and the cell fits its type |
| Memory.GrowKeeps | src/interpreter/in_place_dt.c:400-413 | Growing keeps the old bytes and appends zeros; it is refused exactly beyond the limit or when the allocator is asked for more and says no, and then the memory is as before |
| Memory.CallPaged | src/interpreter/in_place_dt.c:345-413 | Through any run the memory stays a whole number of pages within its limit and never shrinks, whatever is loaded, stored, copied, filled or grown |
| LittleEndian.WriteThenRead | src/utils/mem_util.h:23-97 | For any width a number written reads back modulo that width, and no other byte moves |
| LittleEndian.NumberOfDigits | src/utils/mem_util.h:84-97 | Reading little-endian digits gives the number cut to their count |
| LittleEndian.DigitsOfNumber | src/utils/mem_util.h:23-80 | Writing a number that was read gives back its bytes |
| LittleEndian.ReadThenWrite | src/utils/mem_util.h:23-97 | Writing back what was read changes nothing |
| Linking.Vm.Instantiate | src/runtime/vm.c:457-509 | After any history of instantiations, failed ones included, every linked address is what the chain of exports denotes: a definition of the declared type, exported if imported. Every import that got an address was joined; linking stops, functions first, at the first entry that cannot be joined, and it ends in a followed null address exactly if that entry finds its export and the address there is null, in a refusal otherwise. If the instances imported from are ready, it succeeds exactly if every entry of both spaces denotes a definition of its declared type |
| Linking.Vm.LinkSpace | src/runtime/vm.c:127-196 | The loop over one index space: it succeeds exactly if every entry ends up linked, and otherwise stops at the first that cannot be joined, with a null address followed exactly if that entry finds its export and a null there; the instances imported from being ready, it succeeds exactly if every entry denotes a definition of its declared type |
| Linking.Vm.LinkEntry | src/runtime/vm.c:127-160 | One entry, an import or a definition of its own: linked, or nothing has changed and it is the entry at which linking stops, by a null address exactly if its import dangles |
| Linking.EndedOnce | src/runtime/vm.c:127-196 | What linking leaves behind determines which way it ended: refusal and null access exclude each other |
| Linking.FollowNull | src/runtime/vm.c:143-147 | A history that follows a null address: a module is refused for an import that nobody exports and stays in the list with its own function unlinked; a second module imports that function, which denotes a definition of the right type, and its instantiation ends in the null address |
| Linking.Vm.LinkImport | src/runtime/vm.c:136-158 | One import is joined exactly if the instance and the export are found, the address there is not null and its definition has the declared type; a null address is followed exactly if those are found and it is null. What it gets is the address that the last instance with the imported name holds for its first export with the imported field's name and kind; nothing else changes |
| Linking.ReadyIffComplete | src/runtime/vm.c:491-507 | As far as functions and globals go: once linking is over an instance is ready exactly if all its entries of these two spaces are linked. (Memories, tables and initialisers can still fail it in the source; see below.) |
| Linking.Vm.Find | src/runtime/vm.c:526-539 | The last instance with a name: it has the name and none after it has; or no instance has it |
| Linking.Lookup | src/runtime/vm.c:143-154 | The first export with both the name and the kind: none before it has both; or no export has both |
| Linking.FindInstIs | src/runtime/vm.c:526-539 | The search has one answer, and it is that |
| Linking.FindExportIs | src/runtime/vm.c:143-154 | And so has the other |
| Linking.FollowName | src/runtime/vm.c:143-154 | A history: a module exports two functions of one type, a second imports the second by name; both instantiations succeed and the import is the second function |
| Linking.ImportRight | src/runtime/vm.c:143-154 | What is right for the exporting entry is right for the import, and is exported |
| Linking.DenotesStable | src/runtime/vm.c:485-489 | Later instantiations do not change what an import denotes |
| ConstExpr.ReducesSingle | src/interpreter/const_expr_eval.c:25-125 | What the parser cuts out reduces to a value exactly if it is a single constant instruction that pushes that value, followed by end; and then the cut ends with that end. Which value that is for each of the seven opcodes is said in the bytes of the immediate |
| ConstExpr.UnknownCut | src/runtime/parser.c:82-135 | An opcode that neither side knows is stepped over by the parser and refused by the evaluator |
| ConstExpr.ExtentSame | src/runtime/parser.c:82-135 | Evaluating the cut is evaluating in place: the evaluator meets the instructions that the parser met and needs no byte beyond the cut, although the parser steps over opcodes it does not know |
| ConstExpr.ExtentStaysInside | src/interpreter/const_expr_eval.c:84-92 | Evaluating what the parser cut reads a function address past the end exactly if the evaluator gets to a ref.func whose index is not below the number of functions; nothing checks that |
| ConstExpr.StaysInside | src/interpreter/const_expr_eval.c:84-92 | The same for evaluation in place, from any position and operands |
| ConstExpr.NoFunctions | src/interpreter/const_expr_eval.c:84-92 | It happens: ref.func 0 in an instance without functions is cut whole and read past the end |
| ConstExpr.ParseConstExpr | src/runtime/parser.c:82-135 | The loop cuts exactly the expression and moves the stream past it, or does not move it |
| ConstExpr.ReduceConstExpr | src/interpreter/const_expr_eval.c:25-125 | The loop computes the evaluator's result |
| Utf8.IsValid | src/utils/utf8.c:46-94 | Accepts exactly the concatenations of encodings of Unicode scalar values, reading only inside the buffer |
| Utf8.AcceptedEncodes | src/utils/utf8.c:62-88 | Bytes that pass the checks encode a scalar value |
| Utf8.EncodesAccepted | src/utils/utf8.c:62-88 | Every encoding of a scalar value passes them, with the table's length |
| Utf8.EncodedByTable | src/utils/utf8.c:46-94 | Encodings are those of the table in section 3 of RFC 3629: the range without surrogates, the length by the value, the marker bits of every byte, and the value spelled by the bits left |
| LinkedList.List.Push | src/utils/list_impl.h:36-57 | Appends |
| LinkedList.List.Pop | src/utils/list_impl.h:59-73 | Removes the last item |
| LinkedList.List.PushFront | src/utils/list_impl.h:75-96 | Prepends |
| LinkedList.List.PopFront | src/utils/list_impl.h:98-111 | Removes the first item |
| LinkedList.List.Insert | src/utils/list_impl.h:113-136 | Inserts before an item; next and prev stay mutually inverse, head, tail and size stay right |
| LinkedList.List.Erase | src/utils/list_impl.h:138-158 | Removes an item and gives the one after it |
| LinkedList.List.Clear | src/utils/list_impl.h:160-169 | Empties the list |
| LinkedList.InsertedLinks | src/utils/list_impl.h:113-136 | The neighbours after an insertion, in terms of those before it |

## Left out

- Imported and host functions, call_indirect, tables, elements and data segments: every function is defined in its module and called directly.
- Floating point, SIMD, and all but one representative of each kind among the numeric instructions: opcodes not in the model are refused by `Decoder.Decode`.
- Correctness.CallSame: runs are cut off by a number of steps, because the interpreter has no bound of its own; it is the same on both sides and arbitrary, so non-terminating runs agree on every finite part.
- Correctness.CallSame: one direction only; a function that fails a missing check may still run correctly, for example if the fault lies in code that is never reached. `Strictness.ValidateAgrees` gives the exact condition for the checks themselves.
- Calls.Call: an operand cell is a number with a type that only proofs look at; the unspecified upper half of a 32-bit operand's cell is not represented.
- Interpreter.Activation.Step: a handler per instruction instead of labels in one function; dispatch by computed goto or switch is not distinguished.
- Validator.Context.OnBrTable: the labels arrive as numbers read by `DecodeLoop.ReadLabels`, not as a second pass over the bytes; a table of 2^32 labels, for which the source's count wraps to zero, is refused.
- Validator.Context.OnSimpleOp: one method for the callbacks of the simple instructions.
- Validator.Context.PopVal: looking at a frame after the function's own has been popped is undefined in C; the model refuses. The same goes for block types with the two internal type codes, which index outside a table.
- Validator.Context.OnCall: stack sizes and table positions are unbounded numbers; offsets and arities of slots are cut to 32 and 16 bits as in the source.
- Leb128.Stream.ReadVu: a bitwise or of disjoint bits is written as a sum.
- TailCalls.CallsSame: modelled on values, since it differs from the other interpreter only in the cached pair; update in place of the call context is not represented. The handlers that do not touch memory are taken to be the other interpreter's, so agreement is proved for memory, growth and calls only. Assertions compiled out of release builds are not modelled.
- Interpreter.Instance.Read: where the memory lies is not known, so either of the two ways may be taken at any address; the machine is little-endian. memory.init and data.drop are left out with the data segments.
- Interpreter.Activation.TakeBranch: the assertion that a taken branch drops fewer than 32767 cells is not a condition of the model; it fails exactly at branches whose slot's offset is 32767 or more (`Counterexamples.DeepBranch`), which takes a stack size at least that large.
- Interpreter.Instance.ResizeMemory: what the allocator answers is given in advance; capacity kept from before counts as an answer.
- Strictness.ValidateAgrees: for the instructions of the model, as the decoder delivers them.
- Acceptance.TypedExactly: in modules whose types are made of the specification's value types, and with block types as the decoder delivers them.
- Linking.Vm.Instantiate: functions and globals only, with no validation, no initialisers and no start function, any of which can still fail an instance whose functions and globals are linked; instantiating the same module a second time, which the source answers with the first instance, is left out, as are memories and tables.
- Utf8.IsValid: the table of lengths is written as ranges.
- LinkedList.List.Clear: freeing of memory is not modelled; an erased item is simply no longer part of the list. Allocation does not fail.
- ConstExpr.ReducesSingle: what a reference to a function is, and the address of a global, are given as cells; the comparison of the result's type, and pushing running out of memory, are not modelled.
- The rest of the parser, the vectors and strings, WASI, the loaders and the unfinished compiler: field reading, foreign calls or code that is not meant to run.
