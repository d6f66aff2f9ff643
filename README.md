# Paint-params keys, the SkVM trace player and SkSL/CoreText helpers in Dafny

This project models five pieces of Skia and proves properties about them.

- **The paint-params key codec** (`src/core/SkPaintParamsKey.cpp`). A builder writes
  nested blocks into a byte buffer. Each block has a two-byte header (snippet id, block
  size), then its child blocks, then its payload fields. Pointers go into a side table, and
  the payload holds a one-byte index into that table.
  - Any structural fault collapses the builder to the canonical error block `{kError, 2}`.
  - A `BlockReader` finds a block's children and payload from the size bytes and the
    dictionary entry of the block's id.
  - `toShaderInfo` lists every block in pre-order.
  - Modules:
    - `KeyFormat`: the format, the dictionary, and the canonical encoding of a tree of
      blocks.
    - `BuilderModel`: the builder's transitions as functions on a snapshot of its fields.
    - `KeyBuilder`: a class that performs them in place.
    - `KeyReader`: `read_header`, `BlockReader` and the pre-order visits.
    - `KeyRoundTrip`: building a tree and then reading the key gives back the tree's
      blocks, payload values and pointers, in pre-order.
- **SkVMDebugTracePlayer** (`TracePlayer`). It replays a debug trace: cursor, slot values,
  write times, call-frame stack with display masks, dirty and return-value masks.
  - The transitions are functions on a `PlayerState`. The class `Player` performs them in
    place, including the `step`, `stepOver` and `stepOut` loops.
  - Lemmas state where each step operation stops and what the variable queries list.
- **Prefix expressions** (`PrefixExpression`). The type checks of
  `PrefixExpression::Convert` and the rewrites of `Make`.
  - The rewrites are proved sound against `Eval`. In `Eval`, negation and logical not act on
    literals and component-wise on constructors, and stay symbolic otherwise.
- **SkSL strings** (`SkSLString`):
  - `stoi` over a model of C's `strtoull` with base 0;
  - the `".0"` rule of `to_string(double)`;
  - the `+` and `+=` operators on a string class.
- **CoreText font matching** (`FontMatching`):
  - CSS generic-name mapping;
  - the integer style metric and best-match selection;
  - the symbolic-trait rules;
  - the index checks of the font manager and the `ttcIndex != 0` rejections.

Both `requires` clauses and predicates stand for the source's `SkASSERT` checks:
- the `*Checks` predicates of `BuilderModel`;
- `EventOk` and `Replayable` of `TracePlayer`, which also assume the trace's slot info is consistent (see "Left out");
- `MakeChecks` of `PrefixExpression`;
- the range of `sqr`.

The release-build behaviour (collapse to the error block, `nullptr` results, early
returns) is modelled as ordinary branches.

## Model

| member | source | states |
|---|---|---|
| KeyFormat.FieldOffsetBound | src/core/SkPaintParamsKey.cpp:372-387 | every field, placed at its offset, ends within the payload that the dictionary entry declares |
| KeyFormat.FieldSize | src/core/SkPaintParamsKey.cpp:372-379 | field_size: count bytes for byte and pointer-index fields, 16 per color for float4 fields; stated through PayloadLength, FieldOffsetBound and the field round trips below |
| KeyFormat.FieldOffset | src/core/SkPaintParamsKey.cpp:381-387 | field_offset: the sum of the sizes of the fields before k; stated by FieldOffsetBound, KeyReader.FieldOffsetStep and KeyReader.ComputeFieldOffset |
| KeyFormat.Flatten | src/core/SkPaintParamsKey.cpp:160-175 | `add` writes 16 bytes per color |
| KeyFormat.ChunkFlatten | src/core/SkPaintParamsKey.cpp:404-409 | reading 16-byte chunks back as colors gives the colors that were written |
| KeyFormat.PayloadLength | src/core/SkPaintParamsKey.cpp:372-387 | an encoded payload is exactly as long as the sum of its field sizes |
| KeyFormat.EncodeLength | src/core/SkPaintParamsKey.cpp:37-39 | a block's encoding is header + children + payload, and its length is the size its header records |
| KeyFormat.EncodeAllLength | src/core/SkPaintParamsKey.cpp:293-301 | sibling blocks lie back to back: the sizes of the encodings add up |
| KeyFormat.KeyEquals | src/core/SkPaintParamsKey.cpp:248-252 | two keys are equal iff their bytes are identical; pointer tables are ignored |
| KeyFormat.IsErrorKey | src/core/SkPaintParamsKey.cpp:304-308 | isErrorKey: exactly the two bytes {kError, 2}; BuilderModel.LockAsKey and BuildThenLock give such a key, and KeyRoundTrip.VisitErrorKey reads it as the single error block |
| BuilderModel.PushFrame | src/core/SkPaintParamsKey.cpp:66-82 | the valid path of beginBlock appends exactly [id, 0], counts the child on the parent, and pushes a frame at the old size with the dictionary's expectations |
| BuilderModel.PopFrame | src/core/SkPaintParamsKey.cpp:103-119 | the valid path of endBlock keeps the buffer length and the pointer table and pops exactly the top frame |
| BuilderModel.BeginBlock | src/core/SkPaintParamsKey.cpp:41-83 | beginBlock as a state transition; its effect is stated by BeginBlockEffect and its invariant by BeginBlockKeepsInv |
| BuilderModel.EndBlock | src/core/SkPaintParamsKey.cpp:86-127 | endBlock as a state transition; stated by EndBlockPatchesHeader, NoOpenBlockCollapses and EndBlockKeepsInv |
| BuilderModel.AddBytes | src/core/SkPaintParamsKey.cpp:143-158 | addBytes as a state transition; stated by PayloadEffect, NoOpenBlockCollapses and AddBytesKeepsInv |
| BuilderModel.AddColors | src/core/SkPaintParamsKey.cpp:160-175 | add(colors) as a state transition; stated by PayloadEffect, NoOpenBlockCollapses and AddColorsKeepsInv |
| BuilderModel.AddPointer | src/core/SkPaintParamsKey.cpp:177-193 | addPointer as a state transition; stated by PayloadEffect, NoOpenBlockCollapses and AddPointerKeepsInv |
| BuilderModel.MakeInvalid | src/core/SkPaintParamsKey.cpp:213-225 | makeInvalid leaves exactly the block {kError, 2}, no pointers, an empty stack and the invalid flag |
| BuilderModel.LockAsKey | src/core/SkPaintParamsKey.cpp:195-211 | lockAsKey re-enables the builder with an empty stack; the key is the builder's bytes and pointers, and is the error key when a block was still open |
| BuilderModel.BeginBlockEffect | src/core/SkPaintParamsKey.cpp:41-83 | beginBlock does nothing when invalid, gives the error state for an unknown id, and otherwise appends [id, 0], pushes a frame at the old size with no fields written, and counts one more child on the parent |
| BuilderModel.EndBlockPatchesHeader | src/core/SkPaintParamsKey.cpp:86-127 | endBlock sets only the byte at headerOffset+1, to the block size, and pops the frame; a block over kMaxBlockSize gives the error state instead |
| BuilderModel.PayloadEffect | src/core/SkPaintParamsKey.cpp:143-193 | addBytes appends the bytes, add appends 16 bytes per color, addPointer appends the old table size and then the pointer; each advances the field cursor by one |
| BuilderModel.NoOpenBlockCollapses | src/core/SkPaintParamsKey.cpp:86-193 | endBlock and the payload calls collapse a valid builder with no open block to the error state |
| BuilderModel.ErrorStateInv | src/core/SkPaintParamsKey.cpp:213-225 | the error state satisfies the builder invariant |
| BuilderModel.BeginBlockKeepsInv | src/core/SkPaintParamsKey.cpp:41-83 | beginBlock preserves the builder invariant (frames match their headers and nest in order) |
| BuilderModel.EndBlockKeepsInv | src/core/SkPaintParamsKey.cpp:86-127 | endBlock preserves the builder invariant |
| BuilderModel.AddBytesKeepsInv | src/core/SkPaintParamsKey.cpp:143-158 | addBytes preserves the builder invariant |
| BuilderModel.AddColorsKeepsInv | src/core/SkPaintParamsKey.cpp:160-175 | add preserves the builder invariant |
| BuilderModel.AddPointerKeepsInv | src/core/SkPaintParamsKey.cpp:177-193 | addPointer preserves the builder invariant |
| BuilderModel.LockKeepsInv | src/core/SkPaintParamsKey.cpp:195-211 | lockAsKey preserves the builder invariant |
| BuilderModel.InvalidIgnoresBlocks | src/core/SkPaintParamsKey.cpp:41-193 | on an invalid builder every call sequence of a block tree changes nothing and meets every debug expectation |
| BuilderModel.WriteFields | src/core/SkPaintParamsKey.cpp:143-193 | writing a block's payload values appends their encoding and their pointers and advances the field cursor by their number |
| BuilderModel.WriteFieldsChecks | src/core/SkPaintParamsKey.cpp:130-141 | values that match the expected fields in order pass every checkExpectations |
| BuilderModel.FinishBlock | src/core/SkPaintParamsKey.cpp:86-127 | writing the payload and ending the block patches the header to header + children + payload, or collapses when that exceeds kMaxBlockSize |
| BuilderModel.BuildBlock | src/core/SkPaintParamsKey.cpp:37-127 | the calls for a block tree append its canonical encoding when every id is known and every block fits, and give the error state otherwise |
| BuilderModel.BuildFittingBlock | src/core/SkPaintParamsKey.cpp:37-127 | a known, fitting block tree appends exactly its canonical encoding and its pointers |
| BuilderModel.BuildFailingBlock | src/core/SkPaintParamsKey.cpp:37-127 | an unknown id or an oversized block anywhere in the tree collapses the builder to the error state |
| BuilderModel.BuildAll | src/core/SkPaintParamsKey.cpp:37-127 | the calls for a sequence of block trees append the concatenation of their encodings, or collapse |
| BuilderModel.BuildBlockChecks | src/core/SkPaintParamsKey.cpp:52-141 | the calls for a tree that conforms to the dictionary meet every SK_DEBUG expectation |
| BuilderModel.BuildAllChecks | src/core/SkPaintParamsKey.cpp:52-141 | the same for a sequence of trees |
| BuilderModel.BuildThenLock | src/core/SkPaintParamsKey.cpp:195-211 | building trees on a fresh builder and locking gives the key of their canonical encoding and pointers, or the error key with no pointers |
| KeyBuilder.PaintParamsKeyBuilder.constructor | src/core/SkPaintParamsKey.cpp:18-22 | a new builder is empty, valid and unlocked |
| KeyBuilder.PaintParamsKeyBuilder.BeginBlock | src/core/SkPaintParamsKey.cpp:41-83 | the in-place beginBlock performs BuilderModel.BeginBlock and keeps the lock count |
| KeyBuilder.PaintParamsKeyBuilder.PushFrame | src/core/SkPaintParamsKey.cpp:52-82 | the in-place frame push and the two header bytes perform BuilderModel.PushFrame |
| KeyBuilder.PaintParamsKeyBuilder.EndBlock | src/core/SkPaintParamsKey.cpp:86-127 | the in-place endBlock patches fData[headerOffset + 1] and performs BuilderModel.EndBlock |
| KeyBuilder.PaintParamsKeyBuilder.CheckExpectations | src/core/SkPaintParamsKey.cpp:129-141 | checkExpectations advances only the top frame's field cursor |
| KeyBuilder.PaintParamsKeyBuilder.AddBytes | src/core/SkPaintParamsKey.cpp:143-158 | the in-place addBytes performs BuilderModel.AddBytes |
| KeyBuilder.PaintParamsKeyBuilder.AddColors | src/core/SkPaintParamsKey.cpp:160-175 | the in-place add performs BuilderModel.AddColors |
| KeyBuilder.PaintParamsKeyBuilder.AddPointer | src/core/SkPaintParamsKey.cpp:177-193 | the in-place addPointer performs BuilderModel.AddPointer |
| KeyBuilder.PaintParamsKeyBuilder.MakeInvalid | src/core/SkPaintParamsKey.cpp:213-225 | the in-place makeInvalid leaves the error state through its own beginBlock and endBlock |
| KeyBuilder.PaintParamsKeyBuilder.LockAsKey | src/core/SkPaintParamsKey.cpp:195-211 | the in-place lockAsKey performs BuilderModel.LockAsKey and raises the lock count by one |
| KeyBuilder.PaintParamsKeyBuilder.Lock | src/core/SkPaintParamsKey.cpp:228-235 | constructing a key from the builder raises its lock count by one |
| KeyBuilder.PaintParamsKeyBuilder.Unlock | src/core/SkPaintParamsKey.cpp:242-246 | destroying that key lowers the lock count by one |
| KeyReader.ReadHeader | src/core/SkPaintParamsKey.cpp:319-328 | the snippet id is the byte at the offset and the block size the byte after it, and a header that passes read_header's checks describes a block of at least two bytes inside the span |
| KeyReader.MakeReader | src/core/SkPaintParamsKey.cpp:333-343 | the BlockReader constructor succeeds iff the header checks pass and the id is known; the reader's block is exactly blockSize bytes of the span at the offset |
| KeyReader.SkipBlocks | src/core/SkPaintParamsKey.cpp:352-356 | skipping n sibling headers moves at least two bytes per sibling and stays inside the block |
| KeyReader.Child | src/core/SkPaintParamsKey.cpp:347-359 | child(i) exists only for i below numChildren, and it is a well-formed block strictly inside its parent after the header |
| KeyReader.DataPayload | src/core/SkPaintParamsKey.cpp:361-370 | the payload starts after all the children and lies inside the block after the header |
| KeyReader.FieldBytes | src/core/SkPaintParamsKey.cpp:389-395 | the bytes of field k are field_size(k) bytes at field_offset(k) |
| KeyReader.Bytes | src/core/SkPaintParamsKey.cpp:397-402 | bytes(k) has the field's count of bytes |
| KeyReader.Colors | src/core/SkPaintParamsKey.cpp:404-409 | colors(k) has the field's count of colors |
| KeyReader.Pointer | src/core/SkPaintParamsKey.cpp:411-418 | pointer(k) is an entry of the key's pointer table |
| KeyReader.FieldOffsetStep | src/core/SkPaintParamsKey.cpp:381-387 | each field's offset is the previous offset plus the previous field's size |
| KeyReader.ComputeFieldOffset | src/core/SkPaintParamsKey.cpp:381-387 | the loop of field_offset computes the sum of the preceding field sizes |
| KeyReader.StepOverChildren | src/core/SkPaintParamsKey.cpp:352-356 | the header loop of child and dataPayload computes the offset after n siblings |
| KeyReader.ReadChild | src/core/SkPaintParamsKey.cpp:347-359 | child(i) as a loop gives the reader at the i-th sibling offset |
| KeyReader.ReadDataPayload | src/core/SkPaintParamsKey.cpp:361-370 | dataPayload as a loop gives the bytes from after the last child to the end of the block |
| KeyReader.Visit | src/core/SkPaintParamsKey.cpp:275-291 | a block's pre-order visit starts with the block itself |
| KeyReader.NumChildren | src/core/SkPaintParamsKey.cpp:345 | numChildren is the entry's child count; Child refuses every index at or above it, and KeyRoundTrip.VisitChildrenRoundTrip visits exactly the tree's children |
| KeyReader.VisitChildren | src/core/SkPaintParamsKey.cpp:286-288 | the loop over the children of AddBlockToShaderInfo; KeyRoundTrip.VisitChildrenRoundTrip states that an encoded block's children visit as their pre-order readers in index order |
| KeyReader.VisitKey | src/core/SkPaintParamsKey.cpp:293-301 | the loop over the top-level blocks of toShaderInfo; KeyRoundTrip.VisitKeyRoundTrip states that an encoded key visits as its forest's pre-order readers |
| KeyReader.AddBlockToShaderInfo | src/core/SkPaintParamsKey.cpp:275-291 | AddBlockToShaderInfo appends the block and then its children's visits in index order |
| KeyReader.ToShaderInfo | src/core/SkPaintParamsKey.cpp:293-301 | toShaderInfo appends the pre-order visits of the top-level blocks at offsets 0, blockSize, ... |
| KeyRoundTrip.ReaderOfEncoded | src/core/SkPaintParamsKey.cpp:333-343 | the reader constructed at an encoded block's offset reads exactly that block's encoding with its dictionary entry |
| KeyRoundTrip.ChildRoundTrip | src/core/SkPaintParamsKey.cpp:347-359 | child(i) of an encoded block is the reader of the block's i-th child tree |
| KeyRoundTrip.PayloadRoundTrip | src/core/SkPaintParamsKey.cpp:361-370 | dataPayload of an encoded block is exactly its encoded payload |
| KeyRoundTrip.FieldRoundTrip | src/core/SkPaintParamsKey.cpp:381-395 | field k of an encoded payload is the encoding of the k-th value written |
| KeyRoundTrip.BytesRoundTrip | src/core/SkPaintParamsKey.cpp:397-402 | bytes(k) returns the bytes that addBytes wrote |
| KeyRoundTrip.ColorsRoundTrip | src/core/SkPaintParamsKey.cpp:404-409 | colors(k) returns the colors that add wrote |
| KeyRoundTrip.PointerRoundTrip | src/core/SkPaintParamsKey.cpp:411-418 | pointer(k) returns the pointer that addPointer wrote |
| KeyRoundTrip.VisitRoundTrip | src/core/SkPaintParamsKey.cpp:275-291 | visiting an encoded block gives the readers of its tree in pre-order |
| KeyRoundTrip.VisitChildrenRoundTrip | src/core/SkPaintParamsKey.cpp:284-290 | visiting children from index i gives the pre-order readers of children i and after |
| KeyRoundTrip.VisitKeyRoundTrip | src/core/SkPaintParamsKey.cpp:293-301 | walking a key of encoded top-level blocks from the i-th offset gives the pre-order readers of blocks i and after |
| KeyRoundTrip.VisitErrorKey | src/core/SkPaintParamsKey.cpp:304-308 | the error key is walked as the single block {kError, 2} |
| KeyRoundTrip.BuildThenRead | src/core/SkPaintParamsKey.cpp:195-301 | building conforming trees, locking and running toShaderInfo gives every block of the trees in pre-order, or the error block alone when a block does not fit |
| TracePlayer.ResetState | src/sksl/tracing/SkVMDebugTracePlayer.cpp:12-32 | reset gives cursor 0, zero slots and write times, a clean dirty mask, the single global frame {-1, -1, nothing displayed}, and a return-value mask of exactly the slots with fnReturnValue >= 0 |
| TracePlayer.Player.constructor | src/sksl/tracing/SkVMDebugTracePlayer.cpp:12-32 | a new player is the reset state of its trace |
| TracePlayer.Player.Reset | src/sksl/tracing/SkVMDebugTracePlayer.cpp:12-32 | the in-place reset, including its return-value loop, gives ResetState |
| TracePlayer.WriteTimes | src/sksl/tracing/SkVMDebugTracePlayer.cpp:132-143 | the slots in [lo, hi) get the new time and every other slot keeps its time |
| TracePlayer.Player.UpdateVariableWriteTime | src/sksl/tracing/SkVMDebugTracePlayer.cpp:132-143 | the loop stamps every slot of the variable, from slot - componentIndex for columns x rows slots, with the position |
| TracePlayer.Execution | src/sksl/tracing/SkVMDebugTracePlayer.cpp:145-203 | execute keeps the state well formed, changes the stack's function list only by Enter and Exit, and returns true exactly for Line, Exit and an out-of-range position |
| TracePlayer.VarEventEffect | src/sksl/tracing/SkVMDebugTracePlayer.cpp:161-179 | a Var event stores the value, marks the slot dirty, stamps the variable's slots, and shows the slot in the top frame, or in the frame below for a return value |
| TracePlayer.ControlEventEffect | src/sksl/tracing/SkVMDebugTracePlayer.cpp:153-199 | Line sets the top frame's line, Enter pushes {fnIdx, -1, empty}, Exit pops, Scope changes nothing; only the stack changes |
| TracePlayer.LineEventShowsLine | src/sksl/tracing/SkVMDebugTracePlayer.cpp:153-160 | after a Line event the current line is the event's line |
| TracePlayer.Player.Execute | src/sksl/tracing/SkVMDebugTracePlayer.cpp:145-203 | the in-place execute performs Execution |
| TracePlayer.Tidied | src/sksl/tracing/SkVMDebugTracePlayer.cpp:64-72 | tidy clears the dirty mask and removes exactly the return-value slots from the top frame's display mask; the cursor, slots, write times, return-value mask, the other frames and the top frame's function and line are unchanged |
| TracePlayer.ClearedBelow | src/sksl/tracing/SkVMDebugTracePlayer.cpp:67-71 | below k a display bit survives iff it is not a return-value slot; the bits from k on are kept |
| TracePlayer.TidyIdempotent | src/sksl/tracing/SkVMDebugTracePlayer.cpp:64-72 | tidying twice is tidying once |
| TracePlayer.Player.Tidy | src/sksl/tracing/SkVMDebugTracePlayer.cpp:64-72 | the in-place tidy, including its loop over the top frame's mask, performs Tidied |
| TracePlayer.StepLoop | src/sksl/tracing/SkVMDebugTracePlayer.cpp:36-61 | the step loops keep the state replayable and never move the cursor back |
| TracePlayer.StepFrom | src/sksl/tracing/SkVMDebugTracePlayer.cpp:34-62 | step, stepOver and stepOut tidy and then loop; the cursor never decreases |
| TracePlayer.StepLoopBroke | src/sksl/tracing/SkVMDebugTracePlayer.cpp:36-61 | whether a step loop ends by breaking or by running to the end of the trace (the statements are in the lemmas below) |
| TracePlayer.StepStopsAtLine | src/sksl/tracing/SkVMDebugTracePlayer.cpp:34-41 | when step breaks, it breaks right after a Line or Exit event; when it does not, the trace is complete |
| TracePlayer.StepShowsLine | src/sksl/tracing/SkVMDebugTracePlayer.cpp:34-41 | when step stops on a Line event, getCurrentLine is that line |
| TracePlayer.StepPassesOnlyOthers | src/sksl/tracing/SkVMDebugTracePlayer.cpp:34-41 | every event step executes before the one it stops on is neither a Line nor an Exit |
| TracePlayer.StepOverStaysOut | src/sksl/tracing/SkVMDebugTracePlayer.cpp:43-52 | when stepOver breaks, the stack is no deeper than at the start; when it does not, the trace is complete |
| TracePlayer.StepOutLeaves | src/sksl/tracing/SkVMDebugTracePlayer.cpp:54-62 | when stepOut breaks, the stack is shallower than at the start; when it does not, the trace is complete |
| TracePlayer.StepLoopShape | src/sksl/tracing/SkVMDebugTracePlayer.cpp:36-61 | the frames a step loop leaves have the function indices that replaying its events in order gives |
| TracePlayer.StepLoopBreaksLast | src/sksl/tracing/SkVMDebugTracePlayer.cpp:36-61 | when a step loop breaks, the last event it ran meets the mode's break condition at the depths before and after it; otherwise the trace is complete |
| TracePlayer.StepLoopFirstBreak | src/sksl/tracing/SkVMDebugTracePlayer.cpp:36-61 | no event a step loop ran before its last meets the mode's break condition, and none at all when it ran to the end: step, stepOver and stepOut stop at the first qualifying event |
| TracePlayer.Player.RunUntilBreak | src/sksl/tracing/SkVMDebugTracePlayer.cpp:36-61 | the in-place while loop performs StepLoop |
| TracePlayer.Player.Step | src/sksl/tracing/SkVMDebugTracePlayer.cpp:34-41 | the in-place step performs StepFrom in step mode |
| TracePlayer.Player.StepOver | src/sksl/tracing/SkVMDebugTracePlayer.cpp:43-52 | the in-place stepOver performs StepFrom in step-over mode |
| TracePlayer.Player.StepOut | src/sksl/tracing/SkVMDebugTracePlayer.cpp:54-62 | the in-place stepOut performs StepFrom in step-out mode |
| TracePlayer.Player.GetCallStack | src/sksl/tracing/SkVMDebugTracePlayer.cpp:83-96 | getCallStack lists the functions of frames 1..n-1 in order, getStackDepth of them |
| TracePlayer.Player.TraceHasCompleted | src/sksl/tracing/SkVMDebugTracePlayer.cpp:74-76 | traceHasCompleted: no trace, or the cursor at or past the end; the loop condition of RunUntilBreak, whose stop lemmas (StepStopsAtLine, StepLoopBreaksLast) state what holds when it is true |
| TracePlayer.Player.GetCurrentLine | src/sksl/tracing/SkVMDebugTracePlayer.cpp:78-81 | getCurrentLine: the top frame's line; LineEventShowsLine and StepShowsLine state that it is the line of the last line event |
| TracePlayer.Player.GetStackDepth | src/sksl/tracing/SkVMDebugTracePlayer.cpp:93-96 | getStackDepth: the frames above the global one; GetCallStack states that the call stack has exactly that many entries |
| TracePlayer.Collect | src/sksl/tracing/SkVMDebugTracePlayer.cpp:103-105 | the collected variables have slots below the mask size |
| TracePlayer.CollectMembers | src/sksl/tracing/SkVMDebugTracePlayer.cpp:103-105 | forEachSetIndex collects exactly the set slots, each with its dirty bit and value |
| TracePlayer.CollectAscending | src/sksl/tracing/SkVMDebugTracePlayer.cpp:103-105 | set slots are collected in ascending slot order |
| TracePlayer.Insert | src/sksl/tracing/SkVMDebugTracePlayer.cpp:106-109 | insertion adds exactly one variable |
| TracePlayer.StableSort | src/sksl/tracing/SkVMDebugTracePlayer.cpp:106-109 | the sort is a permutation |
| TracePlayer.InsertOrdered | src/sksl/tracing/SkVMDebugTracePlayer.cpp:106-109 | inserting a variable with a higher slot keeps the order: later write first, ties by slot |
| TracePlayer.StableSortOrdered | src/sksl/tracing/SkVMDebugTracePlayer.cpp:106-109 | sorting slot-ascending variables orders by descending write time and keeps slot order among ties |
| TracePlayer.ShowsPermuted | src/sksl/tracing/SkVMDebugTracePlayer.cpp:106-109 | a permutation lists the same variables |
| TracePlayer.DisplayedVariables | src/sksl/tracing/SkVMDebugTracePlayer.cpp:98-111 | the displayed list has exactly the set slots, stably sorted by descending write time |
| TracePlayer.Player.GetVariablesForDisplayMask | src/sksl/tracing/SkVMDebugTracePlayer.cpp:98-111 | the variables of a mask are exactly its set slots, most recently written first |
| TracePlayer.Player.GetLocalVariables | src/sksl/tracing/SkVMDebugTracePlayer.cpp:113-123 | frame i is read at stack index i+1, and the list is empty when that index is out of range |
| TracePlayer.Player.GetGlobalVariables | src/sksl/tracing/SkVMDebugTracePlayer.cpp:125-130 | the global variables are those of frame 0, and none for an empty stack |
| PrefixExpression.GetConstantValue | src/sksl/ir/SkSLPrefixExpression.cpp:28 | a variable's constant value is either the expression itself or a compile-time constant |
| PrefixExpression.SimplifyNegation | src/sksl/ir/SkSLPrefixExpression.cpp:26-94 | simplify_negation; stated by SimplifyNegationSound (a simplification means the negation), RefusedNegationReported (a constant is refused only with an out-of-range report), NegateSplat and NegateDiagonalMatrix |
| PrefixExpression.NegateOperands | src/sksl/ir/SkSLPrefixExpression.cpp:96-109 | negate_operands keeps the number of arguments, and element i is the negated operand of argument i (its simplified negation, or a prefix minus over it) |
| PrefixExpression.NegateOperand | src/sksl/ir/SkSLPrefixExpression.cpp:111-120 | -(-e) becomes e; -literal becomes the negated literal, or stays a prefix minus when out of range (the error reported then is given by NegationReports) |
| PrefixExpression.NegationReports | src/sksl/ir/SkSLPrefixExpression.cpp:26-94 | the errors simplify_negation reports are all out-of-range literal errors |
| PrefixExpression.OperandsReports | src/sksl/ir/SkSLPrefixExpression.cpp:96-109 | the errors negate_operands reports, argument by argument, are all out-of-range literal errors |
| PrefixExpression.LogicalNotOperand | src/sksl/ir/SkSLPrefixExpression.cpp:122-146 | !literal b becomes the literal !b, !(!e) becomes e, and anything else is wrapped in a prefix not |
| PrefixExpression.Make | src/sksl/ir/SkSLPrefixExpression.cpp:222-257 | +e is e; -e and !e mean the negation and the logical not of e; ++, -- and ~ build a plain prefix node |
| PrefixExpression.MakeAt | src/sksl/ir/SkSLPrefixExpression.cpp:259-265 | the positioned Make gives Make's result at the new position |
| PrefixExpression.Convert | src/sksl/ir/SkSLPrefixExpression.cpp:148-220 | Convert succeeds iff the operator's type checks pass, and then gives Make; ~ in strict ES2 is refused; ~ on a literal type succeeds iff the type is an integer non-array and the coercion succeeds, and then applies to the coerced operand; a successful - carries the out-of-range errors its negation reported |
| PrefixExpression.SimplifyNegationSound | src/sksl/ir/SkSLPrefixExpression.cpp:26-94 | every simplified negation means the negation of the original expression |
| PrefixExpression.NegateOperandsSound | src/sksl/ir/SkSLPrefixExpression.cpp:96-109 | each negated operand means the negation of the operand at the same index |
| PrefixExpression.NegateOperandSound | src/sksl/ir/SkSLPrefixExpression.cpp:111-120 | negate_operand means the negation of its operand |
| PrefixExpression.LogicalNotSound | src/sksl/ir/SkSLPrefixExpression.cpp:122-146 | logical_not_operand means the logical not of its operand |
| PrefixExpression.RefusedNegationReported | src/sksl/ir/SkSLPrefixExpression.cpp:26-94 | a constant whose negation is not simplified has reported an error; a literal's negation is refused iff it is reported; an expression with no constant value reports nothing |
| PrefixExpression.NegatedUnsignedOneReported | src/sksl/ir/SkSLPrefixExpression.cpp:30-37 | -1u stays a prefix minus over the literal, with one out-of-range error for -1 at the literal's position |
| PrefixExpression.NegateSplat | src/sksl/ir/SkSLPrefixExpression.cpp:69-79 | a splat is negated iff its argument is a compile-time constant whose negation simplifies, and then becomes the splat of the negated argument |
| PrefixExpression.NegateDiagonalMatrix | src/sksl/ir/SkSLPrefixExpression.cpp:57-67 | a diagonal matrix is negated iff its argument is a compile-time constant whose negation simplifies, and then becomes the diagonal matrix of the negated argument |
| SkSLString.Strtoull | src/sksl/SkSLString.cpp:137 | strtoull's value is at most ULLONG_MAX and it stops inside the text |
| SkSLString.ToInt64 | src/sksl/SkSLString.cpp:138 | the cast to SKSL_INT is the 64-bit two's-complement value congruent to the parsed value |
| SkSLString.StripSuffix | src/sksl/SkSLString.cpp:129-132 | at most one trailing u or U is removed |
| SkSLString.Stoi | src/sksl/SkSLString.cpp:125-140 | the empty text is refused without storing; otherwise a value is stored, and acceptance implies a value of at most 0xFFFFFFFF |
| SkSLString.StoiOfParse | src/sksl/SkSLString.cpp:134-139 | when strtoull consumes the whole text, stoi accepts iff the value is at most 0xFFFFFFFF |
| SkSLString.StrtoullDecimal | src/sksl/SkSLString.cpp:137 | strtoull reads a decimal digit string back as its value, with ERANGE past ULLONG_MAX |
| SkSLString.StrtoullHexadecimal | src/sksl/SkSLString.cpp:137 | strtoull reads "0x" and hexadecimal digits back as their value |
| SkSLString.StoiDecimal | src/sksl/SkSLString.cpp:125-140 | stoi of n's decimal digits, with or without u/U, accepts iff n <= 0xFFFFFFFF and stores n |
| SkSLString.StoiHexadecimal | src/sksl/SkSLString.cpp:125-140 | the same for "0x" and n's hexadecimal digits |
| SkSLString.StoiAcceptsLoneSuffix | src/sksl/SkSLString.cpp:129-139 | as written, stoi accepts the text "u" (and "U") as 0 |
| SkSLString.StoiChecked | src/sksl/SkSLString.cpp:125-140 | with the emptiness check repeated after the suffix is stripped, acceptance needs at least one converted character; any text that is not empty after stripping gets stoi's result |
| SkSLString.AppendDotZero | src/sksl/SkSLString.cpp:29-40 | ".0" is appended iff the formatted number has neither '.' nor 'e' |
| SkSLString.DotZeroOnce | src/sksl/SkSLString.cpp:29-40 | the result never needs another ".0" |
| SkSLString.CString | src/sksl/SkSLString.cpp:78-82 | a const char* contributes the characters before its first NUL |
| SkSLString.CStringWhole | src/sksl/SkSLString.cpp:78-82 | a text without NUL contributes all its characters |
| SkSLString.SkString.AppendChar | src/sksl/SkSLString.cpp:90-93 | += c appends c in place |
| SkSLString.SkString.AppendCString | src/sksl/SkSLString.cpp:95-98 | += const char* appends its characters before the NUL in place |
| SkSLString.SkString.Append | src/sksl/SkSLString.cpp:100-108 | += String or string_view appends it in place |
| SkSLString.SkString.Concat | src/sksl/SkSLString.cpp:84-88 | a + s is a followed by s, and a is unchanged |
| SkSLString.SkString.ConcatCString | src/sksl/SkSLString.cpp:78-82 | a + const char* is a followed by the characters before the NUL |
| SkSLString.PrependCString | src/sksl/SkSLString.cpp:110-114 | const char* + String is the C string's characters followed by the String |
| FontMatching.FirstMatch | src/ports/SkFontMgr_mac_ct.cpp:259-263 | the lookup finds the first pair whose name matches, and none iff no pair matches |
| FontMatching.MapCssNames | src/ports/SkFontMgr_mac_ct.cpp:249-265 | the table loop returns the canonical name |
| FontMatching.CanonicalNames | src/ports/SkFontMgr_mac_ct.cpp:249-265 | sans-serif, serif and monospace map to Helvetica, Times and Courier; any other name is unchanged |
| FontMatching.CanonicalIdempotent | src/ports/SkFontMgr_mac_ct.cpp:249-265 | mapping a mapped name again changes nothing |
| FontMatching.Sqr | src/ports/SkFontMgr_mac_ct.cpp:328-331 | under sqr's range check the square is non-negative, below 0x7FFF squared, and zero iff the argument is |
| FontMatching.SqrNegation | src/ports/SkFontMgr_mac_ct.cpp:328-331 | sqr(-x) == sqr(x) |
| FontMatching.ComputeMetric | src/ports/SkFontMgr_mac_ct.cpp:333-338 | the metric is non-negative and zero iff weight, width and slant are all equal |
| FontMatching.MetricSymmetric | src/ports/SkFontMgr_mac_ct.cpp:333-338 | the metric is symmetric |
| FontMatching.MetricBelowMax | src/ports/SkFontMgr_mac_ct.cpp:333-338 | every metric is below SK_MaxS32, the starting best metric |
| FontMatching.MakeStyleSet | src/ports/SkFontMgr_mac_ct.cpp:349-357 | a failed descriptor match gives an empty style set, and a successful one holds exactly the matched styles |
| FontMatching.EarliestBestUnique | src/ports/SkFontMgr_mac_ct.cpp:394-411 | there is only one earliest best match |
| FontMatching.ExactMatchWins | src/ports/SkFontMgr_mac_ct.cpp:398-403 | when the pattern occurs in the set, the match is its first occurrence |
| FontMatching.FindMatchingDesc | src/ports/SkFontMgr_mac_ct.cpp:394-411 | findMatchingDesc returns the earliest candidate of minimum metric |
| FontMatching.MatchStyle | src/ports/SkFontMgr_mac_ct.cpp:383-388 | matchStyle gives nothing iff the set is empty, and the earliest best match otherwise |
| FontMatching.ExpectedTraits | src/ports/SkFontMgr_mac_ct.cpp:220-227 | the expected traits are the font's traits plus italic iff the slant is not upright plus bold iff the weight is at least bold; nothing else changes |
| FontMatching.TraitCopyRequest | src/ports/SkFontMgr_mac_ct.cpp:229-235 | a copy is requested iff a required trait is missing, and then with the expected traits |
| FontMatching.TraitCopySettles | src/ports/SkFontMgr_mac_ct.cpp:220-235 | a font with the expected traits requests no further copy |
| FontMatching.DescriptorTraitsFor | src/ports/SkFontMgr_mac_ct.cpp:155-193 | symbolic traits are set only before CoreText 10.14, as the expected traits; the slant is set except on 10.15, 0 iff upright |
| FontMatching.DescriptorTraitsSettle | src/ports/SkFontMgr_mac_ct.cpp:155-168 | a font with the descriptor's symbolic traits needs no trait copy |
| FontMatching.AsUnsigned | src/ports/SkFontMgr_mac_ct.cpp:702 | the unsigned cast keeps non-negative indices and sends negative ones past SK_MaxS32 |
| FontMatching.GetFamilyName | src/ports/SkFontMgr_mac_ct.cpp:701-707 | the family name for an index in [0, count), and the empty name for any other index, negative included |
| FontMatching.CreateStyleSet | src/ports/SkFontMgr_mac_ct.cpp:709-714 | a style set iff the index is in [0, count), the set of that family |
| FontMatching.MakeTypeface | src/ports/SkFontMgr_mac_ct.cpp:766-887 | every make-from entry point gives nothing for ttcIndex != 0, and from a file also when loading fails |

## Left out

- `SkBuiltInCodeSnippetID::kError` and `kMaxBlockSize` are declared in headers that are not part of this model. kError is taken as id 0 and kMaxBlockSize as 255, the largest value of the size byte. The dictionary is required to register kError with no children and no fields, as makeInvalid's own beginBlock/endBlock needs.
- Color payloads are 16 opaque bytes, and pointers are abstract addresses. The builder's `SkBackend`, blend info, requirement flags and the debug `dump` printers are left out.
- The tree-level round trip assumes at most 256 pointers in a key (`|PointersAll| <= 256`). This is the range in which addPointer's SK_DEBUG check holds; beyond it the index byte wraps, and that case is modelled only in BuilderModel.AddPointer.
- Object lifetimes are not modelled. The key's destructor is the explicit Unlock call. The key holds a value copy of the builder's bytes, not a span that aliases them.
- TracePlayer.EventOk assumes the trace's slot info is consistent: the slots of a variable event's variable lie inside the slot vector (VariableInRange). The source does not assert this; updateVariableWriteTime writes the write times of those slots unchecked.
- TracePlayer.EventOk requires an Exit event to leave the global frame in place (at least two frames). The source only asserts a non-empty stack. The stronger condition keeps getCurrentLine defined after every event.
- The trace is a value; `sk_sp` reference counting is left out. Events out of range in release builds are modelled (execute returns true), and so is getLocalVariables' SkDEBUGFAILF path, as its release `return {}`. The other SK_DEBUG checks (those of execute, getCurrentLine, getCallStack and getStackDepth) are preconditions.
- TracePlayer.Replayable: Step, StepOver and StepOut require every remaining event of the trace to pass execute's checks (EventOk), not only the events the loop runs before it breaks. A trace whose bad event lies after the next break is outside the model.
- PrefixExpression.GetConstantValue: `ConstantFolder::GetConstantValueForVariable` is modelled as a lookup of a variable's constant initializer in the context.
- PrefixExpression: `ConstructorArray::Make`, `ConstructorCompound::Make`, `ConstructorSplat::Make`, `ConstructorDiagonalMatrix::Make` and `Literal::Make` build the node without further folding.
- PrefixExpression: error message texts are not modelled, only the error kind, the position and, for an out-of-range literal, the value and type name.
- PrefixExpression.NegateOperand returns only the expression. The out-of-range errors its simplify_negation call reports are given by NegationReports, and Convert returns them with the converted expression.
- PrefixExpression: `Analysis::UpdateVariableRefKind` is modelled as the expression's assignability flag. The ref-kind update itself is left out.
- PrefixExpression: `coerceExpression` is a parameter of the context.
- PrefixExpression: literal values are integers. Floating-point literals and their range checks are outside the model; types without an integer range never report out-of-range.
- PrefixExpression.NegateOperands requires every argument to be a compile-time constant. This is the only way simplify_negation calls it.
- SkSLString: the double formatting of `to_string` (stringstream, precision 17) is left out, and AppendDotZero takes the formatted text as input. `stod`, `printf`, `appendf` and `vappendf` (varargs, vsnprintf) are left out.
- SkSLString.Strtoull: setting errno to EINVAL when nothing is converted is not modelled. POSIX allows it and macOS and BSD do it; the model follows ISO C section 7.22.1.4, as glibc does, and sets errno only to ERANGE.
- SkSLString.Strtoull: locale-dependent behaviour is left out. White space is the C locale's, and digits are ASCII.
- FontMatching: every CoreText, CoreFoundation and CoreGraphics call is a parameter or left out (descriptor creation, font copies, data providers, `uname`/version detection, `SkOnce` statics).
- FontMatching: the CGFloat weight and width conversions are left out. Styles are SkFontStyle's integer weight (0..1000), width (1..9) and slant; StyleOk states the ranges SkFontStyle pins them to.
- FontMatching: symbolic traits are a set of trait bits rather than a 32-bit mask; only the italic and bold bits are interpreted.
- FontMatching: `onMatchFamily`, `onMatchFamilyStyle`, `onMatchFamilyStyleCharacter`, `onLegacyMakeTypeface` and the fallback-font search are left out. They are lookups through CoreText with no logic of their own beyond the mapping and matching modelled here.
- FontMatching.MakeTypeface models only the rejections of the make-from entry points. Building a typeface from the data is a parameter.

## Findings

| source | as written | input that shows it | evidently intended | confidence | as-written member | corrected member |
|---|---|---|---|---|---|---|
| src/sksl/SkSLString.cpp:125-139 | the emptiness check comes before the u/U suffix is removed, so a lone suffix leaves an empty text; strtoull converts nothing and stops at its end, which equals strEnd, so stoi succeeds and stores 0, provided strtoull leaves errno at 0 when it converts nothing | `"u"` (or `"U"`) | a text that is only a suffix is refused like the empty text | not executed; holds with a C library that leaves errno at 0 on no conversion (glibc), not with one that sets EINVAL (macOS, BSD); the SkSL lexer may never hand stoi such a token | SkSLString.StoiAcceptsLoneSuffix | SkSLString.StoiChecked |
