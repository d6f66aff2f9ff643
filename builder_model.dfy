/** The state transitions of SkPaintParamsKeyBuilder as pure functions over a snapshot of
    the builder's fields. The class in KeyBuilder performs the same transitions in place.

    The functions follow the release behaviour; the SK_DEBUG expectation checks are the
    separate *Checks predicates, which the class methods demand of their callers. */
module BuilderModel {
  import opened KeyFormat

  /** One open block. The last four fields are the SK_DEBUG bookkeeping. */
  datatype StackFrame = StackFrame(
    snippetId: int,
    headerOffset: nat,
    expectations: seq<PayloadField>,
    curField: nat,
    numExpectedChildren: nat,
    numActualChildren: nat)

  /** fData, fPointerData, fStack and fIsValid. */
  datatype BuilderState = BuilderState(
    data: seq<byte>,
    pointerData: seq<Address>,
    stack: seq<StackFrame>,
    isValid: bool)

  /** A newly constructed builder. */
  const Fresh := BuilderState([], [], [], true)

  /** What makeInvalid leaves behind: the single block {kError, 2}. */
  const ErrorState := BuilderState([kErrorId, 2], [], [], false)

  function Top(stack: seq<StackFrame>): StackFrame
    requires stack != []
  {
    stack[|stack| - 1]
  }

  /** Replaces the top frame; the frames below it are untouched. */
  function WithTop(stack: seq<StackFrame>, f: StackFrame): (r: seq<StackFrame>)
    requires stack != []
  {
    stack[|stack| - 1 := f]
  }

  /** An open frame whose header is in place and whose bookkeeping matches the dictionary. */
  predicate FrameOk(dict: Dictionary, data: seq<byte>, f: StackFrame) {
    && f.headerOffset + kHeaderSize <= |data|
    && f.snippetId in dict
    && data[f.headerOffset] == f.snippetId
    && data[f.headerOffset + 1] == 0
    && f.expectations == dict[f.snippetId].fields
    && f.numExpectedChildren == dict[f.snippetId].numChildren
  }

  /** The builder invariant: an invalid builder holds exactly the error block, and the open
      frames' headers are in place, in order and do not overlap. */
  predicate Inv(dict: Dictionary, b: BuilderState) {
    && ValidDictionary(dict)
    && (!b.isValid ==> b == ErrorState)
    && (forall i | 0 <= i < |b.stack| :: FrameOk(dict, b.data, b.stack[i]))
    && (forall i, j | 0 <= i < j < |b.stack| ::
          b.stack[i].headerOffset + kHeaderSize <= b.stack[j].headerOffset)
  }

  /** The debug bookkeeping a child's beginBlock does on its parent frame: only the top
      frame's child count changes. */
  function CountChildren(stack: seq<StackFrame>, n: nat): (r: seq<StackFrame>)
  {
    if stack == [] then []
    else WithTop(stack, Top(stack).(numActualChildren := Top(stack).numActualChildren + n))
  }

  /** The debug bookkeeping of checkExpectations: only the top frame's field cursor
      changes, by n. */
  function AdvanceFields(stack: seq<StackFrame>, n: nat): (r: seq<StackFrame>)
    requires stack != []
  {
    WithTop(stack, Top(stack).(curField := Top(stack).curField + n))
  }

  /** Two stacks with the same frames below the top and the same top are equal. */
  lemma SameStack(s: seq<StackFrame>, t: seq<StackFrame>)
    requires s != [] && |s| == |t| && s[..|s| - 1] == t[..|t| - 1] && Top(s) == Top(t)
    ensures s == t
  {
    assert s == s[..|s| - 1] + [Top(s)];
    assert t == t[..|t| - 1] + [Top(t)];
  }

  /** Only the top frame's counters change: every frame keeps its header offset, and
      frames below the top are untouched. */
  lemma SameOffsets(s: seq<StackFrame>, t: seq<StackFrame>)
    requires s != [] && |s| == |t| && s[..|s| - 1] == t[..|t| - 1]
    requires Top(s).headerOffset == Top(t).headerOffset
    ensures forall i | 0 <= i < |s| :: s[i].headerOffset == t[i].headerOffset
    ensures forall i | 0 <= i < |s| - 1 :: s[i] == t[i]
  {
    forall i | 0 <= i < |s| - 1 ensures s[i] == t[i] {
      assert s[i] == s[..|s| - 1][i];
    }
  }

  lemma CountChildrenAdd(stack: seq<StackFrame>, m: nat, n: nat)
    ensures CountChildren(CountChildren(stack, m), n) == CountChildren(stack, m + n)
  {
    if stack != [] {
      SameStack(CountChildren(CountChildren(stack, m), n), CountChildren(stack, m + n));
    }
  }

  lemma CountNoChildren(stack: seq<StackFrame>)
    ensures CountChildren(stack, 0) == stack
  {
    if stack != [] {
      SameStack(CountChildren(stack, 0), stack);
    }
  }

  lemma AdvanceFieldsAdd(stack: seq<StackFrame>, m: nat, n: nat)
    requires stack != []
    ensures AdvanceFields(AdvanceFields(stack, m), n) == AdvanceFields(stack, m + n)
  {
    SameStack(AdvanceFields(AdvanceFields(stack, m), n), AdvanceFields(stack, m + n));
  }

  lemma AdvanceNoFields(stack: seq<StackFrame>)
    requires stack != []
    ensures AdvanceFields(stack, 0) == stack
  {
    SameStack(AdvanceFields(stack, 0), stack);
  }

  /** The valid path of beginBlock: count the child on the parent, push a frame at the
      current size and append [id, 0]. */
  function PushFrame(dict: Dictionary, b: BuilderState, id: int): (r: BuilderState)
    requires ValidDictionary(dict) && id in dict
    ensures r.data == b.data + [id, 0] && r.pointerData == b.pointerData
    ensures r.stack == CountChildren(b.stack, 1)
                       + [StackFrame(id, |b.data|, dict[id].fields, 0, dict[id].numChildren, 0)]
  {
    var entry := dict[id];
    var frame := StackFrame(id, |b.data|, entry.fields, 0, entry.numChildren, 0);
    b.(stack := CountChildren(b.stack, 1) + [frame], data := b.data + [id, 0])
  }

  /** The valid path of endBlock: patch the size byte of the top header and pop it. Under
      Inv the header always lies inside the buffer; the guard only keeps the function total. */
  function PopFrame(b: BuilderState): (r: BuilderState)
    requires b.stack != []
    requires |b.data| - Top(b.stack).headerOffset <= kMaxBlockSize
    ensures r.isValid == b.isValid && |r.data| == |b.data|
    ensures r.pointerData == b.pointerData && r.stack == b.stack[..|b.stack| - 1]
  {
    var offset := Top(b.stack).headerOffset;
    var size := |b.data| - offset;
    var data := if offset + 1 < |b.data| then b.data[offset + 1 := size] else b.data;
    b.(data := data, stack := b.stack[..|b.stack| - 1])
  }

  /** makeInvalid: drop everything, then write the block {kError, 2} by a beginBlock and an
      endBlock on the emptied builder, and mark the builder invalid. */
  function MakeInvalid(dict: Dictionary, b: BuilderState): (r: BuilderState)
    requires ValidDictionary(dict)
    ensures r == ErrorState
  {
    var cleared := BuilderState([], [], [], true);
    PopFrame(PushFrame(dict, cleared, kErrorId)).(isValid := false)
  }

  function BeginBlock(dict: Dictionary, b: BuilderState, id: int): (r: BuilderState)
    requires ValidDictionary(dict)
  {
    if !b.isValid then b
    else if id !in dict then MakeInvalid(dict, b)
    else PushFrame(dict, b, id)
  }

  function EndBlock(dict: Dictionary, b: BuilderState): (r: BuilderState)
    requires ValidDictionary(dict)
  {
    if !b.isValid then b
    else if b.stack == [] then MakeInvalid(dict, b)
    else if |b.data| - Top(b.stack).headerOffset > kMaxBlockSize then MakeInvalid(dict, b)
    else PopFrame(b)
  }

  function AddBytes(dict: Dictionary, b: BuilderState, bytes: seq<byte>): (r: BuilderState)
    requires ValidDictionary(dict)
  {
    if !b.isValid then b
    else if b.stack == [] then MakeInvalid(dict, b)
    else b.(data := b.data + bytes, stack := AdvanceFields(b.stack, 1))
  }

  /** add(numColors, colors): 16 bytes per color. */
  function AddColors(dict: Dictionary, b: BuilderState, colors: seq<Color4f>): (r: BuilderState)
    requires ValidDictionary(dict)
  {
    if !b.isValid then b
    else if b.stack == [] then MakeInvalid(dict, b)
    else b.(data := b.data + Flatten(colors), stack := AdvanceFields(b.stack, 1))
  }

  /** addPointer: the inline byte is the table size before the push, cast to uint8_t. */
  function AddPointer(dict: Dictionary, b: BuilderState, ptr: Address): (r: BuilderState)
    requires ValidDictionary(dict)
  {
    if !b.isValid then b
    else if b.stack == [] then MakeInvalid(dict, b)
    else
      b.(data := b.data + [|b.pointerData| % 256],
         pointerData := b.pointerData + [ptr],
         stack := AdvanceFields(b.stack, 1))
  }

  /** lockAsKey: collapse to the error block if a block is still open, then re-enable the
      builder with an empty stack; the key holds the current bytes and pointers. */
  function LockAsKey(dict: Dictionary, b: BuilderState): (r: (PaintParamsKey, BuilderState))
    requires ValidDictionary(dict)
    ensures r.1.isValid && r.1.stack == []
    ensures r.0 == PaintParamsKey(r.1.data, r.1.pointerData)
    ensures b.stack != [] ==> IsErrorKey(r.0) && r.0.pointerData == []
    ensures b.stack == [] ==> r.0 == PaintParamsKey(b.data, b.pointerData)
  {
    var closed := if b.stack != [] then MakeInvalid(dict, b) else b;
    var unlocked := closed.(isValid := true, stack := []);
    (PaintParamsKey(unlocked.data, unlocked.pointerData), unlocked)
  }

  // ---------------------------------------------------------------------------------------
  // The SK_DEBUG expectations

  /** beginBlock: a child is begun before any of its parent's payload fields. */
  predicate BeginBlockChecks(dict: Dictionary, b: BuilderState, id: int) {
    b.isValid && id in dict && b.stack != [] ==> Top(b.stack).curField == 0
  }

  /** endBlock: every declared field and child was written, and the parent (if any) has
      not written payload yet. */
  predicate EndBlockChecks(b: BuilderState) {
    b.isValid && b.stack != [] ==>
      && Top(b.stack).curField == |Top(b.stack).expectations|
      && Top(b.stack).numActualChildren == Top(b.stack).numExpectedChildren
      && (|b.stack| >= 2 ==> b.stack[|b.stack| - 2].curField == 0)
  }

  /** checkExpectations: the write is the next declared field, in type and count. */
  predicate FieldChecks(b: BuilderState, fieldType: PayloadType, count: nat) {
    b.isValid && b.stack != [] ==>
      && Top(b.stack).curField < |Top(b.stack).expectations|
      && Top(b.stack).expectations[Top(b.stack).curField] == PayloadField(fieldType, count)
  }

  /** addPointer additionally asserts that the table size still fits the inline byte. */
  predicate AddPointerChecks(b: BuilderState) {
    && FieldChecks(b, PointerIndex, 1)
    && (b.isValid && b.stack != [] ==> |b.pointerData| <= 0xFF)
  }

  // ---------------------------------------------------------------------------------------
  // The invariant

  lemma ErrorStateInv(dict: Dictionary)
    requires ValidDictionary(dict)
    ensures Inv(dict, ErrorState)
  {
  }

  /** Appending payload bytes and advancing the top frame's cursor keeps the invariant. */
  lemma AppendKeepsInv(dict: Dictionary, b: BuilderState, ext: seq<byte>, ptrs: seq<Address>)
    requires Inv(dict, b) && b.isValid && b.stack != []
    ensures Inv(dict, b.(data := b.data + ext, pointerData := ptrs, stack := AdvanceFields(b.stack, 1)))
  {
    var r := b.(data := b.data + ext, pointerData := ptrs, stack := AdvanceFields(b.stack, 1));
    SameOffsets(r.stack, b.stack);
    forall i | 0 <= i < |r.stack| ensures FrameOk(dict, r.data, r.stack[i]) {
      var f := b.stack[i];
      assert FrameOk(dict, b.data, f);
      assert r.data[f.headerOffset] == b.data[f.headerOffset];
      assert r.data[f.headerOffset + 1] == b.data[f.headerOffset + 1];
    }
  }

  lemma PushKeepsInv(dict: Dictionary, b: BuilderState, id: int)
    requires Inv(dict, b) && b.isValid && id in dict
    ensures Inv(dict, PushFrame(dict, b, id))
  {
    var r := PushFrame(dict, b, id);
    if b.stack != [] {
      SameOffsets(CountChildren(b.stack, 1), b.stack);
    }
    forall i | 0 <= i < |b.stack|
      ensures r.stack[i].headerOffset == b.stack[i].headerOffset
      ensures FrameOk(dict, r.data, r.stack[i])
    {
      var f := b.stack[i];
      assert FrameOk(dict, b.data, f);
      assert r.stack[i] == CountChildren(b.stack, 1)[i];
      assert r.data[f.headerOffset] == b.data[f.headerOffset];
      assert r.data[f.headerOffset + 1] == b.data[f.headerOffset + 1];
    }
  }

  lemma PopKeepsInv(dict: Dictionary, b: BuilderState)
    requires Inv(dict, b) && b.isValid && b.stack != []
    requires |b.data| - Top(b.stack).headerOffset <= kMaxBlockSize
    ensures Inv(dict, PopFrame(b))
  {
    var r := PopFrame(b);
    var top := |b.stack| - 1;
    forall i | 0 <= i < |r.stack| ensures FrameOk(dict, r.data, r.stack[i]) {
      assert r.stack[i] == b.stack[i];
      assert b.stack[i].headerOffset + kHeaderSize <= b.stack[top].headerOffset;
      assert FrameOk(dict, b.data, b.stack[i]);
    }
  }

  /** Every transition keeps the builder invariant. */
  lemma BeginBlockKeepsInv(dict: Dictionary, b: BuilderState, id: int)
    requires Inv(dict, b)
    ensures Inv(dict, BeginBlock(dict, b, id))
  {
    ErrorStateInv(dict);
    if b.isValid && id in dict {
      PushKeepsInv(dict, b, id);
    }
  }

  lemma EndBlockKeepsInv(dict: Dictionary, b: BuilderState)
    requires Inv(dict, b)
    ensures Inv(dict, EndBlock(dict, b))
  {
    ErrorStateInv(dict);
    if b.isValid && b.stack != [] && |b.data| - Top(b.stack).headerOffset <= kMaxBlockSize {
      PopKeepsInv(dict, b);
    }
  }

  lemma AddBytesKeepsInv(dict: Dictionary, b: BuilderState, bytes: seq<byte>)
    requires Inv(dict, b)
    ensures Inv(dict, AddBytes(dict, b, bytes))
  {
    ErrorStateInv(dict);
    if b.isValid && b.stack != [] {
      AppendKeepsInv(dict, b, bytes, b.pointerData);
    }
  }

  lemma AddColorsKeepsInv(dict: Dictionary, b: BuilderState, colors: seq<Color4f>)
    requires Inv(dict, b)
    ensures Inv(dict, AddColors(dict, b, colors))
  {
    ErrorStateInv(dict);
    if b.isValid && b.stack != [] {
      AppendKeepsInv(dict, b, Flatten(colors), b.pointerData);
    }
  }

  lemma AddPointerKeepsInv(dict: Dictionary, b: BuilderState, ptr: Address)
    requires Inv(dict, b)
    ensures Inv(dict, AddPointer(dict, b, ptr))
  {
    ErrorStateInv(dict);
    if b.isValid && b.stack != [] {
      AppendKeepsInv(dict, b, [|b.pointerData| % 256], b.pointerData + [ptr]);
    }
  }

  lemma LockKeepsInv(dict: Dictionary, b: BuilderState)
    requires Inv(dict, b)
    ensures Inv(dict, LockAsKey(dict, b).1)
  {
  }

  // ---------------------------------------------------------------------------------------
  // What each call does to the buffer

  /** beginBlock: nothing on an invalid builder, the error block for an unknown id, and
      otherwise a new frame at the old end of the buffer, followed by the bytes [id, 0]. */
  lemma BeginBlockEffect(dict: Dictionary, b: BuilderState, id: int)
    requires Inv(dict, b)
    ensures var r := BeginBlock(dict, b, id);
            && (!b.isValid ==> r == b)
            && (b.isValid && id !in dict ==> r == ErrorState)
            && (b.isValid && id in dict ==>
                  && r.isValid && r.data == b.data + [id, 0] && r.pointerData == b.pointerData
                  && |r.stack| == |b.stack| + 1
                  && Top(r.stack).headerOffset == |b.data| && Top(r.stack).curField == 0
                  && (b.stack != [] ==>
                        r.stack[|b.stack| - 1].numActualChildren == Top(b.stack).numActualChildren + 1))
  {
  }

  /** endBlock on a valid builder with an open block: the size byte of the top header
      becomes the block's size and no other byte changes, unless the block is too large
      for the byte, which collapses the builder to the error block. */
  lemma EndBlockPatchesHeader(dict: Dictionary, b: BuilderState)
    requires Inv(dict, b) && b.isValid && b.stack != []
    ensures var offset := Top(b.stack).headerOffset;
            var size := |b.data| - offset;
            var r := EndBlock(dict, b);
            if size > kMaxBlockSize then r == ErrorState
            else
              && r.isValid && r.stack == b.stack[..|b.stack| - 1] && r.pointerData == b.pointerData
              && |r.data| == |b.data| && r.data[offset + 1] == size
              && forall i | 0 <= i < |b.data| && i != offset + 1 :: r.data[i] == b.data[i]
  {
    assert FrameOk(dict, b.data, b.stack[|b.stack| - 1]);
  }

  /** The payload calls on a valid builder with an open block: addBytes appends the bytes,
      add appends 16 bytes per color, and addPointer appends the old size of the pointer
      table and then the pointer; each moves the top frame's field cursor by one. */
  lemma PayloadEffect(dict: Dictionary, b: BuilderState, bytes: seq<byte>, colors: seq<Color4f>, ptr: Address)
    requires Inv(dict, b) && b.isValid && b.stack != [] && |b.pointerData| <= 0xFF
    ensures AddBytes(dict, b, bytes).data == b.data + bytes
    ensures |AddColors(dict, b, colors).data| == |b.data| + 16 * |colors|
    ensures AddPointer(dict, b, ptr).data == b.data + [|b.pointerData|]
    ensures AddPointer(dict, b, ptr).pointerData == b.pointerData + [ptr]
    ensures AddBytes(dict, b, bytes).stack == AddColors(dict, b, colors).stack
            == AddPointer(dict, b, ptr).stack == AdvanceFields(b.stack, 1)
  {
  }

  /** A call on a builder with no open block other than beginBlock collapses it. */
  lemma NoOpenBlockCollapses(dict: Dictionary, b: BuilderState, bytes: seq<byte>, colors: seq<Color4f>, ptr: Address)
    requires Inv(dict, b) && b.isValid && b.stack == []
    ensures EndBlock(dict, b) == AddBytes(dict, b, bytes) == AddColors(dict, b, colors)
            == AddPointer(dict, b, ptr) == ErrorState
  {
  }

  // ---------------------------------------------------------------------------------------
  // Writing a tree of blocks

  /** The payload call for one value: addBytes, add or addPointer. */
  function WriteValue(dict: Dictionary, b: BuilderState, value: FieldValue): (r: BuilderState)
    requires ValidDictionary(dict)
  {
    match value
    case ByteValues(bs) => AddBytes(dict, b, bs)
    case ColorValues(cs) => AddColors(dict, b, cs)
    case PointerValue(address) => AddPointer(dict, b, address)
  }

  /** The payload calls for a block's values, in declaration order. */
  function WriteValues(dict: Dictionary, b: BuilderState, values: seq<FieldValue>): (r: BuilderState)
    requires ValidDictionary(dict)
    decreases |values|
  {
    if values == [] then b else WriteValues(dict, WriteValue(dict, b, values[0]), values[1..])
  }

  /** The calls a client makes to write a block: beginBlock, the children, the payload
      fields, endBlock. */
  function WriteBlock(dict: Dictionary, b: BuilderState, t: Block): (r: BuilderState)
    requires ValidDictionary(dict)
    decreases t, 1
  {
    var begun := BeginBlock(dict, b, t.id);
    var withChildren := WriteBlocks(dict, begun, t.children);
    EndBlock(dict, WriteValues(dict, withChildren, t.values))
  }

  function WriteBlocks(dict: Dictionary, b: BuilderState, ts: seq<Block>): (r: BuilderState)
    requires ValidDictionary(dict)
    decreases ts, 0
  {
    if ts == [] then b else WriteBlocks(dict, WriteBlock(dict, b, ts[0]), ts[1..])
  }

  predicate ValueChecks(b: BuilderState, value: FieldValue) {
    match value
    case ByteValues(bs) => FieldChecks(b, Byte, |bs|)
    case ColorValues(cs) => FieldChecks(b, Float4, |cs|)
    case PointerValue(_) => AddPointerChecks(b)
  }

  /** No payload call trips an SK_DEBUG expectation. */
  predicate ValuesChecks(dict: Dictionary, b: BuilderState, values: seq<FieldValue>)
    requires ValidDictionary(dict)
    decreases |values|
  {
    values == [] ||
      (ValueChecks(b, values[0]) && ValuesChecks(dict, WriteValue(dict, b, values[0]), values[1..]))
  }

  /** No call made to write the block trips an SK_DEBUG expectation. */
  predicate BlockChecks(dict: Dictionary, b: BuilderState, t: Block)
    requires ValidDictionary(dict)
    decreases t, 1
  {
    var begun := BeginBlock(dict, b, t.id);
    var withChildren := WriteBlocks(dict, begun, t.children);
    && BeginBlockChecks(dict, b, t.id)
    && BlocksChecks(dict, begun, t.children)
    && ValuesChecks(dict, withChildren, t.values)
    && EndBlockChecks(WriteValues(dict, withChildren, t.values))
  }

  predicate BlocksChecks(dict: Dictionary, b: BuilderState, ts: seq<Block>)
    requires ValidDictionary(dict)
    decreases ts, 0
  {
    ts == [] || (BlockChecks(dict, b, ts[0]) && BlocksChecks(dict, WriteBlock(dict, b, ts[0]), ts[1..]))
  }

  /** Every snippet id of the tree is known to the dictionary. */
  predicate Known(dict: Dictionary, t: Block)
    decreases t
  {
    t.id in dict && KnownAll(dict, t.children)
  }

  predicate KnownAll(dict: Dictionary, ts: seq<Block>)
    decreases ts
  {
    ts == [] || (Known(dict, ts[0]) && KnownAll(dict, ts[1..]))
  }

  lemma {:induction false} ConformsIsKnown(dict: Dictionary, t: Block)
    requires Conforms(dict, t)
    ensures Known(dict, t)
    decreases t, 1
  {
    ConformsAllIsKnown(dict, t.children);
  }

  lemma {:induction false} ConformsAllIsKnown(dict: Dictionary, ts: seq<Block>)
    requires ConformsAll(dict, ts)
    ensures KnownAll(dict, ts)
    decreases ts, 0
  {
    if ts != [] {
      ConformsIsKnown(dict, ts[0]);
      ConformsAllIsKnown(dict, ts[1..]);
    }
  }

  /** An invalid builder ignores all the calls of a tree. */
  lemma {:induction false} InvalidIgnoresValues(dict: Dictionary, b: BuilderState, values: seq<FieldValue>)
    requires ValidDictionary(dict) && !b.isValid
    ensures WriteValues(dict, b, values) == b
    ensures ValuesChecks(dict, b, values)
    decreases |values|
  {
    if values != [] {
      InvalidIgnoresValues(dict, WriteValue(dict, b, values[0]), values[1..]);
    }
  }

  lemma {:induction false} InvalidIgnoresBlock(dict: Dictionary, b: BuilderState, t: Block)
    requires ValidDictionary(dict) && !b.isValid
    ensures WriteBlock(dict, b, t) == b
    ensures BlockChecks(dict, b, t)
    decreases t, 1
  {
    InvalidIgnoresBlocks(dict, b, t.children);
    InvalidIgnoresValues(dict, b, t.values);
  }

  lemma {:induction false} InvalidIgnoresBlocks(dict: Dictionary, b: BuilderState, ts: seq<Block>)
    requires ValidDictionary(dict) && !b.isValid
    ensures WriteBlocks(dict, b, ts) == b
    ensures BlocksChecks(dict, b, ts)
    decreases ts, 0
  {
    if ts != [] {
      InvalidIgnoresBlock(dict, b, ts[0]);
      InvalidIgnoresBlocks(dict, b, ts[1..]);
    }
  }

  lemma ConcatAssoc<T>(a: seq<T>, b: seq<T>, c: seq<T>)
    ensures a + b + c == a + (b + c)
  {
  }

  /** One payload call on an open block appends the value's encoding, registers its
      pointer and advances the field cursor. */
  lemma WriteOne(dict: Dictionary, b: BuilderState, v: FieldValue)
    requires ValidDictionary(dict) && b.isValid && b.stack != []
    requires |b.pointerData| + |ValuePointer(v)| <= 256
    ensures WriteValue(dict, b, v) ==
      b.(data := b.data + EncodeValue(v, |b.pointerData|),
         pointerData := b.pointerData + ValuePointer(v),
         stack := AdvanceFields(b.stack, 1))
  {
  }

  /** Writing payload values into an open block appends their encoding, registers their
      pointers in order and advances the field cursor once per value. */
  lemma {:induction false} WriteFields(dict: Dictionary, b: BuilderState, values: seq<FieldValue>)
    requires ValidDictionary(dict) && b.isValid && b.stack != []
    requires |b.pointerData| + |ValuePointers(values)| <= 256
    ensures WriteValues(dict, b, values) ==
      b.(data := b.data + EncodePayload(values, |b.pointerData|),
         pointerData := b.pointerData + ValuePointers(values),
         stack := AdvanceFields(b.stack, |values|))
    decreases |values|
  {
    var p := |b.pointerData|;
    if values == [] {
      AdvanceNoFields(b.stack);
      assert b.data + EncodePayload(values, p) == b.data;
      assert b.pointerData + ValuePointers(values) == b.pointerData;
    } else {
      var v, tail := values[0], values[1..];
      var own, rest := ValuePointer(v), ValuePointers(tail);
      assert ValuePointers(values) == own + rest;
      WriteOne(dict, b, v);
      var s1 := WriteValue(dict, b, v);
      WriteFields(dict, s1, tail);
      var r := WriteValues(dict, s1, tail);
      assert WriteValues(dict, b, values) == r;
      var e0, e1 := EncodeValue(v, p), EncodePayload(tail, p + |own|);
      assert r.data == b.data + EncodePayload(values, p) by {
        assert EncodePayload(values, p) == e0 + e1;
        ConcatAssoc(b.data, e0, e1);
      }
      assert r.pointerData == b.pointerData + ValuePointers(values) by {
        ConcatAssoc(b.pointerData, own, rest);
      }
      assert r.stack == AdvanceFields(b.stack, |values|) by {
        AdvanceFieldsAdd(b.stack, 1, |tail|);
      }
    }
  }

  /** The remaining payload values are the next declared fields of the frame. */
  predicate FieldsExpected(f: StackFrame, values: seq<FieldValue>) {
    && f.curField + |values| <= |f.expectations|
    && forall k | 0 <= k < |values| :: ValueMatches(f.expectations[f.curField + k], values[k])
  }

  /** Payload values that are the frame's next declared fields trip no expectation. */
  lemma {:induction false} WriteFieldsChecks(dict: Dictionary, b: BuilderState, values: seq<FieldValue>)
    requires ValidDictionary(dict) && b.isValid && b.stack != []
    requires |b.pointerData| + |ValuePointers(values)| <= 256
    requires FieldsExpected(Top(b.stack), values)
    ensures ValuesChecks(dict, b, values)
    decreases |values|
  {
    if values != [] {
      var v := values[0];
      var f := Top(b.stack);
      assert ValuePointers(values) == ValuePointer(v) + ValuePointers(values[1..]);
      assert ValueMatches(f.expectations[f.curField + 0], v);
      assert ValueChecks(b, v);
      var s1 := WriteValue(dict, b, v);
      assert s1.stack == AdvanceFields(b.stack, 1);
      assert FieldsExpected(Top(s1.stack), values[1..]) by {
        forall k | 0 <= k < |values| - 1
          ensures ValueMatches(Top(s1.stack).expectations[Top(s1.stack).curField + k], values[1..][k])
        {
          assert ValueMatches(f.expectations[f.curField + (k + 1)], values[k + 1]);
        }
      }
      WriteFieldsChecks(dict, s1, values[1..]);
    }
  }

  /** Header patching in endBlock, as a sequence identity. */
  lemma PatchHeader(prefix: seq<byte>, id: byte, size: byte, rest: seq<byte>)
    ensures (prefix + ([id, 0] + rest))[|prefix| + 1 := size] == prefix + ([id, size] + rest)
  {
    var a := (prefix + ([id, 0] + rest))[|prefix| + 1 := size];
    var c := prefix + ([id, size] + rest);
    assert |a| == |c|;
    forall i | 0 <= i < |a| ensures a[i] == c[i] {
      if i < |prefix| {
      } else if i < |prefix| + 2 {
      } else {
        assert a[i] == rest[i - |prefix| - 2];
      }
    }
  }

  /** Replacing the top frame of a pushed stack. */
  lemma ReplaceTop(lower: seq<StackFrame>, f: StackFrame, g: StackFrame)
    ensures (lower + [f])[|lower| := g] == lower + [g]
    ensures (lower + [g])[..|lower|] == lower
  {
  }

  /** The payload calls and the endBlock that close a block whose children are written. */
  lemma FinishBlock(dict: Dictionary, s: BuilderState, prefix: seq<byte>, id: byte,
                    children: seq<byte>, values: seq<FieldValue>,
                    lower: seq<StackFrame>, top: StackFrame, payload: seq<byte>, size: nat)
    requires ValidDictionary(dict) && s.isValid
    requires s.data == prefix + [id, 0] + children
    requires s.stack == lower + [top] && top.headerOffset == |prefix|
    requires |s.pointerData| + |ValuePointers(values)| <= 256
    requires payload == EncodePayload(values, |s.pointerData|)
    requires size == kHeaderSize + |children| + |payload|
    ensures
      EndBlock(dict, WriteValues(dict, s, values)) ==
        if size > kMaxBlockSize then ErrorState
        else BuilderState(prefix + ([id, size] + (children + payload)),
                          s.pointerData + ValuePointers(values), lower, true)
  {
    var rest := children + payload;
    WriteFields(dict, s, values);
    var s3 := WriteValues(dict, s, values);
    var top' := top.(curField := top.curField + |values|);
    assert s3.data == prefix + ([id, 0] + rest) by {
      ConcatAssoc(prefix + [id, 0], children, payload);
      ConcatAssoc(prefix, [id, 0], rest);
    }
    assert s3.stack == lower + [top'] by {
      ReplaceTop(lower, top, top');
    }
    EndFinished(dict, s3, prefix, id, rest, lower, top', size);
  }

  /** endBlock on a block whose header sits after `prefix`: the size byte is patched and
      the frame popped, or the builder collapses when the block is too large. */
  lemma EndFinished(dict: Dictionary, s: BuilderState, prefix: seq<byte>, id: byte,
                    rest: seq<byte>, lower: seq<StackFrame>, top: StackFrame, size: nat)
    requires ValidDictionary(dict) && s.isValid
    requires s.data == prefix + ([id, 0] + rest) && s.stack == lower + [top]
    requires top.headerOffset == |prefix| && size == kHeaderSize + |rest|
    ensures EndBlock(dict, s) ==
      if size > kMaxBlockSize then ErrorState
      else BuilderState(prefix + ([id, size] + rest), s.pointerData, lower, true)
  {
    assert Top(s.stack) == top;
    assert |s.data| - top.headerOffset == size;
    if size <= kMaxBlockSize {
      PatchHeader(prefix, id, size, rest);
      ReplaceTop(lower, top, top);
    }
  }

  /** A block's size counts its header, its children's encoding and its payload; when it
      fits, its encoding is the header followed by those bytes. */
  lemma BlockParts(t: Block, base: nat, ea: seq<byte>, payload: seq<byte>)
    requires FitsAll(t.children) && base + |Pointers(t)| <= 256
    requires ea == EncodeAll(t.children, base)
    requires payload == EncodePayload(t.values, base + |PointersAll(t.children)|)
    ensures EncodedSize(t) == kHeaderSize + |ea| + |payload|
    ensures Fits(t) ==> Encode(t, base) == [t.id, EncodedSize(t)] + (ea + payload)
  {
    EncodeAllLength(t.children, base);
    PayloadLength(t.values, base + |PointersAll(t.children)|);
  }

  /** Writing a tree in an open or empty context appends exactly its canonical encoding
      and its pointers and counts one child on the parent; the builder collapses to the
      error block instead when a snippet id is unknown or a block exceeds kMaxBlockSize. */
  lemma BuildBlock(dict: Dictionary, b: BuilderState, t: Block)
    requires ValidDictionary(dict) && b.isValid
    requires |b.pointerData| + |Pointers(t)| <= 256
    ensures WriteBlock(dict, b, t) ==
      if Known(dict, t) && Fits(t) then
        b.(data := b.data + Encode(t, |b.pointerData|),
           pointerData := b.pointerData + Pointers(t),
           stack := CountChildren(b.stack, 1))
      else ErrorState
    decreases t, 2
  {
    if Known(dict, t) && Fits(t) {
      BuildFittingBlock(dict, b, t);
    } else {
      BuildFailingBlock(dict, b, t);
    }
  }

  /** The calls for a block whose children were written, as far as the end of the block. */
  lemma {:induction false} BuildBlockSteps(dict: Dictionary, b: BuilderState, t: Block,
                                           ea: seq<byte>, payload: seq<byte>, size: nat)
    requires ValidDictionary(dict) && b.isValid && t.id in dict
    requires |b.pointerData| + |Pointers(t)| <= 256
    requires KnownAll(dict, t.children) && FitsAll(t.children)
    requires ea == EncodeAll(t.children, |b.pointerData|)
    requires payload == EncodePayload(t.values, |b.pointerData| + |PointersAll(t.children)|)
    requires size == kHeaderSize + |ea| + |payload|
    ensures
      WriteBlock(dict, b, t) ==
        if size > kMaxBlockSize then ErrorState
        else BuilderState(b.data + ([t.id, size] + (ea + payload)),
                          b.pointerData + PointersAll(t.children) + ValuePointers(t.values),
                          CountChildren(b.stack, 1), true)
    decreases t, 0
  {
    var p := |b.pointerData|;
    var pc := PointersAll(t.children);
    assert |Pointers(t)| == |pc| + |ValuePointers(t.values)|;
    var s1 := BeginBlock(dict, b, t.id);
    BuildAll(dict, s1, t.children);
    var s2 := WriteBlocks(dict, s1, t.children);
    var lower := CountChildren(b.stack, 1);
    var frame := Top(s1.stack);
    var top := frame.(numActualChildren := |t.children|);
    assert s1.stack == lower + [frame];
    assert s2.stack == lower + [top] by {
      ReplaceTop(lower, frame, top);
    }
    assert s2.pointerData == b.pointerData + pc;
    FinishBlock(dict, s2, b.data, t.id, ea, t.values, lower, top, payload, size);
    assert WriteBlock(dict, b, t) == EndBlock(dict, WriteValues(dict, s2, t.values));
  }

  lemma {:induction false} BuildFittingBlock(dict: Dictionary, b: BuilderState, t: Block)
    requires ValidDictionary(dict) && b.isValid && Known(dict, t) && Fits(t)
    requires |b.pointerData| + |Pointers(t)| <= 256
    ensures WriteBlock(dict, b, t) ==
      b.(data := b.data + Encode(t, |b.pointerData|),
         pointerData := b.pointerData + Pointers(t),
         stack := CountChildren(b.stack, 1))
    decreases t, 1
  {
    var p := |b.pointerData|;
    var pc := PointersAll(t.children);
    var ea := EncodeAll(t.children, p);
    var payload := EncodePayload(t.values, p + |pc|);
    assert t.id in dict && KnownAll(dict, t.children);
    assert FitsAll(t.children) && EncodedSize(t) <= kMaxBlockSize;
    var vp := ValuePointers(t.values);
    var stack := CountChildren(b.stack, 1);
    BlockParts(t, p, ea, payload);
    var size: byte := EncodedSize(t);
    BuildBlockSteps(dict, b, t, ea, payload, size);
    assert WriteBlock(dict, b, t) == BuilderState(b.data + ([t.id, size] + (ea + payload)), b.pointerData + pc + vp, stack, true);
    assert Pointers(t) == pc + vp;
    AppendedState(b, t.id, size, ea, payload, pc, vp, Encode(t, p), stack);
  }

  /** The state BuildBlockSteps describes, written as an append to the valid builder b. */
  lemma AppendedState(b: BuilderState, id: byte, size: byte, ea: seq<byte>, payload: seq<byte>,
                      pc: seq<Address>, vp: seq<Address>, enc: seq<byte>, stack: seq<StackFrame>)
    requires b.isValid && enc == [id, size] + (ea + payload)
    ensures BuilderState(b.data + ([id, size] + (ea + payload)), b.pointerData + pc + vp, stack, true)
            == b.(data := b.data + enc, pointerData := b.pointerData + (pc + vp), stack := stack)
  {
    ConcatAssoc(b.pointerData, pc, vp);
  }

  lemma {:induction false} BuildFailingBlock(dict: Dictionary, b: BuilderState, t: Block)
    requires ValidDictionary(dict) && b.isValid && !(Known(dict, t) && Fits(t))
    requires |b.pointerData| + |Pointers(t)| <= 256
    ensures WriteBlock(dict, b, t) == ErrorState
    decreases t, 1
  {
    var s1 := BeginBlock(dict, b, t.id);
    if t.id !in dict {
      InvalidIgnoresBlocks(dict, s1, t.children);
      InvalidIgnoresValues(dict, s1, t.values);
    } else if !(KnownAll(dict, t.children) && FitsAll(t.children)) {
      assert |Pointers(t)| == |PointersAll(t.children)| + |ValuePointers(t.values)|;
      BuildAll(dict, s1, t.children);
      InvalidIgnoresValues(dict, WriteBlocks(dict, s1, t.children), t.values);
    } else {
      var p := |b.pointerData|;
      var ea := EncodeAll(t.children, p);
      var payload := EncodePayload(t.values, p + |PointersAll(t.children)|);
      BlockParts(t, p, ea, payload);
      BuildBlockSteps(dict, b, t, ea, payload, EncodedSize(t));
    }
  }

  /** Appending the first tree's encoding and then its siblings' is appending the
      encoding of them all. */
  lemma AppendEncodings(data: seq<byte>, ts: seq<Block>, base: nat)
    requires ts != [] && FitsAll(ts) && base + |PointersAll(ts)| <= 256
    ensures Fits(ts[0]) && FitsAll(ts[1..])
    ensures data + Encode(ts[0], base) + EncodeAll(ts[1..], base + |Pointers(ts[0])|)
            == data + EncodeAll(ts, base)
  {
    ConcatAssoc(data, Encode(ts[0], base), EncodeAll(ts[1..], base + |Pointers(ts[0])|));
  }

  /** Writing sibling trees one after another. */
  lemma {:induction false} BuildAll(dict: Dictionary, b: BuilderState, ts: seq<Block>)
    requires ValidDictionary(dict) && b.isValid
    requires |b.pointerData| + |PointersAll(ts)| <= 256
    ensures WriteBlocks(dict, b, ts) ==
      if KnownAll(dict, ts) && FitsAll(ts) then
        b.(data := b.data + EncodeAll(ts, |b.pointerData|),
           pointerData := b.pointerData + PointersAll(ts),
           stack := CountChildren(b.stack, |ts|))
      else ErrorState
    decreases ts, 0
  {
    if ts == [] {
      CountNoChildren(b.stack);
      assert b.data + EncodeAll(ts, |b.pointerData|) == b.data;
      assert b.pointerData + PointersAll(ts) == b.pointerData;
    } else {
      var p := |b.pointerData|;
      var p0 := Pointers(ts[0]);
      assert PointersAll(ts) == p0 + PointersAll(ts[1..]);
      BuildBlock(dict, b, ts[0]);
      var s1 := WriteBlock(dict, b, ts[0]);
      if !(Known(dict, ts[0]) && Fits(ts[0])) {
        InvalidIgnoresBlocks(dict, s1, ts[1..]);
      } else {
        BuildAll(dict, s1, ts[1..]);
        var r := WriteBlocks(dict, s1, ts[1..]);
        assert WriteBlocks(dict, b, ts) == r;
        if KnownAll(dict, ts) && FitsAll(ts) {
          AppendEncodings(b.data, ts, p);
          assert r.pointerData == b.pointerData + PointersAll(ts) by {
            ConcatAssoc(b.pointerData, p0, PointersAll(ts[1..]));
          }
          assert r.stack == CountChildren(b.stack, |ts|) by {
            CountChildrenAdd(b.stack, 1, |ts| - 1);
          }
        }
      }
    }
  }

  /** The calls for a conforming tree trip no SK_DEBUG expectation, provided the parent
      has not started its payload. */
  lemma {:induction false} BuildBlockChecks(dict: Dictionary, b: BuilderState, t: Block)
    requires ValidDictionary(dict) && b.isValid && Conforms(dict, t)
    requires |b.pointerData| + |Pointers(t)| <= 256
    requires b.stack == [] || Top(b.stack).curField == 0
    ensures BlockChecks(dict, b, t)
    decreases t, 1
  {
    var s1 := BeginBlock(dict, b, t.id);
    BuildAll(dict, s1, t.children);
    BuildAllChecks(dict, s1, t.children);
    var s2 := WriteBlocks(dict, s1, t.children);
    if !(KnownAll(dict, t.children) && FitsAll(t.children)) {
      InvalidIgnoresValues(dict, s2, t.values);
      return;
    }
    var n, m := |t.children|, |t.values|;
    assert |Pointers(t)| == |PointersAll(t.children)| + |ValuePointers(t.values)|;
    WriteFields(dict, s2, t.values);
    WriteFieldsChecks(dict, s2, t.values);
    var s3 := WriteValues(dict, s2, t.values);
    assert s3.stack == AdvanceFields(CountChildren(s1.stack, n), m);
    assert s1.stack[..|s1.stack| - 1] == CountChildren(b.stack, 1);
    assert s3.stack[..|s3.stack| - 1] == CountChildren(b.stack, 1);
    if |b.stack| > 0 {
      assert s3.stack[|s3.stack| - 2] == s3.stack[..|s3.stack| - 1][|b.stack| - 1];
    }
    var entry := dict[t.id];
    var frame := StackFrame(t.id, |b.data|, entry.fields, 0, entry.numChildren, 0);
    assert Top(s1.stack) == frame;
    assert Top(s3.stack) == frame.(numActualChildren := n, curField := m);
  }

  lemma {:induction false} BuildAllChecks(dict: Dictionary, b: BuilderState, ts: seq<Block>)
    requires ValidDictionary(dict) && b.isValid && ConformsAll(dict, ts)
    requires |b.pointerData| + |PointersAll(ts)| <= 256
    requires b.stack == [] || Top(b.stack).curField == 0
    ensures BlocksChecks(dict, b, ts)
    decreases ts, 0
  {
    if ts != [] {
      BuildBlock(dict, b, ts[0]);
      BuildBlockChecks(dict, b, ts[0]);
      var s1 := WriteBlock(dict, b, ts[0]);
      if !(Known(dict, ts[0]) && Fits(ts[0])) {
        InvalidIgnoresBlocks(dict, s1, ts[1..]);
      } else {
        assert |PointersAll(ts)| == |Pointers(ts[0])| + |PointersAll(ts[1..])|;
        BuildAllChecks(dict, s1, ts[1..]);
      }
    }
  }

  /** A fresh builder that writes top-level blocks and is then locked yields the canonical
      encoding with the pointers in registration order, or the error key when a snippet id
      is unknown or a block is too large; for conforming trees no expectation is tripped. */
  lemma BuildThenLock(dict: Dictionary, ts: seq<Block>)
    requires ValidDictionary(dict) && |PointersAll(ts)| <= 256
    ensures
      var key := LockAsKey(dict, WriteBlocks(dict, Fresh, ts)).0;
      if KnownAll(dict, ts) && FitsAll(ts) then
        key == PaintParamsKey(EncodeAll(ts, 0), PointersAll(ts))
      else IsErrorKey(key) && key.pointerData == []
    ensures ConformsAll(dict, ts) ==> BlocksChecks(dict, Fresh, ts)
  {
    BuildAll(dict, Fresh, ts);
    if ConformsAll(dict, ts) {
      BuildAllChecks(dict, Fresh, ts);
    }
  }
}
