/** SkPaintParamsKeyBuilder as a class whose fields are updated in place. Every mutator is
    proved to perform the transition of the same name in BuilderModel, so the theorems
    proved there (the invariant, the encoding of a written tree, the error collapse) hold
    of the object.

    The SK_DEBUG assertions of the source are preconditions here: the expectation checks,
    and that a builder with a live key is not mutated. */
module KeyBuilder {
  import opened KeyFormat
  import opened BuilderModel

  /** The frame beginBlock pushes first: its two header bytes are written through the
      payload writer, which checks them against these two expectations. */
  function HeaderFrame(id: int, offset: nat): StackFrame {
    StackFrame(id, offset, [PayloadField(Byte, 1), PayloadField(Byte, 1)], 0, 0, 0)
  }

  class PaintParamsKeyBuilder {
    const dict: Dictionary
    var data: seq<byte>
    var pointerData: seq<Address>
    var stack: seq<StackFrame>
    var isValid: bool
    /** The number of live keys built from this builder's buffer. */
    var lockCount: nat

    function State(): BuilderState
      reads this
    {
      BuilderState(data, pointerData, stack, isValid)
    }

    predicate Valid()
      reads this
    {
      Inv(dict, State())
    }

    predicate IsLocked()
      reads this
    {
      lockCount > 0
    }

    constructor(dict: Dictionary)
      requires ValidDictionary(dict)
      ensures this.dict == dict && State() == Fresh && !IsLocked() && Valid()
    {
      this.dict := dict;
      data := [];
      pointerData := [];
      stack := [];
      isValid := true;
      lockCount := 0;
    }

    method BeginBlock(id: int)
      requires ValidDictionary(dict) && BeginBlockChecks(dict, State(), id)
      requires isValid ==> !IsLocked()
      modifies this
      decreases if isValid && id !in dict then 4 else 2
      ensures State() == BuilderModel.BeginBlock(dict, old(State()), id)
      ensures old(Valid()) ==> Valid()
      ensures lockCount == old(lockCount)
    {
      if Valid() {
        BeginBlockKeepsInv(dict, State(), id);
      }
      if !isValid {
        return;
      }
      if id !in dict {
        MakeInvalid();
        return;
      }
      PushFrame(id);
    }

    /** The valid path of beginBlock: count the child on the parent, push a frame at the
        current size, write the header [id, 0] and load the frame's expectations from the
        dictionary. */
    method PushFrame(id: int)
      requires ValidDictionary(dict) && isValid && id in dict && !IsLocked()
      requires stack != [] ==> Top(stack).curField == 0
      modifies this
      decreases 1
      ensures State() == BuilderModel.PushFrame(dict, old(State()), id)
      ensures lockCount == old(lockCount)
    {
      ghost var before := State();
      var offset := |data|;
      var lower := CountChildren(stack, 1);
      stack := lower + [HeaderFrame(id, offset)];
      AddBytes([id]);
      assert stack == lower + [HeaderFrame(id, offset).(curField := 1)] by {
        ReplaceTop(lower, HeaderFrame(id, offset), HeaderFrame(id, offset).(curField := 1));
      }
      AddBytes([0]);
      assert stack == lower + [HeaderFrame(id, offset).(curField := 2)] by {
        ReplaceTop(lower, HeaderFrame(id, offset).(curField := 1),
                   HeaderFrame(id, offset).(curField := 2));
      }
      assert data == before.data + [id, 0];
      var entry := dict[id];
      var frame := StackFrame(id, offset, entry.fields, 0, entry.numChildren, 0);
      stack := stack[|stack| - 1 := frame];
      assert stack == lower + [frame] by {
        ReplaceTop(lower, HeaderFrame(id, offset).(curField := 2), frame);
      }
    }

    method EndBlock()
      requires Valid() && EndBlockChecks(State())
      requires isValid ==> !IsLocked()
      modifies this
      decreases if isValid && (stack == [] || |data| - Top(stack).headerOffset > kMaxBlockSize) then 4 else 0
      ensures State() == BuilderModel.EndBlock(dict, old(State()))
      ensures Valid() && lockCount == old(lockCount)
    {
      EndBlockKeepsInv(dict, State());
      if !isValid {
        return;
      }
      if stack == [] {
        MakeInvalid();
        return;
      }
      var headerOffset := Top(stack).headerOffset;
      // The header this frame wrote is still in place, with its size byte unset.
      assert FrameOk(dict, data, stack[|stack| - 1]);
      assert data[headerOffset] == Top(stack).snippetId && data[headerOffset + 1] == 0;
      var blockSize := |data| - headerOffset;
      if blockSize > kMaxBlockSize {
        MakeInvalid();
        return;
      }
      data := data[headerOffset + 1 := blockSize];
      stack := stack[..|stack| - 1];
    }

    /** checkExpectations: the SK_DEBUG cursor over the declared fields advances by one. */
    method CheckExpectations(fieldType: PayloadType, count: nat)
      requires stack != [] && FieldChecks(State(), fieldType, count)
      modifies this
      ensures stack == AdvanceFields(old(stack), 1)
      ensures data == old(data) && pointerData == old(pointerData)
      ensures isValid == old(isValid) && lockCount == old(lockCount)
    {
      var frame := stack[|stack| - 1];
      stack := stack[|stack| - 1 := frame.(curField := frame.curField + 1)];
    }

    method AddBytes(bytes: seq<byte>)
      requires ValidDictionary(dict) && FieldChecks(State(), Byte, |bytes|)
      requires isValid ==> !IsLocked()
      modifies this
      decreases if isValid && stack == [] then 4 else 0
      ensures State() == BuilderModel.AddBytes(dict, old(State()), bytes)
      ensures old(Valid()) ==> Valid()
      ensures lockCount == old(lockCount)
    {
      if Valid() {
        AddBytesKeepsInv(dict, State(), bytes);
      }
      if !isValid {
        return;
      }
      if stack == [] {
        MakeInvalid();
        return;
      }
      CheckExpectations(Byte, |bytes|);
      data := data + bytes;
    }

    /** add(numColors, colors) */
    method AddColors(colors: seq<Color4f>)
      requires Valid() && FieldChecks(State(), Float4, |colors|)
      requires isValid ==> !IsLocked()
      modifies this
      ensures State() == BuilderModel.AddColors(dict, old(State()), colors)
      ensures Valid() && lockCount == old(lockCount)
    {
      AddColorsKeepsInv(dict, State(), colors);
      if !isValid {
        return;
      }
      if stack == [] {
        MakeInvalid();
        return;
      }
      CheckExpectations(Float4, |colors|);
      data := data + Flatten(colors);
    }

    method AddPointer(ptr: Address)
      requires Valid() && AddPointerChecks(State())
      requires isValid ==> !IsLocked()
      modifies this
      ensures State() == BuilderModel.AddPointer(dict, old(State()), ptr)
      ensures Valid() && lockCount == old(lockCount)
    {
      AddPointerKeepsInv(dict, State(), ptr);
      if !isValid {
        return;
      }
      if stack == [] {
        MakeInvalid();
        return;
      }
      CheckExpectations(PointerIndex, 1);
      data := data + [|pointerData|];
      pointerData := pointerData + [ptr];
    }

    /** Collapses the builder to the single block {kError, 2} and marks it invalid. */
    method MakeInvalid()
      requires ValidDictionary(dict) && isValid && !IsLocked()
      modifies this
      decreases 3
      ensures State() == ErrorState && lockCount == old(lockCount)
    {
      stack := [];
      data := [];
      pointerData := [];
      BeginBlock(kErrorId);
      EndBlock();
      isValid := false;
    }

    /** Produces the key over the current buffer; constructing the key takes a lock. */
    method LockAsKey() returns (key: PaintParamsKey)
      requires Valid() && !IsLocked()
      modifies this
      ensures (key, State()) == BuilderModel.LockAsKey(dict, old(State()))
      ensures Valid() && lockCount == old(lockCount) + 1
    {
      LockKeepsInv(dict, State());
      if stack != [] {
        MakeInvalid();
      }
      isValid := true;
      stack := [];
      key := PaintParamsKey(data, pointerData);
      Lock();
    }

    /** What the key's constructor does to its originating builder. */
    method Lock()
      modifies this
      ensures lockCount == old(lockCount) + 1 && State() == old(State())
    {
      lockCount := lockCount + 1;
    }

    /** What the key's destructor does to its originating builder. */
    method Unlock()
      requires IsLocked()
      modifies this
      ensures lockCount == old(lockCount) - 1 && State() == old(State())
    {
      lockCount := lockCount - 1;
    }
  }
}
