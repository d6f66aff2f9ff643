/** SkVMDebugTracePlayer: replays a recorded SkVM debug trace one event at a time, keeping
    the current slot values, the time each slot was last written, a stack of call frames
    with the variables each frame displays, and the dirty and return-value slot masks.

    The state transitions are pure functions over a snapshot of the player's fields
    (PlayerState); the class Player updates its fields in place and is proved to perform
    exactly those transitions. Bit sets are `seq<bool>` of the trace's slot count. */
module TracePlayer {
  import opened Wrappers

  // ---------------------------------------------------------------------------------------
  // The recorded trace

  datatype Op = Line | Var | Enter | Exit | Scope

  /** One trace event and its two data words. */
  datatype TraceInfo = TraceInfo(op: Op, data0: int, data1: int)

  /** What the trace knows about one slot: the shape of the variable it belongs to, which
      component of it the slot holds, and the function it is the return value of (or -1). */
  datatype SlotInfo = SlotInfo(columns: nat, rows: nat, componentIndex: nat, fnReturnValue: int)

  /** The parts of SkVMDebugTrace the player reads: slot infos, the events, the number of
      functions and the number of source lines. */
  datatype DebugTrace = DebugTrace(slotInfo: seq<SlotInfo>, traceInfo: seq<TraceInfo>,
                                   funcCount: nat, sourceLines: nat)

  datatype Frame = Frame(fnIndex: int, line: int, displayMask: seq<bool>)

  /** fCursor, fSlots, fWriteTime, fStack, fDirtyMask and fReturnValues. */
  datatype PlayerState = PlayerState(cursor: nat, slots: seq<int>, writeTime: seq<nat>,
                                     stack: seq<Frame>, dirtyMask: seq<bool>,
                                     returnValues: seq<bool>)

  /** The slot count of the trace being played; no trace has no slots. */
  function NumSlots(trace: Option<DebugTrace>): nat {
    if trace.Some? then |trace.value.slotInfo| else 0
  }

  function NoBits(n: nat): (r: seq<bool>)
    ensures |r| == n && forall i | 0 <= i < n :: !r[i]
  {
    seq(n, _ => false)
  }

  /** Every per-slot vector and every frame's display mask has one entry per slot, and the
      global frame is always on the stack. */
  predicate Wf(trace: Option<DebugTrace>, s: PlayerState) {
    && SizesOk(trace, s)
    && s.stack != []
    && (trace.Some? ==> s.cursor <= |trace.value.traceInfo|)
  }

  /** The per-slot vectors and display masks have one entry per slot. */
  predicate SizesOk(trace: Option<DebugTrace>, s: PlayerState) {
    var n := NumSlots(trace);
    && |s.slots| == n && |s.writeTime| == n && |s.dirtyMask| == n && |s.returnValues| == n
    && (forall i | 0 <= i < |s.stack| :: |s.stack[i].displayMask| == n)
  }

  /** The function indices of the frames, bottom first. */
  function Functions(stack: seq<Frame>): (fns: seq<int>)
    ensures |fns| == |stack| && forall i | 0 <= i < |stack| :: fns[i] == stack[i].fnIndex
  {
    seq(|stack|, i requires 0 <= i < |stack| => stack[i].fnIndex)
  }

  /** traceHasCompleted */
  predicate Completed(trace: Option<DebugTrace>, cursor: nat) {
    trace.None? || cursor >= |trace.value.traceInfo|
  }

  // ---------------------------------------------------------------------------------------
  // reset

  /** The state reset leaves: cursor at the start, all slots zero and never written, only the
      global frame {-1, -1, no bits}, nothing dirty, and the return-value mask holding the
      slots whose fnReturnValue is not negative. */
  function ResetState(trace: Option<DebugTrace>): (s: PlayerState)
    ensures Wf(trace, s) && s.cursor == 0 && Functions(s.stack) == [-1]
    ensures s.stack == [Frame(-1, -1, NoBits(NumSlots(trace)))]
    ensures forall i | 0 <= i < NumSlots(trace) ::
              s.slots[i] == 0 && s.writeTime[i] == 0 && !s.dirtyMask[i]
              && (s.returnValues[i] <==> trace.value.slotInfo[i].fnReturnValue >= 0)
  {
    var n := NumSlots(trace);
    var s := PlayerState(0, seq(n, _ => 0), seq(n, _ => 0), [Frame(-1, -1, NoBits(n))], NoBits(n),
                         seq(n, i requires 0 <= i < n => trace.value.slotInfo[i].fnReturnValue >= 0));
    assert Functions(s.stack) == [-1];
    s
  }

  // ---------------------------------------------------------------------------------------
  // execute

  /** The write-time vector after a variable occupying slots [lo, hi) is written at `time`. */
  function WriteTimes(writeTime: seq<nat>, lo: nat, hi: nat, time: nat): (r: seq<nat>)
    ensures |r| == |writeTime|
    ensures forall i | 0 <= i < |r| :: r[i] == if lo <= i < hi then time else writeTime[i]
  {
    seq(|writeTime|, i requires 0 <= i < |writeTime| => if lo <= i < hi then time else writeTime[i])
  }

  /** The slots of the variable slot `slot` belongs to lie inside the slot vector. */
  predicate VariableInRange(info: SlotInfo, slot: nat, n: nat) {
    info.componentIndex <= slot && slot - info.componentIndex + info.columns * info.rows <= n
  }

  /** The SK_DEBUG checks execute makes of event `position`, given the function indices of
      the frames on the stack: a line inside the source, a slot inside the slot vector
      (and a caller frame for a return value), a known function, and an exit from the
      function on top of the stack, which is never the global frame. */
  predicate EventOk(t: DebugTrace, fns: seq<int>, position: nat) {
    position >= |t.traceInfo| ||
    var e := t.traceInfo[position];
    match e.op
    case Line => 0 <= e.data0 < t.sourceLines
    case Var =>
      && 0 <= e.data0 < |t.slotInfo|
      && VariableInRange(t.slotInfo[e.data0], e.data0, |t.slotInfo|)
      && (t.slotInfo[e.data0].fnReturnValue >= 0 ==> |fns| > 1)
    case Enter => 0 <= e.data0 < t.funcCount
    case Exit => |fns| > 1 && fns[|fns| - 1] == e.data0
    case Scope => true
  }

  /** The function indices of the frames after event `position`. */
  function ShapeAfter(t: DebugTrace, fns: seq<int>, position: nat): seq<int> {
    if position >= |t.traceInfo| then fns
    else
      var e := t.traceInfo[position];
      match e.op
      case Enter => fns + [e.data0]
      case Exit => if fns == [] then fns else fns[..|fns| - 1]
      case _ => fns
  }

  /** The stack with slot `slot` set in frame k's display mask. */
  function ShowIn(stack: seq<Frame>, k: nat, slot: nat): seq<Frame>
    requires k < |stack| && slot < |stack[k].displayMask|
  {
    stack[k := stack[k].(displayMask := stack[k].displayMask[slot := true])]
  }

  /** execute(position): the new state and whether the event stops a step. */
  function Execution(t: DebugTrace, s: PlayerState, position: nat): (r: (PlayerState, bool))
    requires Wf(Some(t), s) && EventOk(t, Functions(s.stack), position)
    ensures Wf(Some(t), r.0) && r.0.cursor == s.cursor
    ensures Functions(r.0.stack) == ShapeAfter(t, Functions(s.stack), position)
    ensures r.1 <==> position >= |t.traceInfo| || t.traceInfo[position].op in {Line, Exit}
  {
    if position >= |t.traceInfo| then (s, true)
    else
      var e := t.traceInfo[position];
      var top := |s.stack| - 1;
      match e.op
      case Line =>
        var stack := s.stack[top := s.stack[top].(line := e.data0)];
        assert Functions(stack) == Functions(s.stack);
        (s.(stack := stack), true)
      case Var =>
        var slot: nat := e.data0;
        var info := t.slotInfo[slot];
        var lo := slot - info.componentIndex;
        var frame := if info.fnReturnValue < 0 then top else top - 1;
        var stack := ShowIn(s.stack, frame, slot);
        assert Functions(stack) == Functions(s.stack);
        (s.(slots := s.slots[slot := e.data1],
            writeTime := WriteTimes(s.writeTime, lo, lo + info.columns * info.rows, position),
            stack := stack,
            dirtyMask := s.dirtyMask[slot := true]), false)
      case Enter =>
        var stack := s.stack + [Frame(e.data0, -1, NoBits(|t.slotInfo|))];
        assert Functions(stack) == Functions(s.stack) + [e.data0];
        (s.(stack := stack), false)
      case Exit =>
        var stack := s.stack[..top];
        assert Functions(stack) == Functions(s.stack)[..top];
        (s.(stack := stack), true)
      case Scope => (s, false)
  }

  /** A variable event stores the value, marks the slot dirty, shows it in the top frame
      (or, for a return value, in the caller's frame below it), stamps every slot of the
      variable with the event's position, and does not stop a step. */
  lemma VarEventEffect(t: DebugTrace, s: PlayerState, position: nat)
    requires Wf(Some(t), s) && EventOk(t, Functions(s.stack), position)
    requires position < |t.traceInfo| && t.traceInfo[position].op == Var
    ensures
      var e := t.traceInfo[position];
      var info := t.slotInfo[e.data0];
      var lo := e.data0 - info.componentIndex;
      var frame := if info.fnReturnValue < 0 then |s.stack| - 1 else |s.stack| - 2;
      var r := Execution(t, s, position);
      && 0 <= frame < |s.stack| && |r.0.stack| == |s.stack|
      && !r.1 && r.0.cursor == s.cursor && r.0.returnValues == s.returnValues
      && r.0.slots == s.slots[e.data0 := e.data1]
      && r.0.dirtyMask == s.dirtyMask[e.data0 := true]
      && r.0.writeTime == WriteTimes(s.writeTime, lo, lo + info.columns * info.rows, position)
      && r.0.stack[frame].displayMask == s.stack[frame].displayMask[e.data0 := true]
      && (forall k | 0 <= k < |s.stack| && k != frame :: r.0.stack[k] == s.stack[k])
  {
  }

  /** The other events: a line event moves the top frame to its line, an enter event pushes
      a frame for its function with no line and nothing displayed, an exit event pops the
      top frame, and a scope event changes nothing; only line and exit stop a step, and
      none of them touches the slots, the write times or the masks. */
  lemma ControlEventEffect(t: DebugTrace, s: PlayerState, position: nat)
    requires Wf(Some(t), s) && EventOk(t, Functions(s.stack), position)
    requires position < |t.traceInfo| && t.traceInfo[position].op != Var
    ensures
      var e := t.traceInfo[position];
      var top := |s.stack| - 1;
      var r := Execution(t, s, position);
      && r.0.(stack := s.stack) == s
      && (r.1 <==> e.op == Line || e.op == Exit)
      && (e.op == Line ==> r.0.stack == s.stack[top := s.stack[top].(line := e.data0)])
      && (e.op == Enter ==> r.0.stack == s.stack + [Frame(e.data0, -1, NoBits(|t.slotInfo|))])
      && (e.op == Exit ==> r.0.stack == s.stack[..top])
      && (e.op == Scope ==> r.0 == s)
  {
  }

  // ---------------------------------------------------------------------------------------
  // tidy and the step loops

  /** tidy: nothing is dirty, and the top frame no longer displays return values. */
  function Tidied(trace: Option<DebugTrace>, s: PlayerState): (r: PlayerState)
    requires Wf(trace, s)
    ensures Wf(trace, r) && r.cursor == s.cursor && Functions(r.stack) == Functions(s.stack)
    ensures r.dirtyMask == NoBits(NumSlots(trace))
    ensures r.stack[|r.stack| - 1].displayMask ==
              ClearedBelow(s.stack[|s.stack| - 1].displayMask, s.returnValues, NumSlots(trace))
    ensures r.stack[|r.stack| - 1].fnIndex == s.stack[|s.stack| - 1].fnIndex
    ensures r.stack[|r.stack| - 1].line == s.stack[|s.stack| - 1].line
    ensures forall k | 0 <= k < |s.stack| - 1 :: r.stack[k] == s.stack[k]
    ensures r.slots == s.slots && r.writeTime == s.writeTime && r.returnValues == s.returnValues
  {
    var n := NumSlots(trace);
    var top := |s.stack| - 1;
    var mask := s.stack[top].displayMask;
    var stack := s.stack[top := s.stack[top].(displayMask := ClearedBelow(mask, s.returnValues, n))];
    assert Functions(stack) == Functions(s.stack);
    s.(dirtyMask := NoBits(n), stack := stack)
  }

  /** The mask with the return-value slots below k cleared. */
  function ClearedBelow(mask: seq<bool>, returnValues: seq<bool>, k: nat): (r: seq<bool>)
    requires |returnValues| == |mask| && k <= |mask|
    ensures |r| == |mask|
    ensures forall i | 0 <= i < |mask| :: r[i] == if i < k then mask[i] && !returnValues[i] else mask[i]
  {
    seq(|mask|, i requires 0 <= i < |mask| => if i < k then mask[i] && !returnValues[i] else mask[i])
  }

  /** Every event from `cursor` to the end of the trace passes execute's SK_DEBUG checks
      when the events are replayed in order from a stack whose function indices are fns. */
  predicate Replayable(trace: Option<DebugTrace>, fns: seq<int>, cursor: nat)
    decreases if trace.Some? then |trace.value.traceInfo| - cursor else 0
  {
    Completed(trace, cursor) ||
    (EventOk(trace.value, fns, cursor) && Replayable(trace, ShapeAfter(trace.value, fns, cursor), cursor + 1))
  }

  datatype StepMode = Into | Over | Out

  /** Whether the loop of step, stepOver or stepOut breaks after an event: the event
      returned true, and for stepOver the stack was no deeper than at the start before the
      event, for stepOut it is shallower than at the start after it. */
  predicate Breaks(mode: StepMode, executed: bool, depthBefore: nat, depthAfter: nat, initialDepth: nat) {
    match mode
    case Into => executed
    case Over => executed && depthBefore <= initialDepth
    case Out => executed && depthAfter < initialDepth
  }

  /** The loop of the step operations, from state s: execute the event under the cursor
      after advancing it, until the loop breaks or the trace is complete. */
  function StepLoop(trace: Option<DebugTrace>, s: PlayerState, mode: StepMode, initialDepth: nat): (r: PlayerState)
    requires Wf(trace, s) && Replayable(trace, Functions(s.stack), s.cursor)
    ensures Wf(trace, r) && Replayable(trace, Functions(r.stack), r.cursor)
    ensures r.cursor >= s.cursor
    decreases if trace.Some? then |trace.value.traceInfo| - s.cursor else 0
  {
    if Completed(trace, s.cursor) then s
    else
      var x := Execution(trace.value, s.(cursor := s.cursor + 1), s.cursor);
      if Breaks(mode, x.1, |s.stack|, |x.0.stack|, initialDepth) then x.0
      else StepLoop(trace, x.0, mode, initialDepth)
  }

  /** Whether StepLoop ends because the loop broke, rather than because the trace is
      complete. */
  function StepLoopBroke(trace: Option<DebugTrace>, s: PlayerState, mode: StepMode, initialDepth: nat): bool
    requires Wf(trace, s) && Replayable(trace, Functions(s.stack), s.cursor)
    decreases if trace.Some? then |trace.value.traceInfo| - s.cursor else 0
  {
    if Completed(trace, s.cursor) then false
    else
      var x := Execution(trace.value, s.(cursor := s.cursor + 1), s.cursor);
      if Breaks(mode, x.1, |s.stack|, |x.0.stack|, initialDepth) then true
      else StepLoopBroke(trace, x.0, mode, initialDepth)
  }

  /** step, stepOver and stepOut: tidy, then run the loop from the current depth. */
  function StepFrom(trace: Option<DebugTrace>, s: PlayerState, mode: StepMode): (r: PlayerState)
    requires Wf(trace, s) && Replayable(trace, Functions(s.stack), s.cursor)
    ensures Wf(trace, r) && Replayable(trace, Functions(r.stack), r.cursor)
    ensures r.cursor >= s.cursor
  {
    var s0 := Tidied(trace, s);
    StepLoop(trace, s0, mode, |s0.stack|)
  }

  /** getCurrentLine: the line of the frame on top of the stack. */
  function CurrentLine(s: PlayerState): int
    requires s.stack != []
  {
    s.stack[|s.stack| - 1].line
  }

  // ---------------------------------------------------------------------------------------
  // What the step loops achieve

  /** A step event is one after which step's loop breaks: a line or a function exit. */
  predicate StopsStep(t: DebugTrace, position: nat)
    requires position < |t.traceInfo|
  {
    t.traceInfo[position].op in {Line, Exit}
  }

  /** step either breaks right after a line or an exit, or runs to the end of the trace. */
  lemma {:induction false} StepStopsAtLine(trace: Option<DebugTrace>, s: PlayerState, depth: nat)
    requires Wf(trace, s) && Replayable(trace, Functions(s.stack), s.cursor)
    ensures
      var r := StepLoop(trace, s, Into, depth);
      && (StepLoopBroke(trace, s, Into, depth) ==>
            s.cursor < r.cursor <= |trace.value.traceInfo| && StopsStep(trace.value, r.cursor - 1))
      && (!StepLoopBroke(trace, s, Into, depth) ==> Completed(trace, r.cursor))
    decreases if trace.Some? then |trace.value.traceInfo| - s.cursor else 0
  {
    if !Completed(trace, s.cursor) {
      var x := Execution(trace.value, s.(cursor := s.cursor + 1), s.cursor);
      if !x.1 {
        StepStopsAtLine(trace, x.0, depth);
      }
    }
  }

  /** When step stops at a line event, the current line is that event's line. */
  lemma {:induction false} StepShowsLine(t: DebugTrace, s: PlayerState, depth: nat)
    requires Wf(Some(t), s) && Replayable(Some(t), Functions(s.stack), s.cursor)
    ensures
      var r := StepLoop(Some(t), s, Into, depth);
      s.cursor < r.cursor && t.traceInfo[r.cursor - 1].op == Line ==>
        CurrentLine(r) == t.traceInfo[r.cursor - 1].data0
    decreases |t.traceInfo| - s.cursor
  {
    if !Completed(Some(t), s.cursor) {
      var x := StepOnce(t, s, Into, depth);
      if !x.1 {
        StepShowsLine(t, x.0, depth);
      } else {
        LineEventShowsLine(t, s.(cursor := s.cursor + 1), s.cursor);
      }
    }
  }

  /** One turn of the step loops: the event under the cursor is executed, and the loop
      either breaks there or goes on from the new state. */
  lemma StepOnce(t: DebugTrace, s: PlayerState, mode: StepMode, depth: nat) returns (x: (PlayerState, bool))
    requires Wf(Some(t), s) && Replayable(Some(t), Functions(s.stack), s.cursor)
    requires !Completed(Some(t), s.cursor)
    ensures x == Execution(t, s.(cursor := s.cursor + 1), s.cursor)
    ensures Wf(Some(t), x.0) && Replayable(Some(t), Functions(x.0.stack), x.0.cursor)
    ensures x.0.cursor == s.cursor + 1
    ensures StepLoop(Some(t), s, mode, depth) ==
              if Breaks(mode, x.1, |s.stack|, |x.0.stack|, depth) then x.0 else StepLoop(Some(t), x.0, mode, depth)
    ensures StepLoopBroke(Some(t), s, mode, depth) ==
              if Breaks(mode, x.1, |s.stack|, |x.0.stack|, depth) then true else StepLoopBroke(Some(t), x.0, mode, depth)
  {
    x := Execution(t, s.(cursor := s.cursor + 1), s.cursor);
  }

  /** Executing a line event puts its line on the frame on top of the stack. */
  lemma LineEventShowsLine(t: DebugTrace, s: PlayerState, position: nat)
    requires Wf(Some(t), s) && EventOk(t, Functions(s.stack), position)
    ensures position < |t.traceInfo| && t.traceInfo[position].op == Line ==>
              CurrentLine(Execution(t, s, position).0) == t.traceInfo[position].data0
  {
  }

  /** Every event step runs before the last one is neither a line nor an exit. */
  lemma {:induction false} StepPassesOnlyOthers(t: DebugTrace, s: PlayerState, depth: nat)
    requires Wf(Some(t), s) && Replayable(Some(t), Functions(s.stack), s.cursor)
    ensures
      var r := StepLoop(Some(t), s, Into, depth);
      forall p | s.cursor <= p < r.cursor - 1 :: !StopsStep(t, p)
    decreases |t.traceInfo| - s.cursor
  {
    if !Completed(Some(t), s.cursor) {
      var x := Execution(t, s.(cursor := s.cursor + 1), s.cursor);
      if !x.1 {
        StepPassesOnlyOthers(t, x.0, depth);
      }
    }
  }

  /** stepOver either breaks at a depth no deeper than where it started, or runs to the end
      of the trace. */
  lemma {:induction false} StepOverStaysOut(trace: Option<DebugTrace>, s: PlayerState, depth: nat)
    requires Wf(trace, s) && Replayable(trace, Functions(s.stack), s.cursor)
    ensures
      var r := StepLoop(trace, s, Over, depth);
      && (StepLoopBroke(trace, s, Over, depth) ==> s.cursor < r.cursor && |r.stack| <= depth)
      && (!StepLoopBroke(trace, s, Over, depth) ==> Completed(trace, r.cursor))
    decreases if trace.Some? then |trace.value.traceInfo| - s.cursor else 0
  {
    if !Completed(trace, s.cursor) {
      var x := Execution(trace.value, s.(cursor := s.cursor + 1), s.cursor);
      assert |Functions(x.0.stack)| == |x.0.stack|;
      if !Breaks(Over, x.1, |s.stack|, |x.0.stack|, depth) {
        StepOverStaysOut(trace, x.0, depth);
      }
    }
  }

  /** stepOut either breaks shallower than where it started, or runs to the end of the
      trace. */
  lemma {:induction false} StepOutLeaves(trace: Option<DebugTrace>, s: PlayerState, depth: nat)
    requires Wf(trace, s) && Replayable(trace, Functions(s.stack), s.cursor)
    ensures
      var r := StepLoop(trace, s, Out, depth);
      && (StepLoopBroke(trace, s, Out, depth) ==> s.cursor < r.cursor && |r.stack| < depth)
      && (!StepLoopBroke(trace, s, Out, depth) ==> Completed(trace, r.cursor))
    decreases if trace.Some? then |trace.value.traceInfo| - s.cursor else 0
  {
    if !Completed(trace, s.cursor) {
      var x := Execution(trace.value, s.(cursor := s.cursor + 1), s.cursor);
      if !Breaks(Out, x.1, |s.stack|, |x.0.stack|, depth) {
        StepOutLeaves(trace, x.0, depth);
      }
    }
  }

  /** The function indices of the frames after replaying events `from` up to p - 1 from a
      stack whose function indices are fns. */
  function ShapeAt(t: DebugTrace, fns: seq<int>, from: nat, p: nat): seq<int>
    requires from <= p
    decreases p - from
  {
    if p == from then fns else ShapeAt(t, ShapeAfter(t, fns, from), from + 1, p)
  }

  /** Whether execute(p) returns true: a line or an exit, or a position past the end. */
  predicate Executes(t: DebugTrace, p: nat) {
    p >= |t.traceInfo| || t.traceInfo[p].op in {Line, Exit}
  }

  /** Whether the loop of a step from position `from`, at a stack shaped fns, would break
      right after event p, judged by that event alone and the depths around it. */
  predicate BreaksAt(t: DebugTrace, fns: seq<int>, from: nat, p: nat, mode: StepMode, initialDepth: nat)
    requires from <= p
  {
    Breaks(mode, Executes(t, p), |ShapeAt(t, fns, from, p)|, |ShapeAt(t, fns, from, p + 1)|, initialDepth)
  }

  /** The stack the step loops leave has the shape the events they ran give it. */
  lemma {:induction false} StepLoopShape(t: DebugTrace, s: PlayerState, mode: StepMode, depth: nat)
    requires Wf(Some(t), s) && Replayable(Some(t), Functions(s.stack), s.cursor)
    ensures var r := StepLoop(Some(t), s, mode, depth);
            Functions(r.stack) == ShapeAt(t, Functions(s.stack), s.cursor, r.cursor)
    decreases |t.traceInfo| - s.cursor
  {
    if !Completed(Some(t), s.cursor) {
      var c := s.cursor;
      var fns := Functions(s.stack);
      var x := StepOnce(t, s, mode, depth);
      assert Functions(x.0.stack) == ShapeAfter(t, fns, c) == ShapeAt(t, fns, c, c + 1);
      if !Breaks(mode, x.1, |s.stack|, |x.0.stack|, depth) {
        StepLoopShape(t, x.0, mode, depth);
        ShapeAtShift(t, fns, c, StepLoop(Some(t), x.0, mode, depth).cursor, mode, depth);
      }
    }
  }

  /** The step loops either break right after an event after which they may break, or run
      to the end of the trace. */
  lemma {:induction false} StepLoopBreaksLast(t: DebugTrace, s: PlayerState, mode: StepMode, depth: nat)
    requires Wf(Some(t), s) && Replayable(Some(t), Functions(s.stack), s.cursor)
    ensures var r := StepLoop(Some(t), s, mode, depth);
            && (StepLoopBroke(Some(t), s, mode, depth) ==>
                  s.cursor < r.cursor && BreaksAt(t, Functions(s.stack), s.cursor, r.cursor - 1, mode, depth))
            && (!StepLoopBroke(Some(t), s, mode, depth) ==> Completed(Some(t), r.cursor))
    decreases |t.traceInfo| - s.cursor
  {
    if !Completed(Some(t), s.cursor) {
      var c := s.cursor;
      var fns := Functions(s.stack);
      var x := StepOnce(t, s, mode, depth);
      assert Functions(x.0.stack) == ShapeAfter(t, fns, c) == ShapeAt(t, fns, c, c + 1);
      ExecutesIsExecution(t, s.(cursor := c + 1), c);
      if !Breaks(mode, x.1, |s.stack|, |x.0.stack|, depth) {
        StepLoopBreaksLast(t, x.0, mode, depth);
        var r := StepLoop(Some(t), x.0, mode, depth);
        if StepLoopBroke(Some(t), x.0, mode, depth) {
          ShapeAtShift(t, fns, c, r.cursor - 1, mode, depth);
        }
      } else {
        assert BreaksAt(t, fns, c, c, mode, depth);
      }
    }
  }

  /** The step loops stop at the first event after which they may break: none before the
      last event they run qualifies, and none at all when they ran to the end of the
      trace. */
  lemma {:induction false} StepLoopFirstBreak(t: DebugTrace, s: PlayerState, mode: StepMode, depth: nat)
    requires Wf(Some(t), s) && Replayable(Some(t), Functions(s.stack), s.cursor)
    ensures var r := StepLoop(Some(t), s, mode, depth);
            && (forall p | s.cursor <= p < r.cursor - 1 :: !BreaksAt(t, Functions(s.stack), s.cursor, p, mode, depth))
            && (!StepLoopBroke(Some(t), s, mode, depth) ==>
                  forall p | s.cursor <= p < r.cursor :: !BreaksAt(t, Functions(s.stack), s.cursor, p, mode, depth))
    decreases |t.traceInfo| - s.cursor
  {
    if !Completed(Some(t), s.cursor) {
      var c := s.cursor;
      var fns := Functions(s.stack);
      var x := StepOnce(t, s, mode, depth);
      var next := Functions(x.0.stack);
      assert next == ShapeAfter(t, fns, c) == ShapeAt(t, fns, c, c + 1);
      ExecutesIsExecution(t, s.(cursor := c + 1), c);
      if !Breaks(mode, x.1, |s.stack|, |x.0.stack|, depth) {
        assert !BreaksAt(t, fns, c, c, mode, depth);
        StepLoopFirstBreak(t, x.0, mode, depth);
        var r := StepLoop(Some(t), x.0, mode, depth);
        forall p | c < p < r.cursor
          ensures BreaksAt(t, fns, c, p, mode, depth) == BreaksAt(t, next, c + 1, p, mode, depth)
        {
          ShapeAtShift(t, fns, c, p, mode, depth);
        }
      }
    }
  }

  /** Replaying from `from` is replaying event `from`, then the rest from `from + 1`. */
  lemma ShapeAtShift(t: DebugTrace, fns: seq<int>, from: nat, p: nat, mode: StepMode, depth: nat)
    requires from < p
    ensures ShapeAt(t, fns, from, p) == ShapeAt(t, ShapeAfter(t, fns, from), from + 1, p)
    ensures BreaksAt(t, fns, from, p, mode, depth) == BreaksAt(t, ShapeAfter(t, fns, from), from + 1, p, mode, depth)
  {
  }

  /** execute(p) returns true exactly for the events Executes names. */
  lemma ExecutesIsExecution(t: DebugTrace, s: PlayerState, position: nat)
    requires Wf(Some(t), s) && EventOk(t, Functions(s.stack), position)
    ensures Execution(t, s, position).1 == Executes(t, position)
  {
    if position < |t.traceInfo| {
      if t.traceInfo[position].op == Var {
        VarEventEffect(t, s, position);
      } else {
        ControlEventEffect(t, s, position);
      }
    }
  }

  /** tidy twice is tidy once. */
  lemma TidyIdempotent(trace: Option<DebugTrace>, s: PlayerState)
    requires Wf(trace, s)
    ensures Tidied(trace, Tidied(trace, s)) == Tidied(trace, s)
  {
    var r := Tidied(trace, s);
    var top := |s.stack| - 1;
    assert Tidied(trace, r).stack[top].displayMask == r.stack[top].displayMask;
    assert Tidied(trace, r).stack == r.stack;
  }

  // ---------------------------------------------------------------------------------------
  // Variable queries

  datatype VariableData = VariableData(slotIndex: nat, dirty: bool, value: int)

  predicate SlotsBelow(vars: seq<VariableData>, n: nat) {
    forall i | 0 <= i < |vars| :: vars[i].slotIndex < n
  }

  /** The display order: the more recently written variable first, and among variables
      written at the same time the lower slot first. */
  predicate Before(a: VariableData, b: VariableData, writeTime: seq<nat>)
    requires a.slotIndex < |writeTime| && b.slotIndex < |writeTime|
  {
    writeTime[a.slotIndex] > writeTime[b.slotIndex]
    || (writeTime[a.slotIndex] == writeTime[b.slotIndex] && a.slotIndex < b.slotIndex)
  }

  predicate Ordered(vars: seq<VariableData>, writeTime: seq<nat>)
    requires SlotsBelow(vars, |writeTime|)
  {
    forall i, j | 0 <= i < j < |vars| :: Before(vars[i], vars[j], writeTime)
  }

  /** A display mask, the dirty mask and the slot values, one entry per slot each. */
  predicate Sized(bits: seq<bool>, dirty: seq<bool>, slots: seq<int>) {
    |dirty| == |bits| && |slots| == |bits|
  }

  /** The variables of the set bits of the first k slots, in slot order. */
  function Collect(bits: seq<bool>, dirty: seq<bool>, slots: seq<int>, k: nat): (vars: seq<VariableData>)
    requires k <= |bits| && Sized(bits, dirty, slots)
    ensures SlotsBelow(vars, k)
  {
    if k == 0 then []
    else
      Collect(bits, dirty, slots, k - 1)
        + if bits[k - 1] then [VariableData(k - 1, dirty[k - 1], slots[k - 1])] else []
  }

  /** vars holds exactly the set slots among the first k, each with its dirty bit and
      value. */
  ghost predicate ShowsExactly(vars: seq<VariableData>, bits: seq<bool>, dirty: seq<bool>, slots: seq<int>, k: nat)
    requires k <= |bits| && Sized(bits, dirty, slots)
  {
    forall v :: v in vars <==>
      v.slotIndex < k && bits[v.slotIndex]
      && v == VariableData(v.slotIndex, dirty[v.slotIndex], slots[v.slotIndex])
  }

  /** Collect lists exactly the set slots. */
  lemma {:induction false} CollectMembers(bits: seq<bool>, dirty: seq<bool>, slots: seq<int>, k: nat)
    requires k <= |bits| && Sized(bits, dirty, slots)
    ensures ShowsExactly(Collect(bits, dirty, slots, k), bits, dirty, slots, k)
  {
    if k > 0 {
      CollectMembers(bits, dirty, slots, k - 1);
    }
  }

  /** Reordering keeps the variables shown. */
  lemma ShowsPermuted(a: seq<VariableData>, b: seq<VariableData>, bits: seq<bool>, dirty: seq<bool>,
                      slots: seq<int>, k: nat)
    requires k <= |bits| && Sized(bits, dirty, slots)
    requires multiset(a) == multiset(b) && ShowsExactly(b, bits, dirty, slots, k)
    ensures ShowsExactly(a, bits, dirty, slots, k)
  {
    forall v ensures v in a <==> v in b {
      assert v in a <==> v in multiset(a);
      assert v in b <==> v in multiset(b);
    }
  }

  predicate Ascending(vars: seq<VariableData>) {
    forall i, j | 0 <= i < j < |vars| :: vars[i].slotIndex < vars[j].slotIndex
  }

  /** Collect lists the slots in increasing order. */
  lemma {:induction false} CollectAscending(bits: seq<bool>, dirty: seq<bool>, slots: seq<int>, k: nat)
    requires k <= |bits| && Sized(bits, dirty, slots)
    ensures Ascending(Collect(bits, dirty, slots, k))
  {
    if k > 0 {
      CollectAscending(bits, dirty, slots, k - 1);
      var prev := Collect(bits, dirty, slots, k - 1);
      assert SlotsBelow(prev, k - 1);
    }
  }

  /** One step of std::stable_sort by descending write time: x goes after every element
      written no earlier than it. */
  function Insert(x: VariableData, sorted: seq<VariableData>, writeTime: seq<nat>): (r: seq<VariableData>)
    requires x.slotIndex < |writeTime| && SlotsBelow(sorted, |writeTime|)
    ensures SlotsBelow(r, |writeTime|) && multiset(r) == multiset(sorted) + multiset{x}
  {
    if sorted == [] then [x]
    else if writeTime[sorted[0].slotIndex] < writeTime[x.slotIndex] then [x] + sorted
    else
      var rest := Insert(x, sorted[1..], writeTime);
      assert sorted == [sorted[0]] + sorted[1..];
      [sorted[0]] + rest
  }

  /** std::stable_sort with comparator "written later": elements are inserted in their
      original order, each after the elements already placed that were written no earlier. */
  function StableSort(vars: seq<VariableData>, writeTime: seq<nat>): (r: seq<VariableData>)
    requires SlotsBelow(vars, |writeTime|)
    ensures SlotsBelow(r, |writeTime|) && multiset(r) == multiset(vars)
  {
    if vars == [] then []
    else
      var last := |vars| - 1;
      assert vars == vars[..last] + [vars[last]];
      Insert(vars[last], StableSort(vars[..last], writeTime), writeTime)
  }

  lemma {:induction false} InsertOrdered(x: VariableData, sorted: seq<VariableData>, writeTime: seq<nat>)
    requires x.slotIndex < |writeTime| && SlotsBelow(sorted, |writeTime|) && Ordered(sorted, writeTime)
    requires forall v | v in sorted :: v.slotIndex < x.slotIndex
    ensures Ordered(Insert(x, sorted, writeTime), writeTime)
  {
    if sorted != [] && writeTime[sorted[0].slotIndex] >= writeTime[x.slotIndex] {
      InsertOrdered(x, sorted[1..], writeTime);
      var rest := Insert(x, sorted[1..], writeTime);
      forall v | v in rest ensures Before(sorted[0], v, writeTime) {
        assert v in multiset(rest);
        if v != x {
          assert v in sorted[1..];
        }
      }
    }
  }

  /** Stable-sorting variables listed in increasing slot order puts them in display order. */
  lemma {:induction false} StableSortOrdered(vars: seq<VariableData>, writeTime: seq<nat>)
    requires SlotsBelow(vars, |writeTime|) && Ascending(vars)
    ensures Ordered(StableSort(vars, writeTime), writeTime)
  {
    if vars != [] {
      var last := |vars| - 1;
      StableSortOrdered(vars[..last], writeTime);
      forall v | v in StableSort(vars[..last], writeTime) ensures v.slotIndex < vars[last].slotIndex {
        assert v in multiset(vars[..last]);
      }
      InsertOrdered(vars[last], StableSort(vars[..last], writeTime), writeTime);
    }
  }

  /** The variables getVariablesForDisplayMask returns: the set slots in display order. */
  lemma DisplayedVariables(bits: seq<bool>, dirty: seq<bool>, slots: seq<int>, writeTime: seq<nat>)
    requires Sized(bits, dirty, slots) && |writeTime| == |bits|
    ensures
      var vars := StableSort(Collect(bits, dirty, slots, |bits|), writeTime);
      Ordered(vars, writeTime) && ShowsExactly(vars, bits, dirty, slots, |bits|)
  {
    var collected := Collect(bits, dirty, slots, |bits|);
    CollectAscending(bits, dirty, slots, |bits|);
    StableSortOrdered(collected, writeTime);
    CollectMembers(bits, dirty, slots, |bits|);
    ShowsPermuted(StableSort(collected, writeTime), collected, bits, dirty, slots, |bits|);
  }

  // ---------------------------------------------------------------------------------------
  // The player

  /** SkVMDebugTracePlayer: its fields are updated in place, and every operation is proved
      to perform the transition of the same name above. */
  class Player {
    var trace: Option<DebugTrace>
    var cursor: nat
    var slots: seq<int>
    var writeTime: seq<nat>
    var stack: seq<Frame>
    var dirtyMask: seq<bool>
    var returnValues: seq<bool>

    function State(): PlayerState
      reads this
    {
      PlayerState(cursor, slots, writeTime, stack, dirtyMask, returnValues)
    }

    predicate Valid()
      reads this
    {
      Wf(trace, State())
    }

    /** A player that has been reset to debugTrace. */
    constructor(debugTrace: Option<DebugTrace>)
      ensures trace == debugTrace && State() == ResetState(debugTrace)
    {
      trace := None;
      cursor := 0;
      slots := [];
      writeTime := [];
      stack := [];
      dirtyMask := [];
      returnValues := [];
      new;
      Reset(debugTrace);
    }

    method Reset(debugTrace: Option<DebugTrace>)
      modifies this
      ensures trace == debugTrace && State() == ResetState(debugTrace) && Valid()
    {
      var nslots := NumSlots(debugTrace);
      trace := debugTrace;
      cursor := 0;
      slots := seq(nslots, _ => 0);
      writeTime := seq(nslots, _ => 0);
      stack := [Frame(-1, -1, NoBits(nslots))];
      dirtyMask := NoBits(nslots);
      var returnBits := NoBits(nslots);
      for slotIdx := 0 to nslots
        invariant |returnBits| == nslots
        invariant forall i | 0 <= i < nslots ::
                    returnBits[i] == (i < slotIdx && debugTrace.value.slotInfo[i].fnReturnValue >= 0)
      {
        if debugTrace.value.slotInfo[slotIdx].fnReturnValue >= 0 {
          returnBits := returnBits[slotIdx := true];
        }
      }
      returnValues := returnBits;
      assert returnValues == ResetState(debugTrace).returnValues;
    }

    /** Clears the dirty mask and hides return values from the top frame. */
    method Tidy()
      requires Valid()
      modifies this`dirtyMask, this`stack
      ensures State() == Tidied(trace, old(State()))
    {
      var n := |returnValues|;
      dirtyMask := NoBits(n);
      var top := |stack| - 1;
      ghost var frame := stack[top];
      assert ClearedBelow(frame.displayMask, returnValues, 0) == frame.displayMask;
      for slot := 0 to n
        invariant dirtyMask == NoBits(n)
        invariant stack == old(stack)[top := frame.(displayMask := ClearedBelow(frame.displayMask, returnValues, slot))]
      {
        if returnValues[slot] {
          stack := stack[top := stack[top].(displayMask := stack[top].displayMask[slot := false])];
        }
        assert stack[top].displayMask == ClearedBelow(frame.displayMask, returnValues, slot + 1);
      }
    }

    predicate TraceHasCompleted()
      reads this
    {
      Completed(trace, cursor)
    }

    function GetCurrentLine(): int
      reads this
      requires stack != []
    {
      CurrentLine(State())
    }

    function GetStackDepth(): int
      reads this
      requires stack != []
    {
      |stack| - 1
    }

    /** The function of every frame above the global one, outermost first. */
    method GetCallStack() returns (funcs: seq<int>)
      requires stack != []
      ensures |funcs| == GetStackDepth()
      ensures funcs == Functions(stack)[1..]
    {
      funcs := [];
      for index := 1 to |stack|
        invariant funcs == Functions(stack)[1..index]
      {
        funcs := funcs + [stack[index].fnIndex];
      }
    }

    /** The variables of the set slots of `bits`, most recently written first. */
    method GetVariablesForDisplayMask(bits: seq<bool>) returns (vars: seq<VariableData>)
      requires |bits| == |slots| && |dirtyMask| == |slots| && |writeTime| == |slots|
      ensures SlotsBelow(vars, |writeTime|) && Ordered(vars, writeTime)
      ensures ShowsExactly(vars, bits, dirtyMask, slots, |bits|)
    {
      var collected := [];
      for slot := 0 to |bits|
        invariant collected == Collect(bits, dirtyMask, slots, slot)
      {
        if bits[slot] {
          collected := collected + [VariableData(slot, dirtyMask[slot], slots[slot])];
        }
      }
      DisplayedVariables(bits, dirtyMask, slots, writeTime);
      vars := StableSort(collected, writeTime);
    }

    /** The variables of call frame stackFrameIndex (0 is the outermost call); none for a
        frame that does not exist. */
    method GetLocalVariables(stackFrameIndex: int) returns (vars: seq<VariableData>)
      requires SizesOk(trace, State())
      ensures !(0 < stackFrameIndex + 1 < |stack|) ==> vars == []
      ensures 0 < stackFrameIndex + 1 < |stack| ==>
                var bits := stack[stackFrameIndex + 1].displayMask;
                SlotsBelow(vars, |writeTime|) && Ordered(vars, writeTime)
                && ShowsExactly(vars, bits, dirtyMask, slots, |bits|)
    {
      var index := stackFrameIndex + 1;
      if index <= 0 || index >= |stack| {
        return [];
      }
      vars := GetVariablesForDisplayMask(stack[index].displayMask);
    }

    /** The variables of the global frame. */
    method GetGlobalVariables() returns (vars: seq<VariableData>)
      requires SizesOk(trace, State())
      ensures stack == [] ==> vars == []
      ensures stack != [] ==>
                var bits := stack[0].displayMask;
                SlotsBelow(vars, |writeTime|) && Ordered(vars, writeTime)
                && ShowsExactly(vars, bits, dirtyMask, slots, |bits|)
    {
      if stack == [] {
        return [];
      }
      vars := GetVariablesForDisplayMask(stack[0].displayMask);
    }

    /** Stamps every slot of the variable slotIdx belongs to with the write time. */
    method UpdateVariableWriteTime(slotIdx: nat, position: nat)
      requires trace.Some? && slotIdx < |trace.value.slotInfo| && |writeTime| == |trace.value.slotInfo|
      requires VariableInRange(trace.value.slotInfo[slotIdx], slotIdx, |writeTime|)
      modifies this`writeTime
      ensures
        var info := trace.value.slotInfo[slotIdx];
        var lo := slotIdx - info.componentIndex;
        writeTime == WriteTimes(old(writeTime), lo, lo + info.columns * info.rows, position)
    {
      var changedSlot := trace.value.slotInfo[slotIdx];
      var idx := slotIdx - changedSlot.componentIndex;
      var lastSlotIdx := idx + changedSlot.columns * changedSlot.rows;
      ghost var lo := idx;
      while idx < lastSlotIdx
        invariant lo <= idx <= lastSlotIdx && |writeTime| == |old(writeTime)|
        invariant forall i | 0 <= i < |writeTime| ::
                    writeTime[i] == if lo <= i < idx then position else old(writeTime)[i]
      {
        writeTime := writeTime[idx := position];
        idx := idx + 1;
      }
      assert writeTime == WriteTimes(old(writeTime), lo, lastSlotIdx, position);
    }

    /** Applies event `position`; true when the event can end a step. */
    method Execute(position: nat) returns (r: bool)
      requires trace.Some? && Valid() && EventOk(trace.value, Functions(stack), position)
      modifies this`slots, this`writeTime, this`stack, this`dirtyMask
      ensures (State(), r) == Execution(trace.value, old(State()), position)
    {
      var t := trace.value;
      if position >= |t.traceInfo| {
        return true;
      }
      var e := t.traceInfo[position];
      var top := |stack| - 1;
      match e.op
      case Line =>
        stack := stack[top := stack[top].(line := e.data0)];
        return true;
      case Var =>
        var slot: nat := e.data0;
        slots := slots[slot := e.data1];
        UpdateVariableWriteTime(slot, position);
        var frame := if t.slotInfo[slot].fnReturnValue < 0 then top else top - 1;
        stack := stack[frame := stack[frame].(displayMask := stack[frame].displayMask[slot := true])];
        dirtyMask := dirtyMask[slot := true];
        return false;
      case Enter =>
        stack := stack + [Frame(e.data0, -1, NoBits(|t.slotInfo|))];
        return false;
      case Exit =>
        stack := stack[..top];
        return true;
      case Scope =>
        return false;
    }

    /** The loop shared by step, stepOver and stepOut: advance the cursor and execute the
        event under it until the mode's break condition holds or the trace is complete. */
    method RunUntilBreak(mode: StepMode, initialDepth: nat)
      requires Valid() && Replayable(trace, Functions(stack), cursor)
      modifies this`cursor, this`slots, this`writeTime, this`stack, this`dirtyMask
      ensures Valid() && State() == StepLoop(trace, old(State()), mode, initialDepth)
    {
      ghost var goal := StepLoop(trace, State(), mode, initialDepth);
      while !TraceHasCompleted()
        invariant Valid() && Replayable(trace, Functions(stack), cursor)
        invariant StepLoop(trace, State(), mode, initialDepth) == goal
        decreases if trace.Some? then |trace.value.traceInfo| - cursor else 0
      {
        ghost var before := State();
        ghost var x := StepOnce(trace.value, before, mode, initialDepth);
        var depthBefore := |stack|;
        var position := cursor;
        cursor := cursor + 1;
        assert State() == before.(cursor := position + 1);
        var executed := Execute(position);
        assert State() == x.0 && executed == x.1;
        if Breaks(mode, executed, depthBefore, |stack|, initialDepth) {
          return;
        }
      }
    }

    /** Runs to the next line or function exit. */
    method Step()
      requires Valid() && Replayable(trace, Functions(stack), cursor)
      modifies this`cursor, this`slots, this`writeTime, this`stack, this`dirtyMask
      ensures Valid() && State() == StepFrom(trace, old(State()), Into)
    {
      Tidy();
      RunUntilBreak(Into, |stack|);
    }

    /** Runs to the next line or exit at the current depth or above. */
    method StepOver()
      requires Valid() && Replayable(trace, Functions(stack), cursor)
      modifies this`cursor, this`slots, this`writeTime, this`stack, this`dirtyMask
      ensures Valid() && State() == StepFrom(trace, old(State()), Over)
    {
      Tidy();
      var initialStackDepth := |stack|;
      RunUntilBreak(Over, initialStackDepth);
    }

    /** Runs until the current function has returned. */
    method StepOut()
      requires Valid() && Replayable(trace, Functions(stack), cursor)
      modifies this`cursor, this`slots, this`writeTime, this`stack, this`dirtyMask
      ensures Valid() && State() == StepFrom(trace, old(State()), Out)
    {
      Tidy();
      var initialStackDepth := |stack|;
      RunUntilBreak(Out, initialStackDepth);
    }
  }
}
