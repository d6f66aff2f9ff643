/** Reading a finished key: read_header, SkPaintParamsKey::BlockReader and the pre-order
    traversal of toShaderInfo.

    A reader names one block by the bytes it spans. A request that would trip one of the
    source's SK_DEBUG assertions (a header outside the span, a block smaller than its
    header, an unknown snippet id, an out-of-range index) yields None. */
module KeyReader {
  import opened Wrappers
  import opened KeyFormat

  datatype Header = Header(codeSnippetId: byte, blockSize: byte)

  /** read_header's assertions: the header lies in the span, the block is at least a
      header long and ends inside the span. */
  predicate HeaderOk(span: seq<byte>, offset: nat) {
    && offset + kHeaderSize <= |span|
    && span[offset + 1] >= kHeaderSize
    && offset + span[offset + 1] <= |span|
  }

  function ReadHeader(span: seq<byte>, offset: nat): (h: Header)
    requires HeaderOk(span, offset)
    ensures h.codeSnippetId == span[offset] && h.blockSize == span[offset + 1]
    ensures kHeaderSize <= h.blockSize && offset + h.blockSize <= |span|
  {
    Header(span[offset], span[offset + 1])
  }

  /** The block's bytes, the owning key's pointer table and the dictionary entry of the
      block's snippet id. */
  datatype BlockReader = BlockReader(block: seq<byte>, pointerSpan: seq<Address>, entry: SnippetEntry)

  /** A reader's block starts with a header whose size byte is the block's length. */
  predicate WellFormed(r: BlockReader) {
    |r.block| >= kHeaderSize && r.block[1] == |r.block|
  }

  /** The BlockReader constructor over the block at `offset` of `parentSpan`. */
  function MakeReader(dict: Dictionary, parentSpan: seq<byte>, pointerSpan: seq<Address>,
                      offset: nat): (r: Option<BlockReader>)
    ensures r.Some? <==> HeaderOk(parentSpan, offset) && parentSpan[offset] in dict
    ensures r.Some? ==>
      && WellFormed(r.value)
      && offset + |r.value.block| <= |parentSpan|
      && (forall j | 0 <= j < |r.value.block| :: r.value.block[j] == parentSpan[offset + j])
      && r.value.entry == dict[parentSpan[offset]]
      && r.value.pointerSpan == pointerSpan
  {
    if !HeaderOk(parentSpan, offset) || parentSpan[offset] !in dict then None
    else
      var header := ReadHeader(parentSpan, offset);
      Some(BlockReader(parentSpan[offset..offset + header.blockSize], pointerSpan,
                       dict[header.codeSnippetId]))
  }

  function CodeSnippetId(r: BlockReader): byte
    requires WellFormed(r)
  {
    r.block[0]
  }

  function BlockSize(r: BlockReader): byte
    requires WellFormed(r)
  {
    r.block[1]
  }

  function NumChildren(r: BlockReader): nat {
    r.entry.numChildren
  }

  /** The offset reached by stepping over n consecutive blocks from `offset`, one header
      read at a time. */
  function SkipBlocks(span: seq<byte>, offset: nat, n: nat): (r: Option<nat>)
    ensures r.Some? ==> r.value >= offset + kHeaderSize * n
    ensures r.Some? && n > 0 ==> r.value <= |span|
    decreases n
  {
    if n == 0 then Some(offset)
    else if !HeaderOk(span, offset) then None
    else SkipBlocks(span, offset + span[offset + 1], n - 1)
  }

  /** child(i): the block after the header and the i preceding siblings. A child lies
      strictly inside its parent. */
  function Child(dict: Dictionary, r: BlockReader, i: nat): (c: Option<BlockReader>)
    ensures c.Some? ==> i < NumChildren(r) && WellFormed(c.value)
    ensures c.Some? ==> |c.value.block| + kHeaderSize <= |r.block|
  {
    if i >= NumChildren(r) then None
    else
      match SkipBlocks(r.block, kHeaderSize, i)
      case None => None
      case Some(offset) => MakeReader(dict, r.block, r.pointerSpan, offset)
  }

  /** dataPayload: the bytes after the header and all the children, up to the end of the
      block. */
  function DataPayload(r: BlockReader): (p: Option<seq<byte>>)
    requires WellFormed(r)
    ensures p.Some? ==> |p.value| + kHeaderSize <= |r.block|
  {
    match SkipBlocks(r.block, kHeaderSize, NumChildren(r))
    case None => None
    case Some(payloadOffset) =>
      Some(r.block[payloadOffset..BlockSize(r)])
  }

  /** payload_subspan_for_field, in bytes. */
  function FieldBytes(payload: seq<byte>, fields: seq<PayloadField>, k: nat): (s: Option<seq<byte>>)
    requires k < |fields|
    ensures s.Some? <==> FieldOffset(fields, k) + FieldSize(fields[k]) <= |payload|
    ensures s.Some? ==>
              s.value == payload[FieldOffset(fields, k)..FieldOffset(fields, k) + FieldSize(fields[k])]
    ensures s.Some? ==> |s.value| == FieldSize(fields[k])
  {
    var offset := FieldOffset(fields, k);
    if offset + FieldSize(fields[k]) <= |payload| then
      Some(payload[offset..offset + FieldSize(fields[k])])
    else None
  }

  function Bytes(r: BlockReader, k: nat): (s: Option<seq<byte>>)
    requires WellFormed(r) && k < |r.entry.fields| && r.entry.fields[k].fieldType == Byte
    ensures s.Some? ==> |s.value| == r.entry.fields[k].count
  {
    match DataPayload(r)
    case None => None
    case Some(payload) => FieldBytes(payload, r.entry.fields, k)
  }

  function Colors(r: BlockReader, k: nat): (s: Option<seq<Color4f>>)
    requires WellFormed(r) && k < |r.entry.fields| && r.entry.fields[k].fieldType == Float4
    ensures s.Some? ==> |s.value| == r.entry.fields[k].count
  {
    match DataPayload(r)
    case None => None
    case Some(payload) =>
      match FieldBytes(payload, r.entry.fields, k)
      case None => None
      case Some(bytes) => Some(Chunk(bytes))
  }

  /** pointer(k): the payload byte is an index into the key's pointer table. */
  function Pointer(r: BlockReader, k: nat): (p: Option<Address>)
    requires WellFormed(r) && k < |r.entry.fields|
    requires r.entry.fields[k] == PayloadField(PointerIndex, 1)
    ensures p.Some? ==> p.value in r.pointerSpan
  {
    match DataPayload(r)
    case None => None
    case Some(payload) =>
      match FieldBytes(payload, r.entry.fields, k)
      case None => None
      case Some(bytes) =>
        if bytes[0] < |r.pointerSpan| then Some(r.pointerSpan[bytes[0]]) else None
  }

  // ---------------------------------------------------------------------------------------
  // The offset-summing loops

  lemma {:induction false} FieldOffsetStep(fields: seq<PayloadField>, k: nat)
    requires k < |fields|
    ensures FieldOffset(fields, k + 1) == FieldOffset(fields, k) + FieldSize(fields[k])
  {
    if k > 0 {
      FieldOffsetStep(fields[1..], k - 1);
    }
  }

  /** field_offset */
  method ComputeFieldOffset(fields: seq<PayloadField>, fieldIndex: nat) returns (byteOffset: nat)
    requires fieldIndex <= |fields|
    ensures byteOffset == FieldOffset(fields, fieldIndex)
  {
    byteOffset := 0;
    for i := 0 to fieldIndex
      invariant byteOffset == FieldOffset(fields, i)
    {
      FieldOffsetStep(fields, i);
      byteOffset := byteOffset + FieldSize(fields[i]);
    }
  }

  /** The walk shared by child and dataPayload: step over n blocks starting after the
      header. */
  method StepOverChildren(block: seq<byte>, n: nat) returns (offset: nat)
    requires SkipBlocks(block, kHeaderSize, n).Some?
    ensures offset == SkipBlocks(block, kHeaderSize, n).value
  {
    offset := kHeaderSize;
    for i := 0 to n
      invariant SkipBlocks(block, offset, n - i) == SkipBlocks(block, kHeaderSize, n)
    {
      var header := ReadHeader(block, offset);
      offset := offset + header.blockSize;
    }
  }

  /** child(childIndex) */
  method ReadChild(dict: Dictionary, r: BlockReader, childIndex: nat) returns (child: BlockReader)
    requires Child(dict, r, childIndex).Some?
    ensures child == Child(dict, r, childIndex).value
  {
    var childOffset := StepOverChildren(r.block, childIndex);
    var header := ReadHeader(r.block, childOffset);
    child := BlockReader(r.block[childOffset..childOffset + header.blockSize], r.pointerSpan,
                         dict[header.codeSnippetId]);
  }

  /** dataPayload() */
  method ReadDataPayload(r: BlockReader) returns (payload: seq<byte>)
    requires WellFormed(r) && DataPayload(r).Some?
    ensures payload == DataPayload(r).value
  {
    var payloadOffset := StepOverChildren(r.block, NumChildren(r));
    var payloadSize := BlockSize(r) - payloadOffset;
    payload := r.block[payloadOffset..payloadOffset + payloadSize];
  }

  // ---------------------------------------------------------------------------------------
  // Pre-order traversal

  /** AddBlockToShaderInfo's order: the block itself, then each child's blocks in index
      order. */
  function Visit(dict: Dictionary, r: BlockReader): (v: Option<seq<BlockReader>>)
    ensures v.Some? ==> |v.value| >= 1 && v.value[0] == r
    decreases |r.block|, NumChildren(r) + 1
  {
    match VisitChildren(dict, r, 0)
    case None => None
    case Some(rest) => Some([r] + rest)
  }

  /** The blocks of children i, i+1, ... of r, each in pre-order. */
  function VisitChildren(dict: Dictionary, r: BlockReader, i: nat): (v: Option<seq<BlockReader>>)
    decreases |r.block|, NumChildren(r) - i
  {
    if i >= NumChildren(r) then Some([])
    else
      match Child(dict, r, i)
      case None => None
      case Some(c) =>
        match Visit(dict, c)
        case None => None
        case Some(first) =>
          match VisitChildren(dict, r, i + 1)
          case None => None
          case Some(rest) => Some(first + rest)
  }

  /** The blocks toShaderInfo adds, starting with the top-level block at `offset`. */
  function VisitKey(dict: Dictionary, key: PaintParamsKey, offset: nat): (v: Option<seq<BlockReader>>)
    decreases |key.data| - offset
  {
    if offset >= |key.data| then Some([])
    else
      match MakeReader(dict, key.data, key.pointerData, offset)
      case None => None
      case Some(r) =>
        match Visit(dict, r)
        case None => None
        case Some(first) =>
          match VisitKey(dict, key, offset + BlockSize(r))
          case None => None
          case Some(rest) => Some(first + rest)
  }

  /** One step of the child loop: child i is readable and its blocks come first. */
  lemma VisitChildrenStep(dict: Dictionary, r: BlockReader, i: nat)
    returns (c: BlockReader, first: seq<BlockReader>, rest: seq<BlockReader>)
    requires i < NumChildren(r) && VisitChildren(dict, r, i).Some?
    ensures Child(dict, r, i) == Some(c) && Visit(dict, c) == Some(first)
    ensures VisitChildren(dict, r, i + 1) == Some(rest)
    ensures VisitChildren(dict, r, i).value == first + rest
  {
    c := Child(dict, r, i).value;
    first := Visit(dict, c).value;
    rest := VisitChildren(dict, r, i + 1).value;
  }

  /** One step of the top-level loop: the block at `offset` is readable and its blocks
      come first. */
  lemma VisitKeyStep(dict: Dictionary, key: PaintParamsKey, offset: nat)
    returns (r: BlockReader, first: seq<BlockReader>, rest: seq<BlockReader>)
    requires offset < |key.data| && VisitKey(dict, key, offset).Some?
    ensures MakeReader(dict, key.data, key.pointerData, offset) == Some(r)
    ensures Visit(dict, r) == Some(first)
    ensures VisitKey(dict, key, offset + BlockSize(r)) == Some(rest)
    ensures VisitKey(dict, key, offset).value == first + rest
  {
    r := MakeReader(dict, key.data, key.pointerData, offset).value;
    first := Visit(dict, r).value;
    rest := VisitKey(dict, key, offset + BlockSize(r)).value;
  }

  /** Appending a visit's first part and then the rest. */
  lemma AppendParts(before: seq<BlockReader>, first: seq<BlockReader>, rest: seq<BlockReader>,
                    total: seq<BlockReader>)
    requires before + (first + rest) == total
    ensures (before + first) + rest == total
  {
    assert before + first + rest == before + (first + rest);
  }

  /** AddBlockToShaderInfo: appends the block and then, recursively, its children. */
  method AddBlockToShaderInfo(dict: Dictionary, reader: BlockReader, result: seq<BlockReader>)
    returns (result': seq<BlockReader>)
    requires Visit(dict, reader).Some?
    ensures result' == result + Visit(dict, reader).value
    decreases |reader.block|
  {
    result' := result + [reader];
    for i := 0 to NumChildren(reader)
      invariant VisitChildren(dict, reader, i).Some?
      invariant result' + VisitChildren(dict, reader, i).value == result + Visit(dict, reader).value
    {
      ghost var c, first, rest := VisitChildrenStep(dict, reader, i);
      var childReader := ReadChild(dict, reader, i);
      ghost var before := result';
      result' := AddBlockToShaderInfo(dict, childReader, result');
      AppendParts(before, first, rest, result + Visit(dict, reader).value);
    }
  }

  /** toShaderInfo: visits the top-level blocks at successive offsets. */
  method ToShaderInfo(dict: Dictionary, key: PaintParamsKey, result: seq<BlockReader>)
    returns (result': seq<BlockReader>)
    requires VisitKey(dict, key, 0).Some?
    ensures result' == result + VisitKey(dict, key, 0).value
  {
    result' := result;
    var curHeaderOffset := 0;
    while curHeaderOffset < |key.data|
      invariant VisitKey(dict, key, curHeaderOffset).Some?
      invariant result' + VisitKey(dict, key, curHeaderOffset).value == result + VisitKey(dict, key, 0).value
      decreases |key.data| - curHeaderOffset
    {
      ghost var r, first, rest := VisitKeyStep(dict, key, curHeaderOffset);
      var reader := MakeReader(dict, key.data, key.pointerData, curHeaderOffset).value;
      ghost var before := result';
      result' := AddBlockToShaderInfo(dict, reader, result');
      AppendParts(before, first, rest, result + VisitKey(dict, key, 0).value);
      curHeaderOffset := curHeaderOffset + BlockSize(reader);
    }
  }
}
