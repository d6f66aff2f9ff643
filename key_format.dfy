/** The binary format of a paint-params key: block headers, the snippet dictionary that
    describes each block's children and payload fields, and the canonical encoding of a
    tree of snippet invocations into bytes.

    block   := header child* payload
    header  := snippetID:u8 blockSize:u8   (blockSize counts the whole block)
    payload := the fields the dictionary declares for snippetID, in order
 */
module KeyFormat {

  type byte = b: int | 0 <= b < 256

  /** A raw runtime pointer. Pointers never go into the bytes; a one-byte index into the
      key's side table does. */
  type Address = nat

  const kHeaderSize: nat := 2
  const kMaxBlockSize: nat := 255
  /** The reserved snippet id of the canonical error block. */
  const kErrorId: byte := 0

  datatype PayloadType = Byte | Float4 | PointerIndex

  datatype PayloadField = PayloadField(fieldType: PayloadType, count: nat)

  /** What the dictionary knows about one snippet id. */
  datatype SnippetEntry = SnippetEntry(numChildren: nat, fields: seq<PayloadField>)

  type Dictionary = map<int, SnippetEntry>

  /** The dictionary's ids fit in a header byte, and the reserved error snippet is
      registered with no children and no payload. */
  predicate ValidDictionary(dict: Dictionary) {
    && (forall id | id in dict :: 0 <= id < 256)
    && kErrorId in dict
    && dict[kErrorId] == SnippetEntry(0, [])
  }

  /** An SkColor4f is carried as 16 opaque bytes. */
  type Color4f = s: seq<byte> | |s| == 16
    witness [0, 0, 0, 0, 0, 0, 0, 0, 0, 0, 0, 0, 0, 0, 0, 0]

  /** field_size: the number of payload bytes a declared field occupies. */
  function FieldSize(field: PayloadField): nat {
    match field.fieldType
    case Byte => field.count
    case PointerIndex => field.count
    case Float4 => field.count * 16
  }

  /** field_offset: the sum of the sizes of the fields before field k. */
  function FieldOffset(fields: seq<PayloadField>, k: nat): nat
    requires k <= |fields|
  {
    if k == 0 then 0 else FieldSize(fields[0]) + FieldOffset(fields[1..], k - 1)
  }

  /** Field k lies inside the declared payload. */
  lemma {:induction false} FieldOffsetBound(fields: seq<PayloadField>, k: nat)
    requires k < |fields|
    ensures FieldOffset(fields, k) + FieldSize(fields[k]) <= FieldOffset(fields, |fields|)
  {
    if k > 0 {
      FieldOffsetBound(fields[1..], k - 1);
    }
  }

  /** Concatenates colors into the 16-bytes-per-color layout of the payload. */
  function Flatten(colors: seq<Color4f>): (r: seq<byte>)
    ensures |r| == 16 * |colors|
  {
    if colors == [] then [] else colors[0] + Flatten(colors[1..])
  }

  /** Reinterprets 16*n payload bytes as n colors. */
  function Chunk(bytes: seq<byte>): (r: seq<Color4f>)
    requires |bytes| % 16 == 0
    ensures 16 * |r| == |bytes|
  {
    if bytes == [] then [] else [bytes[..16]] + Chunk(bytes[16..])
  }

  lemma {:induction false} ChunkFlatten(colors: seq<Color4f>)
    ensures Chunk(Flatten(colors)) == colors
  {
    if colors != [] {
      var f := Flatten(colors);
      assert f[..16] == colors[0];
      assert f[16..] == Flatten(colors[1..]);
      ChunkFlatten(colors[1..]);
    }
  }

  // ---------------------------------------------------------------------------------------
  // Trees of snippet invocations and their encoding

  /** The value written for one payload field. */
  datatype FieldValue =
    | ByteValues(bytes: seq<byte>)
    | ColorValues(colors: seq<Color4f>)
    | PointerValue(address: Address)

  /** One snippet invocation: its id, its child blocks and its payload values. */
  datatype Block = Block(id: byte, children: seq<Block>, values: seq<FieldValue>)

  predicate ValueMatches(field: PayloadField, value: FieldValue) {
    match value
    case ByteValues(bs) => field.fieldType == Byte && |bs| == field.count
    case ColorValues(cs) => field.fieldType == Float4 && |cs| == field.count
    case PointerValue(_) => field.fieldType == PointerIndex && field.count == 1
  }

  /** The tree uses known ids, has the declared number of children and writes exactly the
      declared payload fields, recursively. */
  predicate Conforms(dict: Dictionary, t: Block)
    decreases t
  {
    && t.id in dict
    && |t.children| == dict[t.id].numChildren
    && |t.values| == |dict[t.id].fields|
    && (forall k | 0 <= k < |t.values| :: ValueMatches(dict[t.id].fields[k], t.values[k]))
    && ConformsAll(dict, t.children)
  }

  predicate ConformsAll(dict: Dictionary, ts: seq<Block>)
    decreases ts
  {
    ts == [] || (Conforms(dict, ts[0]) && ConformsAll(dict, ts[1..]))
  }

  function ValueSize(value: FieldValue): nat {
    match value
    case ByteValues(bs) => |bs|
    case ColorValues(cs) => 16 * |cs|
    case PointerValue(_) => 1
  }

  function PayloadSize(values: seq<FieldValue>): nat {
    if values == [] then 0 else ValueSize(values[0]) + PayloadSize(values[1..])
  }

  /** The size a block occupies: its header, its children and its own payload. */
  function EncodedSize(t: Block): nat
    decreases t
  {
    kHeaderSize + EncodedSizeAll(t.children) + PayloadSize(t.values)
  }

  function EncodedSizeAll(ts: seq<Block>): nat
    decreases ts
  {
    if ts == [] then 0 else EncodedSize(ts[0]) + EncodedSizeAll(ts[1..])
  }

  /** Every block of the tree fits the one-byte blockSize field. */
  predicate Fits(t: Block)
    decreases t
  {
    EncodedSize(t) <= kMaxBlockSize && FitsAll(t.children)
  }

  predicate FitsAll(ts: seq<Block>)
    decreases ts
  {
    ts == [] || (Fits(ts[0]) && FitsAll(ts[1..]))
  }

  /** The pointers of a tree in the order the builder registers them: children first,
      then the block's own payload. */
  function Pointers(t: Block): seq<Address>
    decreases t
  {
    PointersAll(t.children) + ValuePointers(t.values)
  }

  function PointersAll(ts: seq<Block>): seq<Address>
    decreases ts
  {
    if ts == [] then [] else Pointers(ts[0]) + PointersAll(ts[1..])
  }

  /** The pointer a payload value registers, if any. */
  function ValuePointer(value: FieldValue): seq<Address> {
    if value.PointerValue? then [value.address] else []
  }

  function ValuePointers(values: seq<FieldValue>): seq<Address> {
    if values == [] then [] else ValuePointer(values[0]) + ValuePointers(values[1..])
  }

  /** The payload bytes of a field, where `base` is the pointer-table index the builder
      hands out next. */
  function EncodeValue(value: FieldValue, base: nat): (r: seq<byte>)
    requires value.PointerValue? ==> base < 256
  {
    match value
    case ByteValues(bs) => bs
    case ColorValues(cs) => Flatten(cs)
    case PointerValue(_) => [base]
  }

  function EncodePayload(values: seq<FieldValue>, base: nat): (r: seq<byte>)
    requires base + |ValuePointers(values)| <= 256
  {
    if values == [] then []
    else EncodeValue(values[0], base) + EncodePayload(values[1..], base + |ValuePointer(values[0])|)
  }

  /** The canonical encoding of a block whose first pointer field receives index `base`. */
  function Encode(t: Block, base: nat): (r: seq<byte>)
    requires Fits(t) && base + |Pointers(t)| <= 256
    decreases t
  {
    [t.id, EncodedSize(t)]
      + (EncodeAll(t.children, base) + EncodePayload(t.values, base + |PointersAll(t.children)|))
  }

  function EncodeAll(ts: seq<Block>, base: nat): (r: seq<byte>)
    requires FitsAll(ts) && base + |PointersAll(ts)| <= 256
    decreases ts
  {
    if ts == [] then []
    else Encode(ts[0], base) + EncodeAll(ts[1..], base + |Pointers(ts[0])|)
  }

  /** The encoding of a payload is as long as its declared fields. */
  lemma {:induction false} PayloadLength(values: seq<FieldValue>, base: nat)
    requires base + |ValuePointers(values)| <= 256
    ensures |EncodePayload(values, base)| == PayloadSize(values)
  {
    if values != [] {
      PayloadLength(values[1..], base + |ValuePointer(values[0])|);
    }
  }

  /** The encoding of a block is EncodedSize(t) bytes long, so the size byte in its header
      is its length. */
  lemma {:induction false} EncodeLength(t: Block, base: nat)
    requires Fits(t) && base + |Pointers(t)| <= 256
    ensures |Encode(t, base)| == EncodedSize(t)
    decreases t, 1
  {
    EncodeAllLength(t.children, base);
    PayloadLength(t.values, base + |PointersAll(t.children)|);
  }

  lemma {:induction false} EncodeAllLength(ts: seq<Block>, base: nat)
    requires FitsAll(ts) && base + |PointersAll(ts)| <= 256
    ensures |EncodeAll(ts, base)| == EncodedSizeAll(ts)
    decreases ts, 0
  {
    if ts != [] {
      EncodeLength(ts[0], base);
      EncodeAllLength(ts[1..], base + |Pointers(ts[0])|);
    }
  }

  // ---------------------------------------------------------------------------------------
  // The finished key

  /** SkPaintParamsKey: the key's bytes and the pointer table its PointerIndex fields refer to. */
  datatype PaintParamsKey = PaintParamsKey(data: seq<byte>, pointerData: seq<Address>)

  /** operator==: same length and identical bytes; the pointer tables are ignored. */
  function KeyEquals(a: PaintParamsKey, b: PaintParamsKey): (r: bool)
    ensures r <==> a.data == b.data
  {
    |a.data| == |b.data| && forall i | 0 <= i < |a.data| :: a.data[i] == b.data[i]
  }

  /** isErrorKey: the key is exactly the two-byte block {kError, 2}. */
  predicate IsErrorKey(key: PaintParamsKey) {
    |key.data| == kHeaderSize && key.data[0] == kErrorId && key.data[1] == kHeaderSize
  }
}
