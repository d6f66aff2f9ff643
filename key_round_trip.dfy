/** Reading back what the builder wrote: a BlockReader over a block's canonical encoding
    finds each child's encoding, the block's payload and each payload field's value, and
    toShaderInfo visits a reader over every block in pre-order. With BuilderModel's
    BuildThenLock this closes the round trip from builder calls to reader results. */
module KeyRoundTrip {
  import opened Wrappers
  import opened KeyFormat
  import opened KeyReader
  import BuilderModel

  /** `e` occurs in `span` starting at offset `o`. */
  ghost predicate IsAt<T>(span: seq<T>, o: nat, e: seq<T>) {
    o + |e| <= |span| && span[o..o + |e|] == e
  }

  lemma SplitAt<T>(span: seq<T>, o: nat, a: seq<T>, b: seq<T>)
    requires IsAt(span, o, a + b)
    ensures IsAt(span, o, a) && IsAt(span, o + |a|, b)
  {
    var s := span[o..o + |a| + |b|];
    assert span[o..o + |a|] == s[..|a|] == a;
    assert span[o + |a|..o + |a| + |b|] == s[|a|..] == b;
  }

  lemma ShiftAt<T>(a: seq<T>, b: seq<T>, o: nat, e: seq<T>)
    requires IsAt(b, o, e)
    ensures IsAt(a + b, |a| + o, e)
  {
    assert (a + b)[|a| + o..|a| + o + |e|] == b[o..o + |e|];
  }

  lemma ElementAt<T>(span: seq<T>, o: nat, e: seq<T>, j: nat)
    requires IsAt(span, o, e) && j < |e|
    ensures span[o + j] == e[j]
  {
    assert span[o..o + |e|][j] == span[o + j];
  }

  lemma WholeAt<T>(e: seq<T>)
    ensures IsAt(e, 0, e)
  {
    assert e[0..|e|] == e;
  }

  // ---------------------------------------------------------------------------------------
  // Sibling sequences

  lemma PrefixUnfold<T>(ts: seq<T>, i: nat)
    requires 0 < i <= |ts|
    ensures ts[..i][0] == ts[0] && ts[..i][1..] == ts[1..][..i - 1]
  {
  }

  /** The first i siblings are the first one and the first i-1 of the rest. */
  lemma SizePrefixSplit(ts: seq<Block>, i: nat)
    requires 0 < i <= |ts|
    ensures EncodedSizeAll(ts[..i]) == EncodedSize(ts[0]) + EncodedSizeAll(ts[1..][..i - 1])
  {
    PrefixUnfold(ts, i);
  }

  lemma PointersPrefixSplit(ts: seq<Block>, i: nat)
    requires 0 < i <= |ts|
    ensures PointersAll(ts[..i]) == Pointers(ts[0]) + PointersAll(ts[1..][..i - 1])
  {
    PrefixUnfold(ts, i);
  }

  /** The first i+1 siblings are the first i and sibling i. */
  lemma {:induction false} SizePrefixStep(ts: seq<Block>, i: nat)
    requires i < |ts|
    ensures EncodedSizeAll(ts[..i + 1]) == EncodedSizeAll(ts[..i]) + EncodedSize(ts[i])
  {
    PrefixUnfold(ts, i + 1);
    if i > 0 {
      PrefixUnfold(ts, i);
      SizePrefixStep(ts[1..], i - 1);
    }
  }

  lemma {:induction false} PointersPrefixStep(ts: seq<Block>, i: nat)
    requires i < |ts|
    ensures PointersAll(ts[..i + 1]) == PointersAll(ts[..i]) + Pointers(ts[i])
  {
    PrefixUnfold(ts, i + 1);
    if i > 0 {
      PrefixUnfold(ts, i);
      PointersPrefixStep(ts[1..], i - 1);
    } else {
      assert ts[..1][1..] == [];
    }
  }

  /** Sibling i's pointers sit after those of the siblings before it. */
  lemma {:induction false} PointersAt(ts: seq<Block>, i: nat)
    requires i < |ts|
    ensures PointersAll(ts) == PointersAll(ts[..i]) + (Pointers(ts[i]) + PointersAll(ts[i + 1..]))
  {
    if i == 0 {
      assert ts[..0] == [];
    } else {
      PrefixUnfold(ts, i);
      PointersAt(ts[1..], i - 1);
      assert ts[1..][i - 1 + 1..] == ts[i + 1..];
    }
  }

  lemma {:induction false} FitsAt(ts: seq<Block>, i: nat)
    requires FitsAll(ts) && i < |ts|
    ensures Fits(ts[i])
  {
    if i > 0 {
      FitsAt(ts[1..], i - 1);
    }
  }

  lemma {:induction false} ConformsAt(dict: Dictionary, ts: seq<Block>, i: nat)
    requires ConformsAll(dict, ts) && i < |ts|
    ensures Conforms(dict, ts[i])
  {
    if i > 0 {
      ConformsAt(dict, ts[1..], i - 1);
    }
  }

  lemma {:induction false} ValuePointersAt(values: seq<FieldValue>, k: nat)
    requires k < |values|
    ensures ValuePointers(values) ==
            ValuePointers(values[..k]) + (ValuePointer(values[k]) + ValuePointers(values[k + 1..]))
  {
    if k == 0 {
      assert values[..0] == [];
    } else {
      PrefixUnfold(values, k);
      ValuePointersAt(values[1..], k - 1);
      assert values[1..][k - 1 + 1..] == values[k + 1..];
    }
  }

  // ---------------------------------------------------------------------------------------
  // Reading encoded blocks

  /** An encoded block starts with its id and its length, and fits the size byte. */
  lemma EncodedHeader(t: Block, base: nat)
    requires Fits(t) && base + |Pointers(t)| <= 256
    ensures
      var e := Encode(t, base);
      && |e| == EncodedSize(t) && kHeaderSize <= |e| <= kMaxBlockSize
      && e[0] == t.id && e[1] == |e|
  {
    EncodeLength(t, base);
  }

  /** A block's encoding holds its children's encoding right after the header, and its
      payload right after that. */
  lemma PartsAt(t: Block, base: nat)
    requires Fits(t) && base + |Pointers(t)| <= 256
    ensures
      var e := Encode(t, base);
      var ea := EncodeAll(t.children, base);
      var payload := EncodePayload(t.values, base + |PointersAll(t.children)|);
      && IsAt(e, kHeaderSize, ea) && IsAt(e, kHeaderSize + |ea|, payload)
      && |ea| == EncodedSizeAll(t.children) && kHeaderSize + |ea| + |payload| == |e|
  {
    var ea := EncodeAll(t.children, base);
    var payload := EncodePayload(t.values, base + |PointersAll(t.children)|);
    EncodeLength(t, base);
    EncodeAllLength(t.children, base);
    WholeAt(ea + payload);
    ShiftAt([t.id, EncodedSize(t)], ea + payload, 0, ea + payload);
    SplitAt(Encode(t, base), kHeaderSize, ea, payload);
  }

  /** The block can be encoded with its first pointer numbered `base`, and conforms to the
      dictionary. */
  ghost predicate Encodable(dict: Dictionary, t: Block, base: nat) {
    Conforms(dict, t) && Fits(t) && base + |Pointers(t)| <= 256
  }

  /** The reader a block's encoding is read with: its bytes, the key's pointer table and
      the dictionary entry of its id. */
  function ReaderOf(dict: Dictionary, t: Block, base: nat, pointers: seq<Address>): (r: BlockReader)
    requires Encodable(dict, t, base)
    ensures WellFormed(r) && BlockSize(r) == EncodedSize(t)
  {
    EncodedHeader(t, base);
    BlockReader(Encode(t, base), pointers, dict[t.id])
  }

  /** The BlockReader constructor finds a block wherever its encoding lies. */
  lemma ReaderOfEncoded(dict: Dictionary, span: seq<byte>, pointers: seq<Address>, o: nat,
                        t: Block, base: nat)
    requires Conforms(dict, t) && EncodedAt(span, o, t, base)
    ensures MakeReader(dict, span, pointers, o) == Some(ReaderOf(dict, t, base, pointers))
  {
    EncodedHeader(t, base);
  }

  /** The block t, whose first pointer gets index base, is encoded at offset o. */
  ghost predicate EncodedAt(span: seq<byte>, o: nat, t: Block, base: nat) {
    Fits(t) && base + |Pointers(t)| <= 256 && IsAt(span, o, Encode(t, base))
  }

  /** The siblings ts, whose first pointer gets index base, are encoded at offset o. */
  ghost predicate SiblingsAt(span: seq<byte>, o: nat, ts: seq<Block>, base: nat) {
    FitsAll(ts) && base + |PointersAll(ts)| <= 256 && IsAt(span, o, EncodeAll(ts, base))
  }

  /** The first of the siblings encoded at `o`: its header, and where the others start. */
  lemma FirstSiblingAt(span: seq<byte>, o: nat, ts: seq<Block>, base: nat)
    requires ts != [] && SiblingsAt(span, o, ts, base)
    ensures EncodedAt(span, o, ts[0], base)
    ensures HeaderOk(span, o) && span[o + 1] == EncodedSize(ts[0])
    ensures SiblingsAt(span, o + EncodedSize(ts[0]), ts[1..], base + |Pointers(ts[0])|)
  {
    var e0 := Encode(ts[0], base);
    SplitAt(span, o, e0, EncodeAll(ts[1..], base + |Pointers(ts[0])|));
    EncodedHeader(ts[0], base);
    ElementAt(span, o, e0, 1);
  }

  /** The headers of the blocks ts follow each other from offset o, each giving its
      block's size. */
  ghost predicate HeadersAt(span: seq<byte>, o: nat, ts: seq<Block>)
    decreases |ts|
  {
    if ts == [] then o <= |span|
    else HeaderOk(span, o) && span[o + 1] == EncodedSize(ts[0])
         && HeadersAt(span, o + EncodedSize(ts[0]), ts[1..])
  }

  lemma {:induction false} SiblingHeaders(span: seq<byte>, o: nat, ts: seq<Block>, base: nat)
    requires SiblingsAt(span, o, ts, base)
    ensures HeadersAt(span, o, ts)
    decreases |ts|
  {
    if ts != [] {
      FirstSiblingAt(span, o, ts, base);
      SiblingHeaders(span, o + EncodedSize(ts[0]), ts[1..], base + |Pointers(ts[0])|);
    }
  }

  /** Stepping over i blocks lands at the end of the first i of them. */
  lemma {:induction false} SkipHeaders(span: seq<byte>, o: nat, ts: seq<Block>, i: nat)
    requires HeadersAt(span, o, ts) && i <= |ts|
    ensures SkipBlocks(span, o, i) == Some(o + EncodedSizeAll(ts[..i]))
    decreases i
  {
    if i == 0 {
      assert ts[..0] == [];
    } else {
      SkipHeaders(span, o + EncodedSize(ts[0]), ts[1..], i - 1);
      SizePrefixSplit(ts, i);
    }
  }

  /** Stepping over i encoded siblings lands at the end of the first i of them. */
  lemma SkipEncoded(span: seq<byte>, o: nat, ts: seq<Block>, base: nat, i: nat)
    requires SiblingsAt(span, o, ts, base) && i <= |ts|
    ensures SkipBlocks(span, o, i) == Some(o + EncodedSizeAll(ts[..i]))
  {
    SiblingHeaders(span, o, ts, base);
    SkipHeaders(span, o, ts, i);
  }

  /** Sibling i fits and its pointers are numbered after those of the siblings before it. */
  lemma SiblingBound(ts: seq<Block>, base: nat, i: nat)
    requires FitsAll(ts) && base + |PointersAll(ts)| <= 256 && i < |ts|
    ensures Fits(ts[i]) && base + |PointersAll(ts[..i])| + |Pointers(ts[i])| <= 256
  {
    FitsAt(ts, i);
    PointersAt(ts, i);
  }

  /** Sibling i's encoding starts where the first i siblings end: at offset oi, with its
      first pointer numbered bi. */
  lemma {:induction false} SiblingAt(span: seq<byte>, o: nat, ts: seq<Block>, base: nat, i: nat,
                                     oi: nat, bi: nat)
    requires SiblingsAt(span, o, ts, base) && i < |ts|
    requires oi == o + EncodedSizeAll(ts[..i]) && bi == base + |PointersAll(ts[..i])|
    ensures EncodedAt(span, oi, ts[i], bi)
    decreases i
  {
    FirstSiblingAt(span, o, ts, base);
    if i == 0 {
      assert ts[..0] == [];
    } else {
      SizePrefixSplit(ts, i);
      PointersPrefixSplit(ts, i);
      SiblingAt(span, o + EncodedSize(ts[0]), ts[1..], base + |Pointers(ts[0])|, i - 1, oi, bi);
      assert ts[1..][i - 1] == ts[i];
    }
  }

  lemma EncodedSiblingAt(span: seq<byte>, o: nat, ts: seq<Block>, base: nat, i: nat)
    requires SiblingsAt(span, o, ts, base) && i < |ts|
    ensures EncodedAt(span, o + EncodedSizeAll(ts[..i]), ts[i], base + |PointersAll(ts[..i])|)
  {
    SiblingAt(span, o, ts, base, i, o + EncodedSizeAll(ts[..i]), base + |PointersAll(ts[..i])|);
  }

  /** The reader's children are the conforming siblings ts, encoded right after its header. */
  ghost predicate ChildrenOf(dict: Dictionary, r: BlockReader, ts: seq<Block>, base: nat) {
    NumChildren(r) == |ts| && ConformsAll(dict, ts) && SiblingsAt(r.block, kHeaderSize, ts, base)
  }

  /** child(i) of a block whose children are the encoded siblings ts: child i's pointers
      are numbered from cb. */
  lemma ChildAt(dict: Dictionary, r: BlockReader, ts: seq<Block>, base: nat, i: nat, cb: nat)
    requires ChildrenOf(dict, r, ts, base) && i < |ts| && cb == base + |PointersAll(ts[..i])|
    ensures Encodable(dict, ts[i], cb)
    ensures Child(dict, r, i) == Some(ReaderOf(dict, ts[i], cb, r.pointerSpan))
  {
    ConformsAt(dict, ts, i);
    SkipEncoded(r.block, kHeaderSize, ts, base, i);
    EncodedSiblingAt(r.block, kHeaderSize, ts, base, i);
    ReaderOfEncoded(dict, r.block, r.pointerSpan, kHeaderSize + EncodedSizeAll(ts[..i]), ts[i], cb);
  }

  /** A reader over a block's encoding: its children are the block's children, and its
      payload is the encoding of the block's values, at the end of the block. */
  lemma ReaderParts(dict: Dictionary, t: Block, base: nat, pointers: seq<Address>)
    requires Encodable(dict, t, base)
    ensures
      var r := ReaderOf(dict, t, base, pointers);
      var payload := EncodePayload(t.values, base + |PointersAll(t.children)|);
      && ChildrenOf(dict, r, t.children, base)
      && IsAt(r.block, kHeaderSize + EncodedSizeAll(t.children), payload)
      && kHeaderSize + EncodedSizeAll(t.children) + |payload| == |r.block|
  {
    PartsAt(t, base);
  }

  /** child(i) of an encoded block is the reader over child i's encoding, whose pointers
      are numbered after those of the children before it. */
  lemma ChildRoundTrip(dict: Dictionary, t: Block, base: nat, pointers: seq<Address>, i: nat,
                       cb: nat)
    requires Encodable(dict, t, base) && i < |t.children|
    requires cb == base + |PointersAll(t.children[..i])|
    ensures Encodable(dict, t.children[i], cb)
    ensures Child(dict, ReaderOf(dict, t, base, pointers), i) ==
            Some(ReaderOf(dict, t.children[i], cb, pointers))
  {
    var r := ReaderOf(dict, t, base, pointers);
    ReaderParts(dict, t, base, pointers);
    assert r.pointerSpan == pointers;
    ChildAt(dict, r, t.children, base, i, cb);
  }

  /** Sibling i's pointers lie where its pointer indices say. */
  lemma PointersOfSiblingAt(pointers: seq<Address>, base: nat, ts: seq<Block>, i: nat)
    requires IsAt(pointers, base, PointersAll(ts)) && i < |ts|
    ensures IsAt(pointers, base + |PointersAll(ts[..i])|, Pointers(ts[i]))
  {
    PointersAt(ts, i);
    SplitAt(pointers, base, PointersAll(ts[..i]), Pointers(ts[i]) + PointersAll(ts[i + 1..]));
    SplitAt(pointers, base + |PointersAll(ts[..i])|, Pointers(ts[i]), PointersAll(ts[i + 1..]));
  }

  /** Child i's pointers lie where its pointer indices say, when its parent's do. */
  lemma ChildPointers(pointers: seq<Address>, base: nat, t: Block, i: nat)
    requires IsAt(pointers, base, Pointers(t)) && i < |t.children|
    ensures IsAt(pointers, base + |PointersAll(t.children[..i])|, Pointers(t.children[i]))
  {
    SplitAt(pointers, base, PointersAll(t.children), ValuePointers(t.values));
    PointersOfSiblingAt(pointers, base, t.children, i);
  }

  /** dataPayload of a block whose children are the encoded siblings ts. */
  lemma DataPayloadAt(r: BlockReader, ts: seq<Block>, base: nat, payload: seq<byte>)
    requires WellFormed(r) && NumChildren(r) == |ts| && SiblingsAt(r.block, kHeaderSize, ts, base)
    requires IsAt(r.block, kHeaderSize + EncodedSizeAll(ts), payload)
    requires kHeaderSize + EncodedSizeAll(ts) + |payload| == |r.block|
    ensures DataPayload(r) == Some(payload)
  {
    SkipEncoded(r.block, kHeaderSize, ts, base, |ts|);
    assert ts[..|ts|] == ts;
  }

  /** dataPayload of an encoded block is the encoding of its payload values. */
  lemma PayloadRoundTrip(dict: Dictionary, t: Block, base: nat, pointers: seq<Address>)
    requires Encodable(dict, t, base)
    ensures DataPayload(ReaderOf(dict, t, base, pointers)) ==
            Some(EncodePayload(t.values, base + |PointersAll(t.children)|))
  {
    ReaderParts(dict, t, base, pointers);
    DataPayloadAt(ReaderOf(dict, t, base, pointers), t.children, base,
                  EncodePayload(t.values, base + |PointersAll(t.children)|));
  }

  // ---------------------------------------------------------------------------------------
  // Reading payload fields

  /** A value written for a declared field occupies exactly that field's size. */
  lemma ValueLength(field: PayloadField, value: FieldValue, vb: nat)
    requires ValueMatches(field, value) && (value.PointerValue? ==> vb < 256)
    ensures |EncodeValue(value, vb)| == FieldSize(field)
  {
  }

  /** Value k of `values`, declared by `fields`, starts at byte `off` of the payload and
      numbers its pointer `vb`. */
  ghost predicate ValueSlot(fields: seq<PayloadField>, values: seq<FieldValue>, base: nat,
                            k: nat, off: nat, vb: nat)
  {
    && |values| == |fields| && (forall j | 0 <= j < |values| :: ValueMatches(fields[j], values[j]))
    && base + |ValuePointers(values)| <= 256 && k < |values|
    && off == FieldOffset(fields, k) && vb == base + |ValuePointers(values[..k])|
  }

  /** Value k of a payload is encoded at field k's offset, with its pointer numbered after
      those of the values before it. */
  lemma {:induction false} ValueAt(fields: seq<PayloadField>, values: seq<FieldValue>, base: nat,
                                   k: nat, off: nat, vb: nat)
    requires ValueSlot(fields, values, base, k, off, vb)
    ensures vb + |ValuePointer(values[k])| <= 256
    ensures IsAt(EncodePayload(values, base), off, EncodeValue(values[k], vb))
    decreases k
  {
    if k == 0 {
      assert values[..0] == [];
      PayloadCons(values, base);
      PayloadHead(values, base);
    } else {
      var restOff := off - FieldSize(fields[0]);
      SlotTail(fields, values, base, k, off, vb, restOff);
      ValueAt(fields[1..], values[1..], base + |ValuePointer(values[0])|, k - 1, restOff, vb);
      PayloadTail(values, base, restOff, EncodeValue(values[k], vb));
    }
  }

  /** Slot k of a payload is slot k - 1 of the payload after its first value. */
  lemma SlotTail(fields: seq<PayloadField>, values: seq<FieldValue>, base: nat,
                 k: nat, off: nat, vb: nat, restOff: int)
    requires ValueSlot(fields, values, base, k, off, vb) && k > 0
    requires restOff == off - FieldSize(fields[0])
    ensures restOff >= 0 && values[1..][k - 1] == values[k]
    ensures ValueSlot(fields[1..], values[1..], base + |ValuePointer(values[0])|, k - 1, restOff, vb)
    ensures |EncodeValue(values[0], base)| == FieldSize(fields[0])
    ensures base + |ValuePointer(values[0])| + |ValuePointers(values[1..])| <= 256
  {
    PrefixUnfold(values, k);
    PayloadCons(values, base);
    ValueLength(fields[0], values[0], base);
  }

  /** A payload is its first value followed by the payload of the rest. */
  lemma PayloadCons(values: seq<FieldValue>, base: nat)
    requires values != [] && base + |ValuePointers(values)| <= 256
    ensures base + |ValuePointer(values[0])| + |ValuePointers(values[1..])| <= 256
    ensures EncodePayload(values, base) ==
            EncodeValue(values[0], base) + EncodePayload(values[1..], base + |ValuePointer(values[0])|)
  {
  }

  lemma PayloadHead(values: seq<FieldValue>, base: nat)
    requires values != [] && base + |ValuePointers(values)| <= 256
    ensures IsAt(EncodePayload(values, base), 0, EncodeValue(values[0], base))
  {
    PayloadCons(values, base);
    var rest := EncodePayload(values[1..], base + |ValuePointer(values[0])|);
    WholeAt(EncodeValue(values[0], base) + rest);
    SplitAt(EncodeValue(values[0], base) + rest, 0, EncodeValue(values[0], base), rest);
  }

  lemma PayloadTail(values: seq<FieldValue>, base: nat, o: nat, e: seq<byte>)
    requires values != [] && base + |ValuePointers(values)| <= 256
    requires IsAt(EncodePayload(values[1..], base + |ValuePointer(values[0])|), o, e)
    ensures IsAt(EncodePayload(values, base), |EncodeValue(values[0], base)| + o, e)
  {
    PayloadCons(values, base);
    ShiftAt(EncodeValue(values[0], base), EncodePayload(values[1..], base + |ValuePointer(values[0])|), o, e);
  }

  /** The pointer-table index of the value read as field k. */
  function ValueBase(t: Block, base: nat, k: nat): nat
    requires k <= |t.values|
  {
    base + |PointersAll(t.children)| + |ValuePointers(t.values[..k])|
  }

  /** payload_subspan_for_field of an encoded block's payload is field k's encoding. */
  lemma FieldRoundTrip(dict: Dictionary, t: Block, base: nat, pointers: seq<Address>, k: nat)
    requires Encodable(dict, t, base) && k < |t.values|
    ensures ValueBase(t, base, k) + |ValuePointer(t.values[k])| <= 256
    ensures
      var r := ReaderOf(dict, t, base, pointers);
      && DataPayload(r).Some? && k < |r.entry.fields|
      && ValueMatches(r.entry.fields[k], t.values[k])
      && FieldBytes(DataPayload(r).value, r.entry.fields, k) ==
         Some(EncodeValue(t.values[k], ValueBase(t, base, k)))
  {
    var fields := dict[t.id].fields;
    var pb := base + |PointersAll(t.children)|;
    PayloadRoundTrip(dict, t, base, pointers);
    ValueAt(fields, t.values, pb, k, FieldOffset(fields, k), ValueBase(t, base, k));
    ValueLength(fields[k], t.values[k], ValueBase(t, base, k));
  }

  /** bytes(k) returns the bytes written for field k. */
  lemma BytesRoundTrip(dict: Dictionary, t: Block, base: nat, pointers: seq<Address>, k: nat)
    requires Encodable(dict, t, base) && k < |t.values| && t.values[k].ByteValues?
    ensures
      var r := ReaderOf(dict, t, base, pointers);
      && k < |r.entry.fields| && r.entry.fields[k].fieldType == Byte
      && Bytes(r, k) == Some(t.values[k].bytes)
  {
    FieldRoundTrip(dict, t, base, pointers, k);
  }

  /** colors(k) returns the colors written for field k. */
  lemma ColorsRoundTrip(dict: Dictionary, t: Block, base: nat, pointers: seq<Address>, k: nat)
    requires Encodable(dict, t, base) && k < |t.values| && t.values[k].ColorValues?
    ensures
      var r := ReaderOf(dict, t, base, pointers);
      && k < |r.entry.fields| && r.entry.fields[k].fieldType == Float4
      && Colors(r, k) == Some(t.values[k].colors)
  {
    FieldRoundTrip(dict, t, base, pointers, k);
    ChunkFlatten(t.values[k].colors);
  }

  /** The pointer registered for field k sits at its index in the key's pointer table. */
  lemma PointerIndexAt(t: Block, base: nat, pointers: seq<Address>, k: nat)
    requires IsAt(pointers, base, Pointers(t)) && k < |t.values| && t.values[k].PointerValue?
    ensures ValueBase(t, base, k) < |pointers|
    ensures pointers[ValueBase(t, base, k)] == t.values[k].address
  {
    var pa, vp := PointersAll(t.children), ValuePointers(t.values);
    var before := ValuePointers(t.values[..k]);
    ValuePointersAt(t.values, k);
    SplitAt(pointers, base, pa, vp);
    SplitAt(pointers, base + |pa|, before, ValuePointer(t.values[k]) + ValuePointers(t.values[k + 1..]));
    ElementAt(pointers, ValueBase(t, base, k), ValuePointer(t.values[k]) + ValuePointers(t.values[k + 1..]), 0);
  }

  /** pointer(k) returns the address registered for field k, when the key's pointer table
      holds the tree's pointers from index base. */
  lemma PointerRoundTrip(dict: Dictionary, t: Block, base: nat, pointers: seq<Address>, k: nat)
    requires Encodable(dict, t, base) && k < |t.values| && t.values[k].PointerValue?
    requires IsAt(pointers, base, Pointers(t))
    ensures
      var r := ReaderOf(dict, t, base, pointers);
      && k < |r.entry.fields| && r.entry.fields[k] == PayloadField(PointerIndex, 1)
      && Pointer(r, k) == Some(t.values[k].address)
  {
    FieldRoundTrip(dict, t, base, pointers, k);
    PointerIndexAt(t, base, pointers, k);
  }

  // ---------------------------------------------------------------------------------------
  // Pre-order traversal

  /** The siblings conform, fit, and their pointers are numbered from base within a byte. */
  ghost predicate SiblingsEncodable(dict: Dictionary, ts: seq<Block>, base: nat) {
    ConformsAll(dict, ts) && FitsAll(ts) && base + |PointersAll(ts)| <= 256
  }

  lemma SiblingEncodable(dict: Dictionary, ts: seq<Block>, base: nat, i: nat)
    requires SiblingsEncodable(dict, ts, base) && i < |ts|
    ensures Encodable(dict, ts[i], base + |PointersAll(ts[..i])|)
  {
    ConformsAt(dict, ts, i);
    SiblingBound(ts, base, i);
  }

  /** The readers over every block of t, in pre-order: t's own, then each child's. */
  function Readers(dict: Dictionary, t: Block, base: nat, pointers: seq<Address>): (rs: seq<BlockReader>)
    requires Encodable(dict, t, base)
    ensures |rs| >= 1 && rs[0] == ReaderOf(dict, t, base, pointers)
    decreases t, |t.children| + 1
  {
    [ReaderOf(dict, t, base, pointers)] + ChildReaders(dict, t, base, pointers, 0)
  }

  /** The pre-order readers of children i, i+1, ... of t. */
  function ChildReaders(dict: Dictionary, t: Block, base: nat, pointers: seq<Address>, i: nat): seq<BlockReader>
    requires Encodable(dict, t, base) && i <= |t.children|
    decreases t, |t.children| - i
  {
    if i == |t.children| then []
    else
      SiblingEncodable(dict, t.children, base, i);
      Readers(dict, t.children[i], base + |PointersAll(t.children[..i])|, pointers)
        + ChildReaders(dict, t, base, pointers, i + 1)
  }

  /** AddBlockToShaderInfo over an encoded block visits the readers of all its blocks in
      pre-order. */
  lemma {:induction false} VisitRoundTrip(dict: Dictionary, t: Block, base: nat, pointers: seq<Address>)
    requires Encodable(dict, t, base)
    ensures Visit(dict, ReaderOf(dict, t, base, pointers)) == Some(Readers(dict, t, base, pointers))
    decreases t, |t.children| + 1
  {
    VisitChildrenRoundTrip(dict, t, base, pointers, 0);
  }

  /** One step of the child visit, for any reader. */
  lemma VisitChildrenCons(dict: Dictionary, r: BlockReader, i: nat, c: BlockReader,
                          first: seq<BlockReader>, rest: seq<BlockReader>)
    requires i < NumChildren(r) && Child(dict, r, i) == Some(c)
    requires Visit(dict, c) == Some(first) && VisitChildren(dict, r, i + 1) == Some(rest)
    ensures VisitChildren(dict, r, i) == Some(first + rest)
  {
  }

  lemma {:induction false} VisitChildrenRoundTrip(dict: Dictionary, t: Block, base: nat,
                                                  pointers: seq<Address>, i: nat)
    requires Encodable(dict, t, base) && i <= |t.children|
    ensures VisitChildren(dict, ReaderOf(dict, t, base, pointers), i) ==
            Some(ChildReaders(dict, t, base, pointers, i))
    decreases t, |t.children| - i
  {
    if i < |t.children| {
      var c, first := ChildStep(dict, t, base, pointers, i, base + |PointersAll(t.children[..i])|);
      VisitChildrenRoundTrip(dict, t, base, pointers, i + 1);
      VisitChildrenCons(dict, ReaderOf(dict, t, base, pointers), i, c, first,
                        ChildReaders(dict, t, base, pointers, i + 1));
    }
  }

  /** One child of an encoded block: the reader child(i) makes and the readers its visit
      collects. */
  lemma {:induction false} ChildStep(dict: Dictionary, t: Block, base: nat,
                                     pointers: seq<Address>, i: nat, cb: nat)
    returns (c: BlockReader, first: seq<BlockReader>)
    requires Encodable(dict, t, base) && i < |t.children|
    requires cb == base + |PointersAll(t.children[..i])|
    ensures
      var r := ReaderOf(dict, t, base, pointers);
      && i < NumChildren(r) && Child(dict, r, i) == Some(c) && Visit(dict, c) == Some(first)
      && ChildReaders(dict, t, base, pointers, i) == first + ChildReaders(dict, t, base, pointers, i + 1)
    decreases t, |t.children| - i, 0
  {
    ChildRoundTrip(dict, t, base, pointers, i, cb);
    VisitRoundTrip(dict, t.children[i], cb, pointers);
    ChildReadersCons(dict, t, base, pointers, i, cb);
    c, first := ReaderOf(dict, t.children[i], cb, pointers), Readers(dict, t.children[i], cb, pointers);
  }

  lemma ChildReadersCons(dict: Dictionary, t: Block, base: nat, pointers: seq<Address>, i: nat,
                         cb: nat)
    requires Encodable(dict, t, base) && i < |t.children|
    requires cb == base + |PointersAll(t.children[..i])|
    ensures Encodable(dict, t.children[i], cb)
    ensures ChildReaders(dict, t, base, pointers, i) ==
            Readers(dict, t.children[i], cb, pointers) + ChildReaders(dict, t, base, pointers, i + 1)
  {
    SiblingEncodable(dict, t.children, base, i);
  }

  /** The pre-order readers of the top-level blocks i, i+1, ... of a key holding ts. */
  function TopReaders(dict: Dictionary, ts: seq<Block>, pointers: seq<Address>, i: nat): seq<BlockReader>
    requires SiblingsEncodable(dict, ts, 0) && i <= |ts|
    decreases |ts| - i
  {
    if i == |ts| then []
    else
      SiblingEncodable(dict, ts, 0, i);
      Readers(dict, ts[i], |PointersAll(ts[..i])|, pointers) + TopReaders(dict, ts, pointers, i + 1)
  }

  /** One step of the top-level visit, for any key. */
  lemma VisitKeyCons(dict: Dictionary, key: PaintParamsKey, offset: nat, r: BlockReader,
                     first: seq<BlockReader>, next: nat, rest: seq<BlockReader>)
    requires offset < |key.data| && MakeReader(dict, key.data, key.pointerData, offset) == Some(r)
    requires Visit(dict, r) == Some(first) && next == offset + BlockSize(r)
    requires VisitKey(dict, key, next) == Some(rest)
    ensures VisitKey(dict, key, offset) == Some(first + rest)
  {
  }

  /** The reader toShaderInfo makes at the end of the first i top-level blocks is the reader
      over block i, and the next one starts after it. */
  lemma TopReaderAt(dict: Dictionary, ts: seq<Block>, pointers: seq<Address>, i: nat, off: nat, bi: nat)
    requires SiblingsEncodable(dict, ts, 0) && i < |ts|
    requires off == EncodedSizeAll(ts[..i]) && bi == |PointersAll(ts[..i])|
    ensures Encodable(dict, ts[i], bi) && off < |EncodeAll(ts, 0)|
    ensures MakeReader(dict, EncodeAll(ts, 0), pointers, off) == Some(ReaderOf(dict, ts[i], bi, pointers))
    ensures off + EncodedSize(ts[i]) == EncodedSizeAll(ts[..i + 1])
  {
    var data := EncodeAll(ts, 0);
    WholeAt(data);
    EncodedSiblingAt(data, 0, ts, 0, i);
    SiblingEncodable(dict, ts, 0, i);
    ReaderOfEncoded(dict, data, pointers, off, ts[i], bi);
    SizePrefixStep(ts, i);
  }

  /** One top-level block of the key: the reader toShaderInfo makes for block i and the
      readers its visit collects. */
  lemma TopStep(dict: Dictionary, ts: seq<Block>, key: PaintParamsKey, i: nat, off: nat, next: nat)
    returns (r: BlockReader, first: seq<BlockReader>)
    requires SiblingsEncodable(dict, ts, 0) && i < |ts| && key.data == EncodeAll(ts, 0)
    requires off == EncodedSizeAll(ts[..i]) && next == EncodedSizeAll(ts[..i + 1])
    ensures off < |key.data| && MakeReader(dict, key.data, key.pointerData, off) == Some(r)
    ensures Visit(dict, r) == Some(first) && off + BlockSize(r) == next
    ensures TopReaders(dict, ts, key.pointerData, i) ==
            first + TopReaders(dict, ts, key.pointerData, i + 1)
  {
    var bi := |PointersAll(ts[..i])|;
    TopReaderAt(dict, ts, key.pointerData, i, off, bi);
    r, first := ReaderOf(dict, ts[i], bi, key.pointerData), Readers(dict, ts[i], bi, key.pointerData);
    VisitRoundTrip(dict, ts[i], bi, key.pointerData);
  }

  /** toShaderInfo over the encoding of ts, from the end of the first i top-level blocks,
      visits the readers of the remaining blocks in pre-order. */
  lemma {:induction false} VisitKeyRoundTrip(dict: Dictionary, ts: seq<Block>, pointers: seq<Address>, i: nat)
    requires SiblingsEncodable(dict, ts, 0) && i <= |ts|
    ensures
      var key := PaintParamsKey(EncodeAll(ts, 0), pointers);
      VisitKey(dict, key, EncodedSizeAll(ts[..i])) == Some(TopReaders(dict, ts, pointers, i))
    decreases |ts| - i
  {
    var key := PaintParamsKey(EncodeAll(ts, 0), pointers);
    if i == |ts| {
      EncodeAllLength(ts, 0);
      assert ts[..i] == ts;
    } else {
      VisitKeyRoundTrip(dict, ts, pointers, i + 1);
      VisitKeyStep(dict, ts, key, i, EncodedSizeAll(ts[..i]), EncodedSizeAll(ts[..i + 1]));
    }
  }

  /** The visit from block i of the key is block i's readers followed by the visit from
      block i + 1. */
  lemma VisitKeyStep(dict: Dictionary, ts: seq<Block>, key: PaintParamsKey, i: nat, off: nat, next: nat)
    requires SiblingsEncodable(dict, ts, 0) && i < |ts| && key.data == EncodeAll(ts, 0)
    requires off == EncodedSizeAll(ts[..i]) && next == EncodedSizeAll(ts[..i + 1])
    requires VisitKey(dict, key, next) == Some(TopReaders(dict, ts, key.pointerData, i + 1))
    ensures VisitKey(dict, key, off) == Some(TopReaders(dict, ts, key.pointerData, i))
  {
    var r, first := TopStep(dict, ts, key, i, off, next);
    VisitKeyCons(dict, key, off, r, first, next, TopReaders(dict, ts, key.pointerData, i + 1));
  }

  /** The error key {kError, 2} reads back as the single error block. */
  lemma VisitErrorKey(dict: Dictionary, key: PaintParamsKey)
    requires ValidDictionary(dict) && IsErrorKey(key)
    ensures VisitKey(dict, key, 0) ==
            Some([BlockReader([kErrorId, kHeaderSize], key.pointerData, dict[kErrorId])])
  {
    assert key.data == [kErrorId, kHeaderSize];
    var r := BlockReader(key.data, key.pointerData, dict[kErrorId]);
    assert key.data[0..2] == key.data;
    assert MakeReader(dict, key.data, key.pointerData, 0) == Some(r);
    assert VisitChildren(dict, r, 0) == Some([]);
    assert [r] + [] == [r];
    assert VisitKey(dict, key, 2) == Some([]);
  }

  /** The whole round trip: writing the conforming trees ts into a fresh builder meets every
      expectation check, and toShaderInfo over the locked key visits a reader over every
      block of ts in pre-order, each with its snippet's dictionary entry and the key's
      pointer table, or the error block alone when some block outgrows its size byte. */
  lemma BuildThenRead(dict: Dictionary, ts: seq<Block>)
    requires ValidDictionary(dict) && ConformsAll(dict, ts) && |PointersAll(ts)| <= 256
    ensures BuilderModel.BlocksChecks(dict, BuilderModel.Fresh, ts)
    ensures
      var key := BuilderModel.LockAsKey(dict, BuilderModel.WriteBlocks(dict, BuilderModel.Fresh, ts)).0;
      if FitsAll(ts) then
        && key == PaintParamsKey(EncodeAll(ts, 0), PointersAll(ts))
        && VisitKey(dict, key, 0) == Some(TopReaders(dict, ts, PointersAll(ts), 0))
      else
        && IsErrorKey(key) && key.pointerData == []
        && VisitKey(dict, key, 0) == Some([BlockReader([kErrorId, kHeaderSize], [], dict[kErrorId])])
  {
    var key := BuilderModel.LockAsKey(dict, BuilderModel.WriteBlocks(dict, BuilderModel.Fresh, ts)).0;
    BuilderModel.BuildThenLock(dict, ts);
    BuilderModel.ConformsAllIsKnown(dict, ts);
    if FitsAll(ts) {
      assert ts[..0] == [];
      VisitKeyRoundTrip(dict, ts, PointersAll(ts), 0);
    } else {
      VisitErrorKey(dict, key);
    }
  }
}
