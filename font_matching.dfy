/** The integer parts of the CoreText font manager: the CSS generic-family aliases, the
    style distance and best-match search of a style set, the symbolic-trait rule applied when
    a font is created for a requested style, the family index checks and the rejection of
    collection indices other than 0. Everything CoreText computes (descriptors, fonts, the
    fonts matching a family name) is a parameter. */
module FontMatching {
  import opened Wrappers

  datatype Slant = Upright | Italic | Oblique

  /** SkFontStyle: a CSS weight, a CSS width and a slant. */
  datatype FontStyle = FontStyle(weight: int, width: int, slant: Slant)

  const kBoldWeight := 700
  const kMaxS32 := 0x7FFF_FFFF

  /** The ranges SkFontStyle pins its weight and width to; every style the font manager
      compares comes out of that constructor. */
  predicate StyleOk(s: FontStyle) {
    0 <= s.weight <= 1000 && 1 <= s.width <= 9
  }

  // ---------------------------------------------------------------------------------------
  // map_css_names

  const CssPairs: seq<(string, string)> :=
    [("sans-serif", "Helvetica"), ("serif", "Times"), ("monospace", "Courier")]

  /** The index of the first pair whose from-name is `name`. */
  function FirstMatch(pairs: seq<(string, string)>, name: string): (r: Option<nat>)
    ensures r.Some? ==> r.value < |pairs| && pairs[r.value].0 == name
    ensures r.Some? ==> forall j :: 0 <= j < r.value ==> pairs[j].0 != name
    ensures r.None? <==> forall j :: 0 <= j < |pairs| ==> pairs[j].0 != name
    decreases |pairs|
  {
    if pairs == [] then None
    else if pairs[0].0 == name then Some(0)
    else
      match FirstMatch(pairs[1..], name)
      case None => None
      case Some(k) => Some(k + 1)
  }

  /** The name a family request is looked up under. */
  function CanonicalName(name: string): string {
    match FirstMatch(CssPairs, name)
    case None => name
    case Some(i) => CssPairs[i].1
  }

  /** map_css_names: a linear scan of the alias table with an early return. */
  method MapCssNames(name: string) returns (r: string)
    ensures r == CanonicalName(name)
  {
    for i := 0 to |CssPairs|
      invariant forall j :: 0 <= j < i ==> CssPairs[j].0 != name
    {
      if name == CssPairs[i].0 {
        return CssPairs[i].1;
      }
    }
    return name;
  }

  /** The three generic families map to concrete Mac families; any other name is kept. */
  lemma CanonicalNames(name: string)
    ensures CanonicalName("sans-serif") == "Helvetica"
    ensures CanonicalName("serif") == "Times"
    ensures CanonicalName("monospace") == "Courier"
    ensures name != "sans-serif" && name != "serif" && name != "monospace" ==>
              CanonicalName(name) == name
  {
    assert CssPairs[0].0 == "sans-serif";
    assert CssPairs[1].0 == "serif" && CssPairs[0].0 != "serif";
    assert CssPairs[2].0 == "monospace" && CssPairs[0].0 != "monospace"
      && CssPairs[1].0 != "monospace";
  }

  /** No alias target is itself an alias, so mapping twice is mapping once. */
  lemma CanonicalIdempotent(name: string)
    ensures CanonicalName(CanonicalName(name)) == CanonicalName(name)
  {
    CanonicalNames(name);
    CanonicalNames(CanonicalName(name));
  }

  // ---------------------------------------------------------------------------------------
  // sqr and compute_metric

  /** sqr: defined only where its overflow assertion holds. */
  function Sqr(x: int): (r: int)
    requires -0x7FFF < x < 0x7FFF
    ensures 0 <= r < 0x7FFF * 0x7FFF
    ensures r == 0 <==> x == 0
  {
    SquareBounds(x);
    x * x
  }

  lemma SquareBounds(x: int)
    requires -0x7FFF < x < 0x7FFF
    ensures 0 <= x * x < 0x7FFF * 0x7FFF && (x * x == 0 <==> x == 0)
  {
    var a := if x < 0 then -x else x;
    SquareOfNegation(x);
    MulAtMost(a, a, 0x7FFE);
    MulAtMost(a, 0x7FFE, 0x7FFE);
    if a != 0 {
      MulAtMost(1, a, a);
    }
  }

  lemma SquareOfNegation(x: int)
    ensures (-x) * (-x) == x * x
  {
  }

  /** Multiplying by a non-negative factor keeps an order. */
  lemma MulAtMost(c: int, a: int, b: int)
    requires 0 <= c && a <= b
    ensures c * a <= c * b
  {
  }

  lemma SqrNegation(x: int)
    requires -0x7FFF < x < 0x7FFF
    ensures Sqr(-x) == Sqr(x)
  {
    SquareOfNegation(x);
  }

  /** The squared slant term: 900 when the slants differ. */
  function SlantTerm(a: FontStyle, b: FontStyle): int {
    if a.slant != b.slant then 900 else 0
  }

  /** compute_metric: squared distance with weight, width and slant scaled to base 900. */
  function ComputeMetric(a: FontStyle, b: FontStyle): (r: int)
    requires StyleOk(a) && StyleOk(b)
    ensures 0 <= r
    ensures r == 0 <==> a == b
  {
    Sqr(a.weight - b.weight) + Sqr((a.width - b.width) * 100) + Sqr(SlantTerm(a, b))
  }

  /** The metric does not depend on the order of its arguments. */
  lemma MetricSymmetric(a: FontStyle, b: FontStyle)
    requires StyleOk(a) && StyleOk(b)
    ensures ComputeMetric(a, b) == ComputeMetric(b, a)
  {
    SqrNegation(b.weight - a.weight);
    SqrNegation((b.width - a.width) * 100);
  }

  /** Over pinned styles the metric stays far below SK_MaxS32 (the starting best metric of
      findMatchingDesc), so the sum never overflows and the first candidate always wins the
      strict comparison against it. */
  lemma MetricBelowMax(a: FontStyle, b: FontStyle)
    requires StyleOk(a) && StyleOk(b)
    ensures ComputeMetric(a, b) <= 1000 * 1000 + 800 * 800 + 900 * 900 < kMaxS32
  {
    SquareAtMost(a.weight - b.weight, 1000);
    SquareAtMost((a.width - b.width) * 100, 800);
    SquareAtMost(SlantTerm(a, b), 900);
  }

  lemma SquareAtMost(x: int, m: int)
    requires 0 <= m < 0x7FFF && -m <= x <= m
    ensures Sqr(x) <= m * m
  {
    var a := if x < 0 then -x else x;
    SquareOfNegation(x);
    MulAtMost(a, a, m);
    MulAtMost(m, a, m);
  }

  // ---------------------------------------------------------------------------------------
  // SkFontStyleSet_Mac: findMatchingDesc and matchStyle

  /** A style set: the styles of the descriptors CoreText matched for a family, in order.
      A descriptor is identified by its index. */
  datatype StyleSet = StyleSet(styles: seq<FontStyle>)

  predicate SetOk(styleSet: StyleSet, pattern: FontStyle) {
    StyleOk(pattern) && forall i :: 0 <= i < |styleSet.styles| ==> StyleOk(styleSet.styles[i])
  }

  /** The constructor: a failed CoreText match gives an empty array. */
  function MakeStyleSet(matched: Option<seq<FontStyle>>): (r: StyleSet)
    ensures matched.None? ==> |r.styles| == 0
    ensures matched.Some? ==> r.styles == matched.value
  {
    match matched
    case None => StyleSet([])
    case Some(styles) => StyleSet(styles)
  }

  /** Index `k` is the earliest candidate at the minimum distance from `pattern`. */
  predicate EarliestBest(styles: seq<FontStyle>, pattern: FontStyle, k: int)
    requires StyleOk(pattern) && forall i :: 0 <= i < |styles| ==> StyleOk(styles[i])
  {
    0 <= k < |styles|
    && (forall j :: 0 <= j < |styles| ==>
          ComputeMetric(pattern, styles[k]) <= ComputeMetric(pattern, styles[j]))
    && (forall j :: 0 <= j < k ==>
          ComputeMetric(pattern, styles[k]) < ComputeMetric(pattern, styles[j]))
  }

  /** At most one index is the earliest best, so the search result is determined. */
  lemma EarliestBestUnique(styles: seq<FontStyle>, pattern: FontStyle, k: int, m: int)
    requires StyleOk(pattern) && forall i :: 0 <= i < |styles| ==> StyleOk(styles[i])
    requires EarliestBest(styles, pattern, k) && EarliestBest(styles, pattern, m)
    ensures k == m
  {
    // Each is at most the other, so both have the same distance, and neither can come
    // strictly before the other.
    assert ComputeMetric(pattern, styles[k]) == ComputeMetric(pattern, styles[m]);
  }

  /** The early return on a zero metric agrees with the earliest minimum: a zero is the
      least possible distance, so the earliest best is an exact match whenever one exists,
      and then it is the first exact match. */
  lemma ExactMatchWins(styles: seq<FontStyle>, pattern: FontStyle, k: int, z: int)
    requires StyleOk(pattern) && forall i :: 0 <= i < |styles| ==> StyleOk(styles[i])
    requires EarliestBest(styles, pattern, k)
    requires 0 <= z < |styles| && styles[z] == pattern
    ensures styles[k] == pattern
    ensures forall j :: 0 <= j < k ==> styles[j] != pattern
  {
    assert ComputeMetric(pattern, styles[z]) == 0;
    assert ComputeMetric(pattern, styles[k]) == 0;
  }

  /** findMatchingDesc: one pass keeping the best metric so far, replaced only on a strict
      improvement, returning at once on an exact match. */
  method FindMatchingDesc(styleSet: StyleSet, pattern: FontStyle) returns (best: nat)
    requires SetOk(styleSet, pattern) && |styleSet.styles| > 0
    ensures EarliestBest(styleSet.styles, pattern, best)
  {
    var styles := styleSet.styles;
    var bestMetric := kMaxS32;
    var bestDesc: Option<nat> := None;
    for i := 0 to |styles|
      invariant bestDesc.None? <==> i == 0
      invariant bestDesc.None? ==> bestMetric == kMaxS32
      invariant bestDesc.Some? ==>
        bestDesc.value < i && bestMetric == ComputeMetric(pattern, styles[bestDesc.value])
      invariant forall j :: 0 <= j < i ==> bestMetric <= ComputeMetric(pattern, styles[j])
      invariant bestDesc.Some? ==>
        forall j :: 0 <= j < bestDesc.value ==> bestMetric < ComputeMetric(pattern, styles[j])
      invariant forall j :: 0 <= j < i ==> ComputeMetric(pattern, styles[j]) != 0
    {
      var metric := ComputeMetric(pattern, styles[i]);
      MetricBelowMax(pattern, styles[i]);
      if metric == 0 {
        return i;
      }
      if metric < bestMetric {
        bestMetric := metric;
        bestDesc := Some(i);
      }
    }
    return bestDesc.value;
  }

  /** matchStyle: no typeface from an empty set, otherwise the earliest best descriptor. */
  method MatchStyle(styleSet: StyleSet, pattern: FontStyle) returns (r: Option<nat>)
    requires SetOk(styleSet, pattern)
    ensures r.None? <==> |styleSet.styles| == 0
    ensures r.Some? ==> EarliestBest(styleSet.styles, pattern, r.value)
  {
    if |styleSet.styles| == 0 {
      return None;
    }
    var best := FindMatchingDesc(styleSet, pattern);
    return Some(best);
  }

  // ---------------------------------------------------------------------------------------
  // Symbolic traits

  /** A CTFontSymbolicTraits mask, as the set of positions of its set bits; or-ing a bit
      in is adding its position. The positions are those of CoreText's header. */
  type Traits = set<nat>

  const kItalicBit: nat := 0
  const kBoldBit: nat := 1

  /** The traits a font created for `style` should carry: its own traits plus italic for a
      slanted style plus bold from kBold_Weight up. */
  function ExpectedTraits(traits: Traits, style: FontStyle): (r: Traits)
    ensures traits <= r
    ensures kItalicBit in r <==> kItalicBit in traits || style.slant != Upright
    ensures kBoldBit in r <==> kBoldBit in traits || style.weight >= kBoldWeight
    ensures r - {kItalicBit, kBoldBit} == traits - {kItalicBit, kBoldBit}
  {
    var italic := if style.slant != Upright then traits + {kItalicBit} else traits;
    if style.weight >= kBoldWeight then italic + {kBoldBit} else italic
  }

  /** create_from_desc_and_style: the traits to request a copy of the font with, or None
      when the font already carries every trait the style calls for. */
  function TraitCopyRequest(traits: Traits, style: FontStyle): (r: Option<Traits>)
    ensures r.None? <==>
      ((style.slant != Upright ==> kItalicBit in traits)
       && (style.weight >= kBoldWeight ==> kBoldBit in traits))
    ensures r.Some? ==> r.value == ExpectedTraits(traits, style) && r.value != traits
  {
    var expected := ExpectedTraits(traits, style);
    if expected != traits then Some(expected) else None
  }

  /** A font that received the requested traits is not copied again. */
  lemma TraitCopySettles(traits: Traits, style: FontStyle)
    ensures TraitCopyRequest(ExpectedTraits(traits, style), style).None?
  {
  }

  /** create_descriptor: before the 10.14 CoreText version the descriptor asks for the
      symbolic traits the style calls for; the slant trait is omitted on version 10.15. */
  datatype DescriptorTraits = DescriptorTraits(symbolic: Option<Traits>, slant: Option<int>)

  const kCTVersion10_14: int := 0x000B_0000
  const kCTVersion10_15: int := 0x000C_0000

  function DescriptorTraitsFor(ctVersion: int, style: FontStyle): (r: DescriptorTraits)
    ensures r.symbolic.Some? <==> ctVersion < kCTVersion10_14
    ensures r.symbolic.Some? ==> r.symbolic.value == ExpectedTraits({}, style)
    ensures r.slant.Some? <==> ctVersion != kCTVersion10_15
    ensures r.slant.Some? ==> (r.slant.value == 0 <==> style.slant == Upright)
  {
    var symbolic := if ctVersion < kCTVersion10_14 then Some(ExpectedTraits({}, style)) else None;
    var slant := if ctVersion == kCTVersion10_15 then None
                 else Some(if style.slant == Upright then 0 else 1);
    DescriptorTraits(symbolic, slant)
  }

  /** A font carrying exactly the symbolic traits its descriptor asked for needs no copy. */
  lemma DescriptorTraitsSettle(ctVersion: int, style: FontStyle)
    requires ctVersion < kCTVersion10_14
    ensures TraitCopyRequest(DescriptorTraitsFor(ctVersion, style).symbolic.value, style).None?
  {
    TraitCopySettles({}, style);
  }

  // ---------------------------------------------------------------------------------------
  // SkFontMgr_Mac: family indices and collection indices

  /** The family names CoreText reported, fixed at construction; fCount is their number. */
  datatype FontMgr = FontMgr(names: seq<string>)

  predicate MgrOk(mgr: FontMgr) {
    |mgr.names| <= kMaxS32
  }

  predicate IsInt32(x: int) {
    -0x8000_0000 <= x <= kMaxS32
  }

  /** The C++ conversion of an int to unsigned. */
  function AsUnsigned(x: int): (r: nat)
    requires IsInt32(x)
    ensures r < 0x1_0000_0000
    ensures 0 <= x ==> r == x
    ensures x < 0 ==> r > kMaxS32
  {
    if x < 0 then x + 0x1_0000_0000 else x
  }

  /** onGetFamilyName: the name at `index`, or the empty string for any other index. */
  function GetFamilyName(mgr: FontMgr, index: int): (r: string)
    requires MgrOk(mgr) && IsInt32(index)
    ensures 0 <= index < |mgr.names| ==> r == mgr.names[index]
    ensures !(0 <= index < |mgr.names|) ==> r == ""
  {
    if AsUnsigned(index) < AsUnsigned(|mgr.names|) then mgr.names[index] else ""
  }

  /** onCreateStyleSet: the style set CoreText matches for the family at `index`, or null.
      `matchFamily` stands for CoreText's descriptor matching on a family name. */
  function CreateStyleSet(mgr: FontMgr, index: int,
                          matchFamily: string -> Option<seq<FontStyle>>): (r: Option<StyleSet>)
    requires MgrOk(mgr) && IsInt32(index)
    ensures r.Some? <==> 0 <= index < |mgr.names|
    ensures r.Some? ==> r.value == MakeStyleSet(matchFamily(mgr.names[index]))
  {
    if AsUnsigned(index) >= AsUnsigned(|mgr.names|) then None
    else Some(MakeStyleSet(matchFamily(mgr.names[index])))
  }

  /** The four ways of making a typeface from font bytes. */
  datatype FontSourceKind = FromData | FromStreamIndex | FromStreamArgs | FromFile

  /** onMakeFromData / onMakeFromStreamIndex / onMakeFromStreamArgs / onMakeFromFile: a
      collection index other than 0 gives null before anything is read; otherwise the
      typeface is whatever CoreText builds from the font (`built`). For a file, loading the
      path can fail first (`loaded`), and then the bytes go through onMakeFromData. */
  function MakeTypeface<T>(kind: FontSourceKind, ttcIndex: int, loaded: bool,
                           built: Option<T>): (r: Option<T>)
    ensures ttcIndex != 0 ==> r.None?
    ensures r.Some? <==> ttcIndex == 0 && (kind == FromFile ==> loaded) && built.Some?
    ensures r.Some? ==> r == built
  {
    if ttcIndex != 0 then None
    else if kind == FromFile && !loaded then None
    else built
  }
}
