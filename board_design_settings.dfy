/** The board design settings: the stock of via sizes and track widths, the
    choice between a list entry and a custom size for new tracks and vias,
    and the layer and element visibility masks.

    Layer masks and the element mask are 32-bit words (`bv32`). */
module BoardDesignSettings {

  // ---------------------------------------------------------------------
  // Via dimensions

  /** `VIA_DIMENSION`: a via diameter and drill; 0 or less means "use the
      net class value". */
  datatype ViaDimension = ViaDimension(diameter: int, drill: int)

  /** The default constructor: no diameter and no drill. */
  function DefaultViaDimension(): (v: ViaDimension)
    ensures v.diameter == 0 && v.drill == 0
    ensures Equal(v, ViaDimension(0, 0))
  {
    ViaDimension(0, 0)
  }

  /** `operator==`: both fields agree. */
  predicate Equal(a: ViaDimension, b: ViaDimension) {
    a.diameter == b.diameter && a.drill == b.drill
  }

  /** `operator<`: by diameter, then by drill. */
  predicate Less(a: ViaDimension, b: ViaDimension) {
    if a.diameter != b.diameter then a.diameter < b.diameter else a.drill < b.drill
  }

  /** `==` is value equality: the two fields are all there is to a via. */
  lemma EqualIsIdentity(a: ViaDimension, b: ViaDimension)
    ensures Equal(a, b) <==> a == b
  {
  }

  /** `<` is the lexicographic order on (diameter, drill). */
  lemma LessIsLexicographic(a: ViaDimension, b: ViaDimension)
    ensures Less(a, b) <==> a.diameter < b.diameter || (a.diameter == b.diameter && a.drill < b.drill)
  {
  }

  lemma LessIsIrreflexive(a: ViaDimension)
    ensures !Less(a, a)
  {
  }

  lemma LessIsTransitive(a: ViaDimension, b: ViaDimension, c: ViaDimension)
    requires Less(a, b) && Less(b, c)
    ensures Less(a, c)
  {
  }

  /** Any two vias are ordered one way, the other way, or equal, and
      exactly one of the three: the pairs `<` cannot order are exactly the
      `==` pairs. */
  lemma LessIsTrichotomous(a: ViaDimension, b: ViaDimension)
    ensures Less(a, b) || Equal(a, b) || Less(b, a)
    ensures !(Less(a, b) && Equal(a, b)) && !(Less(b, a) && Equal(a, b)) && !(Less(a, b) && Less(b, a))
  {
  }

  // ---------------------------------------------------------------------
  // Layer and element masks

  /** `FULL_LAYERS`: the mask of every layer the board format knows. */
  const FullLayers: bv32

  type ElementCount = n: int | 0 <= n <= 32

  /** `END_PCB_VISIBLE_LIST`: the number of element categories. */
  const EndPcbVisibleList: ElementCount

  /** What `SetVisibleLayers` stores for a requested mask: only layers that
      are enabled and exist. */
  function VisibleMask(mask: bv32, enabled: bv32): (visible: bv32)
    ensures visible & !enabled == 0
    ensures visible & !FullLayers == 0
    ensures visible & !mask == 0
  {
    mask & (enabled & FullLayers)
  }

  /** Masking again changes nothing. */
  lemma VisibleMaskIsIdempotent(mask: bv32, enabled: bv32)
    ensures VisibleMask(VisibleMask(mask, enabled), enabled) == VisibleMask(mask, enabled)
  {
  }

  /** A requested mask is stored as given exactly when it asks only for
      enabled, existing layers. */
  lemma VisibleMaskKeepsExactlyEnabled(mask: bv32, enabled: bv32)
    ensures VisibleMask(mask, enabled) == mask <==> mask & !(enabled & FullLayers) == 0
  {
    KeepsExactlyCover(mask, enabled, FullLayers);
  }

  /** `WithinCover` for the cover `enabled & full`. */
  lemma KeepsExactlyCover(mask: bv32, enabled: bv32, full: bv32)
    ensures mask & (enabled & full) == mask <==> mask & !(enabled & full) == 0
  {
    WithinCover(mask, enabled & full);
  }

  /** `mask` lies within `cover` exactly when masking by `cover` keeps it. */
  lemma WithinCover(mask: bv32, cover: bv32)
    ensures mask & cover == mask <==> mask & !cover == 0
  {
    if mask & !cover == 0 {
      AndWithCover(mask, cover);
    }
    if mask & cover == mask {
      AndWithCoverConverse(mask, cover);
    }
  }

  lemma AndWithCover(mask: bv32, cover: bv32)
    requires mask & !cover == 0
    ensures mask & cover == mask
  {
  }

  lemma AndWithCoverConverse(mask: bv32, cover: bv32)
    requires mask & cover == mask
    ensures mask & !cover == 0
  {
  }

  /** Element `category` is set in `mask`. */
  predicate ElementBitSet(mask: bv32, category: int)
    requires 0 <= category < 32
  {
    mask & (1 << category) != 0
  }

  /** Toggling one category's bit flips that category's visibility. */
  lemma ElementBitToggles(mask: bv32, category: int)
    requires 0 <= category < 32
    ensures ElementBitSet(mask ^ (1 << category), category) == !ElementBitSet(mask, category)
  {
  }

  /** Toggling one category's bit leaves every other category alone. */
  lemma ElementBitsAreIndependent(mask: bv32, category: int, other: int)
    requires 0 <= category < 32 && 0 <= other < 32 && category != other
    ensures ElementBitSet(mask ^ (1 << other), category) == ElementBitSet(mask, category)
  {
    var bit: bv32, otherBit: bv32 := 1 << category, 1 << other;
    DistinctBits(category, other);
    OtherBitUnchanged(mask, bit, otherBit);
  }

  /** Two different one-bit masks share no bit. */
  lemma DistinctBits(category: int, other: int)
    requires 0 <= category < 32 && 0 <= other < 32 && category != other
    ensures ((1 as bv32) << category) & ((1 as bv32) << other) == 0
  {
  }

  /** Toggling a bit outside a one-bit mask does not change the masked
      value. */
  lemma OtherBitUnchanged(mask: bv32, bit: bv32, other: bv32)
    requires bit & other == 0
    ensures (mask ^ other) & bit == mask & bit
  {
  }

  // ---------------------------------------------------------------------
  // The settings object

  /** `BOARD_DESIGN_SETTINGS`, restricted to the state its inline members
      read and write. */
  class Settings {
    /** The first entry is the current net class via size. */
    var viasDimensionsList: seq<ViaDimension>
    /** The first entry is the current net class track width. */
    var trackWidthList: seq<int>
    var viaSizeIndex: nat
    var trackWidthIndex: nat
    var useCustomTrackVia: bool
    var customTrackWidth: int
    var customViaSize: ViaDimension
    var copperLayerCount: int
    var enabledLayers: bv32
    var visibleLayers: bv32
    var visibleElements: bv32
    var boardThickness: int

    /** Every visible layer is enabled. */
    predicate VisibleWithinEnabled()
      reads this
    {
      visibleLayers & !enabledLayers == 0
    }

    /** `UseNetClassTrack()`: neither a list entry nor a custom width is
        selected. */
    function UseNetClassTrack(): (netClass: bool)
      reads this
      ensures netClass <==> trackWidthIndex == 0 && !useCustomTrackVia
    {
      trackWidthIndex == 0 && !useCustomTrackVia
    }

    /** `UseNetClassVia()`: neither a list entry nor a custom size is
        selected. */
    function UseNetClassVia(): (netClass: bool)
      reads this
      ensures netClass <==> viaSizeIndex == 0 && !useCustomTrackVia
    {
      viaSizeIndex == 0 && !useCustomTrackVia
    }

    /** `GetCurrentTrackWidth()`: the custom width when custom sizes are on,
        otherwise the selected entry of the width list, which is the net
        class width when the net class is in use. */
    function GetCurrentTrackWidth(): (width: int)
      reads this
      requires useCustomTrackVia || trackWidthIndex < |trackWidthList|
      ensures useCustomTrackVia ==> width == customTrackWidth
      ensures !useCustomTrackVia ==> width in trackWidthList && width == trackWidthList[trackWidthIndex]
      ensures UseNetClassTrack() ==> width == trackWidthList[0]
    {
      if useCustomTrackVia then customTrackWidth else trackWidthList[trackWidthIndex]
    }

    /** `GetCurrentViaSize()`: the custom diameter when custom sizes are
        on, otherwise the selected stock via's diameter, which is the net
        class via's when the net class is in use. */
    function GetCurrentViaSize(): (diameter: int)
      reads this
      requires useCustomTrackVia || viaSizeIndex < |viasDimensionsList|
      ensures useCustomTrackVia ==> diameter == customViaSize.diameter
      ensures !useCustomTrackVia ==> diameter == viasDimensionsList[viaSizeIndex].diameter
      ensures UseNetClassVia() ==> diameter == viasDimensionsList[0].diameter
    {
      if useCustomTrackVia then customViaSize.diameter else viasDimensionsList[viaSizeIndex].diameter
    }

    method SetCustomTrackWidth(width: int)
      modifies this`customTrackWidth
      ensures customTrackWidth == width
      ensures useCustomTrackVia ==> GetCurrentTrackWidth() == width
    {
      customTrackWidth := width;
    }

    /** `SetCustomViaSize`: the custom via's diameter; its drill is kept. */
    method SetCustomViaSize(size: int)
      modifies this`customViaSize
      ensures customViaSize.diameter == size && customViaSize.drill == old(customViaSize.drill)
      ensures useCustomTrackVia ==> GetCurrentViaSize() == size
    {
      customViaSize := customViaSize.(diameter := size);
    }

    /** `SetCustomViaDrill`: the custom via's drill; its diameter is kept. */
    method SetCustomViaDrill(drill: int)
      modifies this`customViaSize
      ensures customViaSize.drill == drill && customViaSize.diameter == old(customViaSize.diameter)
    {
      customViaSize := customViaSize.(drill := drill);
    }

    /** `UseCustomTrackViaSize(aEnabled)`: switches between the custom
        sizes and the lists. */
    method UseCustomTrackViaSize(enabled: bool)
      modifies this`useCustomTrackVia
      ensures useCustomTrackVia == enabled
      ensures enabled ==> GetCurrentTrackWidth() == customTrackWidth && GetCurrentViaSize() == customViaSize.diameter
      ensures enabled ==> !UseNetClassTrack() && !UseNetClassVia()
    {
      useCustomTrackVia := enabled;
    }

    /** `SetVisibleLayers(aMask)`: afterwards only enabled, existing layers
        are visible. */
    method SetVisibleLayers(mask: bv32)
      modifies this`visibleLayers
      ensures visibleLayers == VisibleMask(mask, enabledLayers)
      ensures VisibleWithinEnabled()
    {
      visibleLayers := VisibleMask(mask, enabledLayers);
    }

    /** `IsLayerEnabled`, for the layer whose mask (`GetLayerMask`) is
        `layerMask`. */
    function IsLayerEnabled(layerMask: bv32): (enabled: bool)
      reads this
      ensures enabled <==> enabledLayers & layerMask != 0
    {
      enabledLayers & layerMask != 0
    }

    /** `IsLayerVisible`: a disabled layer is never visible, whatever the
        visible mask says. */
    function IsLayerVisible(layerMask: bv32): (visible: bool)
      reads this
      ensures visible ==> IsLayerEnabled(layerMask)
      ensures visible ==> visibleLayers & layerMask != 0
      ensures VisibleWithinEnabled() ==> (visible <==> visibleLayers & layerMask != 0)
    {
      visibleLayers & enabledLayers & layerMask != 0
    }

    method SetVisibleElements(mask: bv32)
      modifies this`visibleElements
      ensures visibleElements == mask
      ensures forall c :: 0 <= c < EndPcbVisibleList ==> (IsElementVisible(c) <==> ElementBitSet(mask, c))
    {
      visibleElements := mask;
    }

    /** `IsElementVisible(aElementCategory)`: tests the category's bit; the
        category must be one of the `END_PCB_VISIBLE_LIST` categories. */
    function IsElementVisible(category: int): (visible: bool)
      reads this
      requires 0 <= category < EndPcbVisibleList
      ensures visible <==> ElementBitSet(visibleElements, category)
    {
      visibleElements & (1 << category) != 0
    }

    method SetBoardThickness(thickness: int)
      modifies this`boardThickness
      ensures boardThickness == thickness
    {
      boardThickness := thickness;
    }
  }
}
