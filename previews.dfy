/**
 * The role lookup shared, word for word, by the three palette previews
 * (dashboard, landing page, mobile screen), and the seven style slots each
 * preview fills from it.
 */
module PalettePreview {
  import opened Types
  import opened Seqs

  const DefaultHex: string := "#000"

  /**
   * The preview's `get(role)`: the hex of the first palette colour with that
   * role, or "#000" when no colour has the role or the first one's hex is the
   * empty string.
   */
  function Get(palette: Palette, role: ColorRole): (hex: string)
    ensures hex != ""
    ensures (forall k :: 0 <= k < |palette.colors| ==> palette.colors[k].role != role) ==> hex == DefaultHex
    ensures forall k :: (0 <= k < |palette.colors| && palette.colors[k].role == role &&
                         forall j :: 0 <= j < k ==> palette.colors[j].role != role) ==>
                        hex == (if palette.colors[k].hex == "" then DefaultHex else palette.colors[k].hex)
    ensures hex == DefaultHex || exists k :: 0 <= k < |palette.colors| && palette.colors[k].role == role
                                             && palette.colors[k].hex == hex
  {
    match FindFirst(palette.colors, (c: ColorItem) => c.role == role)
    case None => DefaultHex
    case Some(k) => if palette.colors[k].hex != "" then palette.colors[k].hex else DefaultHex
  }

  /** An empty hex on the first entry of a role hides a later, non-empty one. */
  lemma EmptyHexShadowsLaterEntry()
    ensures Get(Palette("p", "n", "d", [ColorItem("", "a", Primary, ""),
                                        ColorItem("#123456", "b", Primary, "")], 0), Primary)
            == DefaultHex
  {
  }

  /** The seven style slots of a preview. */
  datatype Slot = Bg | SurfaceSlot | PrimarySlot | SecondarySlot | AccentSlot | TextMainSlot | TextMutedSlot

  /** The role each slot is filled from. */
  function SlotRole(slot: Slot): ColorRole {
    match slot
    case Bg => Background
    case SurfaceSlot => Surface
    case PrimarySlot => Primary
    case SecondarySlot => Secondary
    case AccentSlot => Accent
    case TextMainSlot => TextMain
    case TextMutedSlot => TextMuted
  }

  /** The slot that holds a role. */
  function RoleSlot(role: ColorRole): Slot {
    match role
    case Primary => PrimarySlot
    case Secondary => SecondarySlot
    case Accent => AccentSlot
    case Background => Bg
    case Surface => SurfaceSlot
    case TextMain => TextMainSlot
    case TextMuted => TextMutedSlot
  }

  /**
   * The slots bind seven distinct roles that together cover every role:
   * `SlotRole` and `RoleSlot` are inverse to each other.
   */
  lemma SlotRoleIsBijective()
    ensures forall s :: RoleSlot(SlotRole(s)) == s
    ensures forall r :: SlotRole(RoleSlot(r)) == r
    ensures forall s, t :: SlotRole(s) == SlotRole(t) ==> s == t
  {
  }

  /** The `styles` object of a preview. */
  datatype Styles = Styles(bg: string, surface: string, primary: string, secondary: string,
                           accent: string, textMain: string, textMuted: string)
  {
    function At(slot: Slot): string {
      match slot
      case Bg => bg
      case SurfaceSlot => surface
      case PrimarySlot => primary
      case SecondarySlot => secondary
      case AccentSlot => accent
      case TextMainSlot => textMain
      case TextMutedSlot => textMuted
    }
  }

  /** The `styles` object of a preview, built from seven lookups. */
  function StylesOf(palette: Palette): Styles {
    Styles(Get(palette, Background), Get(palette, Surface), Get(palette, Primary),
           Get(palette, Secondary), Get(palette, Accent), Get(palette, TextMain),
           Get(palette, TextMuted))
  }

  /** Every slot of the styles is the lookup of its own role, so never empty. */
  lemma StylesAt(palette: Palette, slot: Slot)
    ensures StylesOf(palette).At(slot) == Get(palette, SlotRole(slot))
    ensures StylesOf(palette).At(slot) != ""
  {
    match slot
    case Bg =>
    case SurfaceSlot =>
    case PrimarySlot =>
    case SecondarySlot =>
    case AccentSlot =>
    case TextMainSlot =>
    case TextMutedSlot =>
  }
}
