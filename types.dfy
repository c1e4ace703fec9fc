/** The records of the game and of the palette tool (types.ts). */
module Types {

  /** A catalogue colour: its display name and its hex code. */
  datatype GameColor = GameColor(name: string, hex: string)

  /** One card of the deck. `id` is unique within a deck. */
  datatype Card = Card(id: string, color: GameColor, isFlipped: bool, isMatched: bool)

  datatype Difficulty = Easy | Medium | Hard

  /** The seven semantic roles a palette colour can have. */
  datatype ColorRole = Primary | Secondary | Accent | Background | Surface | TextMain | TextMuted

  datatype ColorItem = ColorItem(hex: string, name: string, role: ColorRole, description: string)

  datatype Palette = Palette(id: string, name: string, description: string,
                             colors: seq<ColorItem>, createdAt: int)
}
