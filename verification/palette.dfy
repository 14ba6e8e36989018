/** The four background colours the views use for trait bars and category badges. */
module Palette {
  datatype Color = SoftGray | Mint | Mustard | Lavender
}
