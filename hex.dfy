/** Cells of the hexagonal map, as far as the path search needs them. */
module Hexes {

  /** A map cell in doubled-height coordinates: `x` is the column, `y` the row.
      Two hexes are the same cell exactly when both coordinates agree, so the
      C `same_hex` is Dafny's structural `==`. */
  datatype Hex = Hex(x: int, y: int)

  /** The sentinel meaning "no hex". */
  const NULL_HEX: Hex := Hex(-1, -1)
}
