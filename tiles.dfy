/// The cells of the square game board.
module Tiles {
  /** A board cell: empty, or holding a tile with a number on it. */
  datatype TileObject = Empty | Tile(value: int)

  /** A board position (x, y), as the model's subscripts take it. */
  type Pos = (int, int)

  /** The contents of a board as a value: row x, column y. */
  type Grid = seq<seq<TileObject>>

  predicate InBounds(p: Pos, n: nat)
  {
    0 <= p.0 < n && 0 <= p.1 < n
  }

  /** `g` is an n-by-n board. */
  predicate IsBoard(g: Grid, n: nat)
  {
    |g| == n && forall i :: 0 <= i < n ==> |g[i]| == n
  }
}
