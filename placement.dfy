/// Choosing where a new tile goes: the random index into the list of open spots.
module Placement {
  /**
   * arc4random_uniform(bound): a value below `bound`, or 0 when `bound` is below 2.
   * The random source is the parameter `draw`: any draw may come out of it.
   */
  function Arc4RandomUniform(bound: nat, draw: nat): (r: nat)
    ensures bound <= 1 ==> r == 0
    ensures bound >= 1 ==> r < bound
  {
    if bound < 2 then 0 else draw % bound
  }

  /** Every value below a positive bound is the outcome of some draw. */
  lemma Arc4RandomUniformCovers(bound: nat, i: nat)
    requires i < bound
    ensures exists draw: nat :: Arc4RandomUniform(bound, draw) == i
  {
    assert Arc4RandomUniform(bound, i) == i;
  }

  function Max(a: int, b: int): int { if a < b then b else a }

  /**
   * The index the game picks among `count` open spots, as written: the bound
   * handed to arc4random_uniform is `count - 1`.
   */
  function SpotIndexAsWritten(count: nat, draw: nat): (idx: nat)
    requires count >= 1
    ensures idx < Max(1, count - 1)
    ensures idx < count
  {
    Arc4RandomUniform(count - 1, draw)
  }

  /** With two or more open spots, the last one listed is never picked. */
  lemma LastSpotNeverChosen(count: nat, draw: nat)
    requires count >= 2
    ensures SpotIndexAsWritten(count, draw) != count - 1
  {
  }

  /** Concretely: between two open spots, the second is never picked, whatever the draw. */
  lemma TwoSpotsAlwaysFirst(draw: nat)
    ensures SpotIndexAsWritten(2, draw) == 0
  {
  }

  /** The index into `count` open spots with the bound the comment promises: any of them. */
  function SpotIndex(count: nat, draw: nat): (idx: nat)
    requires count >= 1
    ensures idx < count
    ensures count == 1 ==> idx == 0
  {
    Arc4RandomUniform(count, draw)
  }

  /** Every open spot can be picked by the corrected index. */
  lemma EverySpotReachable(count: nat, i: nat)
    requires i < count
    ensures exists draw: nat :: SpotIndex(count, draw) == i
  {
    Arc4RandomUniformCovers(count, i);
    var draw: nat :| Arc4RandomUniform(count, draw) == i;
    assert SpotIndex(count, draw) == i;
  }
}
