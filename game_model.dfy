/// The game state and the move-command queue of a game of 2048 of Life.
module Game {
  import opened Tiles
  import opened MoveQueue
  import opened Placement

  /** A notification the model sends to its delegate, the view controller. */
  datatype Notice = ScoreChanged(score: int) | TileInserted(at: Pos, value: int)

  class GameModel {
    const dimension: nat
    const threshold: int
    /** The guard on the queue's length before a command is admitted. */
    const maxCommands: nat := 100

    var score: int
    /** The square board; the model changes its cells, never the board itself. */
    const board: array2<TileObject>
    var queue: seq<MoveCommand>
    /** Whether the move delay timer is scheduled. */
    var timerValid: bool

    /** Every completion callback invocation so far, in order. */
    var completions: seq<Call>
    /** Every delegate notification so far, in order. */
    var notices: seq<Notice>

    /** The board is dimension-by-dimension, and the queue is at most one past its guard. */
    ghost predicate Valid()
      reads this
    {
      board.Length0 == dimension && board.Length1 == dimension &&
      |queue| <= maxCommands + 1
    }

    /** Queued commands never stall: whenever something is queued, the timer is scheduled. */
    ghost predicate Live()
      reads this
    {
      queue != [] ==> timerValid
    }

    /** The board's cells as a value. */
    function Cells(): (g: Grid)
      reads board
      ensures |g| == board.Length0
      ensures forall i :: 0 <= i < |g| ==> |g[i]| == board.Length1
      ensures forall i, j :: 0 <= i < board.Length0 && 0 <= j < board.Length1 ==> g[i][j] == board[i, j]
    {
      seq(board.Length0, i requires 0 <= i < board.Length0 reads board =>
        seq(board.Length1, j requires 0 <= j < board.Length1 reads board => board[i, j]))
    }

    function State(): GameState
      reads this, board
    {
      GameState(Cells(), score)
    }

    ghost predicate HasEmptyCell()
      reads this, board
    {
      exists i, j :: 0 <= i < board.Length0 && 0 <= j < board.Length1 && board[i, j] == Empty
    }

    /** A new game: empty board, zero score, empty queue, no timer scheduled. */
    constructor (d: nat, t: int)
      ensures Valid() && Live()
      ensures dimension == d && threshold == t && fresh(board)
      ensures score == 0 && queue == [] && !timerValid
      ensures forall i, j :: 0 <= i < d && 0 <= j < d ==> board[i, j] == Empty
      ensures completions == [] && notices == []
    {
      dimension := d;
      threshold := t;
      score := 0;
      board := new TileObject[d, d]((i, j) => Empty);
      queue := [];
      timerValid := false;
      completions := [];
      notices := [];
    }

    /** Start over: zero score, every cell empty, nothing queued, the timer cancelled. */
    method Reset()
      requires Valid()
      modifies this, board
      ensures Valid() && Live()
      ensures score == 0 && queue == [] && !timerValid
      ensures forall i, j :: 0 <= i < dimension && 0 <= j < dimension ==> board[i, j] == Empty
      ensures completions == old(completions)
      ensures notices == old(notices) + [ScoreChanged(0)]
    {
      score := 0;
      notices := notices + [ScoreChanged(0)];
      forall i, j | 0 <= i < dimension && 0 <= j < dimension {
        board[i, j] := Empty;
      }
      queue := [];
      timerValid := false;
    }

    /** Write a board value back into the cells. */
    method Store(g: Grid)
      requires board.Length0 == dimension && board.Length1 == dimension
      requires IsBoard(g, dimension)
      modifies board
      ensures Cells() == g
    {
      forall i, j | 0 <= i < dimension && 0 <= j < dimension {
        board[i, j] := g[i][j];
      }
      assert forall i :: 0 <= i < dimension ==> Cells()[i] == g[i];
    }

    /** Run one move of the game on the board and score and report whether it changed the board. */
    method PerformMove(direction: Direction, move: Oracle) returns (changed: bool)
      requires board.Length0 == dimension && board.Length1 == dimension
      requires KeepsDimension(move, dimension)
      modifies this`score, board
      ensures var o := move(direction, old(Cells()), old(score));
              changed == o.changed && State() == After(o)
    {
      var g := Cells();
      assert IsBoard(g, dimension);
      MoveKeepsBoard(move, dimension, direction, g, score);
      var o := move(direction, g, score);
      Store(o.grid);
      score := o.score;
      changed := o.changed;
    }

    /**
     * Queue a swipe. A command is admitted only while the queue holds at most
     * maxCommands entries; when no timer is scheduled it runs at once.
     */
    method QueueMove(direction: Direction, onCompletion: nat, move: Oracle)
      requires Valid() && Live()
      requires KeepsDimension(move, dimension)
      modifies this, board
      ensures Valid() && Live()
      ensures notices == old(notices)
      ensures old(|queue|) > maxCommands ==>
                queue == old(queue) && completions == old(completions) &&
                State() == old(State()) && timerValid == old(timerValid)
      ensures old(|queue|) <= maxCommands && old(timerValid) ==>
                queue == old(queue) + [MoveCommand(direction, onCompletion)] &&
                completions == old(completions) && State() == old(State()) && timerValid
      ensures old(|queue|) <= maxCommands && !old(timerValid) ==>
                var c := MoveCommand(direction, onCompletion);
                var o := Perform(c, old(State()), move);
                queue == [] && State() == After(o) &&
                completions == old(completions) + [Call(c, o.changed)] &&
                timerValid == o.changed
    {
      if |queue| > maxCommands {
        return;
      }
      queue := queue + [MoveCommand(direction, onCompletion)];
      if !timerValid {
        TimerFired(move);
      }
    }

    /**
     * The body of the timer's callback: run commands from the front of the
     * queue until one changes the board or the queue is empty, report each
     * result to its completion, and schedule the timer again after a change.
     */
    method TimerFired(move: Oracle)
      requires Valid()
      requires KeepsDimension(move, dimension)
      modifies this, board
      ensures Valid() && Live()
      ensures var r := Drain(old(queue), old(State()), move);
              State() == r.state && queue == r.remaining &&
              completions == old(completions) + r.calls &&
              timerValid == (old(timerValid) || r.changed)
      ensures old(queue) == [] ==>
                State() == old(State()) && queue == old(queue) &&
                completions == old(completions) && timerValid == old(timerValid)
      ensures notices == old(notices)
    {
      ghost var q0 := queue;
      ghost var r := Drain(queue, State(), move);
      if |queue| == 0 {
        return;
      }
      var changed := false;
      while |queue| > 0
        invariant board.Length0 == dimension && board.Length1 == dimension
        invariant |queue| <= |q0|
        invariant !changed
        invariant Drain(queue, State(), move).state == r.state
        invariant Drain(queue, State(), move).remaining == r.remaining
        invariant Drain(queue, State(), move).changed == r.changed
        invariant completions + Drain(queue, State(), move).calls == old(completions) + r.calls
        invariant notices == old(notices) && timerValid == old(timerValid)
        decreases |queue|
      {
        ghost var qh, sh := queue, State();
        var command := queue[0];
        queue := queue[1..];
        changed := PerformMove(command.direction, move);
        completions := completions + [Call(command, changed)];
        if changed {
          assert Drain(qh, sh, move) == DrainResult(State(), queue, [Call(command, true)], true);
          break;
        }
        assert Drain(qh, sh, move).calls == [Call(command, false)] + Drain(queue, State(), move).calls;
      }
      if changed {
        timerValid := true;
      }
    }

    /**
     * The scheduled, non-repeating timer goes off: it is no longer valid,
     * and it calls TimerFired.
     */
    method TimerExpired(move: Oracle)
      requires Valid() && Live() && timerValid
      requires KeepsDimension(move, dimension)
      modifies this, board
      ensures Valid() && Live()
      ensures var r := Drain(old(queue), old(State()), move);
              State() == r.state && queue == r.remaining &&
              completions == old(completions) + r.calls &&
              timerValid == r.changed
      ensures notices == old(notices)
    {
      timerValid := false;
      TimerFired(move);
    }

    /** Put a tile with `value` at `at`, but only if that cell is empty; no other cell changes. */
    method InsertTile(at: Pos, value: int)
      requires Valid() && InBounds(at, dimension)
      modifies this`notices, board
      ensures Valid()
      ensures old(board[at.0, at.1]) == Empty ==> board[at.0, at.1] == Tile(value)
      ensures old(board[at.0, at.1]) != Empty ==> board[at.0, at.1] == old(board[at.0, at.1])
      ensures forall i, j :: 0 <= i < dimension && 0 <= j < dimension && (i, j) != at ==>
                board[i, j] == old(board[i, j])
      ensures notices == if old(board[at.0, at.1]) == Empty
                         then old(notices) + [TileInserted(at, value)]
                         else old(notices)
    {
      var (x, y) := at;
      if board[x, y] == Empty {
        board[x, y] := Tile(value);
        notices := notices + [TileInserted(at, value)];
      }
    }

    /**
     * The open spots of the board: every empty cell, each listed once.
     * The order of the list is not part of the contract.
     */
    method EmptySpots() returns (spots: seq<Pos>)
      requires board.Length0 == dimension && board.Length1 == dimension
      ensures forall p :: p in spots <==> InBounds(p, dimension) && board[p.0, p.1] == Empty
      ensures forall a, b :: 0 <= a < b < |spots| ==> spots[a] != spots[b]
    {
      spots := [];
      var x := 0;
      while x < dimension
        invariant 0 <= x <= dimension
        invariant forall p :: p in spots <==> InBounds(p, dimension) && p.0 < x && board[p.0, p.1] == Empty
        invariant forall a, b :: 0 <= a < b < |spots| ==> spots[a] != spots[b]
      {
        var y := 0;
        while y < dimension
          invariant 0 <= y <= dimension
          invariant forall p :: p in spots <==>
                      InBounds(p, dimension) && (p.0 < x || (p.0 == x && p.1 < y)) && board[p.0, p.1] == Empty
          invariant forall a, b :: 0 <= a < b < |spots| ==> spots[a] != spots[b]
        {
          if board[x, y] == Empty {
            spots := spots + [(x, y)];
          }
          y := y + 1;
        }
        x := x + 1;
      }
    }

    /**
     * Put a tile with `value` into an open spot picked by the random source
     * `draw`; with no open spot, nothing happens.
     */
    method InsertTileAtRandomLocation(value: int, draw: nat)
      requires Valid()
      modifies this`notices, board
      ensures Valid()
      ensures !old(HasEmptyCell()) ==>
                notices == old(notices) &&
                forall i, j :: 0 <= i < dimension && 0 <= j < dimension ==> board[i, j] == old(board[i, j])
      ensures old(HasEmptyCell()) ==>
                exists p :: InBounds(p, dimension) && old(board[p.0, p.1]) == Empty &&
                  board[p.0, p.1] == Tile(value) &&
                  notices == old(notices) + [TileInserted(p, value)] &&
                  forall i, j :: 0 <= i < dimension && 0 <= j < dimension && (i, j) != p ==>
                    board[i, j] == old(board[i, j])
    {
      var openSpots := EmptySpots();
      if |openSpots| == 0 {
        forall i, j | 0 <= i < dimension && 0 <= j < dimension
          ensures board[i, j] != Empty
        {
          assert (i, j) !in openSpots;
        }
        return;
      }
      var idx := SpotIndex(|openSpots|, draw);
      var p := openSpots[idx];
      assert old(board[p.0, p.1]) == Empty;
      InsertTile(p, value);
    }
  }
}
