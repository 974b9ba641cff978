/// Move commands and the specification of draining the command queue.
module MoveQueue {
  import opened Tiles

  datatype Direction = Up | Down | Left | Right

  /**
   * A queued swipe: its direction and the identity of the completion
   * callback that is to be told whether the move changed the board.
   */
  datatype MoveCommand = MoveCommand(direction: Direction, completion: nat)

  /** One invocation of a command's completion callback, with the result passed to it. */
  datatype Call = Call(command: MoveCommand, changed: bool)

  /** The part of the game state a move reads and writes. */
  datatype GameState = GameState(grid: Grid, score: int)

  /** What a move reports: whether it changed the board, and the board and score after it. */
  datatype MoveOutcome = MoveOutcome(changed: bool, grid: Grid, score: int)

  /**
   * The game's merge-and-slide move, taken as given: a direction, a board
   * and a score in, an outcome out.
   */
  type Oracle = (Direction, Grid, int) -> MoveOutcome

  /** The move keeps an n-by-n board n-by-n. */
  ghost predicate KeepsDimension(move: Oracle, n: nat)
  {
    forall d, g, s :: IsBoard(g, n) ==> IsBoard(move(d, g, s).grid, n)
  }

  /**
   * KeepsDimension for one move. Methods call this lemma: the property's
   * quantifier does not match a move applied inside a method body directly.
   */
  lemma MoveKeepsBoard(move: Oracle, n: nat, d: Direction, g: Grid, score: int)
    requires KeepsDimension(move, n) && IsBoard(g, n)
    ensures IsBoard(move(d, g, score).grid, n)
  {
  }

  function Perform(c: MoveCommand, s: GameState, move: Oracle): MoveOutcome
  {
    move(c.direction, s.grid, s.score)
  }

  function After(o: MoveOutcome): GameState
  {
    GameState(o.grid, o.score)
  }

  /**
   * What one firing of the move timer does to a queue `q` in state `s`:
   * the state afterwards, the commands left queued, the completion calls
   * made in order, and whether the last move run changed the board.
   */
  datatype DrainResult = DrainResult(state: GameState, remaining: seq<MoveCommand>, calls: seq<Call>, changed: bool)

  /**
   * Take commands from the front of the queue one at a time, run each and
   * report its result to its completion, until a move changes the board or
   * the queue runs out.
   */
  function Drain(q: seq<MoveCommand>, s: GameState, move: Oracle): DrainResult
    decreases |q|
  {
    if q == [] then DrainResult(s, [], [], false)
    else
      var o := Perform(q[0], s, move);
      if o.changed then DrainResult(After(o), q[1..], [Call(q[0], true)], true)
      else
        var r := Drain(q[1..], After(o), move);
        r.(calls := [Call(q[0], false)] + r.calls)
  }

  /** Running a list of commands unconditionally, one after the other. */
  datatype Run = Run(state: GameState, calls: seq<Call>)

  /**
   * Reference definition: run every command of `cmds` in order, each on the
   * state the previous one left, never stopping. Defined from the last
   * command backwards, independently of Drain.
   */
  function RunAll(cmds: seq<MoveCommand>, s: GameState, move: Oracle): Run
    decreases |cmds|
  {
    if cmds == [] then Run(s, [])
    else
      var p := RunAll(cmds[..|cmds| - 1], s, move);
      var c := cmds[|cmds| - 1];
      var o := Perform(c, p.state, move);
      Run(After(o), p.calls + [Call(c, o.changed)])
  }

  /** RunAll makes one call per command, in order. */
  lemma {:induction false} RunAllLength(cmds: seq<MoveCommand>, s: GameState, move: Oracle)
    ensures |RunAll(cmds, s, move).calls| == |cmds|
    decreases |cmds|
  {
    if cmds != [] {
      RunAllLength(cmds[..|cmds| - 1], s, move);
    }
  }

  /**
   * The i-th call of RunAll goes to the i-th command's completion and passes
   * it the result of that command's move on the state the first i commands left.
   */
  lemma {:induction false} RunAllReportsEachMove(cmds: seq<MoveCommand>, s: GameState, move: Oracle, i: nat)
    requires i < |cmds|
    ensures |RunAll(cmds, s, move).calls| == |cmds|
    ensures RunAll(cmds, s, move).calls[i]
         == Call(cmds[i], Perform(cmds[i], RunAll(cmds[..i], s, move).state, move).changed)
    decreases |cmds|
  {
    var init := cmds[..|cmds| - 1];
    RunAllLength(cmds, s, move);
    RunAllLength(init, s, move);
    if i < |cmds| - 1 {
      RunAllReportsEachMove(init, s, move, i);
      assert init[..i] == cmds[..i];
    } else {
      assert cmds[..i] == init;
    }
  }

  /** Running `c` and then `rest` is running `[c] + rest`. */
  lemma {:induction false} RunAllCons(c: MoveCommand, rest: seq<MoveCommand>, s: GameState, move: Oracle)
    ensures var o := Perform(c, s, move);
            var r := RunAll(rest, After(o), move);
            RunAll([c] + rest, s, move) == Run(r.state, [Call(c, o.changed)] + r.calls)
    decreases |rest|
  {
    if rest != [] {
      var init := rest[..|rest| - 1];
      assert ([c] + rest)[..|[c] + rest| - 1] == [c] + init;
      RunAllCons(c, init, s, move);
    } else {
      assert ([c] + rest)[..0] == [];
    }
  }

  /**
   * Drain runs a prefix of the queue exactly as RunAll runs it; the rest of
   * the queue is left as it was.
   */
  lemma {:induction false} DrainFollowsRunAll(q: seq<MoveCommand>, s: GameState, move: Oracle)
    ensures var r := Drain(q, s, move);
            var k := |r.calls|;
            k <= |q| && r.remaining == q[k..] &&
            r.state == RunAll(q[..k], s, move).state &&
            r.calls == RunAll(q[..k], s, move).calls
    decreases |q|
  {
    if q != [] {
      var o := Perform(q[0], s, move);
      RunAllCons(q[0], [], After(o), move);
      assert RunAll([], After(o), move) == Run(After(o), []);
      if o.changed {
        assert q[..1] == [q[0]] + [];
      } else {
        var t := Drain(q[1..], After(o), move);
        DrainFollowsRunAll(q[1..], After(o), move);
        var k := |t.calls|;
        RunAllCons(q[0], q[1..][..k], s, move);
        assert q[..k + 1] == [q[0]] + q[1..][..k];
        assert q[1..][k..] == q[k + 1..];
      }
    }
  }

  /**
   * FIFO: a drain runs commands from the front of the queue, at least one
   * when there is one, makes exactly one completion call per command run,
   * in queue order, and leaves the unrun commands in their original order.
   */
  lemma {:induction false} DrainFifo(q: seq<MoveCommand>, s: GameState, move: Oracle)
    ensures var r := Drain(q, s, move);
            |r.calls| <= |q| &&
            (q != [] ==> |r.calls| >= 1) &&
            (forall i :: 0 <= i < |r.calls| ==> r.calls[i].command == q[i]) &&
            r.remaining == q[|r.calls|..]
    decreases |q|
  {
    if q != [] {
      var o := Perform(q[0], s, move);
      if !o.changed {
        DrainFifo(q[1..], After(o), move);
      }
    }
  }

  /**
   * A drain stops at the first move that changes the board: every earlier
   * move left it unchanged, the drain reports a change exactly when its
   * last move made one, and when no move changed the board the queue ends empty.
   */
  lemma {:induction false} DrainStopsAtFirstChange(q: seq<MoveCommand>, s: GameState, move: Oracle)
    ensures var r := Drain(q, s, move);
            (forall i :: 0 <= i < |r.calls| - 1 ==> !r.calls[i].changed) &&
            (r.changed <==> r.calls != [] && r.calls[|r.calls| - 1].changed) &&
            (!r.changed ==> r.remaining == [])
    decreases |q|
  {
    if q != [] {
      var o := Perform(q[0], s, move);
      if !o.changed {
        DrainStopsAtFirstChange(q[1..], After(o), move);
        var t := Drain(q[1..], After(o), move);
        var r := Drain(q, s, move);
        assert r.calls == [Call(q[0], false)] + t.calls;
        assert t.calls != [] ==> r.calls[|r.calls| - 1] == t.calls[|t.calls| - 1];
      }
    }
  }

  /**
   * Each completion a drain calls receives its own command's move result,
   * computed on the state the earlier commands of the drain left.
   */
  lemma DrainReportsEachMove(q: seq<MoveCommand>, s: GameState, move: Oracle, i: nat)
    requires i < |Drain(q, s, move).calls|
    ensures i < |q|
    ensures Drain(q, s, move).calls[i]
         == Call(q[i], Perform(q[i], RunAll(q[..i], s, move).state, move).changed)
  {
    var r := Drain(q, s, move);
    var k := |r.calls|;
    DrainFollowsRunAll(q, s, move);
    RunAllReportsEachMove(q[..k], s, move, i);
    assert q[..k][..i] == q[..i];
  }
}
