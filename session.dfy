/**
 * The per-match session of nakama-go-server/main.go: the `MatchState` the
 * Nakama host hands to every callback, and the callbacks MatchInit,
 * MatchJoinAttempt, MatchJoin, MatchLeave, MatchLoop, MatchDataSend and
 * MatchSignal, which update that state in place and broadcast through the
 * match dispatcher.
 */
module Session {
  import opened Wrappers
  import opened TicTacToe

  /** A connected user as the host reports it; the session keys presences by `userId`. */
  datatype Presence = Presence(userId: string, sessionId: string, username: string, node: string)

  /** A "row,col" move as `fmt.Sscanf` reads it. */
  datatype Move = Move(row: int, col: int)

  /** A client message queued for `MatchLoop` (never read by the live loop). */
  datatype MatchData = MatchData(sender: Presence, opCode: int, data: string)

  /** Which path a move submission took; in the source only its log line tells them apart. */
  datatype MoveOutcome = NotActive | UnexpectedOpCode | InvalidMoveData | MoveParsed(move: Move)

  /** The value of a `MatchState` at one moment. */
  datatype MatchRecord = MatchRecord(
    presences: map<string, Presence>,
    board: Grid,
    currentPlayer: string,
    started: bool,
    winner: string)

  /**
   * The match dispatcher. Only the opcode of every `BroadcastMessage` is kept,
   * in the order of the calls; payloads and delivery are not modelled.
   */
  class Dispatcher {
    ghost var Sent: seq<int>

    constructor ()
      ensures Sent == []
    {
      Sent := [];
    }

    method BroadcastMessage(opCode: int)
      modifies this
      ensures Sent == old(Sent) + [opCode]
    {
      Sent := Sent + [opCode];
    }
  }

  /** The user ids of a batch of presences. */
  function UserIds(ps: seq<Presence>): set<string> {
    set p | p in ps :: p.userId
  }

  /**
   * The presence map after inserting `ps` one after the other, keyed by user id:
   * every joining user id becomes a key and no present key is lost.
   */
  function Joined(m: map<string, Presence>, ps: seq<Presence>): (r: map<string, Presence>)
    decreases |ps|
    ensures m.Keys <= r.Keys
    ensures forall i :: 0 <= i < |ps| ==> ps[i].userId in r
  {
    if ps == [] then m
    else
      var last := ps[|ps| - 1];
      Joined(m, ps[..|ps| - 1])[last.userId := last]
  }

  /** Joining makes every joining user id a key, and adds no other key. */
  lemma {:induction false} JoinedKeys(m: map<string, Presence>, ps: seq<Presence>)
    ensures Joined(m, ps).Keys == m.Keys + UserIds(ps)
    decreases |ps|
  {
    if ps != [] {
      var init, last := ps[..|ps| - 1], ps[|ps| - 1];
      JoinedKeys(m, init);
      assert ps == init + [last];
      assert UserIds(ps) == UserIds(init) + {last.userId};
    }
  }

  /** A user id that is not joining keeps its old presence. */
  lemma {:induction false} JoinedKeepsOthers(m: map<string, Presence>, ps: seq<Presence>, u: string)
    requires u in m && u !in UserIds(ps)
    ensures u in Joined(m, ps) && Joined(m, ps)[u] == m[u]
    decreases |ps|
  {
    if ps != [] {
      var init := ps[..|ps| - 1];
      assert UserIds(init) <= UserIds(ps);
      JoinedKeepsOthers(m, init, u);
    }
  }

  /** The last presence of a batch with a given user id is the one stored for it. */
  lemma {:induction false} JoinedLastWins(m: map<string, Presence>, ps: seq<Presence>, i: nat)
    requires i < |ps|
    requires forall j :: i < j < |ps| ==> ps[j].userId != ps[i].userId
    ensures ps[i].userId in Joined(m, ps) && Joined(m, ps)[ps[i].userId] == ps[i]
    decreases |ps|
  {
    if i < |ps| - 1 {
      JoinedLastWins(m, ps[..|ps| - 1], i);
    }
  }

  /** Rejoining users who are already present does not grow the map. */
  lemma RejoinDoesNotGrow(m: map<string, Presence>, ps: seq<Presence>)
    requires UserIds(ps) <= m.Keys
    ensures |Joined(m, ps)| == |m|
  {
    JoinedKeys(m, ps);
    assert Joined(m, ps).Keys == m.Keys;
  }

  /** The result of one `MatchLoop` tick: the new `Started` and `Winner`, and the opcodes broadcast. */
  datatype LoopResult = LoopResult(started: bool, winner: string, emitted: seq<int>)

  /**
   * One `MatchLoop` tick on `Started`, `Winner` and the board: nothing happens
   * unless the game runs without a winner; otherwise the winner check, then
   * the full-board check, may end the game with one opcode-2 broadcast.
   */
  function LoopStep(started: bool, winner: string, g: Grid): (r: LoopResult)
    ensures !started || winner != "" ==> r == LoopResult(started, winner, [])
    ensures r.emitted == [] || r.emitted == [2]
    ensures r.emitted == [2] <==> started && !r.started
    ensures r.emitted == [2] ==>
      r.winner != "" &&
      (r.winner == CheckWinner(g) || (CheckWinner(g) == "" && IsBoardFull(g) && r.winner == "draw"))
    ensures started && winner == "" && CheckWinner(g) != "" ==> r == LoopResult(false, CheckWinner(g), [2])
    ensures started && winner == "" && CheckWinner(g) == "" && IsBoardFull(g) ==> r == LoopResult(false, "draw", [2])
    ensures started && winner == "" && CheckWinner(g) == "" && !IsBoardFull(g) ==> r == LoopResult(true, "", [])
  {
    if !started || winner != "" then LoopResult(started, winner, [])
    else
      var w := CheckWinner(g);
      if w != "" then LoopResult(false, w, [2])
      else if IsBoardFull(g) then LoopResult(false, "draw", [2])
      else LoopResult(true, "", [])
  }

  /** A second tick on the same board changes nothing and broadcasts nothing. */
  lemma LoopStepIdempotent(started: bool, winner: string, g: Grid)
    ensures var r := LoopStep(started, winner, g);
      LoopStep(r.started, r.winner, g) == LoopResult(r.started, r.winner, [])
  {
  }

  /** `Winner` is "", the board's winner, or "draw" for a full board without a winner. */
  ghost predicate WinnerConsistent(g: Grid, w: string) {
    w == "" || w == CheckWinner(g) || (w == "draw" && CheckWinner(g) == "" && IsBoardFull(g))
  }

  /** A tick keeps `Winner` consistent with the board. */
  lemma LoopStepKeepsWinnerConsistent(started: bool, winner: string, g: Grid)
    requires WinnerConsistent(g, winner)
    ensures WinnerConsistent(g, LoopStep(started, winner, g).winner)
  {
  }

  /** On the empty board no tick ever ends the game. */
  lemma EmptyBoardNeverEnds(started: bool)
    ensures LoopStep(started, "", EmptyGrid) == LoopResult(started, "", [])
  {
    EmptyGridIsOpen();
  }

  /** The state of one match, updated in place by the callbacks. */
  class MatchState {
    var Presences: map<string, Presence>
    var Board: Grid
    var CurrentPlayer: string
    var Started: bool
    var Winner: string

    ghost predicate Valid()
      reads this
    {
      WinnerConsistent(Board, Winner)
    }

    /**
     * No callback writes the board (move application is commented out), so a
     * state that starts empty stays empty and never records a winner.
     */
    ghost predicate Pristine()
      reads this
    {
      Board == EmptyGrid && Winner == ""
    }

    function Snapshot(): MatchRecord
      reads this
    {
      MatchRecord(Presences, Board, CurrentPlayer, Started, Winner)
    }

    /** The state `MatchInit` builds: no presences, an empty board, no turn, not started, no winner. */
    constructor ()
      ensures Valid() && Pristine()
      ensures Presences == map[] && Board == EmptyGrid && CurrentPlayer == ""
      ensures !Started && Winner == ""
    {
      Presences := map[];
      Board := EmptyGrid;
      CurrentPlayer := "";
      Started := false;
      Winner := "";
    }

    /** Accept a joiner only while fewer than two users are present and the game has not started. */
    method MatchJoinAttempt(presence: Presence, metadata: map<string, string>) returns (accept: bool, reason: string)
      ensures accept <==> |Presences| < 2 && !Started
      ensures reason == ""
    {
      accept := |Presences| < 2 && !Started;
      reason := "";
    }

    /**
     * Insert the joiners by user id; if the game has not started and exactly two
     * users are now present, start it, give the turn to one of them and
     * broadcast opcode 1.
     */
    method MatchJoin(d: Dispatcher, presences: seq<Presence>)
      requires Valid()
      modifies this, d
      ensures Valid()
      ensures old(Pristine()) ==> Pristine()
      ensures Presences == Joined(old(Presences), presences)
      ensures Board == old(Board) && Winner == old(Winner)
      ensures Started == (old(Started) || |Presences| == 2)
      ensures !old(Started) && |Presences| == 2 ==> CurrentPlayer in Presences && d.Sent == old(d.Sent) + [1]
      ensures old(Started) || |Presences| != 2 ==> CurrentPlayer == old(CurrentPlayer) && d.Sent == old(d.Sent)
    {
      var i := 0;
      while i < |presences|
        invariant 0 <= i <= |presences|
        invariant Presences == Joined(old(Presences), presences[..i])
        invariant Board == old(Board) && Winner == old(Winner) && Started == old(Started)
        invariant CurrentPlayer == old(CurrentPlayer) && d.Sent == old(d.Sent)
      {
        var p := presences[i];
        assert presences[..i + 1][..i] == presences[..i];
        Presences := Presences[p.userId := p];
        i := i + 1;
      }
      assert presences[..i] == presences;

      if |Presences| == 2 && !Started {
        Started := true;
        // the source takes the first key of Go's randomised map iteration
        assert Presences.Keys != {};
        var u :| u in Presences.Keys;
        CurrentPlayer := u;
        d.BroadcastMessage(1);
      }
    }

    /**
     * Delete the leavers by user id; if the game was running, end it with no
     * winner and broadcast opcode 1.
     */
    method MatchLeave(d: Dispatcher, presences: seq<Presence>)
      requires Valid()
      modifies this, d
      ensures Valid()
      ensures old(Pristine()) ==> Pristine()
      ensures Presences == old(Presences) - UserIds(presences)
      ensures Board == old(Board) && CurrentPlayer == old(CurrentPlayer)
      ensures !Started
      ensures old(Started) ==> Winner == "" && d.Sent == old(d.Sent) + [1]
      ensures !old(Started) ==> Winner == old(Winner) && d.Sent == old(d.Sent)
    {
      var i := 0;
      while i < |presences|
        invariant 0 <= i <= |presences|
        invariant Presences == old(Presences) - UserIds(presences[..i])
        invariant Board == old(Board) && Winner == old(Winner) && Started == old(Started)
        invariant CurrentPlayer == old(CurrentPlayer) && d.Sent == old(d.Sent)
      {
        var p := presences[i];
        assert presences[..i + 1] == presences[..i] + [p];
        assert UserIds(presences[..i + 1]) == UserIds(presences[..i]) + {p.userId};
        Presences := Presences - {p.userId};
        i := i + 1;
      }
      assert presences[..i] == presences;

      if Started {
        Winner := "";
        Started := false;
        d.BroadcastMessage(1);
      }
    }

    /**
     * One tick: while the game runs without a winner, record the board's winner
     * or, on a full board, "draw"; either ends the game with one opcode-2
     * broadcast. The queued messages are not read.
     */
    method MatchLoop(d: Dispatcher, messages: seq<MatchData>)
      requires Valid()
      modifies this, d
      ensures Valid()
      ensures old(Pristine()) ==> Pristine()
      ensures Presences == old(Presences) && Board == old(Board) && CurrentPlayer == old(CurrentPlayer)
      ensures var r := LoopStep(old(Started), old(Winner), old(Board));
        Started == r.started && Winner == r.winner && d.Sent == old(d.Sent) + r.emitted
    {
      if old(Pristine()) {
        EmptyBoardNeverEnds(Started);
      }
      LoopStepKeepsWinnerConsistent(Started, Winner, Board);
      if !Started || Winner != "" {
        return;
      }

      Winner := CheckWinner(Board);
      if Winner != "" {
        Started := false;
        d.BroadcastMessage(2);
      }

      if Winner == "" && IsBoardFull(Board) {
        Winner := "draw";
        Started := false;
        d.BroadcastMessage(2);
      }
    }

    /**
     * A client move message: opcode 4 is broadcast first, whatever follows;
     * then the game must be running, the opcode must be 4 and the data must
     * read as "row,col". The move itself is not applied, so nothing changes.
     */
    method MatchDataSend(d: Dispatcher, sender: Presence, opCode: int, data: string, scanned: Option<Move>)
      returns (outcome: MoveOutcome)
      modifies d
      ensures Snapshot() == old(Snapshot())
      ensures d.Sent == old(d.Sent) + [4]
      ensures !Started || Winner != "" ==> outcome == NotActive
      ensures Started && Winner == "" && opCode != 4 ==> outcome == UnexpectedOpCode
      ensures Started && Winner == "" && opCode == 4 ==>
        outcome == if scanned.Some? then MoveParsed(scanned.value) else InvalidMoveData
    {
      d.BroadcastMessage(4);
      if !Started || Winner != "" {
        return NotActive;
      }
      if opCode != 4 {
        return UnexpectedOpCode;
      }
      if scanned.None? {
        return InvalidMoveData;
      }
      outcome := MoveParsed(scanned.value);
    }

    /**
     * An out-of-band move signal: when the game runs and the data reads as
     * "row,col", opcode 3 is broadcast; the move is not applied, so nothing
     * changes, and the data is echoed back.
     */
    method MatchSignal(d: Dispatcher, data: string, scanned: Option<Move>)
      returns (reply: string, outcome: MoveOutcome)
      modifies d
      ensures Snapshot() == old(Snapshot())
      ensures reply == data
      ensures d.Sent == old(d.Sent) + (if Started && Winner == "" && scanned.Some? then [3] else [])
      ensures !Started || Winner != "" ==> outcome == NotActive
      ensures Started && Winner == "" ==>
        outcome == if scanned.Some? then MoveParsed(scanned.value) else InvalidMoveData
    {
      reply := data;
      if !Started || Winner != "" {
        return reply, NotActive;
      }
      if scanned.None? {
        return reply, InvalidMoveData;
      }
      outcome := MoveParsed(scanned.value);
      d.BroadcastMessage(3);
    }
  }

  /** `MatchInit`: a fresh, empty session ticking 10 times a second, with no label. */
  method MatchInit(params: map<string, string>) returns (state: MatchState, tickRate: int, matchLabel: string)
    ensures fresh(state) && state.Valid() && state.Pristine()
    ensures state.Presences == map[] && state.CurrentPlayer == ""
    ensures !state.Started && state.Winner == ""
    ensures tickRate == 10 && matchLabel == ""
  {
    state := new MatchState();
    tickRate := 10;
    matchLabel := "";
  }

  /** A fresh match with two distinct users joined: it has started and broadcast opcode 1 once. */
  method StartWithTwo(a: Presence, b: Presence) returns (state: MatchState, d: Dispatcher)
    requires a.userId != b.userId
    ensures fresh(state) && fresh(d) && state.Valid() && state.Pristine()
    ensures state.Presences.Keys == {a.userId, b.userId}
    ensures state.Started && state.CurrentPlayer in {a.userId, b.userId} && d.Sent == [1]
  {
    var tickRate, matchLabel;
    state, tickRate, matchLabel := MatchInit(map[]);
    d := new Dispatcher();
    state.MatchJoin(d, [a, b]);
    assert UserIds([a, b]) == {a.userId, b.userId};
    JoinedKeys(map[], [a, b]);
    assert |state.Presences| == |state.Presences.Keys| == 2;
  }

  /**
   * Two users play, a third is turned away, a tick on the untouched board
   * changes nothing, one user leaves: the game ends with no winner and
   * opcode 1 is broadcast a second time.
   */
  method LeaveEndsGame(a: Presence, b: Presence, c: Presence)
    returns (thirdAccepted: bool, startedAfterLeave: bool, winnerAfterLeave: string)
    requires a.userId != b.userId
    ensures !thirdAccepted && !startedAfterLeave && winnerAfterLeave == ""
  {
    var state, d := StartWithTwo(a, b);
    var reason;
    thirdAccepted, reason := state.MatchJoinAttempt(c, map[]);

    EmptyBoardNeverEnds(true);
    state.MatchLoop(d, []);
    assert state.Started && d.Sent == [1];

    state.MatchLeave(d, [a]);
    assert d.Sent == [1, 1];
    startedAfterLeave, winnerAfterLeave := state.Started, state.Winner;
  }

  /**
   * After one of two players leaves, the ended match admits a newcomer and
   * starts again, broadcasting opcode 1 a third time.
   */
  method RestartAfterLeave(a: Presence, b: Presence, c: Presence)
    returns (newcomerAccepted: bool, restarted: bool)
    requires a.userId != b.userId && c.userId != b.userId
    ensures newcomerAccepted && restarted
  {
    var state, d := StartWithTwo(a, b);
    ghost var full := state.Presences;
    state.MatchLeave(d, [a]);
    assert UserIds([a]) == {a.userId};
    assert state.Presences.Keys == full.Keys - {a.userId} == {b.userId};
    assert |state.Presences| == |state.Presences.Keys| == 1;

    var reason;
    newcomerAccepted, reason := state.MatchJoinAttempt(c, map[]);
    ghost var rest := state.Presences;
    state.MatchJoin(d, [c]);
    assert UserIds([c]) == {c.userId};
    JoinedKeys(rest, [c]);
    assert |state.Presences| == |state.Presences.Keys| == |{b.userId, c.userId}| == 2;
    assert d.Sent == [1, 1, 1];
    restarted := state.Started;
  }
}
