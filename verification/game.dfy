/** The match state and its single mutating operation: a move request that
    is accepted only from the player whose turn it is and only on an empty
    slot. Each request is one indivisible step. */
module Game {
  import opened Board

  /** The board plus the player whose turn it is. */
  datatype State = State(board: Grid, turn: Mark)

  /** A new match: an empty board with the first-accepted player, X, to move. */
  const Initial: State := State(EmptyGrid, X)

  /** The answer to one move request and the state after it. */
  datatype Outcome = Outcome(accepted: bool, next: State)

  /** A move request: player `player` wants to claim slot `loc`. */
  datatype Request = Request(loc: Idx, player: Mark)

  /** Claim slot `loc` for `p`. Accepted exactly when `p` holds the turn and
      the slot is empty; then the slot becomes `p`'s, no other slot changes,
      and the turn passes to `p`'s opponent. Rejected requests change
      nothing. Whether somebody has already won is not consulted. */
  function CanMove(s: State, loc: Idx, p: Mark): (r: Outcome)
    ensures r.accepted <==> p == s.turn && s.board[loc] == Empty
    ensures !r.accepted ==> r.next == s
    ensures r.accepted ==> r.next.board[loc] == Taken(p)
    ensures r.accepted ==> forall i: Idx :: i != loc ==> r.next.board[i] == s.board[i]
    ensures r.accepted ==> r.next.turn == Opponent(p) && r.next.turn != s.turn
  {
    if p == s.turn && s.board[loc] == Empty then
      Outcome(true, State(s.board[loc := Taken(s.turn)], Opponent(s.turn)))
    else
      Outcome(false, s)
  }

  /** The piece-count balance of a match that started with X to move. */
  predicate CountInv(s: State)
  {
    var nx := Count(s.board, Taken(X));
    var no := Count(s.board, Taken(O));
    (s.turn == X ==> nx == no) && (s.turn == O ==> nx == no + 1)
  }

  /** An accepted move occupies exactly one more slot, and an owned slot
      keeps its owner whatever the answer. */
  lemma MoveOccupiesOne(s: State, loc: Idx, p: Mark)
    ensures var r := CanMove(s, loc, p);
      Occupied(r.next.board) == Occupied(s.board) + (if r.accepted then 1 else 0)
    ensures forall i: Idx :: s.board[i] != Empty ==> CanMove(s, loc, p).next.board[i] == s.board[i]
  {
    if CanMove(s, loc, p).accepted {
      CountUpdate(s.board, loc, Taken(p), Empty);
    }
  }

  /** Every request keeps the piece-count balance. */
  lemma MovePreservesCountInv(s: State, loc: Idx, p: Mark)
    requires CountInv(s)
    ensures CountInv(CanMove(s, loc, p).next)
  {
    if CanMove(s, loc, p).accepted {
      CountUpdate(s.board, loc, Taken(p), Taken(X));
      CountUpdate(s.board, loc, Taken(p), Taken(O));
    }
  }

  /** Two requests for the same slot, one after the other, are never both
      accepted, whoever sends them; when the two players race for an empty
      slot, exactly one of them gets it. */
  lemma SameSlotOnce(s: State, loc: Idx, p: Mark, q: Mark)
    ensures var r1 := CanMove(s, loc, p);
      !(r1.accepted && CanMove(r1.next, loc, q).accepted)
    ensures var r1 := CanMove(s, loc, p);
      p != q && s.board[loc] == Empty ==>
        (r1.accepted <==> !CanMove(r1.next, loc, q).accepted)
  {
    MarkCases(p, q);
  }

  /** A move never completes a line for anybody but the mover. */
  lemma MoveWinsOnlyForMover(s: State, loc: Idx, p: Mark, m: Mark)
    requires CanMove(s, loc, p).accepted && m != p
    ensures HasLine(CanMove(s, loc, p).next.board, m) ==> HasLine(s.board, m)
  {
    var g := CanMove(s, loc, p).next.board;
    if HasLine(g, m) {
      var k :| 0 <= k < |Lines| && Owns(g, Lines[k], m);
      var l := Lines[k];
      assert l.a != loc && l.b != loc && l.c != loc;
      assert Owns(s.board, l, m);
    }
  }

  /** On a board where nobody had won, a move after which the winner test
      holds completed a line of the mover's and none of the opponent's. */
  lemma FirstWinIsMovers(s: State, loc: Idx, p: Mark)
    requires !GameWinner(s.board) && CanMove(s, loc, p).accepted
    requires GameWinner(CanMove(s, loc, p).next.board)
    ensures HasLine(CanMove(s, loc, p).next.board, p)
    ensures !HasLine(CanMove(s, loc, p).next.board, Opponent(p))
  {
    var g := CanMove(s, loc, p).next.board;
    GameWinnerIffSomeLine(s.board);
    GameWinnerIffSomeLine(g);
    MoveWinsOnlyForMover(s, loc, p, Opponent(p));
    MarkCases(X, p);
  }

  /** The state after a run of requests, answered one at a time. */
  function Play(s: State, reqs: seq<Request>): (t: State)
    decreases |reqs|
  {
    if reqs == [] then s
    else Play(CanMove(s, reqs[0].loc, reqs[0].player).next, reqs[1..])
  }

  /** The players whose requests were accepted, in order. */
  function Movers(s: State, reqs: seq<Request>): (ms: seq<Mark>)
    decreases |reqs|
  {
    if reqs == [] then []
    else
      var r := CanMove(s, reqs[0].loc, reqs[0].player);
      (if r.accepted then [reqs[0].player] else []) + Movers(r.next, reqs[1..])
  }

  /** The player who moves `n` accepted moves after `first` held the turn. */
  function NthTurn(first: Mark, n: nat): (m: Mark)
  {
    if n % 2 == 0 then first else Opponent(first)
  }

  /** Accepted moves strictly alternate, starting with the turn holder, and
      afterwards the turn has advanced once per accepted move. */
  lemma {:induction false} PlayAlternates(s: State, reqs: seq<Request>)
    ensures var ms := Movers(s, reqs);
      (forall i :: 0 <= i < |ms| ==> ms[i] == NthTurn(s.turn, i))
      && Play(s, reqs).turn == NthTurn(s.turn, |ms|)
    decreases |reqs|
  {
    if reqs != [] {
      var r := CanMove(s, reqs[0].loc, reqs[0].player);
      PlayAlternates(r.next, reqs[1..]);
      var rest := Movers(r.next, reqs[1..]);
      if r.accepted {
        MarkCases(s.turn, s.turn);
        var ms := Movers(s, reqs);
        assert ms == [reqs[0].player] + rest;
        forall i | 0 <= i < |ms|
          ensures ms[i] == NthTurn(s.turn, i)
        {
          if i > 0 {
            assert ms[i] == rest[i - 1];
          }
        }
      }
    }
  }

  /** Owned slots are never cleared or reassigned, and the number of
      occupied slots grows by exactly one per accepted move. */
  lemma {:induction false} PlayOccupies(s: State, reqs: seq<Request>)
    ensures forall i: Idx :: s.board[i] != Empty ==> Play(s, reqs).board[i] == s.board[i]
    ensures Occupied(Play(s, reqs).board) == Occupied(s.board) + |Movers(s, reqs)|
    decreases |reqs|
  {
    if reqs != [] {
      var r := CanMove(s, reqs[0].loc, reqs[0].player);
      MoveOccupiesOne(s, reqs[0].loc, reqs[0].player);
      PlayOccupies(r.next, reqs[1..]);
    }
  }

  /** Every run of requests keeps the piece-count balance. */
  lemma {:induction false} PlayPreservesCountInv(s: State, reqs: seq<Request>)
    requires CountInv(s)
    ensures CountInv(Play(s, reqs))
    decreases |reqs|
  {
    if reqs != [] {
      MovePreservesCountInv(s, reqs[0].loc, reqs[0].player);
      PlayPreservesCountInv(CanMove(s, reqs[0].loc, reqs[0].player).next, reqs[1..]);
    }
  }

  /** From a new match: X and O have equal piece counts when X is to move
      and X is one ahead when O is to move; together they hold one piece
      per accepted move; accepted moves go X, O, X, ...; and no more than
      nine moves are ever accepted. */
  lemma Reachable(reqs: seq<Request>)
    ensures CountInv(Play(Initial, reqs))
    ensures var g := Play(Initial, reqs).board;
      Count(g, Taken(X)) + Count(g, Taken(O)) == |Movers(Initial, reqs)|
    ensures var ms := Movers(Initial, reqs);
      |ms| <= 9 && forall i :: 0 <= i < |ms| ==> ms[i] == (if i % 2 == 0 then X else O)
  {
    assert Count(Initial.board, Taken(X)) == 0 && Count(Initial.board, Taken(O)) == 0;
    PlayPreservesCountInv(Initial, reqs);
    PlayAlternates(Initial, reqs);
    PlayOccupies(Initial, reqs);
    assert Occupied(Initial.board) == 0;
    CountPartition(Play(Initial, reqs).board);
  }

  /** Play under the assumption that no request is sent once somebody has
      won. The move check does not enforce this, and a client that sends a
      move before it has read the verdict breaks it. */
  function PlayUntilWin(s: State, reqs: seq<Request>): (t: State)
    decreases |reqs|
  {
    if reqs == [] || GameWinner(s.board) then s
    else PlayUntilWin(CanMove(s, reqs[0].loc, reqs[0].player).next, reqs[1..])
  }

  /** Nobody, or exactly one player, has a completed line. */
  predicate AtMostOneWinner(g: Grid)
  {
    !(HasLine(g, X) && HasLine(g, O))
  }

  /** When play stops at the first win, at most one player ever owns a
      completed line. */
  lemma {:induction false} PlayUntilWinHasOneWinner(s: State, reqs: seq<Request>)
    requires AtMostOneWinner(s.board)
    ensures AtMostOneWinner(PlayUntilWin(s, reqs).board)
    decreases |reqs|
  {
    if reqs != [] && !GameWinner(s.board) {
      var r := CanMove(s, reqs[0].loc, reqs[0].player);
      if r.accepted && GameWinner(r.next.board) {
        FirstWinIsMovers(s, reqs[0].loc, reqs[0].player);
      } else if r.accepted {
        GameWinnerIffSomeLine(r.next.board);
      }
      PlayUntilWinHasOneWinner(r.next, reqs[1..]);
    }
  }

  /** X completes the top row, then O is still let to move and completes
      the middle row: the server keeps accepting moves after a win. */
  const WinThenPlayOn: seq<Request> := [
    Request(0, X), Request(3, O), Request(1, X),
    Request(4, O), Request(2, X), Request(5, O)
  ]

  /** Since a move request never consults the winner test, a match that
      does not stop at the first win can end with both players owning a
      line. */
  lemma BothMayOwnLines()
    ensures |Movers(Initial, WinThenPlayOn)| == 6
    ensures HasLine(Play(Initial, WinThenPlayOn).board, X)
    ensures HasLine(Play(Initial, WinThenPlayOn).board, O)
  {
    var w := WinThenPlayOn;
    var s1 := CanMove(Initial, 0, X).next;
    var s2 := CanMove(s1, 3, O).next;
    var s3 := CanMove(s2, 1, X).next;
    var s4 := CanMove(s3, 4, O).next;
    var s5 := CanMove(s4, 2, X).next;
    var s6 := CanMove(s5, 5, O).next;
    assert Play(s6, w[6..]) == s6;
    assert Play(s5, w[5..]) == s6;
    assert Play(s4, w[4..]) == s6;
    assert Play(s3, w[3..]) == s6;
    assert Play(s2, w[2..]) == s6;
    assert Play(s1, w[1..]) == s6;
    assert Movers(s5, w[5..]) == [O];
    assert Movers(s4, w[4..]) == [X, O];
    assert Movers(s3, w[3..]) == [O, X, O];
    assert Movers(s2, w[2..]) == [X, O, X, O];
    assert Movers(s1, w[1..]) == [O, X, O, X, O];
    var g := s6.board;
    assert Owns(g, Lines[0], X);
    assert Owns(g, Lines[1], O);
  }
}
