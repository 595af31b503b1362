/** One player's connection handler: the text lines it writes when it
    starts, and the lines it and its opponent are sent after each command
    it reads. */
module Handler {
  import opened Board
  import opened Game

  datatype Option<T> = None | Some(value: T)

  /** A command line as read from the connection, already classified. */
  datatype Command = Move(loc: Idx) | Quit | Other(line: string)

  /** A free-text status line; the client displays what follows the
      eight-character tag. */
  function Message(text: string): (line: string)
  {
    "MESSAGE " + text
  }

  /** The client recovers the text of a status line exactly. */
  lemma MessageRoundTrip(text: string)
    ensures Message(text)[..8] == "MESSAGE " && Message(text)[8..] == text
    ensures Message(text)[0] == 'M'
  {
  }

  /** The lines a handler writes once it is set up: the HELLO handshake
      carrying the mark and the waiting notice (both from the constructor),
      then the connected notice and, for the player who moves first only,
      the your-move notice. */
  function Greeting(m: Mark): (r: seq<string>)
  {
    ["HELLO " + [MarkChar(m)],
     Message("Waiting for opponent to connect"),
     Message("Players are connected. Player 2 wait on Player 1")]
    + (if m == X then [Message("Player 1 Your move")] else [])
  }

  /** The client reads its mark as the seventh character of the HELLO
      line, and only the player who holds the first turn is told to move. */
  lemma GreetingNamesMark(m: Mark)
    ensures |Greeting(m)[0]| == 7 && Greeting(m)[0][..6] == "HELLO "
    ensures Greeting(m)[0][6] == MarkChar(m)
    ensures MarkChar(m) == MarkChar(X) <==> m == X
    ensures Message("Player 1 Your move") in Greeting(m) <==> m == Initial.turn
  {
    if m == O {
      assert |Greeting(m)| == 3;
      assert Message("Player 1 Your move") != Greeting(m)[0];
      assert Message("Player 1 Your move") != Greeting(m)[1];
      assert Message("Player 1 Your move") != Greeting(m)[2];
    } else {
      assert Greeting(m)[3] == Message("Player 1 Your move");
    }
  }

  /** The decimal text of a board location (always a single digit). */
  function LocText(loc: Idx): (t: string)
  {
    [(48 + loc) as char]
  }

  /** Read a board location back from its decimal text; anything but a
      single digit 0..8 is refused. */
  function ParseLoc(t: string): (r: Option<Idx>)
  {
    if |t| == 1 && '0' <= t[0] <= '8' then Some(t[0] as int - 48) else None
  }

  /** Location text round-trips, and the text is one digit. */
  lemma LocTextRoundTrip(loc: Idx)
    ensures ParseLoc(LocText(loc)) == Some(loc)
    ensures |LocText(loc)| == 1 && '0' <= LocText(loc)[0] <= '8'
  {
  }

  /** Parsing is injective on what it accepts: a parsed text is the
      canonical text of its location. */
  lemma ParseLocCanonical(t: string)
    ensures ParseLoc(t).Some? ==> LocText(ParseLoc(t).value) == t
  {
    if ParseLoc(t).Some? {
      assert LocText(ParseLoc(t).value)[0] == t[0];
    }
  }

  /** The line the mover gets after an accepted move. */
  function MoverVerdict(g: Grid): (v: string)
  {
    if GameWinner(g) then "VICTORY" else if Full(g) then "TIE" else ""
  }

  /** The line the opponent gets after the mover's accepted move. */
  function OpponentVerdict(g: Grid): (v: string)
  {
    if GameWinner(g) then "DEFEAT" else if Full(g) then "TIE" else ""
  }

  /** The two verdicts, read on the same board, always agree: the mover
      is told VICTORY exactly when the opponent is told DEFEAT, TIE goes to
      both or neither, and a TIE is only sent on a full board with no
      completed line. */
  lemma VerdictsAgree(g: Grid)
    ensures MoverVerdict(g) == "VICTORY" <==> OpponentVerdict(g) == "DEFEAT"
    ensures MoverVerdict(g) == "TIE" <==> OpponentVerdict(g) == "TIE"
    ensures MoverVerdict(g) == "" <==> OpponentVerdict(g) == ""
    ensures MoverVerdict(g) == "VICTORY" <==> HasLine(g, X) || HasLine(g, O)
    ensures MoverVerdict(g) == "TIE" <==> Full(g) && !HasLine(g, X) && !HasLine(g, O)
  {
    GameWinnerIffSomeLine(g);
  }

  /** What one command does: the state after it, the lines written to the
      player who sent it, the lines written to that player's opponent, and
      whether the handler leaves its read loop. */
  datatype Reply = Reply(next: State, toSelf: seq<string>, toOpponent: seq<string>, stop: bool)

  /** The reply to `MOVE loc` from player `p`. */
  function HandleMove(s: State, loc: Idx, p: Mark): (r: Reply)
    ensures !r.stop
    ensures CanMove(s, loc, p).accepted ==>
      && r.next == CanMove(s, loc, p).next
      && |r.toSelf| == 2 && r.toSelf[0] == "CAN_MOVE"
      && r.toSelf[1] == MoverVerdict(r.next.board)
      && r.toSelf[1] in {"VICTORY", "TIE", ""}
      && |r.toOpponent| == 2 && |r.toOpponent[0]| == 16
      && r.toOpponent[0][..15] == "OPPONENT_MOVED "
      && ParseLoc(r.toOpponent[0][15..]) == Some(loc)
      && r.toOpponent[1] == OpponentVerdict(r.next.board)
      && r.toOpponent[1] in {"DEFEAT", "TIE", ""}
    ensures !CanMove(s, loc, p).accepted ==>
      r.next == s && r.toSelf == [Message("Cannot Move")] && r.toOpponent == []
  {
    var o := CanMove(s, loc, p);
    if o.accepted then
      Reply(o.next,
            ["CAN_MOVE", MoverVerdict(o.next.board)],
            ["OPPONENT_MOVED " + LocText(loc), OpponentVerdict(o.next.board)],
            false)
    else
      Reply(s, [Message("Cannot Move")], [], false)
  }

  /** The two players' verdict lines after one accepted move agree: the
      mover is told VICTORY exactly when the opponent is told DEFEAT, and
      TIE, or the empty line, goes to both or to neither. */
  lemma RepliesAgree(s: State, loc: Idx, p: Mark)
    requires CanMove(s, loc, p).accepted
    ensures var r := HandleMove(s, loc, p);
      && (r.toSelf[1] == "VICTORY" <==> r.toOpponent[1] == "DEFEAT")
      && (r.toSelf[1] == "TIE" <==> r.toOpponent[1] == "TIE")
      && (r.toSelf[1] == "" <==> r.toOpponent[1] == "")
  {
    VerdictsAgree(CanMove(s, loc, p).next.board);
  }

  /** An accepted move that ends a game nobody had won yet is reported as
      VICTORY to the mover, who owns a completed line, and as DEFEAT to the
      opponent, who owns none. */
  lemma FirstVictoryIsDeserved(s: State, loc: Idx, p: Mark)
    requires !GameWinner(s.board)
    ensures var r := HandleMove(s, loc, p);
      r.toSelf != [] && r.toSelf[0] == "CAN_MOVE" && r.toSelf[1] == "VICTORY" ==>
        r.toOpponent[1] == "DEFEAT"
        && HasLine(r.next.board, p) && !HasLine(r.next.board, Opponent(p))
  {
    var r := HandleMove(s, loc, p);
    if r.toSelf != [] && r.toSelf[0] == "CAN_MOVE" && r.toSelf[1] == "VICTORY" {
      assert CanMove(s, loc, p).accepted;
      VerdictsAgree(r.next.board);
      FirstWinIsMovers(s, loc, p);
    }
  }

  /** After X has won on the top row, O's next move is still accepted and O
      is told VICTORY although the only completed line is X's. */
  lemma VictoryAfterWinGoesToMover()
    ensures var s := State([Taken(X), Taken(X), Taken(X), Taken(O), Taken(O),
                            Empty, Empty, Empty, Empty], O);
      var r := HandleMove(s, 8, O);
      r.toSelf == ["CAN_MOVE", "VICTORY"] && r.toOpponent[1] == "DEFEAT"
      && !HasLine(r.next.board, O)
  {
    var s := State([Taken(X), Taken(X), Taken(X), Taken(O), Taken(O),
                    Empty, Empty, Empty, Empty], O);
    var g := HandleMove(s, 8, O).next.board;
    assert Owns(g, Lines[0], X);
    LineIsWin(g, X);
    if HasLine(g, O) {
      var k :| 0 <= k < |Lines| && Owns(g, Lines[k], O);
      if k == 0 {} else if k == 1 {} else if k == 2 {} else if k == 3 {}
      else if k == 4 {} else if k == 5 {} else if k == 6 {} else {}
    }
  }

  /** What the handler of player `p` does with one command: a move is
      answered as above, QUIT ends the read loop with no output, and any
      other line is ignored. A verdict does not end the loop. */
  function HandleCommand(s: State, p: Mark, cmd: Command): (r: Reply)
    ensures r.stop <==> cmd.Quit?
    ensures !cmd.Move? ==> r.next == s && r.toSelf == [] && r.toOpponent == []
    ensures cmd.Move? ==> r == HandleMove(s, cmd.loc, p)
  {
    match cmd
    case Move(loc) => HandleMove(s, loc, p)
    case Quit => Reply(s, [], [], true)
    case Other(_) => Reply(s, [], [], false)
  }
}
