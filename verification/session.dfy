/** A match as the server runs it: one game shared by two handlers, each
    reading its own player's commands. Every command is handled as one
    indivisible step, so a run is a sequence of commands tagged with the
    player who sent them, in the order the handlers got to the game. */
module Session {
  import opened Board
  import opened Game
  import opened Handler

  /** The shared game, everything written so far to each player, and
      whether each handler has left its read loop. */
  datatype Match = Match(game: State, outX: seq<string>, outO: seq<string>,
                         quitX: bool, quitO: bool)

  /** A command read by the handler of player `from`. */
  datatype Event = Event(from: Mark, cmd: Command)

  function Out(t: Match, m: Mark): (out: seq<string>)
  {
    if m == X then t.outX else t.outO
  }

  function Quitted(t: Match, m: Mark): (quit: bool)
  {
    if m == X then t.quitX else t.quitO
  }

  /** Both players connected: a new game with X to move, and each player
      has been sent its greeting. */
  const Start: Match := Match(Initial, Greeting(X), Greeting(O), false, false)

  /** One command reaches the game. A handler that has quit reads nothing
      more; otherwise its player and the opponent are sent the reply lines
      and the handler stops if the command was QUIT. */
  function Deliver(t: Match, e: Event): (u: Match)
    ensures Quitted(t, e.from) ==> u == t
    ensures !Quitted(t, e.from) ==>
      var r := HandleCommand(t.game, e.from, e.cmd);
      && u.game == r.next
      && Out(u, e.from) == Out(t, e.from) + r.toSelf
      && Out(u, Opponent(e.from)) == Out(t, Opponent(e.from)) + r.toOpponent
      && Quitted(u, e.from) == r.stop
      && Quitted(u, Opponent(e.from)) == Quitted(t, Opponent(e.from))
  {
    if Quitted(t, e.from) then t
    else
      var r := HandleCommand(t.game, e.from, e.cmd);
      if e.from == X then
        Match(r.next, t.outX + r.toSelf, t.outO + r.toOpponent, r.stop, t.quitO)
      else
        Match(r.next, t.outX + r.toOpponent, t.outO + r.toSelf, t.quitX, r.stop)
  }

  function Run(t: Match, es: seq<Event>): (u: Match)
    decreases |es|
  {
    if es == [] then t else Run(Deliver(t, es[0]), es[1..])
  }

  /** The move requests that reached the game, in order. */
  function Requests(t: Match, es: seq<Event>): (reqs: seq<Request>)
    decreases |es|
  {
    if es == [] then []
    else
      var e := es[0];
      (if !Quitted(t, e.from) && e.cmd.Move? then [Request(e.cmd.loc, e.from)] else [])
      + Requests(Deliver(t, e), es[1..])
  }

  /** The location of the event's move when it is an accepted move of
      player `m`'s. */
  function StepLocs(t: Match, e: Event, m: Mark): (locs: seq<Idx>)
  {
    if !Quitted(t, e.from) && e.cmd.Move? && e.from == m
       && CanMove(t.game, e.cmd.loc, m).accepted
    then [e.cmd.loc] else []
  }

  /** The locations of the moves of player `m` that were accepted, in order. */
  function AcceptedLocs(t: Match, es: seq<Event>, m: Mark): (locs: seq<Idx>)
    decreases |es|
  {
    if es == [] then []
    else StepLocs(t, es[0], m) + AcceptedLocs(Deliver(t, es[0]), es[1..], m)
  }

  /** The game a session ends with is exactly the game played by the move
      requests that reached it: handlers touch the board only through the
      move operation. */
  lemma {:induction false} RunIsPlay(t: Match, es: seq<Event>)
    ensures Run(t, es).game == Play(t.game, Requests(t, es))
    decreases |es|
  {
    if es != [] {
      var e := es[0];
      var u := Deliver(t, e);
      RunIsPlay(u, es[1..]);
      if !Quitted(t, e.from) && e.cmd.Move? {
        var q := Request(e.cmd.loc, e.from);
        assert Requests(t, es) == [q] + Requests(u, es[1..]);
        assert ([q] + Requests(u, es[1..]))[1..] == Requests(u, es[1..]);
      } else {
        assert Requests(t, es) == Requests(u, es[1..]);
      }
    }
  }

  /** Every session started from a fresh match keeps the piece-count
      balance, whatever the players send and in whatever order. */
  lemma SessionCountInv(es: seq<Event>)
    ensures CountInv(Run(Start, es).game)
  {
    RunIsPlay(Start, es);
    Reachable(Requests(Start, es));
  }

  /** A line the client takes as news of an opponent's move, with the
      location it reads from it. */
  predicate IsOpponentMoved(l: string)
  {
    |l| >= 15 && l[..15] == "OPPONENT_MOVED " && ParseLoc(l[15..]).Some?
  }

  /** The opponent moves a player has been told about, in order. */
  function Reported(out: seq<string>): (locs: seq<Idx>)
  {
    if out == [] then []
    else
      (if IsOpponentMoved(out[0]) then [ParseLoc(out[0][15..]).value] else [])
      + Reported(out[1..])
  }

  /** The number of CAN_MOVE acknowledgements a player has been sent. */
  function Acks(out: seq<string>): (n: nat)
  {
    if out == [] then 0 else (if out[0] == "CAN_MOVE" then 1 else 0) + Acks(out[1..])
  }

  lemma ReportedCons(l: string, rest: seq<string>)
    ensures Reported([l] + rest)
         == (if IsOpponentMoved(l) then [ParseLoc(l[15..]).value] else []) + Reported(rest)
    ensures Acks([l] + rest) == (if l == "CAN_MOVE" then 1 else 0) + Acks(rest)
  {
    assert ([l] + rest)[1..] == rest;
  }

  lemma {:induction false} ReportedAppend(a: seq<string>, b: seq<string>)
    ensures Reported(a + b) == Reported(a) + Reported(b)
    ensures Acks(a + b) == Acks(a) + Acks(b)
    decreases |a|
  {
    if a == [] {
      assert a + b == b;
    } else {
      assert a + b == [a[0]] + (a[1..] + b);
      assert a == [a[0]] + a[1..];
      ReportedCons(a[0], a[1..] + b);
      ReportedCons(a[0], a[1..]);
      ReportedAppend(a[1..], b);
    }
  }

  /** A line that starts with neither 'O' nor 'C' is neither move news nor
      an acknowledgement. */
  lemma Neutral(l: string)
    requires l == [] || (l[0] != 'O' && l[0] != 'C')
    ensures !IsOpponentMoved(l) && l != "CAN_MOVE"
  {
  }

  /** Move news and acknowledgements in a list of lines none of which is
      either. */
  lemma NeutralLines(ls: seq<string>)
    requires forall i :: 0 <= i < |ls| ==> ls[i] == [] || (ls[i][0] != 'O' && ls[i][0] != 'C')
    ensures Reported(ls) == [] && Acks(ls) == 0
    decreases |ls|
  {
    if ls != [] {
      Neutral(ls[0]);
      assert ls == [ls[0]] + ls[1..];
      ReportedCons(ls[0], ls[1..]);
      NeutralLines(ls[1..]);
    }
  }

  lemma VerdictsNeutral(g: Grid)
    ensures var v := MoverVerdict(g); v == [] || (v[0] != 'O' && v[0] != 'C')
    ensures var v := OpponentVerdict(g); v == [] || (v[0] != 'O' && v[0] != 'C')
  {
  }

  /** What the reply lines of one command tell each side: the mover gets
      one acknowledgement per accepted move and no move news, and the
      opponent gets the accepted location and no acknowledgement. */
  lemma ReplyReports(s: State, p: Mark, cmd: Command)
    ensures var r := HandleCommand(s, p, cmd);
      var ok := cmd.Move? && CanMove(s, cmd.loc, p).accepted;
      && Reported(r.toSelf) == []
      && Acks(r.toSelf) == (if ok then 1 else 0)
      && Reported(r.toOpponent) == (if ok then [cmd.loc] else [])
      && Acks(r.toOpponent) == 0
  {
    var r := HandleCommand(s, p, cmd);
    if cmd.Move? && CanMove(s, cmd.loc, p).accepted {
      var g := r.next.board;
      var l0 := "OPPONENT_MOVED " + LocText(cmd.loc);
      assert l0[..15] == "OPPONENT_MOVED ";
      assert l0[15..] == LocText(cmd.loc);
      LocTextRoundTrip(cmd.loc);
      assert IsOpponentMoved(l0);
      assert l0 != "CAN_MOVE" by {
        assert |l0| == 16;
      }
      VerdictsNeutral(g);
      assert r.toOpponent == [l0] + [OpponentVerdict(g)];
      NeutralLines([OpponentVerdict(g)]);
      ReportedCons(l0, [OpponentVerdict(g)]);
      assert r.toSelf == ["CAN_MOVE"] + [MoverVerdict(g)];
      NeutralLines([MoverVerdict(g)]);
      ReportedCons("CAN_MOVE", [MoverVerdict(g)]);
      assert !IsOpponentMoved("CAN_MOVE");
    } else if cmd.Move? {
      MessageRoundTrip("Cannot Move");
      NeutralLines(r.toSelf);
      NeutralLines(r.toOpponent);
    } else {
      NeutralLines(r.toSelf);
      NeutralLines(r.toOpponent);
    }
  }

  /** One command adds the accepted location, if any, to the opponent's
      news and one acknowledgement to the mover's, and nothing else. */
  lemma DeliverReports(t: Match, e: Event, m: Mark)
    ensures var u := Deliver(t, e);
      && Reported(Out(u, Opponent(m))) == Reported(Out(t, Opponent(m))) + StepLocs(t, e, m)
      && Acks(Out(u, m)) == Acks(Out(t, m)) + |StepLocs(t, e, m)|
  {
    if !Quitted(t, e.from) {
      var r := HandleCommand(t.game, e.from, e.cmd);
      ReplyReports(t.game, e.from, e.cmd);
      ReportedAppend(Out(t, e.from), r.toSelf);
      ReportedAppend(Out(t, Opponent(e.from)), r.toOpponent);
      if e.from != m {
        MarkCases(m, e.from);
      }
    }
  }

  /** A player is told of every accepted move of the opponent's, at the
      right location and in order, and of nothing else; and acknowledges
      exactly its own accepted moves. */
  lemma {:induction false} OpponentSeesEveryMove(t: Match, es: seq<Event>, m: Mark)
    ensures Reported(Out(Run(t, es), Opponent(m)))
         == Reported(Out(t, Opponent(m))) + AcceptedLocs(t, es, m)
    ensures Acks(Out(Run(t, es), m)) == Acks(Out(t, m)) + |AcceptedLocs(t, es, m)|
    decreases |es|
  {
    if es != [] {
      var u := Deliver(t, es[0]);
      var step := StepLocs(t, es[0], m);
      var later := AcceptedLocs(u, es[1..], m);
      assert Run(t, es) == Run(u, es[1..]);
      assert AcceptedLocs(t, es, m) == step + later;
      DeliverReports(t, es[0], m);
      OpponentSeesEveryMove(u, es[1..], m);
      assert Reported(Out(t, Opponent(m))) + step + later
          == Reported(Out(t, Opponent(m))) + (step + later);
    }
  }

  lemma GreetingsReportNothing(m: Mark)
    ensures Reported(Greeting(m)) == [] && Acks(Greeting(m)) == 0
  {
    var g := Greeting(m);
    MessageRoundTrip("Waiting for opponent to connect");
    MessageRoundTrip("Players are connected. Player 2 wait on Player 1");
    MessageRoundTrip("Player 1 Your move");
    assert g[0][0] == 'H';
    NeutralLines(g);
  }

  /** From the start of a match, each player's view of the other is
      complete: the moves reported to a player are exactly the opponent's
      accepted moves, as many as the acknowledgements the opponent got. */
  lemma ViewsAgree(es: seq<Event>, m: Mark)
    ensures var t := Run(Start, es);
      Reported(Out(t, Opponent(m))) == AcceptedLocs(Start, es, m)
      && |Reported(Out(t, Opponent(m)))| == Acks(Out(t, m))
  {
    GreetingsReportNothing(X);
    GreetingsReportNothing(O);
    OpponentSeesEveryMove(Start, es, m);
  }

  /** Once a handler has quit it stays out of the loop, and no move of its
      player reaches the game any more. */
  lemma {:induction false} QuitIsFinal(t: Match, es: seq<Event>, m: Mark)
    requires Quitted(t, m)
    ensures Quitted(Run(t, es), m)
    ensures forall q :: q in Requests(t, es) ==> q.player != m
    decreases |es|
  {
    if es != [] {
      var u := Deliver(t, es[0]);
      MarkCases(m, es[0].from);
      QuitIsFinal(u, es[1..], m);
    }
  }
}
