/**
 Self-play training (function `train` of nim.py): one agent plays both
 sides of a game; each player's last (state, action) is remembered so that
 the reward of a move can be assigned once the opponent has replied or the
 game has ended.
 */
module Training {
  import opened Results
  import opened NimGame
  import opened NimAgent

  /** A player's most recent (state, action) in the current game. */
  datatype Record = Record(state: seq<nat>, action: Action)

  /** The per-game state of the loop: the agent being trained, the game, and
      the last record of player 0 and of player 1 (the `last` dictionary). */
  datatype Episode = Episode(agent: Agent, game: Game, last0: Option<Record>, last1: Option<Record>)
  {
    function Last(p: Player): Option<Record>
    {
      if p == 0 then last0 else last1
    }

    /** Overwrite the record of player `p`. */
    function Remember(p: Player, rec: Record): (e: Episode)
      ensures e.Last(p) == Some(rec)
      ensures e.Last(OtherPlayer(p)) == Last(OtherPlayer(p))
      ensures e.agent == agent && e.game == game
    {
      if p == 0 then this.(last0 := Some(rec)) else this.(last1 := Some(rec))
    }
  }

  /** The ways one iteration of the game loop can raise: `choose_action`
      on a position without legal actions, a move `move` rejects, and
      `update` called with the opponent's record still empty. */
  datatype TrainError = NoLegalAction | MoveRejected(reason: MoveError) | MissingRecord

  /** A fresh game on `initial` with both records empty. */
  function StartEpisode(agent: Agent, initial: seq<nat>): Episode
  {
    Episode(agent, NewGame(initial), None, None)
  }

  /** The action the agent picks for the player to move (exploration on). */
  function Chosen(ep: Episode, d: Draw): Option<Action>
  {
    ChooseAction(ep.agent, ep.game.piles, true, d)
  }

  /** One iteration of the game loop: choose, remember, move, then reward.
      A move that ends the game rewards the mover's move with -1 and the
      opponent's last move with +1; any other move gives the now-current
      player's last move, if there is one, the bridging reward 0. */
  function Turn(ep: Episode, d: Draw): (r: Result<Episode, TrainError>)
    ensures r == Failure(NoLegalAction) <==> Sum(ep.game.piles) == 0
    ensures r.Success? ==>
              && Chosen(ep, d).Some?
              && Move(ep.game, Chosen(ep, d).value).Success?
              && r.value.game == Move(ep.game, Chosen(ep, d).value).value
              && r.value.Last(OtherPlayer(ep.game.player)) == ep.Last(OtherPlayer(ep.game.player))
              && Sum(r.value.game.piles) < Sum(ep.game.piles)
              && r.value.game.player == OtherPlayer(ep.game.player)
              && r.value.Last(ep.game.player) == Some(Record(ep.game.piles, Chosen(ep, d).value))
              && r.value.agent.alpha == ep.agent.alpha && r.value.agent.epsilon == ep.agent.epsilon
              && ep.agent.q.Keys <= r.value.agent.q.Keys
    ensures r.Success? && r.value.game.winner.Some? ==>
              (ep.game.piles, Chosen(ep, d).value) in r.value.agent.q
  {
    var state := ep.game.piles;
    match Chosen(ep, d)
    case None => Failure(NoLegalAction)
    case Some(action) =>
      var mover := ep.game.player;
      match Move(ep.game, action)
      case Failure(e) => Failure(MoveRejected(e))
      case Success(g) =>
        var next := ep.(game := g).Remember(mover, Record(state, action));
        var opponent := next.Last(g.player);
        if g.winner.Some? then
          var lost := Update(ep.agent, state, action, g.piles, -1.0);
          if opponent.None? then Failure(MissingRecord)
          else Success(next.(agent := Update(lost, opponent.value.state, opponent.value.action, g.piles, 1.0)))
        else if opponent.Some? then
          Success(next.(agent := Update(ep.agent, opponent.value.state, opponent.value.action, g.piles, 0.0)))
        else
          Success(next)
  }

  /** The `while True` game loop: play turns until the game has a winner.
      `clock` counts the draws consumed so far; the result carries the
      trained agent and the clock after the game. */
  function PlayOut(ep: Episode, rng: nat -> Draw, clock: nat): (r: Result<(Agent, nat), TrainError>)
    ensures r.Success? ==>
              && r.value.1 > clock
              && r.value.0.alpha == ep.agent.alpha && r.value.0.epsilon == ep.agent.epsilon
              && ep.agent.q.Keys <= r.value.0.q.Keys
              && r.value.0.q != map[]
    decreases Sum(ep.game.piles)
  {
    match Turn(ep, rng(clock))
    case Failure(e) => Failure(e)
    case Success(next) =>
      if next.game.winner.Some? then Success((next.agent, clock + 1))
      else PlayOut(next, rng, clock + 1)
  }

  /** `n` further training games, each from a fresh `Nim(initial)` with
      empty records, all updating the same agent. */
  function TrainFrom(agent: Agent, initial: seq<nat>, n: nat, rng: nat -> Draw, clock: nat)
    : (r: Result<Agent, TrainError>)
    ensures r.Success? ==>
              && r.value.alpha == agent.alpha && r.value.epsilon == agent.epsilon
              && agent.q.Keys <= r.value.q.Keys
              && (n > 0 ==> r.value.q != map[])
    decreases n
  {
    if n == 0 then Success(agent)
    else
      match PlayOut(StartEpisode(agent, initial), rng, clock)
      case Failure(e) => Failure(e)
      case Success(res) => TrainFrom(res.0, initial, n - 1, rng, res.1)
  }

  /** `train(n)`: a new agent with the default rates, trained on `n` games
      from the default piles. */
  function Train(n: nat, rng: nat -> Draw): (r: Result<Agent, TrainError>)
    ensures r.Success? ==>
              && r.value.alpha == DefaultAlpha && r.value.epsilon == DefaultEpsilon
              && (r.value.q == map[] <==> n == 0)
  {
    TrainFrom(NewAgent(DefaultAlpha, DefaultEpsilon), DefaultPiles, n, rng, 0)
  }

  // ---------------------------------------------------------------------
  // The episode invariant

  /** A record, if present, was taken in a position with more objects. */
  predicate RecordedEarlier(rec: Option<Record>, piles: seq<nat>)
  {
    rec.Some? ==> Sum(rec.value.state) > Sum(piles)
  }

  /** What holds at the top of the game loop: the game is undecided, an
      object is left, the records are of earlier positions, and while the
      opponent of the player to move has no record yet (nobody has moved,
      or only the player to move has) at least two piles are non-empty, so
      the next move cannot end the game. */
  predicate Live(ep: Episode)
  {
    && ep.game.winner.None?
    && Sum(ep.game.piles) > 0
    && (ep.Last(OtherPlayer(ep.game.player)).None? ==>
          ep.Last(ep.game.player).None? && NonEmptyCount(ep.game.piles) >= 2)
    && RecordedEarlier(ep.last0, ep.game.piles)
    && RecordedEarlier(ep.last1, ep.game.piles)
  }

  /** From a live episode a turn never raises, and an undecided result is
      live again. */
  lemma TurnFromLive(ep: Episode, d: Draw)
    requires Live(ep)
    ensures Turn(ep, d).Success?
    ensures Turn(ep, d).value.game.winner.None? ==> Live(Turn(ep, d).value)
  {
    var state := ep.game.piles;
    var mover := ep.game.player;
    var action := Chosen(ep, d).value;
    var g := Move(ep.game, action).value;
    var next := ep.(game := g).Remember(mover, Record(state, action));
    assert g.piles == state[action.pile := state[action.pile] - action.count];
    AllZeroIffSumZero(g.piles);
    if next.Last(g.player).None? {
      OtherPlayerInvolution(mover);
      NonEmptyCountUpdate(state, action.pile, state[action.pile] - action.count);
    }
  }

  lemma {:induction false} PlayOutFromLive(ep: Episode, rng: nat -> Draw, clock: nat)
    requires Live(ep)
    ensures PlayOut(ep, rng, clock).Success?
    decreases Sum(ep.game.piles)
  {
    TurnFromLive(ep, rng(clock));
    var next := Turn(ep, rng(clock)).value;
    if next.game.winner.None? {
      PlayOutFromLive(next, rng, clock + 1);
    }
  }

  /** A game starting with at least two non-empty piles cannot end before
      the second player has moved, so the opponent's record read when it
      ends is always present, and the game never raises. */
  lemma StartIsLive(agent: Agent, initial: seq<nat>)
    requires NonEmptyCount(initial) >= 2
    ensures Live(StartEpisode(agent, initial))
  {
    AllZeroIffSumZero(initial);
  }

  /** A training game from piles with two or more non-empty piles ends
      without raising. */
  lemma TrainingGameSucceeds(agent: Agent, initial: seq<nat>, rng: nat -> Draw, clock: nat)
    requires NonEmptyCount(initial) >= 2
    ensures PlayOut(StartEpisode(agent, initial), rng, clock).Success?
  {
    StartIsLive(agent, initial);
    PlayOutFromLive(StartEpisode(agent, initial), rng, clock);
  }

  /** One training game from piles with two or more non-empty piles ends
      without raising, and training goes on from its agent and clock. */
  lemma TrainFromStep(agent: Agent, initial: seq<nat>, n: nat, rng: nat -> Draw, clock: nat)
      returns (next: Agent, nextClock: nat)
    requires n > 0 && NonEmptyCount(initial) >= 2
    ensures TrainFrom(agent, initial, n, rng, clock) == TrainFrom(next, initial, n - 1, rng, nextClock)
  {
    TrainingGameSucceeds(agent, initial, rng, clock);
    var res := PlayOut(StartEpisode(agent, initial), rng, clock).value;
    next, nextClock := res.0, res.1;
  }

  lemma {:induction false} TrainFromSucceeds(agent: Agent, initial: seq<nat>, n: nat, rng: nat -> Draw, clock: nat)
    requires NonEmptyCount(initial) >= 2
    ensures TrainFrom(agent, initial, n, rng, clock).Success?
    decreases n
  {
    if n > 0 {
      var next, nextClock := TrainFromStep(agent, initial, n, rng, clock);
      TrainFromSucceeds(next, initial, n - 1, rng, nextClock);
    }
  }

  /** The default piles [1, 3, 5, 7] have four non-empty piles. */
  lemma DefaultPilesNonEmpty()
    ensures NonEmptyCount(DefaultPiles) == 4
  {
  }

  /** Training never raises, keeps the default rates, and leaves the table
      empty exactly when no game is played. */
  lemma TrainOutcome(n: nat, rng: nat -> Draw)
    ensures Train(n, rng).Success?
    ensures Train(n, rng).value.alpha == DefaultAlpha && Train(n, rng).value.epsilon == DefaultEpsilon
    ensures Train(n, rng).value.q == map[] <==> n == 0
  {
    DefaultPilesNonEmpty();
    TrainFromSucceeds(NewAgent(DefaultAlpha, DefaultEpsilon), DefaultPiles, n, rng, 0);
  }

  // ---------------------------------------------------------------------
  // Rewards

  /** The move that ends a game: the mover's (state, action) is blended
      towards -1 and the opponent's last (state, action) towards +1; the
      best future reward of the empty piles is 0, the two keys differ, and
      no other entry changes. */
  lemma TerminalTurnRewards(ep: Episode, d: Draw)
    requires Live(ep)
    requires Turn(ep, d).Success? && Turn(ep, d).value.game.winner.Some?
    ensures var alpha := ep.agent.alpha;
            var q := ep.agent.q;
            var mover := (ep.game.piles, Chosen(ep, d).value);
            var opp := ep.Last(OtherPlayer(ep.game.player));
            && opp.Some?
            && (opp.value.state, opp.value.action) != mover
            && Turn(ep, d).value.agent.q
                 == q[mover := Blend(GetQ(q, mover.0, mover.1), alpha, -1.0, 0.0)]
                     [(opp.value.state, opp.value.action)
                        := Blend(GetQ(q, opp.value.state, opp.value.action), alpha, 1.0, 0.0)]
  {
    var state := ep.game.piles;
    var action := Chosen(ep, d).value;
    var g := Move(ep.game, action).value;
    AllZeroIffSumZero(g.piles);
    TurnFromLive(ep, d);
    var opp := ep.Last(OtherPlayer(ep.game.player));
    assert opp.Some? by {
      OtherPlayerInvolution(ep.game.player);
    }
    assert Sum(opp.value.state) > Sum(state);
    var lost := Update(ep.agent, state, action, g.piles, -1.0);
    BestFutureOfEmptyPiles(ep.agent, g.piles);
    BestFutureOfEmptyPiles(lost, g.piles);
  }

  /** Any other move: when the player now to move has a record, its entry
      is blended towards 0 + the best future reward of the new position;
      otherwise the table is unchanged. */
  lemma NonTerminalTurnRewards(ep: Episode, d: Draw)
    requires Turn(ep, d).Success? && Turn(ep, d).value.game.winner.None?
    ensures var q := ep.agent.q;
            var next := Turn(ep, d).value;
            var opp := ep.Last(OtherPlayer(ep.game.player));
            && (opp.None? ==> next.agent.q == q)
            && (opp.Some? ==>
                  next.agent.q
                    == q[(opp.value.state, opp.value.action)
                           := Blend(GetQ(q, opp.value.state, opp.value.action), ep.agent.alpha,
                                    0.0, BestFutureReward(ep.agent, next.game.piles))])
  {
    OtherPlayerInvolution(ep.game.player);
  }

  /** With a single non-empty pile the hazard is real: an exploring first
      move that takes the whole pile ends the game while the opponent's
      record is still empty. */
  lemma SinglePileHazard()
    ensures Turn(StartEpisode(NewAgent(DefaultAlpha, DefaultEpsilon), [3]), Draw(10, 2)) == Failure(MissingRecord)
  {
    var acts := Enumerate([3]);
    assert acts == [Action(0, 1), Action(0, 2), Action(0, 3)];
    var g := Move(NewGame([3]), Action(0, 3)).value;
    assert g.piles == [0];
  }
}
