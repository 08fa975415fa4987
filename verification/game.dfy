/**
 The Nim game engine (class `Nim` of nim.py): piles, the player to move,
 the recorded winner, the legal actions of a pile configuration and the
 validated move.
 */
module NimGame {
  import opened Results

  /** The engine only ever uses the two player identifiers 0 and 1. */
  type Player = p: int | 0 <= p <= 1

  /** A move: take `count` objects from pile number `pile`. Both components
      are unconstrained integers because a caller may submit any pair;
      `Move` decides whether it is legal. */
  datatype Action = Action(pile: int, count: int)

  /** Piles, the player to move, and the winner once the game is over. */
  datatype Game = Game(piles: seq<nat>, player: Player, winner: Option<Player>)

  /** The three exceptions `move` raises, in the order it checks them. */
  datatype MoveError = GameAlreadyWon | InvalidPile | InvalidCount

  /** The starting piles used when no configuration is given. */
  const DefaultPiles: seq<nat> := [1, 3, 5, 7]

  /** Total number of objects left. */
  function Sum(piles: seq<nat>): nat
  {
    if |piles| == 0 then 0 else piles[0] + Sum(piles[1..])
  }

  /** Number of piles that still hold an object. */
  function NonEmptyCount(piles: seq<nat>): nat
  {
    if |piles| == 0 then 0 else (if piles[0] > 0 then 1 else 0) + NonEmptyCount(piles[1..])
  }

  /** Every pile is empty: the game-over test of `move`. */
  predicate AllZero(piles: seq<nat>)
  {
    forall i :: 0 <= i < |piles| ==> piles[i] == 0
  }

  /** `a` names an existing pile and takes between 1 and all of its objects. */
  predicate Legal(piles: seq<nat>, a: Action)
  {
    0 <= a.pile < |piles| && 1 <= a.count <= piles[a.pile]
  }

  /** A fresh game: the given piles, player 0 to move, no winner. */
  function NewGame(initial: seq<nat>): Game
  {
    Game(initial, 0, None)
  }

  /** `available_actions`: the set of all pairs (i, j) with j from 1 to pile i. */
  function AvailableActions(piles: seq<nat>): set<Action>
  {
    set i: int, j: int | 0 <= i < |piles| && 1 <= j <= piles[i] :: Action(i, j)
  }

  /** The actions on pile `i` when it holds `n` objects, by ascending count. */
  function PileActions(i: nat, n: nat): seq<Action>
  {
    seq(n, k => Action(i, k + 1))
  }

  /** The actions on piles `i` and above, in canonical order. */
  function EnumerateFrom(piles: seq<nat>, i: nat): seq<Action>
    requires i <= |piles|
    decreases |piles| - i
  {
    if i == |piles| then [] else PileActions(i, piles[i]) + EnumerateFrom(piles, i + 1)
  }

  /** The order in which the model iterates over `available_actions`:
      ascending pile index, then ascending count. Python leaves the
      iteration order of the set unspecified; this fixes one. */
  function Enumerate(piles: seq<nat>): seq<Action>
  {
    EnumerateFrom(piles, 0)
  }

  /** Canonical order on actions: by pile, then by count. */
  predicate Precedes(x: Action, y: Action)
  {
    x.pile < y.pile || (x.pile == y.pile && x.count < y.count)
  }

  ghost predicate Ascending(s: seq<Action>)
  {
    forall j, k :: 0 <= j < k < |s| ==> Precedes(s[j], s[k])
  }

  ghost predicate Distinct<T>(s: seq<T>)
  {
    forall j, k :: 0 <= j < k < |s| ==> s[j] != s[k]
  }

  /** `other_player`: 1 becomes 0, anything else becomes 1. */
  function OtherPlayer(p: int): Player
  {
    if p == 1 then 0 else 1
  }

  /** `switch_player`. */
  function SwitchPlayer(g: Game): (r: Game)
    ensures r.piles == g.piles && r.winner == g.winner
    ensures r.player != g.player && OtherPlayer(r.player) == g.player
  {
    g.(player := OtherPlayer(g.player))
  }

  /** `move`: validate in a fixed order, take the objects, switch the player,
      and record the player now to move as winner once every pile is empty. */
  function Move(g: Game, a: Action): (r: Result<Game, MoveError>)
    ensures r == Failure(GameAlreadyWon) <==> g.winner.Some?
    ensures r == Failure(InvalidPile) <==> g.winner.None? && !(0 <= a.pile < |g.piles|)
    ensures r == Failure(InvalidCount) <==>
              g.winner.None? && 0 <= a.pile < |g.piles| && !(1 <= a.count <= g.piles[a.pile])
    ensures r.Success? <==> g.winner.None? && Legal(g.piles, a)
    ensures r.Success? ==>
              && |r.value.piles| == |g.piles|
              && r.value.piles[a.pile] == g.piles[a.pile] - a.count
              && (forall i :: 0 <= i < |g.piles| && i != a.pile ==> r.value.piles[i] == g.piles[i])
              && Sum(r.value.piles) == Sum(g.piles) - a.count
              && r.value.player != g.player
              && r.value.player == OtherPlayer(g.player)
    ensures r.Success? ==>
              && (r.value.winner.Some? <==> Sum(r.value.piles) == 0)
              && (r.value.winner.Some? ==> r.value.winner.value == r.value.player != g.player)
  {
    if g.winner.Some? then Failure(GameAlreadyWon)
    else if a.pile < 0 || a.pile >= |g.piles| then Failure(InvalidPile)
    else if a.count < 1 || a.count > g.piles[a.pile] then Failure(InvalidCount)
    else
      var piles := g.piles[a.pile := g.piles[a.pile] - a.count];
      SumUpdate(g.piles, a.pile, g.piles[a.pile] - a.count);
      AllZeroIffSumZero(piles);
      var switched := SwitchPlayer(g.(piles := piles));
      if AllZero(piles) then Success(switched.(winner := Some(switched.player)))
      else Success(switched)
  }

  // ---------------------------------------------------------------------
  // Lemmas about piles

  lemma {:induction false} SumUpdate(s: seq<nat>, i: nat, v: nat)
    requires i < |s|
    ensures Sum(s[i := v]) + s[i] == Sum(s) + v
    decreases |s|
  {
    if i == 0 {
      assert s[i := v][1..] == s[1..];
    } else {
      assert s[i := v][1..] == s[1..][i - 1 := v];
      SumUpdate(s[1..], i - 1, v);
    }
  }

  lemma {:induction false} AllZeroIffSumZero(s: seq<nat>)
    ensures AllZero(s) <==> Sum(s) == 0
    ensures AllZero(s) <==> NonEmptyCount(s) == 0
    decreases |s|
  {
    if |s| > 0 {
      AllZeroIffSumZero(s[1..]);
      if AllZero(s[1..]) && s[0] == 0 {
        forall i | 0 <= i < |s| ensures s[i] == 0 {
          if i > 0 { assert s[i] == s[1..][i - 1]; }
        }
      }
      if AllZero(s) {
        forall i | 0 <= i < |s[1..]| ensures s[1..][i] == 0 {
          assert s[1..][i] == s[i + 1];
        }
      }
    }
  }

  /** Emptying one pile lowers the number of non-empty piles by at most one. */
  lemma {:induction false} NonEmptyCountUpdate(s: seq<nat>, i: nat, v: nat)
    requires i < |s|
    ensures NonEmptyCount(s[i := v]) + 1 >= NonEmptyCount(s)
    decreases |s|
  {
    if i == 0 {
      assert s[i := v][1..] == s[1..];
    } else {
      assert s[i := v][1..] == s[1..][i - 1 := v];
      NonEmptyCountUpdate(s[1..], i - 1, v);
    }
  }

  // ---------------------------------------------------------------------
  // Lemmas about the legal actions

  lemma {:induction false} EnumerateFromMembers(piles: seq<nat>, i: nat)
    requires i <= |piles|
    ensures forall a :: a in EnumerateFrom(piles, i) <==> i <= a.pile && Legal(piles, a)
    decreases |piles| - i
  {
    if i < |piles| {
      EnumerateFromMembers(piles, i + 1);
      var head := PileActions(i, piles[i]);
      forall a: Action | a.pile == i && 1 <= a.count <= piles[i] ensures a in head {
        assert head[a.count - 1] == a;
      }
    }
  }

  lemma {:induction false} EnumerateFromAscending(piles: seq<nat>, i: nat)
    requires i <= |piles|
    ensures Ascending(EnumerateFrom(piles, i))
    ensures |EnumerateFrom(piles, i)| == Sum(piles[i..])
    decreases |piles| - i
  {
    if i < |piles| {
      EnumerateFromAscending(piles, i + 1);
      EnumerateFromMembers(piles, i + 1);
      assert piles[i..][1..] == piles[i + 1..];
      var head := PileActions(i, piles[i]);
      var tail := EnumerateFrom(piles, i + 1);
      var s := head + tail;
      forall j, k | 0 <= j < k < |s| ensures Precedes(s[j], s[k]) {
        if k < |head| {
        } else if j < |head| {
          assert s[k] == tail[k - |head|];
          assert s[k] in tail;
        } else {
          assert s[j] == tail[j - |head|] && s[k] == tail[k - |head|];
        }
      }
    }
  }

  lemma {:induction false} DistinctCardinality<T>(s: seq<T>)
    requires Distinct(s)
    ensures |set x | x in s| == |s|
    decreases |s|
  {
    if |s| > 0 {
      var rest := s[1..];
      assert Distinct(rest) by {
        forall j, k | 0 <= j < k < |rest| ensures rest[j] != rest[k] {
          assert rest[j] == s[j + 1] && rest[k] == s[k + 1];
        }
      }
      DistinctCardinality(rest);
      assert s[0] !in rest by {
        forall k | 0 <= k < |rest| ensures rest[k] != s[0] {
          assert rest[k] == s[k + 1];
        }
      }
      assert (set x | x in s) == {s[0]} + (set x | x in rest);
    }
  }

  /** The canonical enumeration lists every action of `available_actions`
      exactly once, in ascending (pile, count) order. */
  lemma EnumerateIsAvailableActions(piles: seq<nat>)
    ensures forall a :: a in Enumerate(piles) <==> a in AvailableActions(piles)
    ensures forall a :: a in Enumerate(piles) <==> Legal(piles, a)
    ensures Ascending(Enumerate(piles)) && Distinct(Enumerate(piles))
    ensures |Enumerate(piles)| == Sum(piles)
  {
    EnumerateFromMembers(piles, 0);
    EnumerateFromAscending(piles, 0);
    assert piles[0..] == piles;
    forall a | Legal(piles, a) ensures a in AvailableActions(piles) {
      assert a == Action(a.pile, a.count);
    }
  }

  /** `available_actions(piles)` holds exactly the legal pairs, and there
      are as many of them as there are objects on the table. */
  lemma AvailableActionsExact(piles: seq<nat>)
    ensures forall a :: a in AvailableActions(piles) <==> Legal(piles, a)
    ensures |AvailableActions(piles)| == Sum(piles)
  {
    EnumerateIsAvailableActions(piles);
    var e := Enumerate(piles);
    DistinctCardinality(e);
    assert (set x | x in e) == AvailableActions(piles);
  }

  /** A position has a legal action exactly when some object is left. */
  lemma HasActionIffObjectsLeft(piles: seq<nat>)
    ensures |Enumerate(piles)| > 0 <==> Sum(piles) > 0
    ensures Sum(piles) > 0 <==> !AllZero(piles)
  {
    EnumerateIsAvailableActions(piles);
    AllZeroIffSumZero(piles);
  }

  // ---------------------------------------------------------------------
  // Lemmas about players and moves

  lemma OtherPlayerInvolution(p: Player)
    ensures OtherPlayer(p) != p
    ensures OtherPlayer(OtherPlayer(p)) == p
  {
  }

  /** Every action that `available_actions` offers is accepted by `move`
      while no winner is recorded, and the pile total drops by its count. */
  lemma MoveAcceptsAvailableActions(g: Game, a: Action)
    requires g.winner.None? && a in AvailableActions(g.piles)
    ensures Move(g, a).Success?
    ensures Sum(Move(g, a).value.piles) < Sum(g.piles)
  {
    AvailableActionsExact(g.piles);
  }

  /** A fresh game accepts exactly the legal actions of its piles. */
  lemma NewGameAcceptsLegal(initial: seq<nat>, a: Action)
    ensures NewGame(initial).player == 0 && NewGame(initial).winner == None
    ensures Move(NewGame(initial), a).Success? <==> a in AvailableActions(initial)
  {
    AvailableActionsExact(initial);
  }

  /** Taking all seven objects of the last pile at the start. */
  lemma FirstMoveExample()
    ensures Move(NewGame(DefaultPiles), Action(3, 7)) == Success(Game([1, 3, 5, 0], 1, None))
  {
    var piles: seq<nat> := DefaultPiles[3 := 0];
    assert piles == [1, 3, 5, 0];
    assert !AllZero(piles) by { assert piles[0] != 0; }
  }

  /** Emptying the last pile hands the win to the other player. */
  lemma LastObjectExample(p: Player)
    ensures Move(Game([1, 0, 0, 0], p, None), Action(0, 1))
              == Success(Game([0, 0, 0, 0], OtherPlayer(p), Some(OtherPlayer(p))))
  {
    var piles: seq<nat> := [1, 0, 0, 0][0 := 0];
    assert piles == [0, 0, 0, 0];
    assert AllZero(piles);
  }
}
