# Nim with a Q-learning agent, modelled in Dafny

This project models `nim.py`. That file holds a Nim game engine (`Nim`), a tabular Q-learning agent (`NimAI`), and the self-play loop `train`. The model is written in Dafny and proves properties of it.

- `results.dfy` (module `Results`): `Option` and `Result`. They stand in for Python's `None` and for the exceptions the code raises.
- `game.dfy` (module `NimGame`): the engine.
  - A `Game` holds the piles (`seq<nat>`), the player to move (0 or 1) and an optional winner.
  - `AvailableActions` is the set of legal `(pile, count)` pairs.
  - `Enumerate` lists that set in a fixed order: ascending pile, then ascending count. Python's set iteration order is unspecified, so the model fixes this one.
  - `Move` checks three errors in order: `GameAlreadyWon`, `InvalidPile`, `InvalidCount`. Otherwise it takes the objects and switches the player. When every pile is empty, it records the player now to move as the winner.
- `agent.dfy` (module `NimAgent`): the agent.
  - The value table is `map<(seq<nat>, Action), real>`. A missing key reads as 0.
  - It models `get_q_value`, `update_q_value`, `update`, `best_future_reward` and `choose_action`.
  - The `for action in actions` loop shared by the last two is one function, `Scan`.
- `training.dfy` (module `Training`): one game of self-play as a state machine. `Turn` is one loop iteration, `PlayOut` is one game, and `TrainFrom`/`Train` run `n` games.
  - The per-player "last move" dictionary becomes the two record fields of an `Episode`.
  - The `-1`/`+1` terminal rewards and the `0` bridging reward are issued as in the source.

Randomness is an injected value. One call of `choose_action` consumes one `Draw(roll, pick)`:
- `roll` (1..10) stands for `random.randint(1, 10)`. The greedy branch is taken when exploration is off or `roll <= 10 - epsilon*10`.
- `pick` stands for `random.choice`. It selects `Enumerate(state)[pick % n]`, where `n` is the number of legal actions.

Training takes a random source `rng: nat -> Draw`, read at a running draw counter. Q-values, `alpha` and `epsilon` are exact `real`s.

Two quirks of the code are kept as written:
- `best_future_reward` is not the plain maximum of the stored values. It starts at -10, skips actions with no stored value, and returns 0 when the best stored value is negative. So it computes the larger of 0 and the best stored value over the legal actions.
- In the greedy branch of `choose_action`, actions with no stored value are skipped rather than read as 0. A stored value between -10 and 0 therefore beats an action with no stored value. The fallback to the first enumerated action happens when no stored value exceeds -10, not only when nothing is stored.

At nim.py:173-178 the opponent's record is used without a check. The model turns that case into the error `MissingRecord`. `SinglePileHazard` shows the case is reachable: with a single non-empty pile, the first move can empty it. `TrainOutcome` proves it never happens from the default piles `[1, 3, 5, 7]`. Any start with at least two non-empty piles is safe, because one move empties at most one pile.

## Model

| member | source | states |
|---|---|---|
| NimGame.AvailableActionsExact | nim.py:14-21 | `available_actions(piles)` contains exactly the pairs (i, j) with 0 <= i < len(piles) and 1 <= j <= piles[i]; its size is the sum of the piles |
| NimGame.EnumerateIsAvailableActions | nim.py:14-21 | the fixed iteration order lists every available action exactly once, ascending by pile then count, and its length is the pile total |
| NimGame.HasActionIffObjectsLeft | nim.py:15-21 | there is a legal action exactly when some object is left, that is when not every pile is zero |
| NimGame.OtherPlayerInvolution | nim.py:23-26 | `other_player` swaps 0 and 1: it never returns its argument and applying it twice gives the argument back |
| NimGame.SwitchPlayer | nim.py:28-30 | `switch_player` changes the player to move, to the player whose other is the old one, and leaves piles and winner alone |
| NimGame.Move | nim.py:32-50 | errors in fixed order (won, then pile index out of range, then count outside [1, pile]); success exactly for a legal action with no winner; only the chosen pile changes, by `count`, so the total drops by `count`; the player switches; a winner is recorded iff all piles are zero and it is the player now to move, never the mover |
| NimGame.MoveAcceptsAvailableActions | nim.py:32-46 | every action of `available_actions` is accepted while no winner is set, and strictly lowers the pile total |
| NimGame.NewGameAcceptsLegal | nim.py:8-12 | a fresh game has player 0 and no winner, and accepts exactly the actions available on its piles |
| NimGame.FirstMoveExample | nim.py:44-50 | from [1, 3, 5, 7] the move (3, 7) gives [1, 3, 5, 0], player 1, no winner |
| NimGame.LastObjectExample | nim.py:44-50 | taking the last object from [1, 0, 0, 0] leaves all piles empty and makes the other player the winner |
| NimAgent.EmptyTableReadsZero | nim.py:55-74 | a new agent's table reads 0 for every (state, action) and its best future reward is 0 |
| NimAgent.GetQ | nim.py:67-74 | `get_q_value` returns the stored value for (tuple(state), action) and 0 when the key is absent; pile order is part of the key |
| NimAgent.UpdateQ | nim.py:76-79 | `update_q_value` writes exactly the key (tuple(state), action), with `old + alpha*(reward + future - old)`; every other entry and the rates are unchanged |
| NimAgent.Update | nim.py:61-65 | `update` adds exactly the key (old_state, action) to the table and leaves every other entry and the rates unchanged |
| NimAgent.ReadAfterUpdate | nim.py:61-79 | after `update`, `get_q_value` of the updated key is the blend of its old value with reward + best_future_reward(new_state); any other key reads as before |
| NimAgent.BlendMovesTowardTarget | nim.py:79 | with 0 <= alpha <= 1 the stored value lies between the old value and the target reward + future, and its distance to the target shrinks by the factor 1 - alpha |
| NimAgent.Scan | nim.py:89-97 | the scan loop keeps a running best that never drops, ends at least as high as every stored value it visits, and, when it moved, names a visited action whose stored value equals the best and is the first such action |
| NimAgent.BestFutureReward | nim.py:83-103 | the result is never negative, is at least every stored value of a legal action, and when positive is the stored value of some legal action: the larger of 0 and the best stored legal value, 0 with no stored value |
| NimAgent.BestFutureOfEmptyPiles | nim.py:83-100 | a position with every pile empty has no legal action and a best future reward of 0 |
| NimAgent.ChooseAction | nim.py:106-134 | an action is returned exactly when one is legal, and it is legal; in the greedy branch it has a stored value at least every stored legal value above -10, no earlier action in the enumeration reaches its value, and it is the first enumerated action when no stored value exceeds -10 |
| Training.Turn | nim.py:156-188 | choosing on a position without objects is the only `NoLegalAction`; a successful turn plays exactly `move` of the chosen action on the game, records the mover's (state, chosen action), leaves the other player's record alone, switches the player, lowers the pile total, keeps the rates, only adds table keys, and after a game-ending move the mover's key is in the table |
| Training.PlayOut | nim.py:156-179 | a finished game consumes at least one draw, keeps the rates, only adds table keys and leaves a non-empty table |
| Training.TrainFrom | nim.py:144-188 | training games keep the rates, only add table keys, and at least one game leaves a non-empty table |
| Training.Train | nim.py:137-193 | a successful `train(n)` returns an agent with alpha 0.5 and epsilon 0.1 whose table is empty exactly when n = 0 (games are played from the default piles [1, 3, 5, 7]) |
| Training.TurnFromLive | nim.py:158-188 | from a position satisfying the loop invariant, a turn never raises, and an undecided result satisfies the invariant again |
| Training.PlayOutFromLive | nim.py:155-179 | a game started in a position satisfying the loop invariant ends without raising |
| Training.StartIsLive | nim.py:147-153 | a fresh game on piles with at least two non-empty piles, with empty records, satisfies the loop invariant |
| Training.TrainFromSucceeds | nim.py:144-188 | any number of training games from piles with two or more non-empty piles never raises |
| Training.TrainOutcome | nim.py:137-193 | `train(n)` never raises, keeps alpha 0.5 and epsilon 0.1, and leaves the table empty exactly when n = 0 |
| Training.TerminalTurnRewards | nim.py:171-179 | a game-ending move blends the mover's (state, action) towards -1 and the opponent's last (state, action) towards +1 (future reward 0). The two keys differ and nothing else changes |
| Training.NonTerminalTurnRewards | nim.py:181-188 | any other move blends the now-current player's last (state, action), if any, towards 0 + best_future_reward(new state), and otherwise leaves the table unchanged |
| Training.SinglePileHazard | nim.py:171-178 | from a single pile of 3, an exploring first move that takes all 3 ends the game with the opponent's record still empty, so the unguarded read fails |

## Left out

- `play` (nim.py:196-249): console input, printing, `time.sleep` and human turn-taking are presentation code around `choose_action` and `move`.
- The `print` calls in `train` (nim.py:146, 190).
- Python's `random` module is replaced by the injected `Draw` values and the `rng` source.
- NimAgent.ChooseAction: the random branch is stated only as returning a legal action. The uniform distribution of `random.choice` is not modelled. The choice is the enumerated action at `pick` modulo the number of legal actions.
- Floating-point rounding of Q-values and of `epsilon*10` is not modelled: values are exact reals.
- The iteration order of Python's set in `available_actions` is unspecified. The model fixes ascending pile, then ascending count. The greedy tie-break ("first maximal action") is relative to that order.
- Exceptions are modelled as `Failure` values, not as control flow. This covers the three `move` errors, `StopIteration`/`IndexError` on a position without legal actions, and the `TypeError` from the unguarded record at nim.py:173-178.
- The integer-width and type checks Python would apply to arbitrary objects passed as actions are not modelled. Actions are pairs of integers and piles are non-negative integers.
