/**
 The tabular Q-learning agent (class `NimAI` of nim.py): a sparse table from
 (pile configuration, action) to a value, the update rule, the best-future
 estimate and the epsilon-greedy choice of an action.
 */
module NimAgent {
  import opened Results
  import opened NimGame

  /** A table key: the pile configuration as an immutable sequence (Python's
      `tuple(state)`) and an action. Pile order is part of the key. */
  type Key = (seq<nat>, Action)

  /** The sparse value table; an absent key stands for value 0. */
  type QTable = map<Key, real>

  /** The agent: its table, the learning rate and the exploration rate. */
  datatype Agent = Agent(q: QTable, alpha: real, epsilon: real)

  const DefaultAlpha: real := 0.5
  const DefaultEpsilon: real := 0.1

  /** A draw from the random source consumed by one call of `choose_action`:
      `roll` stands for `random.randint(1, 10)`, and `pick` selects the
      action `random.choice` returns, as an index reduced modulo the number
      of legal actions. */
  type Roll = r: int | 1 <= r <= 10 witness 1
  datatype Draw = Draw(roll: Roll, pick: nat)

  /** `NimAI(alpha, epsilon)`: an empty table. */
  function NewAgent(alpha: real, epsilon: real): Agent
  {
    Agent(map[], alpha, epsilon)
  }

  /** `get_q_value`: the stored value, or 0 when the key is absent. */
  function GetQ(q: QTable, state: seq<nat>, action: Action): (v: real)
    ensures (state, action) in q ==> v == q[(state, action)]
    ensures (state, action) !in q ==> v == 0.0
  {
    if (state, action) in q then q[(state, action)] else 0.0
  }

  /** The value `update_q_value` stores: move `prior` towards the target
      `reward + future` by the fraction `alpha`. */
  function Blend(prior: real, alpha: real, reward: real, future: real): real
  {
    prior + alpha * (reward + future - prior)
  }

  /** `update_q_value`: overwrite the single entry for (state, action). */
  function UpdateQ(ai: Agent, state: seq<nat>, action: Action, prior: real, reward: real, future: real): (r: Agent)
    ensures r.alpha == ai.alpha && r.epsilon == ai.epsilon
    ensures r.q.Keys == ai.q.Keys + {(state, action)}
    ensures GetQ(r.q, state, action) == Blend(prior, ai.alpha, reward, future)
    ensures forall k :: k in ai.q && k != (state, action) ==> r.q[k] == ai.q[k]
  {
    ai.(q := ai.q[(state, action) := Blend(prior, ai.alpha, reward, future)])
  }

  /** The `for action in actions` loop shared by `best_future_reward` and
      the greedy branch of `choose_action`: starting from the running best
      `best` and its action `choice`, visit `acts` in order and take an
      action whenever it has a stored value strictly above the running best.
      Actions without a stored value are skipped (the bare `except: continue`). */
  function Scan(q: QTable, state: seq<nat>, acts: seq<Action>, best: real, choice: Option<Action>)
    : (r: (real, Option<Action>))
    ensures r.0 >= best
    ensures forall a :: a in acts && (state, a) in q ==> q[(state, a)] <= r.0
    ensures || (r.0 == best && r.1 == choice)
            || (&& r.0 > best && r.1.Some? && r.1.value in acts
                && (state, r.1.value) in q && q[(state, r.1.value)] == r.0)
    ensures r.0 > best ==> exists i :: 0 <= i < |acts| && acts[i] == r.1.value && FirstAtLeast(q, state, acts, i, r.0)
    decreases |acts|
  {
    if |acts| == 0 then (best, choice)
    else
      var k := (state, acts[0]);
      var tail := acts[1..];
      assert forall a :: a in acts ==> a == acts[0] || a in tail;
      if k in q && q[k] > best then
        var r := Scan(q, state, tail, q[k], Some(acts[0]));
        assert exists i :: 0 <= i < |acts| && acts[i] == r.1.value && FirstAtLeast(q, state, acts, i, r.0) by {
          if r.0 > q[k] {
            var i :| 0 <= i < |tail| && tail[i] == r.1.value && FirstAtLeast(q, state, tail, i, r.0);
            assert acts[i + 1] == r.1.value && FirstAtLeast(q, state, acts, i + 1, r.0);
          } else {
            assert acts[0] == r.1.value && FirstAtLeast(q, state, acts, 0, r.0);
          }
        }
        r
      else
        var r := Scan(q, state, tail, best, choice);
        assert r.1.Some? && r.1.value in tail ==> r.1.value in acts;
        assert r.0 > best ==>
                 exists i :: 0 <= i < |acts| && acts[i] == r.1.value && FirstAtLeast(q, state, acts, i, r.0) by {
          if r.0 > best {
            var i :| 0 <= i < |tail| && tail[i] == r.1.value && FirstAtLeast(q, state, tail, i, r.0);
            assert acts[i + 1] == r.1.value && FirstAtLeast(q, state, acts, i + 1, r.0);
          }
        }
        r
  }

  /** Every action before position `i` of `acts` has no stored value or a
      stored value strictly below `v`: position `i` is the first to reach `v`. */
  ghost predicate FirstAtLeast(q: QTable, state: seq<nat>, acts: seq<Action>, i: int, v: real)
    requires 0 <= i <= |acts|
  {
    forall j :: 0 <= j < i && (state, acts[j]) in q ==> q[(state, acts[j])] < v
  }

  /** `best_future_reward`: scan the legal actions from -10; a best stored
      value below 0 (or no stored value at all) yields 0, otherwise the best
      stored value is returned. So the result is the maximum of 0 and the
      stored values of the legal actions. */
  function BestFutureReward(ai: Agent, state: seq<nat>): (r: real)
    ensures r >= 0.0
    ensures forall a :: Legal(state, a) && (state, a) in ai.q ==> ai.q[(state, a)] <= r
    ensures r > 0.0 ==> exists a :: Legal(state, a) && (state, a) in ai.q && ai.q[(state, a)] == r
  {
    EnumerateIsAvailableActions(state);
    var scanned := Scan(ai.q, state, Enumerate(state), -10.0, None);
    if scanned.0 < 0.0 then 0.0
    else ai.q[(state, scanned.1.value)]
  }

  /** Whether `choose_action` takes its greedy branch: exploration is off,
      or the roll is at most `10 - epsilon * 10`. */
  predicate Greedy(ai: Agent, explore: bool, roll: Roll)
  {
    !explore || roll as real <= 10.0 - ai.epsilon * 10.0
  }

  /** `choose_action(state, epsilon=explore)`. `None` stands for the
      exception Python raises when the state has no legal action. The greedy
      branch starts from the first enumerated action and running best -10 and
      keeps the first action with the highest stored value above -10;
      otherwise an action is picked at random. */
  function ChooseAction(ai: Agent, state: seq<nat>, explore: bool, d: Draw): (r: Option<Action>)
    ensures r.Some? <==> Sum(state) > 0
    ensures r.Some? ==> Legal(state, r.value) && r.value in AvailableActions(state)
    ensures r.Some? && Greedy(ai, explore, d.roll) ==>
              forall a :: Legal(state, a) && (state, a) in ai.q && ai.q[(state, a)] > -10.0 ==>
                (state, r.value) in ai.q && ai.q[(state, a)] <= ai.q[(state, r.value)]
    ensures r.Some? && Greedy(ai, explore, d.roll) &&
            (forall a :: Legal(state, a) && (state, a) in ai.q ==> ai.q[(state, a)] <= -10.0) ==>
              |Enumerate(state)| > 0 && r.value == Enumerate(state)[0]
    ensures r.Some? && Greedy(ai, explore, d.roll) ==>
              forall a :: Legal(state, a) && Precedes(a, r.value) && (state, a) in ai.q ==>
                ai.q[(state, a)] < GetQ(ai.q, state, r.value) || ai.q[(state, a)] <= -10.0
  {
    EnumerateIsAvailableActions(state);
    var acts := Enumerate(state);
    if |acts| == 0 then None
    else if Greedy(ai, explore, d.roll) then
      var scanned := Scan(ai.q, state, acts, -10.0, Some(acts[0]));
      assert scanned.0 > -10.0 ==>
               forall a :: Legal(state, a) && Precedes(a, scanned.1.value) && (state, a) in ai.q ==>
                 ai.q[(state, a)] < scanned.0 by {
        if scanned.0 > -10.0 {
          var i :| 0 <= i < |acts| && acts[i] == scanned.1.value && FirstAtLeast(ai.q, state, acts, i, scanned.0);
          FirstInAscending(acts, i);
        }
      }
      scanned.1
    else
      Some(acts[d.pick % |acts|])
  }

  /** `update`: read the old value, estimate the best future reward from
      the new state, and store the blended value at (old_state, action). */
  function Update(ai: Agent, oldState: seq<nat>, action: Action, newState: seq<nat>, reward: real): (r: Agent)
    ensures r.alpha == ai.alpha && r.epsilon == ai.epsilon
    ensures r.q.Keys == ai.q.Keys + {(oldState, action)}
    ensures forall k :: k in ai.q && k != (oldState, action) ==> r.q[k] == ai.q[k]
  {
    var prior := GetQ(ai.q, oldState, action);
    UpdateQ(ai, oldState, action, prior, reward, BestFutureReward(ai, newState))
  }

  // ---------------------------------------------------------------------
  // Lemmas

  /** In an ascending sequence, the actions preceding `s[i]` sit before position `i`. */
  lemma FirstInAscending(s: seq<Action>, i: int)
    requires Ascending(s) && 0 <= i < |s|
    ensures forall a :: a in s && Precedes(a, s[i]) ==> exists j :: 0 <= j < i && s[j] == a
  {
    forall a | a in s && Precedes(a, s[i]) ensures exists j :: 0 <= j < i && s[j] == a {
      var j :| 0 <= j < |s| && s[j] == a;
      assert j < i;
    }
  }

  /** A new agent reads 0 for every key. */
  lemma EmptyTableReadsZero(alpha: real, epsilon: real, state: seq<nat>, action: Action)
    ensures GetQ(NewAgent(alpha, epsilon).q, state, action) == 0.0
    ensures BestFutureReward(NewAgent(alpha, epsilon), state) == 0.0
  {
  }

  /** Reading back after `update`: the updated key holds the blend of its
      prior value and `reward + best_future_reward(new_state)`; every other
      key reads as before. */
  lemma ReadAfterUpdate(ai: Agent, oldState: seq<nat>, action: Action, newState: seq<nat>, reward: real,
                        s: seq<nat>, a: Action)
    ensures GetQ(Update(ai, oldState, action, newState, reward).q, s, a)
            == if (s, a) == (oldState, action)
               then Blend(GetQ(ai.q, oldState, action), ai.alpha, reward, BestFutureReward(ai, newState))
               else GetQ(ai.q, s, a)
  {
  }

  /** With a learning rate between 0 and 1 the stored value lies between the
      prior value and the target, and its distance to the target shrinks by
      the factor `1 - alpha`. */
  lemma BlendMovesTowardTarget(prior: real, alpha: real, reward: real, future: real)
    requires 0.0 <= alpha <= 1.0
    ensures var v := Blend(prior, alpha, reward, future);
            var target := reward + future;
            && (prior <= target ==> prior <= v <= target)
            && (target <= prior ==> target <= v <= prior)
            && v - target == (1.0 - alpha) * (prior - target)
  {
    var target := reward + future;
    var v := Blend(prior, alpha, reward, future);
    var d := target - prior;
    assert v - prior == alpha * d;
    assert target - v == (1.0 - alpha) * d;
    if d >= 0.0 {
      ProductNonNegative(alpha, d);
      ProductNonNegative(1.0 - alpha, d);
    } else {
      ProductNonNegative(alpha, -d);
      ProductNonNegative(1.0 - alpha, -d);
    }
  }

  lemma ProductNonNegative(x: real, y: real)
    requires x >= 0.0 && y >= 0.0
    ensures x * y >= 0.0 && x * -y == -(x * y)
  {
  }

  /** A terminal position has no legal action, so its best future reward is 0. */
  lemma BestFutureOfEmptyPiles(ai: Agent, state: seq<nat>)
    requires AllZero(state)
    ensures BestFutureReward(ai, state) == 0.0
  {
    AllZeroIffSumZero(state);
    EnumerateIsAvailableActions(state);
  }
}
