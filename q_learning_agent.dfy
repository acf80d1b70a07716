/** The tabular Q-learning agent (q_learning_agent.py). The table of shape
    stateSize + actionSize is stored flat, in row-major order. */
module QLearning {

  // ------------------------------------------------------- row-major indexing

  /** The number of cells of a table with the given dimension sizes */
  function Prod(dims: seq<nat>): nat
    decreases |dims|
  {
    if |dims| == 0 then 1 else Prod(dims[..|dims| - 1]) * dims[|dims| - 1]
  }

  /** A multi-index with one in-range component per dimension */
  predicate InRange(dims: seq<nat>, idx: seq<int>) {
    |idx| == |dims| && forall i :: 0 <= i < |dims| ==> 0 <= idx[i] < dims[i]
  }

  /** The row-major position of a multi-index: the last dimension varies fastest */
  function Flat(dims: seq<nat>, idx: seq<int>): int
    requires |idx| == |dims|
    decreases |dims|
  {
    if |dims| == 0 then 0
    else Flat(dims[..|dims| - 1], idx[..|idx| - 1]) * dims[|dims| - 1] + idx[|idx| - 1]
  }

  /** The multi-index at a row-major position (numpy's unravel_index) */
  function Unravel(dims: seq<nat>, k: int): (idx: seq<int>)
    ensures |idx| == |dims|
    decreases |dims|
  {
    if |dims| == 0 then []
    else
      var d := dims[|dims| - 1];
      if d == 0 then Unravel(dims[..|dims| - 1], 0) + [0]
      else Unravel(dims[..|dims| - 1], k / d) + [k % d]
  }

  lemma MulLe(a: int, b: int, c: int)
    requires a <= b && c >= 0
    ensures a * c <= b * c
  {
  }

  /** Euclidean division of q * d + r by d gives back q and r */
  lemma DivModOf(q: int, r: int, d: int)
    requires 0 <= r < d
    ensures (q * d + r) / d == q && (q * d + r) % d == r
  {
    var k := q * d + r;
    var q' := k / d;
    var r' := k % d;
    assert q' * d + r' == q * d + r;
    if q' > q {
      MulLe(q + 1, q', d);
      assert false;
    } else if q' < q {
      MulLe(q' + 1, q, d);
      assert false;
    }
  }

  lemma {:induction false} FlatInRange(dims: seq<nat>, idx: seq<int>)
    requires InRange(dims, idx)
    ensures 0 <= Flat(dims, idx) < Prod(dims)
    decreases |dims|
  {
    if |dims| > 0 {
      var n := |dims| - 1;
      var front, d := dims[..n], dims[n];
      assert InRange(front, idx[..n]);
      FlatInRange(front, idx[..n]);
      var f := Flat(front, idx[..n]);
      MulLe(f + 1, Prod(front), d);
      MulLe(0, f, d);
    }
  }

  /** Unravelling a row-major position gives back the multi-index */
  lemma {:induction false} UnravelFlat(dims: seq<nat>, idx: seq<int>)
    requires InRange(dims, idx)
    ensures Unravel(dims, Flat(dims, idx)) == idx
    decreases |dims|
  {
    if |dims| > 0 {
      var n := |dims| - 1;
      var front, d := dims[..n], dims[n];
      assert InRange(front, idx[..n]);
      UnravelFlat(front, idx[..n]);
      var f := Flat(front, idx[..n]);
      var k := Flat(dims, idx);
      assert k == f * d + idx[n];
      DivModOf(f, idx[n], d);
      assert Unravel(dims, k) == Unravel(front, f) + [idx[n]];
      assert idx == idx[..n] + [idx[n]];
    }
  }

  /** Dividing a position below p * d by d gives a quotient below p and the
      remainder that rebuilds the position */
  lemma DivBounds(k: int, d: int, p: int)
    requires d > 0 && 0 <= k < p * d
    ensures 0 <= k / d < p && 0 <= k % d < d
    ensures k == (k / d) * d + k % d
  {
    var q := k / d;
    if q < 0 {
      MulLe(q, -1, d);
      assert false;
    }
    if q >= p {
      MulLe(p, q, d);
      assert false;
    }
  }

  /** Every position below the table size is the row-major position of an in-range multi-index */
  lemma {:induction false} FlatUnravel(dims: seq<nat>, k: int)
    requires 0 <= k < Prod(dims)
    ensures InRange(dims, Unravel(dims, k))
    ensures Flat(dims, Unravel(dims, k)) == k
    decreases |dims|
  {
    if |dims| > 0 {
      var n := |dims| - 1;
      var front, d := dims[..n], dims[n];
      assert d > 0;
      var rest := k / d;
      DivBounds(k, d, Prod(front));
      FlatUnravel(front, rest);
      var u := Unravel(front, rest);
      var idx := Unravel(dims, k);
      assert idx == u + [k % d];
      assert idx[..n] == u && idx[n] == k % d;
      assert InRange(dims, idx) by {
        assert forall i :: 0 <= i < n ==> idx[i] == u[i];
      }
      calc {
        Flat(dims, idx);
        Flat(front, idx[..n]) * d + idx[n];
        Flat(front, u) * d + k % d;
        rest * d + k % d;
      }
    }
  }

  /** Distinct in-range multi-indices have distinct row-major positions */
  lemma FlatInjective(dims: seq<nat>, x: seq<int>, y: seq<int>)
    requires InRange(dims, x) && InRange(dims, y)
    requires Flat(dims, x) == Flat(dims, y)
    ensures x == y
  {
    UnravelFlat(dims, x);
    UnravelFlat(dims, y);
  }

  lemma {:induction false} ProdConcat(a: seq<nat>, b: seq<nat>)
    ensures Prod(a + b) == Prod(a) * Prod(b)
    decreases |b|
  {
    if |b| > 0 {
      var n := |b| - 1;
      assert (a + b)[..|a + b| - 1] == a + b[..n];
      ProdConcat(a, b[..n]);
    } else {
      assert a + b == a;
    }
  }

  /** The position in a table of shape a + b of the concatenated index x + y
      is x's position scaled by the size of b, plus y's position */
  lemma Distribute(f: int, p: int, g: int, d: int)
    ensures (f * p + g) * d == f * (p * d) + g * d
  {
  }

  lemma {:induction false} FlatConcat(a: seq<nat>, b: seq<nat>, x: seq<int>, y: seq<int>)
    requires |x| == |a| && |y| == |b|
    ensures Flat(a + b, x + y) == Flat(a, x) * Prod(b) + Flat(b, y)
    decreases |b|
  {
    if |b| > 0 {
      var n := |b| - 1;
      assert (a + b)[..|a + b| - 1] == a + b[..n];
      assert (x + y)[..|x + y| - 1] == x + y[..n];
      FlatConcat(a, b[..n], x, y[..n]);
      var f, g, d := Flat(a, x), Flat(b[..n], y[..n]), b[n];
      assert Flat(a + b, x + y) == (f * Prod(b[..n]) + g) * d + y[n];
      Distribute(f, Prod(b[..n]), g, d);
    } else {
      assert a + b == a && x + y == x;
    }
  }

  // ---------------------------------------------------------- the value table

  /** The flat offset of cell (s, a): the state picks a row of Prod(actionSize) cells */
  function Offset(stateSize: seq<nat>, actionSize: seq<nat>, s: seq<int>, a: seq<int>): int
    requires |s| == |stateSize| && |a| == |actionSize|
  {
    Flat(stateSize, s) * Prod(actionSize) + Flat(actionSize, a)
  }

  /** The offset is the row-major position of (s, a) in the table of shape stateSize + actionSize */
  lemma OffsetIsRowMajor(stateSize: seq<nat>, actionSize: seq<nat>, s: seq<int>, a: seq<int>)
    requires |s| == |stateSize| && |a| == |actionSize|
    ensures Offset(stateSize, actionSize, s, a) == Flat(stateSize + actionSize, s + a)
    ensures Prod(stateSize + actionSize) == Prod(stateSize) * Prod(actionSize)
  {
    FlatConcat(stateSize, actionSize, s, a);
    ProdConcat(stateSize, actionSize);
  }

  lemma RowBounds(stateSize: seq<nat>, actionSize: seq<nat>, s: seq<int>)
    requires InRange(stateSize, s)
    ensures 0 <= Flat(stateSize, s) * Prod(actionSize)
    ensures Flat(stateSize, s) * Prod(actionSize) + Prod(actionSize) <= Prod(stateSize) * Prod(actionSize)
  {
    FlatInRange(stateSize, s);
    MulLe(0, Flat(stateSize, s), Prod(actionSize));
    MulLe(Flat(stateSize, s) + 1, Prod(stateSize), Prod(actionSize));
  }

  /** Cells of in-range (state, action) pairs lie inside the table */
  lemma OffsetInBounds(stateSize: seq<nat>, actionSize: seq<nat>, s: seq<int>, a: seq<int>)
    requires InRange(stateSize, s) && InRange(actionSize, a)
    ensures 0 <= Offset(stateSize, actionSize, s, a) < Prod(stateSize) * Prod(actionSize)
  {
    RowBounds(stateSize, actionSize, s);
    FlatInRange(actionSize, a);
  }

  /** In-range (state, action) pairs address the same cell exactly when they are equal */
  lemma OffsetInjective(stateSize: seq<nat>, actionSize: seq<nat>,
                        s: seq<int>, a: seq<int>, s': seq<int>, a': seq<int>)
    requires InRange(stateSize, s) && InRange(actionSize, a)
    requires InRange(stateSize, s') && InRange(actionSize, a')
    ensures Offset(stateSize, actionSize, s, a) == Offset(stateSize, actionSize, s', a')
            <==> s == s' && a == a'
  {
    if Offset(stateSize, actionSize, s, a) == Offset(stateSize, actionSize, s', a') {
      OffsetIsRowMajor(stateSize, actionSize, s, a);
      OffsetIsRowMajor(stateSize, actionSize, s', a');
      assert InRange(stateSize + actionSize, s + a);
      assert InRange(stateSize + actionSize, s' + a');
      FlatInjective(stateSize + actionSize, s + a, s' + a');
      assert s == (s + a)[..|s|] && s' == (s' + a')[..|s'|];
      assert a == (s + a)[|s|..] && a' == (s' + a')[|s'|..];
    }
  }

  /** The value of cell (s, a) in the flat table q */
  function Q(stateSize: seq<nat>, actionSize: seq<nat>, q: seq<real>, s: seq<int>, a: seq<int>): real
    requires |q| == Prod(stateSize) * Prod(actionSize)
    requires InRange(stateSize, s) && InRange(actionSize, a)
  {
    OffsetInBounds(stateSize, actionSize, s, a);
    q[Offset(stateSize, actionSize, s, a)]
  }

  /** The row of a state: the values of all its actions, in row-major action order */
  function Row(stateSize: seq<nat>, actionSize: seq<nat>, q: seq<real>, s: seq<int>): (row: seq<real>)
    requires |q| == Prod(stateSize) * Prod(actionSize)
    requires InRange(stateSize, s)
    ensures |row| == Prod(actionSize)
  {
    RowBounds(stateSize, actionSize, s);
    var base := Flat(stateSize, s) * Prod(actionSize);
    q[base .. base + Prod(actionSize)]
  }

  lemma RowEntry(stateSize: seq<nat>, actionSize: seq<nat>, q: seq<real>, s: seq<int>, a: seq<int>)
    requires |q| == Prod(stateSize) * Prod(actionSize)
    requires InRange(stateSize, s) && InRange(actionSize, a)
    ensures 0 <= Flat(actionSize, a) < Prod(actionSize)
    ensures Row(stateSize, actionSize, q, s)[Flat(actionSize, a)] == Q(stateSize, actionSize, q, s, a)
  {
    FlatInRange(actionSize, a);
    RowBounds(stateSize, actionSize, s);
  }

  /** The first position of a maximum (numpy's argmax) */
  function ArgMax(row: seq<real>): (k: nat)
    requires |row| > 0
    ensures k < |row|
    ensures forall j :: 0 <= j < |row| ==> row[j] <= row[k]
    ensures forall j :: 0 <= j < k ==> row[j] < row[k]
    decreases |row|
  {
    if |row| == 1 then 0
    else
      var k := ArgMax(row[..|row| - 1]);
      if row[|row| - 1] > row[k] then |row| - 1 else k
  }

  /** The largest value of a non-empty row (numpy's max) */
  function MaxOf(row: seq<real>): real
    requires |row| > 0
  {
    row[ArgMax(row)]
  }

  /** The greedy action of a state: the first maximum of its row, unravelled */
  function GreedyAction(stateSize: seq<nat>, actionSize: seq<nat>, q: seq<real>, s: seq<int>): seq<int>
    requires |q| == Prod(stateSize) * Prod(actionSize) && Prod(actionSize) > 0
    requires InRange(stateSize, s)
  {
    Unravel(actionSize, ArgMax(Row(stateSize, actionSize, q, s)))
  }

  /** The greedy action is in range, no action of the state is worth more, and
      every action worth as much comes no earlier in row-major order. */
  lemma GreedyActionIsFirstBest(stateSize: seq<nat>, actionSize: seq<nat>, q: seq<real>, s: seq<int>)
    requires |q| == Prod(stateSize) * Prod(actionSize) && Prod(actionSize) > 0
    requires InRange(stateSize, s)
    ensures InRange(actionSize, GreedyAction(stateSize, actionSize, q, s))
    ensures Q(stateSize, actionSize, q, s, GreedyAction(stateSize, actionSize, q, s))
         == MaxOf(Row(stateSize, actionSize, q, s))
    ensures forall b :: InRange(actionSize, b) ==>
              Q(stateSize, actionSize, q, s, b)
              <= Q(stateSize, actionSize, q, s, GreedyAction(stateSize, actionSize, q, s))
    ensures forall b :: InRange(actionSize, b) &&
              Q(stateSize, actionSize, q, s, b)
              == Q(stateSize, actionSize, q, s, GreedyAction(stateSize, actionSize, q, s))
              ==> Flat(actionSize, GreedyAction(stateSize, actionSize, q, s)) <= Flat(actionSize, b)
  {
    var row := Row(stateSize, actionSize, q, s);
    var k := ArgMax(row);
    var g := GreedyAction(stateSize, actionSize, q, s);
    FlatUnravel(actionSize, k);
    RowEntry(stateSize, actionSize, q, s, g);
    forall b | InRange(actionSize, b)
      ensures Q(stateSize, actionSize, q, s, b) <= Q(stateSize, actionSize, q, s, g)
      ensures Q(stateSize, actionSize, q, s, b) == Q(stateSize, actionSize, q, s, g)
              ==> Flat(actionSize, g) <= Flat(actionSize, b)
    {
      RowEntry(stateSize, actionSize, q, s, b);
    }
  }

  /** The one-step temporal-difference update of a single value */
  function TdUpdate(current: real, alpha: real, gamma: real, reward: real, nextMax: real): real {
    current + alpha * (reward + gamma * nextMax - current)
  }

  /** The table after learning from (s, a, reward, s2): cell (s, a) moves
      towards reward + gamma * max of s2's row, read before the write. */
  function Learned(stateSize: seq<nat>, actionSize: seq<nat>, q: seq<real>, alpha: real, gamma: real,
                   s: seq<int>, a: seq<int>, reward: real, s2: seq<int>): (q': seq<real>)
    requires |q| == Prod(stateSize) * Prod(actionSize) && Prod(actionSize) > 0
    requires InRange(stateSize, s) && InRange(actionSize, a) && InRange(stateSize, s2)
    ensures |q'| == |q|
  {
    OffsetInBounds(stateSize, actionSize, s, a);
    var off := Offset(stateSize, actionSize, s, a);
    q[off := TdUpdate(q[off], alpha, gamma, reward, MaxOf(Row(stateSize, actionSize, q, s2)))]
  }

  /** Learning writes the update into cell (s, a) and into no other cell */
  lemma LearnedWritesOneCell(stateSize: seq<nat>, actionSize: seq<nat>, q: seq<real>, alpha: real, gamma: real,
                             s: seq<int>, a: seq<int>, reward: real, s2: seq<int>)
    requires |q| == Prod(stateSize) * Prod(actionSize) && Prod(actionSize) > 0
    requires InRange(stateSize, s) && InRange(actionSize, a) && InRange(stateSize, s2)
    ensures Q(stateSize, actionSize, Learned(stateSize, actionSize, q, alpha, gamma, s, a, reward, s2), s, a)
         == TdUpdate(Q(stateSize, actionSize, q, s, a), alpha, gamma, reward, MaxOf(Row(stateSize, actionSize, q, s2)))
    ensures forall s', a' :: InRange(stateSize, s') && InRange(actionSize, a') && (s', a') != (s, a) ==>
              Q(stateSize, actionSize, Learned(stateSize, actionSize, q, alpha, gamma, s, a, reward, s2), s', a')
              == Q(stateSize, actionSize, q, s', a')
  {
    var q' := Learned(stateSize, actionSize, q, alpha, gamma, s, a, reward, s2);
    OffsetInBounds(stateSize, actionSize, s, a);
    var off := Offset(stateSize, actionSize, s, a);
    assert q' == q[off := TdUpdate(q[off], alpha, gamma, reward, MaxOf(Row(stateSize, actionSize, q, s2)))];
    forall s', a' | InRange(stateSize, s') && InRange(actionSize, a') && (s', a') != (s, a)
      ensures Q(stateSize, actionSize, q', s', a') == Q(stateSize, actionSize, q, s', a')
    {
      OffsetInjective(stateSize, actionSize, s, a, s', a');
      OffsetInBounds(stateSize, actionSize, s', a');
      assert Offset(stateSize, actionSize, s', a') != off;
    }
  }

  predicate AllNonPositive(q: seq<real>) {
    forall k :: 0 <= k < |q| ==> q[k] <= 0.0
  }

  /** With non-positive values, a non-positive reward, alpha in [0, 1] and a
      non-negative gamma, the update stays non-positive. */
  lemma TdUpdateNonPositive(current: real, alpha: real, gamma: real, reward: real, nextMax: real)
    requires current <= 0.0 && nextMax <= 0.0 && reward <= 0.0
    requires 0.0 <= alpha <= 1.0 && gamma >= 0.0
    ensures TdUpdate(current, alpha, gamma, reward, nextMax) <= 0.0
  {
    assert gamma * nextMax <= 0.0;
    assert (1.0 - alpha) * current <= 0.0;
    assert alpha * (reward + gamma * nextMax) <= 0.0;
    assert TdUpdate(current, alpha, gamma, reward, nextMax)
        == (1.0 - alpha) * current + alpha * (reward + gamma * nextMax);
  }

  /** A table with no positive value keeps none after learning from a non-positive reward */
  lemma LearnedKeepsNonPositive(stateSize: seq<nat>, actionSize: seq<nat>, q: seq<real>, alpha: real, gamma: real,
                                s: seq<int>, a: seq<int>, reward: real, s2: seq<int>)
    requires |q| == Prod(stateSize) * Prod(actionSize) && Prod(actionSize) > 0
    requires InRange(stateSize, s) && InRange(actionSize, a) && InRange(stateSize, s2)
    requires AllNonPositive(q) && reward <= 0.0 && 0.0 <= alpha <= 1.0 && gamma >= 0.0
    ensures AllNonPositive(Learned(stateSize, actionSize, q, alpha, gamma, s, a, reward, s2))
  {
    OffsetInBounds(stateSize, actionSize, s, a);
    var off := Offset(stateSize, actionSize, s, a);
    var row := Row(stateSize, actionSize, q, s2);
    RowBounds(stateSize, actionSize, s2);
    assert row[ArgMax(row)] <= 0.0;
    TdUpdateNonPositive(q[off], alpha, gamma, reward, MaxOf(row));
  }

  // ------------------------------------------------------------------ the agent

  class QLearningAgent {
    const stateSize: seq<nat>
    const actionSize: seq<nat>
    var alpha: real
    var gamma: real
    var epsilon: real
    const table: array<real>

    ghost predicate Valid()
      reads this
    {
      table.Length == Prod(stateSize) * Prod(actionSize)
    }

    /** A table of Prod(stateSize) * Prod(actionSize) cells, all zero */
    constructor (stateSize: seq<nat>, actionSize: seq<nat>, alpha: real := 0.1, gamma: real := 0.95, epsilon: real := 0.05)
      ensures Valid() && fresh(table)
      ensures this.stateSize == stateSize && this.actionSize == actionSize
      ensures this.alpha == alpha && this.gamma == gamma && this.epsilon == epsilon
      ensures table.Length == Prod(stateSize + actionSize)
      ensures forall k :: 0 <= k < table.Length ==> table[k] == 0.0
    {
      this.stateSize := stateSize;
      this.actionSize := actionSize;
      this.alpha := alpha;
      this.gamma := gamma;
      this.epsilon := epsilon;
      ProdConcat(stateSize, actionSize);
      table := new real[Prod(stateSize) * Prod(actionSize)](_ => 0.0);
    }

    /** Explores with the random indices when the draw falls below epsilon,
        otherwise returns the greedy action of the state. */
    method ChooseAction(state: seq<int>, draw: real, explore: seq<int>) returns (action: seq<int>)
      requires Valid() && InRange(stateSize, state) && Prod(actionSize) > 0
      requires 0.0 <= draw < 1.0 && InRange(actionSize, explore)
      ensures InRange(actionSize, action)
      ensures draw < epsilon ==> action == explore
      ensures draw >= epsilon ==> action == GreedyAction(stateSize, actionSize, table[..], state)
      ensures draw >= epsilon ==>
                forall b :: InRange(actionSize, b) ==>
                  Q(stateSize, actionSize, table[..], state, b) <= Q(stateSize, actionSize, table[..], state, action)
      ensures draw >= epsilon ==>
                forall b :: InRange(actionSize, b) ==>
                  Q(stateSize, actionSize, table[..], state, b) == Q(stateSize, actionSize, table[..], state, action) ==>
                  Flat(actionSize, action) <= Flat(actionSize, b)
      ensures epsilon <= 0.0 ==> action == GreedyAction(stateSize, actionSize, table[..], state)
      ensures epsilon >= 1.0 ==> action == explore
    {
      if draw < epsilon {
        return explore;
      }
      var row := Row(stateSize, actionSize, table[..], state);
      var bestActionFlatIndex := ArgMax(row);
      action := Unravel(actionSize, bestActionFlatIndex);
      GreedyActionIsFirstBest(stateSize, actionSize, table[..], state);
    }

    /** The off-policy one-step update of cell (state, action) */
    method Learn(state: seq<int>, action: seq<int>, reward: real, nextState: seq<int>)
      requires Valid() && Prod(actionSize) > 0
      requires InRange(stateSize, state) && InRange(actionSize, action) && InRange(stateSize, nextState)
      modifies table
      ensures table[..] == Learned(stateSize, actionSize, old(table[..]), alpha, gamma, state, action, reward, nextState)
    {
      OffsetInBounds(stateSize, actionSize, state, action);
      var index := Offset(stateSize, actionSize, state, action);
      var currentQ := table[index];
      var nextMaxQ := MaxOf(Row(stateSize, actionSize, table[..], nextState));
      table[index] := TdUpdate(currentQ, alpha, gamma, reward, nextMaxQ);
    }

    method UpdateEpsilon(decayRate: real)
      modifies this
      ensures epsilon == old(epsilon) * decayRate
      ensures alpha == old(alpha) && gamma == old(gamma)
      ensures table[..] == old(table[..])
    {
      epsilon := epsilon * decayRate;
    }
  }

  /** Five binary state dimensions and five binary action dimensions give a 1024-cell table */
  lemma BinaryTableSize()
    ensures Prod([2, 2, 2, 2, 2]) == 32
    ensures Prod([2, 2, 2, 2, 2] + [2, 2, 2, 2, 2]) == 1024
  {
    var b: seq<nat> := [2, 2, 2, 2, 2];
    var b1: seq<nat>, b2: seq<nat>, b3: seq<nat>, b4: seq<nat> := [2], [2, 2], [2, 2, 2], [2, 2, 2, 2];
    assert b1[..0] == [];
    assert Prod(b1) == 2;
    assert b2[..1] == b1;
    assert Prod(b2) == 4;
    assert b3[..2] == b2;
    assert Prod(b3) == 8;
    assert b4[..3] == b3;
    assert Prod(b4) == 16;
    assert b[..4] == b4;
    ProdConcat(b, b);
  }
}
