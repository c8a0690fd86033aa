/** The paired comparison of two loops (scripts/harness_tournament.py), on the cells both have
    run.  Probabilities and means are exact here; the source rounds them for its report. */
module Paired {
  import opened Tournament
  import opened McNemar

  datatype Matrix = Matrix(bothPass: nat, leftOnly: nat, rightOnly: nat, bothFail: nat)

  function Common(left: map<Key, bool>, right: map<Key, bool>): set<Key> {
    left.Keys * right.Keys
  }

  /** The compared keys on which the two loops ended as given. */
  function Ended(left: map<Key, bool>, right: map<Key, bool>, l: bool, r: bool): set<Key> {
    set k | k in left && k in right && left[k] == l && right[k] == r
  }

  function PassMatrix(left: map<Key, bool>, right: map<Key, bool>): Matrix {
    Matrix(|Ended(left, right, true, true)|, |Ended(left, right, true, false)|,
           |Ended(left, right, false, true)|, |Ended(left, right, false, false)|)
  }

  /** How many of the given keys the loop passed. */
  function Passed(table: map<Key, bool>, keys: set<Key>): nat
    requires keys <= table.Keys
  {
    |set k | k in keys && table[k]|
  }

  /** The report on two loops. */
  datatype Pairing = Pairing(observations: nat, matrix: Matrix, delta: real, pValue: real)

  function Mean(total: int, n: nat): real {
    if n == 0 then 0.0 else total as real / n as real
  }

  function Compared(left: map<Key, bool>, right: map<Key, bool>): Pairing {
    var m := PassMatrix(left, right);
    Pairing(|Common(left, right)|, m, Mean(m.leftOnly - m.rightOnly, |Common(left, right)|),
            PValue(m.leftOnly, m.rightOnly))
  }

  lemma ComparedMeans(left: map<Key, bool>, right: map<Key, bool>)
    ensures var c, m := Compared(left, right), PassMatrix(left, right);
            && c.observations == |Common(left, right)| && c.matrix == m
            && c.delta == Mean(m.leftOnly - m.rightOnly, |Common(left, right)|)
            && c.pValue == PValue(m.leftOnly, m.rightOnly)
  {
    hide Common, PassMatrix, Mean, PValue;
  }

  lemma CardinalityAdds<T>(a: set<T>, b: set<T>)
    requires a !! b
    ensures |a + b| == |a| + |b|
  {
  }

  lemma SplitByRight(left: map<Key, bool>, right: map<Key, bool>, l: bool)
    ensures |set k | k in Common(left, right) && left[k] == l|
            == |Ended(left, right, l, true)| + |Ended(left, right, l, false)|
  {
    var t, f := Ended(left, right, l, true), Ended(left, right, l, false);
    assert (set k | k in Common(left, right) && left[k] == l) == t + f;
    CardinalityAdds(t, f);
  }

  lemma Transposed(left: map<Key, bool>, right: map<Key, bool>, l: bool, r: bool)
    ensures Ended(left, right, l, r) == Ended(right, left, r, l)
  {
  }

  /** The matrix sums to the number of compared cells, its rows and columns to the passes. */
  lemma MatrixPartitions(left: map<Key, bool>, right: map<Key, bool>)
    ensures var m, n := PassMatrix(left, right), Common(left, right);
            && m.bothPass + m.leftOnly + m.rightOnly + m.bothFail == |n|
            && m.bothPass + m.leftOnly == Passed(left, n)
            && m.bothPass + m.rightOnly == Passed(right, n)
  {
    hide Ended;
    var n := Common(left, right);
    SplitByRight(left, right, true);
    SplitByRight(left, right, false);
    CardinalityAdds(set k | k in n && left[k], set k | k in n && !left[k]);
    assert n == (set k | k in n && left[k]) + (set k | k in n && !left[k]);
    assert (set k | k in n && left[k] == true) == (set k | k in n && left[k]);
    assert (set k | k in n && left[k] == false) == (set k | k in n && !left[k]);
    PassedByRight(left, right);
  }

  lemma PassedByRight(left: map<Key, bool>, right: map<Key, bool>)
    ensures Passed(right, Common(left, right)) == |Ended(left, right, true, true)| + |Ended(left, right, false, true)|
  {
    var n := Common(left, right);
    SplitByRight(right, left, true);
    Transposed(right, left, true, true);
    Transposed(right, left, true, false);
    assert Common(right, left) == n;
    assert (set k | k in n && right[k] == true) == (set k | k in n && right[k]);
  }

  lemma MeanLaws(total: int, n: nat)
    ensures Mean(-total, n) == -Mean(total, n)
    ensures n > 0 ==> Mean(total, n) * n as real == total as real
  {
  }

  lemma SwappedMatrix(left: map<Key, bool>, right: map<Key, bool>)
    ensures var m := PassMatrix(left, right);
            PassMatrix(right, left) == Matrix(m.bothPass, m.rightOnly, m.leftOnly, m.bothFail)
    ensures Common(left, right) == Common(right, left)
  {
    hide Ended;
    Transposed(left, right, true, true);
    Transposed(left, right, true, false);
    Transposed(left, right, false, true);
    Transposed(left, right, false, false);
  }

  /** Naming the loops the other way round transposes the matrix, negates the difference and
      leaves the p-value as it was. */
  lemma SwappedComparison(left: map<Key, bool>, right: map<Key, bool>)
    ensures var c := Compared(left, right);
            var m := c.matrix;
            Compared(right, left)
            == Pairing(c.observations, Matrix(m.bothPass, m.rightOnly, m.leftOnly, m.bothFail), -c.delta, c.pValue)
  {
    hide *;
    ComparedMeans(left, right);
    ComparedMeans(right, left);
    SwappedMatrix(left, right);
    var m := PassMatrix(left, right);
    PValueLaws(m.leftOnly, m.rightOnly);
    MeanLaws(m.leftOnly - m.rightOnly, |Common(left, right)|);
  }

  /** The reported difference is that of the two loops' pass rates on the compared cells. */
  lemma DeltaIsRateDifference(left: map<Key, bool>, right: map<Key, bool>)
    ensures var c, common := Compared(left, right), Common(left, right);
            && c.observations == |common|
            && c.delta * c.observations as real == (Passed(left, common) - Passed(right, common)) as real
  {
    hide *;
    ComparedMeans(left, right);
    MatrixPartitions(left, right);
    var m := PassMatrix(left, right);
    MeanLaws(m.leftOnly - m.rightOnly, |Common(left, right)|);
    if |Common(left, right)| == 0 {
      NoDelta(left, right);
    }
  }

  lemma NoDelta(left: map<Key, bool>, right: map<Key, bool>)
    requires |Common(left, right)| == 0
    ensures Passed(left, Common(left, right)) == Passed(right, Common(left, right)) == 0
  {
  }

  lemma OneKeyFewer(chosen: set<Key>, keys: set<Key>, key: Key)
    requires key in keys
    ensures |chosen - (keys - {key})| == |chosen - keys| + if key in chosen then 1 else 0
  {
    if key in chosen {
      assert chosen - (keys - {key}) == chosen - keys + {key};
    } else {
      assert chosen - (keys - {key}) == chosen - keys;
    }
  }

  /** How many of the compared keys outside `keys` ended as given. */
  ghost function Seen(left: map<Key, bool>, right: map<Key, bool>, keys: set<Key>, l: bool, r: bool): nat {
    |Ended(left, right, l, r) - keys|
  }

  lemma OneMoreSeen(left: map<Key, bool>, right: map<Key, bool>, keys: set<Key>, key: Key, l: bool, r: bool)
    requires key in keys && keys <= Common(left, right)
    ensures key in left && key in right
    ensures Seen(left, right, keys - {key}, l, r)
         == Seen(left, right, keys, l, r) + if left[key] == l && right[key] == r then 1 else 0
  {
    OneKeyFewer(Ended(left, right, l, r), keys, key);
  }

  lemma SeenBounds(left: map<Key, bool>, right: map<Key, bool>, l: bool, r: bool)
    ensures Seen(left, right, Common(left, right), l, r) == 0
    ensures Seen(left, right, {}, l, r) == |Ended(left, right, l, r)|
  {
    assert Ended(left, right, l, r) - Common(left, right) == {};
    assert Ended(left, right, l, r) - {} == Ended(left, right, l, r);
  }

  lemma MatrixIs(left: map<Key, bool>, right: map<Key, bool>)
    ensures PassMatrix(left, right)
         == Matrix(|Ended(left, right, true, true)|, |Ended(left, right, true, false)|,
                   |Ended(left, right, false, true)|, |Ended(left, right, false, false)|)
  {
  }

  method PairedAnalysis(left: map<Key, bool>, right: map<Key, bool>) returns (report: Pairing)
    ensures report == Compared(left, right)
  {
    hide *;
    var keys := Common(left, right);
    var n := |keys|;
    var bothPass, leftOnly, rightOnly, bothFail, deltas := 0, 0, 0, 0, 0;
    SeenBounds(left, right, true, true);
    SeenBounds(left, right, true, false);
    SeenBounds(left, right, false, true);
    SeenBounds(left, right, false, false);
    while keys != {}
      invariant keys <= Common(left, right)
      invariant bothPass == Seen(left, right, keys, true, true) && leftOnly == Seen(left, right, keys, true, false)
      invariant rightOnly == Seen(left, right, keys, false, true) && bothFail == Seen(left, right, keys, false, false)
      invariant deltas == leftOnly - rightOnly
      decreases keys
    {
      var key :| key in keys;
      OneMoreSeen(left, right, keys, key, true, true);
      OneMoreSeen(left, right, keys, key, true, false);
      OneMoreSeen(left, right, keys, key, false, true);
      OneMoreSeen(left, right, keys, key, false, false);
      var a, b := left[key], right[key];
      keys := keys - {key};
      bothPass := bothPass + if a && b then 1 else 0;
      leftOnly := leftOnly + if a && !b then 1 else 0;
      rightOnly := rightOnly + if !a && b then 1 else 0;
      bothFail := bothFail + if !a && !b then 1 else 0;
      deltas := deltas + (if a then 1 else 0) - (if b then 1 else 0);
    }
    ComparedMeans(left, right);
    MatrixIs(left, right);
    report := Pairing(n, Matrix(bothPass, leftOnly, rightOnly, bothFail), Mean(deltas, n), PValue(leftOnly, rightOnly));
  }
}
