/** How `move_samples_from` counts through the component indices: it ends exactly
    for one component axis, or an empty first one. */
module Odometer {
  import opened RowMajor

  /** Carry from axis `i` down to axis 3. */
  function Carry(shape: seq<nat>, index: Index, i: nat): (r: Index)
    requires |index| == |shape| && i < |shape|
    ensures |r| == |index|
    decreases i
  {
    if i <= 2 then index
    else if index[i] >= shape[i] then Carry(shape, index[i := 0][i - 1 := index[i - 1] + 1], i - 1)
    else Carry(shape, index, i - 1)
  }

  /** One more in the last component axis, then carry. */
  function Next(shape: seq<nat>, index: Index): (r: Index)
    requires |index| == |shape| >= 3
    ensures |r| == |index|
  {
    var last := |shape| - 2;
    Carry(shape, index[last := index[last] + 1], last)
  }

  method NextIndex(shape: seq<nat>, index: Index) returns (r: Index)
    requires |index| == |shape| >= 3
    ensures r == Next(shape, index)
  {
    var last := |shape| - 2;
    r := index[last := index[last] + 1];
    var i := last;
    while i > 2
      invariant 0 < i < |shape| && |r| == |shape|
      invariant Carry(shape, r, i) == Next(shape, index)
    {
      if r[i] >= shape[i] {
        r := r[i := 0];
        r := r[i - 1 := r[i - 1] + 1];
      }
      i := i - 1;
    }
  }

  lemma {:induction false} CarryStopsAtTwo(shape: seq<nat>, index: Index, i: nat)
    requires |index| == |shape| && i < |shape|
    ensures forall k :: 0 <= k < |shape| && (k < 2 || k > i) ==> Carry(shape, index, i)[k] == index[k]
    decreases i
  {
    if i > 2 {
      CarryStopsAtTwo(shape, if index[i] >= shape[i] then index[i := 0][i - 1 := index[i - 1] + 1] else index, i - 1);
    }
  }

  /** A step changes no sample, and the first component only if it is the only one. */
  lemma NextKeeps(shape: seq<nat>, index: Index)
    requires |index| == |shape| >= 3
    ensures Next(shape, index)[0] == index[0]
    ensures Next(shape, index)[1] == index[1] + if |shape| == 3 then 1 else 0
  {
    var last := |shape| - 2;
    CarryStopsAtTwo(shape, index[last := index[last] + 1], last);
  }

  /** After `n` steps. */
  function Steps(shape: seq<nat>, index: Index, n: nat): (r: Index)
    requires |index| == |shape| >= 3
    ensures |r| == |index|
  {
    if n == 0 then index else Next(shape, Steps(shape, index, n - 1))
  }

  lemma {:induction false} FirstComponentAfter(shape: seq<nat>, index: Index, n: nat)
    requires |index| == |shape| >= 3
    ensures Steps(shape, index, n)[1] == index[1] + if |shape| == 3 then n else 0
  {
    if n > 0 {
      FirstComponentAfter(shape, index, n - 1);
      NextKeeps(shape, Steps(shape, index, n - 1));
    }
  }

  /** The loop ends when the first component has run through its axis. */
  ghost predicate EndsAfter(shape: seq<nat>, index: Index, n: nat)
    requires |index| == |shape| >= 3
  {
    n > 0 && Steps(shape, index, n)[1] >= shape[1]
  }

  /** With two or more component axes the first one never moves. */
  lemma EndsExactly(shape: seq<nat>, index: Index)
    requires |index| == |shape| >= 3 && index[1] == 0
    ensures (exists n: nat :: EndsAfter(shape, index, n)) <==> |shape| == 3 || shape[1] == 0
  {
    if |shape| == 3 || shape[1] == 0 {
      var n := shape[1] + 1;
      FirstComponentAfter(shape, index, n);
      assert EndsAfter(shape, index, n);
    } else {
      forall n: nat ensures !EndsAfter(shape, index, n) {
        FirstComponentAfter(shape, index, n);
      }
    }
  }
}
