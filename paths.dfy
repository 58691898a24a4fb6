/**
  Reading indices back from Julia. Julia's paths and node indices count from
  1, Python's from 0: `Paths.__next__` and `CompatiblePaths.__next__` lower
  every element of the path Julia yields by one, and `index_of` lowers the
  node index by one. This undoes the raise by one that `handle_index_syntax`
  applies to int keys.
 */
module PathIndex {
  import opened Options
  import opened PyText
  import opened IndexSyntax

  /** `[i-1 for i in path]`: a Julia path as Python indices. */
  function ToZeroBased(path: seq<int>): (r: seq<int>)
    ensures |r| == |path|
    ensures forall j :: 0 <= j < |path| ==> r[j] == path[j] - 1
    decreases |path|
  {
    if |path| == 0 then [] else [path[0] - 1] + ToZeroBased(path[1..])
  }

  /** The raise by one that int keys get on the way out, element by element. */
  function ToOneBased(path: seq<int>): (r: seq<int>)
    ensures |r| == |path|
    ensures forall j :: 0 <= j < |path| ==> r[j] == path[j] + 1
    decreases |path|
  {
    if |path| == 0 then [] else [path[0] + 1] + ToOneBased(path[1..])
  }

  /** The two shifts undo each other, in both orders. */
  lemma ShiftsInverse(path: seq<int>)
    ensures ToZeroBased(ToOneBased(path)) == path
    ensures ToOneBased(ToZeroBased(path)) == path
  {
  }

  /** `index_of(name)`: the 1-based index Julia's `index_of` returns, lowered by one. */
  function IndexOf(juliaIndex: int): (k: int)
    ensures k + 1 == juliaIndex
    ensures k >= 0 <==> juliaIndex >= 1
  {
    juliaIndex - 1
  }

  /** A 0-based node index sent as a key and read back through `index_of` is itself. */
  lemma IndexOfUndoesKeyShift(k: int)
    ensures JuliaIndex(Int(k)).IntIndex?
    ensures IndexOf(JuliaIndex(Int(k)).n) == k
  {
  }

  /** The ints of a sequence as tuple components. */
  function IntKeys(ks: seq<int>): (items: seq<PyKey>)
    ensures |items| == |ks|
    ensures forall j :: 0 <= j < |ks| ==> items[j] == Int(ks[j])
    decreases |ks|
  {
    if |ks| == 0 then [] else [Int(ks[0])] + IntKeys(ks[1..])
  }

  /**
    The index convention round trip for whole paths: a non-empty 0-based path
    sent as a tuple key is written as the comma-separated 1-based path, and a
    path read back in that form and lowered by `__next__`'s shift is the
    path that was sent.
   */
  lemma PathKeyRoundTrip(ks: seq<int>)
    requires |ks| > 0
    ensures JuliaIndex(Tuple(IntKeys(ks))).StrIndex?
    ensures |Split(JuliaIndex(Tuple(IntKeys(ks))).s, ',')| == |ks|
    ensures forall j :: 0 <= j < |ks| ==>
      ParseDecimal(Split(JuliaIndex(Tuple(IntKeys(ks))).s, ',')[j]) == Some(ToOneBased(ks)[j])
    ensures ToZeroBased(ToOneBased(ks)) == ks
  {
    FieldsReadBack(IntKeys(ks));
  }

  /** Every path of a sequence of Julia paths, lowered by one. */
  function EachZeroBased(paths: seq<seq<int>>): (r: seq<seq<int>>)
    ensures |r| == |paths|
    ensures forall j :: 0 <= j < |paths| ==> r[j] == ToZeroBased(paths[j])
    decreases |paths|
  {
    if |paths| == 0 then [] else [ToZeroBased(paths[0])] + EachZeroBased(paths[1..])
  }

  /** What one call of `__next__` gives. */
  datatype Step =
    | Yield(path: seq<int>)
    | StopIteration   // the Julia iterator is exhausted
    | NotIterating    // `__next__` before `__iter__`: `self._iterator` does not exist yet

  /**
    `Paths` and `CompatiblePaths` (the two have the same `__iter__` and
    `__next__`): a Python iterator over the paths a Julia iterator yields.
    Which paths those are, and in which order, is decided in Julia; here they
    are the sequence `juliaPaths`.
   */
  class PathIterator {
    /** The paths the Julia object yields, 1-based, in its order. */
    const juliaPaths: seq<seq<int>>
    /** Whether `__iter__` has created `self._iterator`. */
    var iterating: bool
    /** How many paths `self._iterator` has yielded. */
    var position: nat

    ghost predicate Valid()
      reads this
    {
      position <= |juliaPaths|
    }

    /** The 0-based paths still to come. */
    ghost function Remaining(): seq<seq<int>>
      reads this
      requires Valid()
    {
      EachZeroBased(juliaPaths[position..])
    }

    constructor (juliaPaths: seq<seq<int>>)
      ensures Valid()
      ensures this.juliaPaths == juliaPaths && !iterating && position == 0
    {
      this.juliaPaths := juliaPaths;
      iterating := false;
      position := 0;
    }

    /** `__iter__`: a fresh iterator over the Julia object, starting again from its first path. */
    method Iter()
      modifies this
      ensures Valid() && iterating && position == 0
      ensures Remaining() == EachZeroBased(juliaPaths)
    {
      iterating := true;
      position := 0;
    }

    /**
      `__next__`: the next Julia path with every element lowered by one; an
      empty path is returned as it is.
     */
    method Next() returns (r: Step)
      requires Valid()
      modifies this
      ensures Valid() && iterating == old(iterating)
      ensures !old(iterating) ==> r == NotIterating && position == old(position)
      ensures old(iterating) && old(position) == |juliaPaths| ==>
        r == StopIteration && position == old(position)
      ensures old(iterating) && old(position) < |juliaPaths| ==>
        r.Yield? && position == old(position) + 1 && |r.path| == |juliaPaths[old(position)]| &&
        (forall j :: 0 <= j < |r.path| ==> r.path[j] == juliaPaths[old(position)][j] - 1)
      ensures old(iterating) && old(position) < |juliaPaths| ==>
        r == Yield(old(Remaining())[0]) && Remaining() == old(Remaining())[1..]
      ensures old(iterating) && old(position) < |juliaPaths| && juliaPaths[old(position)] == [] ==>
        r == Yield([])
    {
      if !iterating {
        return NotIterating;
      }
      if position == |juliaPaths| {
        return StopIteration;
      }
      var path := juliaPaths[position];
      position := position + 1;
      if path != [] {
        path := ToZeroBased(path);
      }
      r := Yield(path);
      assert juliaPaths[position..] == old(juliaPaths[position..])[1..];
    }
  }
}
