/**
  Lists read once with a set of what was seen: an element stays unless an earlier
  one carries the same mark, and an element without a mark always stays.
 */
module KeepFirst {
  import opened Wrappers

  /** Nothing before position `p` carries its mark. */
  predicate IsFirst<T, K(==)>(xs: seq<T>, p: nat, mark: T -> Option<K>)
    requires p < |xs|
  {
    mark(xs[p]).None? || forall i :: 0 <= i < p ==> mark(xs[i]) != mark(xs[p])
  }

  function Firsts<T, K(==)>(xs: seq<T>, mark: T -> Option<K>): (ys: seq<T>)
    ensures |ys| <= |xs|
  {
    if xs == [] then []
    else
      var last := |xs| - 1;
      var ys := Firsts(xs[..last], mark);
      if IsFirst(xs, last, mark) then ys + [xs[last]] else ys
  }

  /** Where the elements that stay stood. */
  function FirstPositions<T, K(==)>(xs: seq<T>, mark: T -> Option<K>): (ps: seq<nat>)
    ensures forall k :: 0 <= k < |ps| ==> ps[k] < |xs|
  {
    if xs == [] then []
    else
      var last := |xs| - 1;
      var ps := FirstPositions(xs[..last], mark);
      if IsFirst(xs, last, mark) then ps + [last] else ps
  }

  function Marks<T, K(==)>(xs: seq<T>, mark: T -> Option<K>): set<K> {
    set i | 0 <= i < |xs| && mark(xs[i]).Some? :: mark(xs[i]).value
  }

  /** The first positions, in order, and all of them. */
  lemma {:induction false} PositionsAreFirsts<T, K>(xs: seq<T>, mark: T -> Option<K>)
    ensures var ps := FirstPositions(xs, mark);
            && (forall k, l :: 0 <= k < l < |ps| ==> ps[k] < ps[l])
            && (forall p: nat :: p in ps <==> p < |xs| && IsFirst(xs, p, mark))
  {
    if xs != [] {
      var last := |xs| - 1;
      var init := xs[..last];
      PositionsAreFirsts(init, mark);
      forall p: nat | p < last
        ensures IsFirst(init, p, mark) <==> IsFirst(xs, p, mark)
      {
        assert forall i :: 0 <= i <= p ==> init[i] == xs[i];
      }
      hide IsFirst;
      var ps := FirstPositions(init, mark);
      assert forall p: nat :: p in ps + [last] <==> p in ps || p == last;
    }
  }

  /** What stays is what stood there. */
  lemma {:induction false} FirstsStand<T, K>(xs: seq<T>, mark: T -> Option<K>)
    ensures var ys, ps := Firsts(xs, mark), FirstPositions(xs, mark);
            |ys| == |ps| && forall k :: 0 <= k < |ps| ==> ys[k] == xs[ps[k]]
  {
    if xs != [] {
      hide IsFirst;
      FirstsStand(xs[..|xs| - 1], mark);
    }
  }

  /** No mark stands twice. */
  predicate Unique<T, K(==)>(xs: seq<T>, mark: T -> Option<K>) {
    forall i, j :: 0 <= i < j < |xs| && mark(xs[i]).Some? ==> mark(xs[i]) != mark(xs[j])
  }

  lemma UniqueWithMore<T, K>(xs: seq<T>, x: T, mark: T -> Option<K>)
    requires Unique(xs, mark)
    requires mark(x).Some? ==> mark(x).value !in Marks(xs, mark)
    ensures Unique(xs + [x], mark)
  {
    forall i | 0 <= i < |xs| && mark(xs[i]).Some?
      ensures mark(xs[i]) != mark(x)
    {
      assert mark(xs[i]).value in Marks(xs, mark);
    }
  }

  /** What stays carries every mark, and none twice. */
  lemma {:induction false} MarksKept<T, K>(xs: seq<T>, mark: T -> Option<K>)
    ensures Marks(Firsts(xs, mark), mark) == Marks(xs, mark)
    ensures Unique(Firsts(xs, mark), mark)
  {
    if xs != [] {
      hide Firsts, Marks, Unique, IsFirst;
      var last := |xs| - 1;
      var init, x := xs[..last], xs[last];
      assert xs == init + [x];
      MarksKept(init, mark);
      MarksOfMore(init, x, mark);
      FirstsStep(init, x, mark);
      if !(mark(x).Some? && mark(x).value in Marks(init, mark)) {
        MarksOfMore(Firsts(init, mark), x, mark);
        UniqueWithMore(Firsts(init, mark), x, mark);
      }
    } else {
      assert Firsts(xs, mark) == [];
    }
  }

  lemma MarksOfMore<T, K>(xs: seq<T>, x: T, mark: T -> Option<K>)
    ensures Marks(xs + [x], mark) == Marks(xs, mark) + if mark(x).Some? then {mark(x).value} else {}
  {
    forall k | k in Marks(xs, mark) + if mark(x).Some? then {mark(x).value} else {}
      ensures k in Marks(xs + [x], mark)
    {
      if k in Marks(xs, mark) {
        var i :| 0 <= i < |xs| && mark(xs[i]) == Some(k);
        assert (xs + [x])[i] == xs[i];
      } else {
        assert (xs + [x])[|xs|] == x;
      }
    }
  }

  /** A list with no mark twice stays as it is. */
  lemma {:induction false} UniqueStays<T, K>(xs: seq<T>, mark: T -> Option<K>)
    requires Unique(xs, mark)
    ensures Firsts(xs, mark) == xs
  {
    if xs != [] {
      UniqueStays(xs[..|xs| - 1], mark);
    }
  }

  /** Reading one more element with the set of marks seen. */
  lemma FirstsStep<T, K>(xs: seq<T>, x: T, mark: T -> Option<K>)
    ensures Firsts(xs + [x], mark) ==
            if mark(x).Some? && mark(x).value in Marks(xs, mark) then Firsts(xs, mark) else Firsts(xs, mark) + [x]
  {
    var more := xs + [x];
    assert more[..|xs|] == xs;
    if mark(x).Some? && mark(x).value in Marks(xs, mark) {
      var i :| 0 <= i < |xs| && mark(xs[i]) == mark(x);
      assert mark(more[i]) == mark(more[|xs|]);
    } else {
      forall i | 0 <= i < |xs| && mark(x).Some?
        ensures mark(more[i]) != mark(x)
      {
        assert mark(xs[i]).Some? ==> mark(xs[i]).value in Marks(xs, mark);
      }
    }
  }
}
