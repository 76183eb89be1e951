/** Generic pieces shared by the scanners' model: an optional value, the
    filter-map predicate `FilterMapAt` with its cons lemma, and small
    sequence facts. */
module Util {

  /** The conventional Some/None wrapper, used for "first match" lookups. */
  datatype Option<T> = None | Some(value: T)

  lemma SomeMember<T>(s: seq<T>) returns (y: T)
    requires |s| > 0
    ensures y in s
  {
    y := s[0];
  }

  /** A sequence with no members is empty. */
  lemma EmptyWithoutMembers<T>(s: seq<T>)
    requires forall x :: x !in s
    ensures s == []
  {
    if |s| > 0 {
      var y := SomeMember(s);
      assert false;
    }
  }

  lemma ConcatAssoc<T>(x: seq<T>, y: seq<T>, z: seq<T>)
    ensures x + (y + z) == (x + y) + z
  {
  }

  /** r is xs filtered by keep and mapped by make, and idx lists, ascending,
      the positions that were kept: nothing is dropped, added or moved. */
  ghost predicate FilterMapAt<A, B>(xs: seq<A>, keep: A -> bool, make: A -> B, r: seq<B>, idx: seq<int>)
  {
    && |idx| == |r|
    && (forall j, k :: 0 <= j < k < |idx| ==> idx[j] < idx[k])
    && (forall j :: 0 <= j < |idx| ==> 0 <= idx[j] < |xs| && r[j] == make(xs[idx[j]]))
    && (forall i {:trigger keep(xs[i])} :: 0 <= i < |xs| ==> (keep(xs[i]) <==> i in idx))
  }

  /** Filter-mapping the head in front of a filter-mapped tail filter-maps
      the whole sequence. */
  lemma FilterMapCons<A, B>(xs: seq<A>, keep: A -> bool, make: A -> B, here: seq<B>, rest: seq<B>)
    requires xs != []
    requires here == if keep(xs[0]) then [make(xs[0])] else []
    requires exists idx :: FilterMapAt(xs[1..], keep, make, rest, idx)
    ensures exists idx :: FilterMapAt(xs, keep, make, here + rest, idx)
  {
    var tail :| FilterMapAt(xs[1..], keep, make, rest, tail);
    var idx := ShiftedPositions(|here|, tail);
    ShiftedRecords(xs, keep, make, here, rest, tail, idx);
    ShiftedKept(xs, keep, make, here, rest, tail, idx);
    assert FilterMapAt(xs, keep, make, here + rest, idx);
  }

  /** The positions of a tail's kept elements, moved one along, behind
      position 0 when the head is kept (off = 1) or not (off = 0). */
  function ShiftedPositions(off: nat, tail: seq<int>): (idx: seq<int>)
    ensures |idx| == off + |tail|
    ensures forall j :: 0 <= j < off ==> idx[j] == 0
    ensures forall j :: off <= j < |idx| ==> idx[j] == tail[j - off] + 1
  {
    seq(off + |tail|, j requires 0 <= j < off + |tail| => if j < off then 0 else tail[j - off] + 1)
  }

  lemma ShiftedRecords<A, B>(xs: seq<A>, keep: A -> bool, make: A -> B, here: seq<B>, rest: seq<B>, tail: seq<int>, idx: seq<int>)
    requires xs != []
    requires here == if keep(xs[0]) then [make(xs[0])] else []
    requires FilterMapAt(xs[1..], keep, make, rest, tail)
    requires idx == ShiftedPositions(|here|, tail)
    ensures forall j, k :: 0 <= j < k < |idx| ==> idx[j] < idx[k]
    ensures forall j :: 0 <= j < |idx| ==> 0 <= idx[j] < |xs| && (here + rest)[j] == make(xs[idx[j]])
  {
    var off := |here|;
    var r := here + rest;
    forall j | 0 <= j < |idx|
      ensures 0 <= idx[j] < |xs| && r[j] == make(xs[idx[j]])
    {
      if j >= off {
        assert r[j] == rest[j - off];
        assert xs[idx[j]] == xs[1..][tail[j - off]];
      }
    }
  }

  lemma ShiftedKept<A, B>(xs: seq<A>, keep: A -> bool, make: A -> B, here: seq<B>, rest: seq<B>, tail: seq<int>, idx: seq<int>)
    requires xs != []
    requires here == if keep(xs[0]) then [make(xs[0])] else []
    requires FilterMapAt(xs[1..], keep, make, rest, tail)
    requires idx == ShiftedPositions(|here|, tail)
    ensures forall i {:trigger keep(xs[i])} :: 0 <= i < |xs| ==> (keep(xs[i]) <==> i in idx)
  {
    var off := |here|;
    forall i | 0 <= i < |xs|
      ensures keep(xs[i]) <==> i in idx
    {
      if i > 0 {
        assert xs[i] == xs[1..][i - 1];
        if i - 1 in tail {
          var j :| 0 <= j < |tail| && tail[j] == i - 1;
          assert idx[j + off] == i;
        }
        if i in idx {
          var j :| 0 <= j < |idx| && idx[j] == i;
          assert tail[j - off] == i - 1;
        }
      } else if keep(xs[0]) {
        assert idx[0] == 0;
      }
    }
  }
}
