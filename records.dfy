/**
 * Check records (`Item`) and the store that holds them (the SwiftData model
 * context, seen as the list its query returns, oldest first), with the
 * specification of deleting a set of positions from a list.
 */
module Records {

  /** One committed double-check. `type` is a reserved word in Dafny, so that field is `kind`. */
  datatype Item = Item(kind: string, title: string, videoURL: string, timestamp: real)

  /**
   * `s` without the elements whose absolute position is in `doomed`, where
   * `s[i]` sits at absolute position `base + i`.
   */
  function Kept<T>(s: seq<T>, doomed: set<int>, base: int): seq<T>
    decreases |s|
  {
    if s == [] then []
    else
      var last := |s| - 1;
      Kept(s[..last], doomed, base) + (if base + last in doomed then [] else [s[last]])
  }

  /** `s` without the elements at the positions in `doomed`, order kept. */
  function Without<T>(s: seq<T>, doomed: set<int>): seq<T>
  {
    Kept(s, doomed, 0)
  }

  /** `s` without its element at `position`. */
  function RemoveAt<T>(s: seq<T>, position: int): (r: seq<T>)
    requires 0 <= position < |s|
    ensures |r| == |s| - 1
  {
    s[..position] + s[position + 1..]
  }

  /** The list read back to front, as the history rows are displayed. */
  function Reversed<T>(s: seq<T>): (r: seq<T>)
    ensures |r| == |s|
    ensures forall i :: 0 <= i < |s| ==> r[i] == s[|s| - 1 - i]
  {
    seq(|s|, i requires 0 <= i < |s| => s[|s| - 1 - i])
  }

  /**
   * The positions of `s` (absolute positions starting at `base`) that face a
   * doomed position of the reversed list: position `i` of `s` is position
   * `base + |s| - 1 - i` of the reversal.
   */
  function Mirror(doomed: set<int>, base: int, n: nat): set<int>
  {
    set i | 0 <= i < n && Facing(base, n, i) in doomed
  }

  /** The position of the reversal (starting at `base`) that faces position `i` of a list of length `n`. */
  function Facing(base: int, n: int, i: int): int
  {
    base + n - 1 - i
  }

  /** An `IndexSet` as iterated: strictly increasing positions, all inside a list of length `n`. */
  predicate IsIndexSet(offsets: seq<int>, n: int)
  {
    (forall i, j :: 0 <= i < j < |offsets| ==> offsets[i] < offsets[j]) &&
    (forall i :: 0 <= i < |offsets| ==> 0 <= offsets[i] < n)
  }

  /** Deleting from a concatenation deletes from each part. */
  lemma {:induction false} KeptConcat<T>(a: seq<T>, b: seq<T>, doomed: set<int>, base: int)
    ensures Kept(a + b, doomed, base) == Kept(a, doomed, base) + Kept(b, doomed, base + |a|)
    decreases |b|
  {
    if b == [] {
      assert a + b == a;
    } else {
      var last := |b| - 1;
      assert (a + b)[..|a + b| - 1] == a + b[..last];
      KeptConcat(a, b[..last], doomed, base);
    }
  }

  /** Only the doomed positions inside the list matter. */
  lemma {:induction false} KeptCongruent<T>(s: seq<T>, doomed: set<int>, other: set<int>, base: int)
    requires forall i :: base <= i < base + |s| ==> (i in doomed <==> i in other)
    ensures Kept(s, doomed, base) == Kept(s, other, base)
    decreases |s|
  {
    if s != [] {
      KeptCongruent(s[..|s| - 1], doomed, other, base);
    }
  }

  /** With no doomed position inside the list, nothing is removed. */
  lemma {:induction false} KeptNone<T>(s: seq<T>, doomed: set<int>, base: int)
    requires forall i :: base <= i < base + |s| ==> i !in doomed
    ensures Kept(s, doomed, base) == s
    decreases |s|
  {
    if s != [] {
      var last := |s| - 1;
      KeptNone(s[..last], doomed, base);
      assert s == s[..last] + [s[last]];
    }
  }

  /** Exactly as many elements go as there are doomed positions inside the list. */
  lemma {:induction false} KeptLength<T>(s: seq<T>, doomed: set<int>, base: int)
    requires forall i :: i in doomed ==> base <= i < base + |s|
    ensures |Kept(s, doomed, base)| == |s| - |doomed|
    decreases |s|
  {
    if s == [] {
      assert doomed == {} by {
        forall i | i in doomed ensures false {
        }
      }
    } else {
      var last := |s| - 1;
      var rest := doomed - {base + last};
      KeptCongruent(s[..last], doomed, rest, base);
      KeptLength(s[..last], rest, base);
    }
  }

  /** An element survives exactly when it sits at a position that is not doomed. */
  lemma {:induction false} KeptMembers<T>(s: seq<T>, doomed: set<int>, base: int, x: T)
    ensures x in Kept(s, doomed, base) <==>
      exists i :: 0 <= i < |s| && base + i !in doomed && s[i] == x
    decreases |s|
  {
    if s != [] {
      var last := |s| - 1;
      KeptMembers(s[..last], doomed, base, x);
      if x in Kept(s, doomed, base) && x !in Kept(s[..last], doomed, base) {
        assert base + last !in doomed && s[last] == x;
      }
      if i :| 0 <= i < |s| && base + i !in doomed && s[i] == x {
        if i < last {
          assert s[..last][i] == x;
        }
      }
    }
  }

  /**
   * Deleting positions in increasing order from the live list: once every
   * position below `p` in `done` is gone, the element first at `p` is at
   * `p - |done|`, and removing it there deletes position `p`.
   */
  lemma AscendingDeleteStep<T>(s: seq<T>, done: set<int>, p: int)
    requires 0 <= p < |s|
    requires forall i :: i in done ==> 0 <= i < p
    ensures 0 <= p - |done| < |Without(s, done)|
    ensures Without(s, done + {p}) == RemoveAt(Without(s, done), p - |done|)
  {
    SplitBelow(s, done, p);
    SplitAt(s, done, p);
    var k := Kept(s[..p], done, 0);
    var w := Without(s, done);
    assert s[p..] == [s[p]] + s[p + 1..];
    assert w[..|k|] == k;
    assert w[|k| + 1..] == s[p + 1..];
  }

  /** With only positions below `p` deleted, everything from `p` on is untouched. */
  lemma SplitBelow<T>(s: seq<T>, done: set<int>, p: int)
    requires 0 <= p <= |s|
    requires forall i :: i in done ==> 0 <= i < p
    ensures Without(s, done) == Kept(s[..p], done, 0) + s[p..]
    ensures |Kept(s[..p], done, 0)| == p - |done|
  {
    assert s == s[..p] + s[p..];
    KeptConcat(s[..p], s[p..], done, 0);
    KeptNone(s[p..], done, p);
    KeptLength(s[..p], done, 0);
  }

  /** Deleting `p` as well removes exactly the element at `p` from the untouched part. */
  lemma SplitAt<T>(s: seq<T>, done: set<int>, p: int)
    requires 0 <= p < |s|
    requires forall i :: i in done ==> 0 <= i < p
    ensures Without(s, done + {p}) == Kept(s[..p], done, 0) + s[p + 1..]
  {
    assert s == s[..p] + ([s[p]] + s[p + 1..]);
    DropMiddle(s[..p], s[p], s[p + 1..], done);
  }

  /** Deleting the position of `x`, and positions before it, from `front + [x] + rest`. */
  lemma DropMiddle<T>(front: seq<T>, x: T, rest: seq<T>, done: set<int>)
    requires forall i :: i in done ==> 0 <= i < |front|
    ensures Kept(front + ([x] + rest), done + {|front|}, 0) == Kept(front, done, 0) + rest
  {
    var gone := done + {|front|};
    var tail := [x] + rest;
    assert Kept(front + tail, gone, 0) == Kept(front, gone, 0) + Kept(tail, gone, |front|) by {
      KeptConcat(front, tail, gone, 0);
    }
    assert Kept(front, gone, 0) == Kept(front, done, 0) by {
      KeptCongruent(front, gone, done, 0);
    }
    assert Kept(tail, gone, |front|) == rest by {
      DropHead(x, rest, gone, |front|);
      KeptNone(rest, gone, |front| + 1);
    }
  }

  /** A doomed head goes; the rest is deleted from one position further on. */
  lemma DropHead<T>(x: T, rest: seq<T>, doomed: set<int>, base: int)
    requires base in doomed
    ensures Kept([x] + rest, doomed, base) == Kept(rest, doomed, base + 1)
  {
    KeptConcat([x], rest, doomed, base);
    KeptSingle(x, doomed, base);
  }

  /** A head that is not doomed stays in front of what is kept of the rest. */
  lemma KeepHead<T>(x: T, rest: seq<T>, doomed: set<int>, base: int)
    requires base !in doomed
    ensures Kept([x] + rest, doomed, base) == [x] + Kept(rest, doomed, base + 1)
  {
    KeptConcat([x], rest, doomed, base);
    KeptSingle(x, doomed, base);
  }

  /** A one-element list keeps its element exactly when its position is not doomed. */
  lemma KeptSingle<T>(x: T, doomed: set<int>, base: int)
    ensures Kept([x], doomed, base) == if base in doomed then [] else [x]
  {
    assert [x][..0] == [];
  }

  /**
   * Deleting positions in decreasing order from the live list: with only
   * positions above `p` gone, the element at `p` is still at `p`.
   */
  lemma DescendingDeleteStep<T>(s: seq<T>, done: set<int>, p: int)
    requires 0 <= p < |s|
    requires forall i :: i in done ==> p < i
    ensures p < |Without(s, done)|
    ensures Without(s, done + {p}) == RemoveAt(Without(s, done), p)
  {
    SplitAboveKeep(s, done, p);
    SplitAboveDrop(s, done, p);
    var w := Without(s, done);
    assert w[..p] == s[..p];
    assert w[p + 1..] == Kept(s[p + 1..], done, p + 1);
  }

  /** With only positions above `p` deleted, everything up to `p` is untouched. */
  lemma SplitAboveKeep<T>(s: seq<T>, done: set<int>, p: int)
    requires 0 <= p < |s|
    requires forall i :: i in done ==> p < i
    ensures Without(s, done) == s[..p] + [s[p]] + Kept(s[p + 1..], done, p + 1)
  {
    assert s == s[..p] + ([s[p]] + s[p + 1..]);
    KeepAfter(s[..p], s[p], s[p + 1..], done);
  }

  /** Deleting `p` as well removes just the element at `p` from the untouched part. */
  lemma SplitAboveDrop<T>(s: seq<T>, done: set<int>, p: int)
    requires 0 <= p < |s|
    requires forall i :: i in done ==> p < i
    ensures Without(s, done + {p}) == s[..p] + Kept(s[p + 1..], done, p + 1)
  {
    assert s == s[..p] + ([s[p]] + s[p + 1..]);
    DropAfter(s[..p], s[p], s[p + 1..], done);
  }

  /** Deleting only positions after `x` from `front + [x] + rest` keeps `front` and `x`. */
  lemma KeepAfter<T>(front: seq<T>, x: T, rest: seq<T>, done: set<int>)
    requires forall i :: i in done ==> |front| < i
    ensures Kept(front + ([x] + rest), done, 0) == front + [x] + Kept(rest, done, |front| + 1)
  {
    KeptConcat(front, [x] + rest, done, 0);
    KeptNone(front, done, 0);
    KeepHead(x, rest, done, |front|);
  }

  /** Deleting the position of `x`, and positions after it, from `front + [x] + rest`. */
  lemma DropAfter<T>(front: seq<T>, x: T, rest: seq<T>, done: set<int>)
    requires forall i :: i in done ==> |front| < i
    ensures Kept(front + ([x] + rest), done + {|front|}, 0) == front + Kept(rest, done, |front| + 1)
  {
    var gone := done + {|front|};
    KeptConcat(front, [x] + rest, gone, 0);
    KeptNone(front, gone, 0);
    DropHead(x, rest, gone, |front|);
    KeptCongruent(rest, gone, done, |front| + 1);
  }

  /**
   * Deleting rows of the reversed list is deleting the facing positions of the
   * list itself, then reversing.
   */
  lemma {:induction false} KeptMirror<T>(s: seq<T>, doomed: set<int>, base: int)
    ensures Reversed(Kept(s, Mirror(doomed, base, |s|), 0)) == Kept(Reversed(s), doomed, base)
    decreases |s|
  {
    if s == [] {
      assert Reversed(s) == [];
    } else {
      var n := |s|;
      var init := s[..n - 1];
      var mirror := Mirror(doomed, base, n);
      var tail := if base in doomed then [] else [s[n - 1]];
      var k := Kept(init, mirror, 0);
      MirrorShift(doomed, base, n);
      calc {
        Reversed(Kept(s, mirror, 0));
      ==
        Reversed(k + tail);
      == { ReversedConcat(k, tail); assert Reversed(tail) == tail; }
        tail + Reversed(k);
      == { KeptCongruent(init, mirror, Mirror(doomed, base + 1, n - 1), 0);
           KeptMirror(init, doomed, base + 1); }
        tail + Kept(Reversed(init), doomed, base + 1);
      == { KeptSingle(s[n - 1], doomed, base); KeptConcat([s[n - 1]], Reversed(init), doomed, base); }
        Kept([s[n - 1]] + Reversed(init), doomed, base);
      == { ReversedCons(s); }
        Kept(Reversed(s), doomed, base);
      }
    }
  }

  /**
   * The last position of a list of length `n` faces `base`; the others face
   * what they face in the list without it, one further along.
   */
  lemma MirrorShift(doomed: set<int>, base: int, n: nat)
    requires n > 0
    ensures n - 1 in Mirror(doomed, base, n) <==> base in doomed
    ensures forall i :: 0 <= i < n - 1 ==>
      (i in Mirror(doomed, base, n) <==> i in Mirror(doomed, base + 1, n - 1))
  {
    assert Facing(base, n, n - 1) == base;
    forall i | 0 <= i < n - 1
      ensures i in Mirror(doomed, base, n) <==> i in Mirror(doomed, base + 1, n - 1)
    {
      assert Facing(base, n, i) == Facing(base + 1, n - 1, i);
    }
  }

  /** Reading a non-empty list back to front starts with its last element. */
  lemma ReversedCons<T>(s: seq<T>)
    requires |s| > 0
    ensures Reversed(s) == [s[|s| - 1]] + Reversed(s[..|s| - 1])
  {
  }

  /** Reversal turns a concatenation around. */
  lemma ReversedConcat<T>(a: seq<T>, b: seq<T>)
    ensures Reversed(a + b) == Reversed(b) + Reversed(a)
  {
  }

  lemma WithoutMirror<T>(s: seq<T>, doomed: set<int>)
    ensures Reversed(Without(s, Mirror(doomed, 0, |s|))) == Without(Reversed(s), doomed)
  {
    KeptMirror(s, doomed, 0);
  }

  /** The store behind `@Query private var items: [Item]`, oldest first. */
  class ModelContext {
    var items: seq<Item>

    constructor (items: seq<Item>)
      ensures this.items == items
    {
      this.items := items;
    }

    /** `modelContext.insert`: the new record is the last one read back. */
    method Insert(item: Item)
      modifies this
      ensures items == old(items) + [item]
    {
      items := items + [item];
    }

    /** `modelContext.delete` of the record now at `position`. */
    method Delete(position: int)
      requires 0 <= position < |items|
      modifies this
      ensures items == RemoveAt(old(items), position)
    {
      items := items[..position] + items[position + 1..];
    }
  }
}
