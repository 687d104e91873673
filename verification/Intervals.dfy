/** Ordered lists of half-open segments, the representation behind record locks
    (segments of bytes) and mappings (segments of pages).  `At` is the meaning of a
    list: what it assigns to one position. */
module Intervals {
  import opened Basics

  datatype Seg<+T> = Seg(lo: nat, hi: nat, val: T)

  /** Non-empty segments, in order, disjoint, none starting before `from`. */
  ghost predicate Sorted<T>(l: seq<Seg<T>>, from: nat) {
    l == [] || (from <= l[0].lo < l[0].hi && Sorted(l[1..], l[0].hi))
  }

  function At<T>(l: seq<Seg<T>>, p: nat): Option<T> {
    if l == [] then None
    else if l[0].lo <= p < l[0].hi then Some(l[0].val)
    else At(l[1..], p)
  }

  /** What is left of one segment outside [lo, hi): nothing, one piece or two. */
  function Pieces<T>(s: Seg<T>, lo: nat, hi: nat): seq<Seg<T>> {
    (if s.lo < lo then [Seg(s.lo, Min(s.hi, lo), s.val)] else []) +
    (if hi < s.hi then [Seg(Max(s.lo, hi), s.hi, s.val)] else [])
  }

  /** Removes every position of [lo, hi), splitting the segments it cuts. */
  function Carve<T>(l: seq<Seg<T>>, lo: nat, hi: nat): seq<Seg<T>> {
    if l == [] then [] else Pieces(l[0], lo, hi) + Carve(l[1..], lo, hi)
  }

  function Insert<T>(l: seq<Seg<T>>, s: Seg<T>): seq<Seg<T>> {
    if l == [] || s.hi <= l[0].lo then [s] + l else [l[0]] + Insert(l[1..], s)
  }

  /** Replaces whatever [lo, hi) held by one segment. */
  function Put<T>(l: seq<Seg<T>>, lo: nat, hi: nat, val: T): seq<Seg<T>> {
    Insert(Carve(l, lo, hi), Seg(lo, hi, val))
  }

  predicate Overlaps<T>(s: Seg<T>, lo: nat, hi: nat) {
    s.lo < hi && lo < s.hi
  }

  /** The first segment that meets [lo, hi) and is objectionable. */
  function Find<T>(l: seq<Seg<T>>, lo: nat, hi: nat, bad: T -> bool): Option<Seg<T>> {
    if l == [] then None
    else if Overlaps(l[0], lo, hi) && bad(l[0].val) then Some(l[0])
    else Find(l[1..], lo, hi, bad)
  }

  /** No position of [lo, hi) is objectionable. */
  ghost predicate Clear<T>(l: seq<Seg<T>>, lo: nat, hi: nat, bad: T -> bool) {
    forall p: nat | lo <= p < hi :: At(l, p).None? || !bad(At(l, p).value)
  }

  lemma {:induction false} SortedWeaken<T>(l: seq<Seg<T>>, from: nat, to: nat)
    requires Sorted(l, from) && to <= from
    ensures Sorted(l, to)
  {
  }

  lemma {:induction false} AtBefore<T>(l: seq<Seg<T>>, from: nat, p: nat)
    requires Sorted(l, from) && p < from
    ensures At(l, p) == None
  {
    if l != [] { AtBefore(l[1..], l[0].hi, p); }
  }

  lemma {:induction false} AtAppend<T>(a: seq<Seg<T>>, b: seq<Seg<T>>, p: nat)
    ensures At(a + b, p) == if At(a, p).Some? then At(a, p) else At(b, p)
  {
    if a == [] {
      assert a + b == b;
    } else {
      assert (a + b)[1..] == a[1..] + b;
      AtAppend(a[1..], b, p);
    }
  }

  lemma {:induction false} SortedPrepend<T>(a: seq<Seg<T>>, b: seq<Seg<T>>, from: nat, mid: nat)
    requires Sorted(a, from) && Sorted(b, mid) && from <= mid
    requires forall i | 0 <= i < |a| :: a[i].hi <= mid
    ensures Sorted(a + b, from)
  {
    if a == [] {
      assert a + b == b;
      SortedWeaken(b, mid, from);
    } else {
      assert (a + b)[1..] == a[1..] + b;
      SortedPrepend(a[1..], b, a[0].hi, mid);
    }
  }

  lemma AtPieces<T>(s: Seg<T>, lo: nat, hi: nat, p: nat)
    requires s.lo < s.hi && lo < hi
    ensures At(Pieces(s, lo, hi), p) == if s.lo <= p < s.hi && !(lo <= p < hi) then Some(s.val) else None
  {
    var left := if s.lo < lo then [Seg(s.lo, Min(s.hi, lo), s.val)] else [];
    var right := if hi < s.hi then [Seg(Max(s.lo, hi), s.hi, s.val)] else [];
    AtAppend(left, right, p);
  }

  /** Carving removes exactly the positions of the range and nothing else. */
  lemma {:induction false} CarveSpec<T>(l: seq<Seg<T>>, from: nat, lo: nat, hi: nat)
    requires Sorted(l, from) && lo < hi
    ensures Sorted(Carve(l, lo, hi), from)
    ensures forall p: nat :: At(Carve(l, lo, hi), p) == if lo <= p < hi then None else At(l, p)
  {
    if l != [] {
      var head, tail := Pieces(l[0], lo, hi), Carve(l[1..], lo, hi);
      CarveSpec(l[1..], l[0].hi, lo, hi);
      assert Sorted(head, from);
      SortedPrepend(head, tail, from, l[0].hi);
      forall p: nat ensures At(Carve(l, lo, hi), p) == if lo <= p < hi then None else At(l, p) {
        AtAppend(head, tail, p);
        AtPieces(l[0], lo, hi, p);
        if l[0].lo <= p < l[0].hi { AtBefore(l[1..], l[0].hi, p); }
      }
    }
  }

  lemma {:induction false} InsertSpec<T>(l: seq<Seg<T>>, from: nat, s: Seg<T>)
    requires Sorted(l, from) && from <= s.lo < s.hi
    requires forall p: nat | s.lo <= p < s.hi :: At(l, p) == None
    ensures Sorted(Insert(l, s), from)
    ensures forall p: nat :: At(Insert(l, s), p) == if s.lo <= p < s.hi then Some(s.val) else At(l, p)
  {
    if l == [] || s.hi <= l[0].lo {
      assert Insert(l, s)[1..] == l;
      if l != [] { SortedWeaken(l, l[0].lo, s.hi); }
    } else {
      var p := Max(s.lo, l[0].lo);
      assert s.lo <= p < s.hi ==> At(l, p) == None;
      assert l[0].hi <= s.lo;
      forall p: nat | s.lo <= p < s.hi ensures At(l[1..], p) == None { assert At(l, p) == None; }
      InsertSpec(l[1..], l[0].hi, s);
      assert Insert(l, s)[1..] == Insert(l[1..], s);
    }
  }

  /** `Put` overwrites the range and keeps every other position. */
  lemma PutSpec<T>(l: seq<Seg<T>>, lo: nat, hi: nat, val: T)
    requires Sorted(l, 0) && lo < hi
    ensures Sorted(Put(l, lo, hi, val), 0)
    ensures forall p: nat :: At(Put(l, lo, hi, val), p) == if lo <= p < hi then Some(val) else At(l, p)
  {
    CarveSpec(l, 0, lo, hi);
    InsertSpec(Carve(l, lo, hi), 0, Seg(lo, hi, val));
  }

  lemma ClearTail<T>(l: seq<Seg<T>>, lo: nat, hi: nat, bad: T -> bool)
    requires l != [] && Sorted(l, l[0].lo) && !(Overlaps(l[0], lo, hi) && bad(l[0].val))
    ensures Clear(l, lo, hi, bad) <==> Clear(l[1..], lo, hi, bad)
  {
    forall p: nat | l[0].lo <= p < l[0].hi ensures At(l[1..], p) == None && At(l, p) == Some(l[0].val) {
      AtBefore(l[1..], l[0].hi, p);
    }
    forall p: nat | !(l[0].lo <= p < l[0].hi) ensures At(l, p) == At(l[1..], p) {}
    if Clear(l, lo, hi, bad) {
      forall p: nat | lo <= p < hi ensures At(l[1..], p).None? || !bad(At(l[1..], p).value) {
        assert At(l, p).None? || !bad(At(l, p).value);
      }
    }
    if Clear(l[1..], lo, hi, bad) {
      forall p: nat | lo <= p < hi ensures At(l, p).None? || !bad(At(l, p).value) {
        assert At(l[1..], p).None? || !bad(At(l[1..], p).value);
      }
    }
  }

  /** The search over segments answers the question about positions, and what it finds
      is a segment of the list. */
  lemma {:induction false} FindSpec<T>(l: seq<Seg<T>>, from: nat, lo: nat, hi: nat, bad: T -> bool)
    requires Sorted(l, from) && lo < hi
    ensures Find(l, lo, hi, bad).None? <==> Clear(l, lo, hi, bad)
    ensures Find(l, lo, hi, bad).Some? ==>
      var s := Find(l, lo, hi, bad).value;
      s.lo < s.hi && Overlaps(s, lo, hi) && bad(s.val) && forall p: nat | s.lo <= p < s.hi :: At(l, p) == Some(s.val)
  {
    if l != [] {
      if Overlaps(l[0], lo, hi) && bad(l[0].val) {
        var p := Max(lo, l[0].lo);
        assert At(l, p) == Some(l[0].val);
      } else {
        FindSpec(l[1..], l[0].hi, lo, hi, bad);
        ClearTail(l, lo, hi, bad);
        if Find(l[1..], lo, hi, bad).Some? {
          var s := Find(l[1..], lo, hi, bad).value;
          forall p: nat | s.lo <= p < s.hi ensures At(l, p) == Some(s.val) {
            assert At(l[1..], p) == Some(s.val);
            if p < l[0].hi { AtBefore(l[1..], l[0].hi, p); }
          }
        }
      }
    }
  }

  /** Carving an already empty range changes nothing, not even the list. */
  lemma {:induction false} CarveEmptyRange<T>(l: seq<Seg<T>>, from: nat, lo: nat, hi: nat)
    requires Sorted(l, from) && lo < hi
    requires forall p: nat | lo <= p < hi :: At(l, p) == None
    ensures Carve(l, lo, hi) == l
  {
    if l != [] {
      var q := Max(lo, l[0].lo);
      assert lo <= q < hi ==> At(l, q) == None;
      assert !Overlaps(l[0], lo, hi);
      forall p: nat | lo <= p < hi ensures At(l[1..], p) == None { assert At(l, p) == None; }
      CarveEmptyRange(l[1..], l[0].hi, lo, hi);
      assert Pieces(l[0], lo, hi) == [l[0]];
    }
  }
}
