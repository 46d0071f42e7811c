/** Lists without repetition: first occurrences, positions, and the bijection between two lists
    that hold the same values. */
module Sequences {
  import opened Common

  /** `list(dict.fromkeys(s))`: first occurrences, in order. */
  function Dedup<T(==)>(s: seq<T>): seq<T> {
    if s == [] then []
    else if Last(s) in Dedup(Init(s)) then Dedup(Init(s))
    else Dedup(Init(s)) + [Last(s)]
  }

  lemma {:induction false} DedupSound<T>(s: seq<T>)
    ensures Distinct(Dedup(s))
    ensures forall x :: x in Dedup(s) <==> x in s
  {
    if s != [] {
      DedupSound(Init(s));
      assert s == Init(s) + [Last(s)];
    }
  }

  /** A value that has already been listed changes nothing when it comes again. */
  lemma {:induction false} DedupSkipsRepeats<T>(a: seq<T>, x: T, b: seq<T>)
    requires x in a
    ensures Dedup(a + [x] + b) == Dedup(a + b)
  {
    if b == [] {
      assert a + [x] + b == a + [x] && a + b == a;
      assert Init(a + [x]) == a;
      DedupSound(a);
    } else {
      DedupSkipsRepeats(a, x, Init(b));
      assert Init(a + [x] + b) == a + [x] + Init(b) && Init(a + b) == a + Init(b);
    }
  }

  function IndexOf<T(==)>(s: seq<T>, x: T): (i: nat)
    requires x in s
    ensures i < |s| && s[i] == x
  {
    if s[0] == x then 0 else 1 + IndexOf(s[1..], x)
  }

  lemma IndexOfAt<T>(s: seq<T>, i: nat)
    requires Distinct(s) && i < |s|
    ensures IndexOf(s, s[i]) == i
  {
  }

  function Elements<T>(s: seq<T>): set<T> {
    set x | x in s
  }

  lemma {:induction false} DistinctLength<T>(s: seq<T>)
    requires Distinct(s)
    ensures |Elements(s)| == |s|
  {
    if s != [] {
      DistinctLength(Init(s));
      assert Elements(s) == Elements(Init(s)) + {Last(s)};
      assert Last(s) !in Init(s);
    }
  }

  /** Two lists of the same distinct values. */
  ghost predicate Reordered<T(!new)>(s: seq<T>, t: seq<T>) {
    Distinct(s) && Distinct(t) && forall x :: x in s <==> x in t
  }

  lemma ReorderedLength<T(!new)>(s: seq<T>, t: seq<T>)
    requires Reordered(s, t)
    ensures |s| == |t|
  {
    DistinctLength(s);
    DistinctLength(t);
    assert Elements(s) == Elements(t);
  }

  /** Where the value at position `i` of `s` stands in `t`; undone by going back. */
  lemma MovesBack<T(!new)>(s: seq<T>, t: seq<T>, i: nat)
    requires Reordered(s, t) && i < |s|
    ensures s[i] in t && t[IndexOf(t, s[i])] == s[i]
    ensures IndexOf(s, t[IndexOf(t, s[i])]) == i
  {
    IndexOfAt(s, i);
  }

  lemma DedupReordered<T(!new)>(s: seq<T>, t: seq<T>)
    requires forall x :: x in s <==> x in t
    ensures Reordered(Dedup(s), Dedup(t))
  {
    DedupSound(s);
    DedupSound(t);
  }
}
