/** The list of pitches currently held on the accompaniment input channel:
    kept ascending and free of duplicates. */
module HeldNotes {

  predicate StrictlySorted(s: seq<int>)
  {
    forall i, j :: 0 <= i < j < |s| ==> s[i] < s[j]
  }

  /** Pressing a pitch that is not held: the list with the pitch added, in
      ascending order (appending and sorting, as the tracker does). */
  function Insert(s: seq<int>, x: int): (r: seq<int>)
    requires StrictlySorted(s) && x !in s
    ensures StrictlySorted(r)
    ensures multiset(r) == multiset(s) + multiset{x}
    ensures forall y :: y in r <==> y in s || y == x
  {
    if s == [] then [x]
    else if x < s[0] then [x] + s
    else
      var rest := Insert(s[1..], x);
      ConsParts(s);
      FirstIsLeast(s);
      SortedCons(s[0], rest);
      [s[0]] + rest
  }

  /** Releasing a pitch: every occurrence of it is erased, every other
      pitch is kept. */
  function Remove(s: seq<int>, x: int): (r: seq<int>)
    ensures x !in r
    ensures forall y :: y != x ==> multiset(r)[y] == multiset(s)[y]
    ensures forall y :: y in r <==> y in s && y != x
    ensures StrictlySorted(s) ==> StrictlySorted(r)
  {
    if s == [] then []
    else
      assert s == [s[0]] + s[1..];
      var rest := Remove(s[1..], x);
      if s[0] == x then
        SortedTail(s);
        rest
      else
        SortedTail(s);
        if StrictlySorted(s) then
          FirstIsLeast(s);
          SortedCons(s[0], rest);
          [s[0]] + rest
        else
          [s[0]] + rest
  }

  /** A non-empty ascending list is its head before its ascending tail. */
  lemma ConsParts(s: seq<int>)
    requires s != [] && StrictlySorted(s)
    ensures s == [s[0]] + s[1..] && StrictlySorted(s[1..])
    ensures multiset(s) == multiset{s[0]} + multiset(s[1..])
    ensures forall y :: y in s <==> y == s[0] || y in s[1..]
  {
    assert s == [s[0]] + s[1..];
  }

  lemma SortedTail(s: seq<int>)
    requires s != []
    ensures StrictlySorted(s) ==> StrictlySorted(s[1..])
  {
  }

  /** The head of an ascending list is below every later element. */
  lemma FirstIsLeast(s: seq<int>)
    requires s != [] && StrictlySorted(s)
    ensures forall y :: y in s[1..] ==> s[0] < y
    ensures forall y :: y in s ==> s[0] <= y
  {
    forall y | y in s ensures s[0] <= y {
      var k :| 0 <= k < |s| && s[k] == y;
    }
    forall y | y in s[1..] ensures s[0] < y {
      var k :| 0 <= k < |s[1..]| && s[1..][k] == y;
      assert s[k + 1] == y;
    }
  }

  lemma SortedCons(h: int, t: seq<int>)
    requires StrictlySorted(t) && forall y :: y in t ==> h < y
    ensures StrictlySorted([h] + t)
  {
    forall i, j | 0 <= i < j < |[h] + t| ensures ([h] + t)[i] < ([h] + t)[j] {
      if i == 0 {
        assert ([h] + t)[j] == t[j - 1];
        assert t[j - 1] in t;
      }
    }
  }

  /** A strictly ascending list is determined by the pitches it holds. */
  lemma {:induction false} SortedByElements(a: seq<int>, b: seq<int>)
    requires StrictlySorted(a) && StrictlySorted(b)
    requires forall x :: x in a <==> x in b
    ensures a == b
  {
    if a == [] || b == [] {
      EmptyTogether(a, b);
    } else {
      assert a[0] == b[0] by {
        assert b[0] in b && a[0] in a;
        assert b[0] in a && a[0] in b;
        FirstIsLeast(a);
        FirstIsLeast(b);
      }
      forall x
        ensures x in a[1..] <==> x in b[1..]
      {
        if x in a[1..] {
          var i :| 0 <= i < |a[1..]| && a[1..][i] == x;
          assert a[i + 1] == x && a[0] < x;
        }
        if x in b[1..] {
          var i :| 0 <= i < |b[1..]| && b[1..][i] == x;
          assert b[i + 1] == x && b[0] < x;
        }
        assert x in a <==> x == a[0] || x in a[1..] by { assert a == [a[0]] + a[1..]; }
        assert x in b <==> x == b[0] || x in b[1..] by { assert b == [b[0]] + b[1..]; }
      }
      SortedByElements(a[1..], b[1..]);
      assert a == [a[0]] + a[1..] && b == [b[0]] + b[1..];
    }
  }

  lemma EmptyTogether(a: seq<int>, b: seq<int>)
    requires forall x :: x in a <==> x in b
    ensures a == [] <==> b == []
  {
    if a != [] {
      var y := a[0];
      assert y in a;
    }
    if b != [] {
      var y := b[0];
      assert y in b;
    }
  }

  /** Pressing and then releasing a pitch that was not held restores the list. */
  lemma PressThenRelease(s: seq<int>, x: int)
    requires StrictlySorted(s) && x !in s
    ensures Remove(Insert(s, x), x) == s
  {
    SortedByElements(Remove(Insert(s, x), x), s);
  }

  /** Releasing and then pressing a held pitch restores the list. */
  lemma ReleaseThenPress(s: seq<int>, x: int)
    requires StrictlySorted(s) && x in s
    ensures Insert(Remove(s, x), x) == s
  {
    SortedByElements(Insert(Remove(s, x), x), s);
  }

  /** The list after a press is the same whatever order pitches arrive in. */
  lemma PressesCommute(s: seq<int>, x: int, y: int)
    requires StrictlySorted(s) && x !in s && y !in s && x != y
    ensures Insert(Insert(s, x), y) == Insert(Insert(s, y), x)
  {
    SortedByElements(Insert(Insert(s, x), y), Insert(Insert(s, y), x));
  }
}
