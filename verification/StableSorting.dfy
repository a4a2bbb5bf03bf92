/** What a stable sort returns: the array sort of the language and ORDER BY over a total order. */
module StableSorting {

  /** Total and transitive, but different elements may tie. */
  ghost predicate IsPreorder<T(!new)>(le: (T, T) -> bool) {
    && (forall a, b :: le(a, b) || le(b, a))
    && (forall a, b, c :: le(a, b) && le(b, c) ==> le(a, c))
  }

  ghost predicate IsSorted<T>(s: seq<T>, le: (T, T) -> bool) {
    forall i, j :: 0 <= i < j < |s| ==> le(s[i], s[j])
  }

  /** Puts `x` in front of everything it does not exceed, so ahead of its ties. */
  function Insert<T>(x: T, s: seq<T>, le: (T, T) -> bool): (r: seq<T>)
    ensures multiset(r) == multiset{x} + multiset(s)
  {
    if s == [] then [x]
    else if le(x, s[0]) then [x] + s
    else
      assert s == [s[0]] + s[1..];
      [s[0]] + Insert(x, s[1..], le)
  }

  function Sort<T>(s: seq<T>, le: (T, T) -> bool): (r: seq<T>)
    ensures multiset(r) == multiset(s)
    ensures |r| == |s|
  {
    if s == [] then []
    else
      assert s == [s[0]] + s[1..];
      var r := Insert(s[0], Sort(s[1..], le), le);
      assert |multiset(r)| == |r| && |multiset(s)| == |s|;
      r
  }

  function Filter<T>(s: seq<T>, keep: T -> bool): seq<T> {
    if s == [] then [] else (if keep(s[0]) then [s[0]] else []) + Filter(s[1..], keep)
  }

  lemma InMultiset<T>(s: seq<T>, t: seq<T>, x: T)
    requires multiset(s) == multiset(t)
    ensures x in s <==> x in t
  {
    assert x in s <==> x in multiset(s);
    assert x in t <==> x in multiset(t);
  }

  lemma {:induction false} InsertIsSorted<T(!new)>(x: T, s: seq<T>, le: (T, T) -> bool)
    requires IsPreorder(le) && IsSorted(s, le)
    ensures IsSorted(Insert(x, s, le), le)
  {
    if s != [] && !le(x, s[0]) {
      var rest := Insert(x, s[1..], le);
      InsertIsSorted(x, s[1..], le);
      forall i | 0 <= i < |rest| ensures le(s[0], rest[i]) {
        assert rest[i] in multiset(rest);
        if rest[i] != x {
          assert rest[i] in s[1..];
        }
      }
    }
  }

  lemma {:induction false} SortIsSorted<T(!new)>(s: seq<T>, le: (T, T) -> bool)
    requires IsPreorder(le)
    ensures IsSorted(Sort(s, le), le)
  {
    if s != [] {
      SortIsSorted(s[1..], le);
      InsertIsSorted(s[0], Sort(s[1..], le), le);
    }
  }

  predicate Ties<T>(a: T, b: T, le: (T, T) -> bool) {
    le(a, b) && le(b, a)
  }

  /** The elements that tie with `x`, in order. */
  function TiesWith<T>(s: seq<T>, x: T, le: (T, T) -> bool): seq<T> {
    if s == [] then [] else (if Ties(s[0], x, le) then [s[0]] else []) + TiesWith(s[1..], x, le)
  }

  lemma TiesAreTransitive<T(!new)>(x: T, y: T, key: T, le: (T, T) -> bool)
    requires IsPreorder(le) && Ties(x, key, le) && Ties(y, key, le)
    ensures le(x, y)
  {
    assert le(x, key) && le(key, y);
  }

  lemma TiesOfCons<T>(x: T, s: seq<T>, key: T, le: (T, T) -> bool)
    ensures TiesWith([x] + s, key, le) == (if Ties(x, key, le) then [x] else []) + TiesWith(s, key, le)
  {
    assert ([x] + s)[1..] == s;
  }

  /** `x` goes in front of the elements that tie with it, and moves nothing else. */
  lemma {:induction false} InsertIsStable<T>(x: T, s: seq<T>, key: T, le: (T, T) -> bool)
    requires Ties(x, key, le) ==> forall i :: 0 <= i < |s| && Ties(s[i], key, le) ==> le(x, s[i])
    ensures TiesWith(Insert(x, s, le), key, le) == (if Ties(x, key, le) then [x] else []) + TiesWith(s, key, le)
  {
    if s == [] || le(x, s[0]) {
      assert s == [] ==> [x] + s == [x];
      TiesOfCons(x, s, key, le);
    } else {
      var rest := TiesWith(s[1..], key, le);
      InsertIsStable(x, s[1..], key, le);
      TiesOfCons(s[0], Insert(x, s[1..], le), key, le);
      if Ties(x, key, le) {
        assert TiesWith(s, key, le) == rest;
      } else {
        assert [] + rest == rest;
      }
    }
  }

  /** Stability: tied elements keep the order they came in. */
  lemma {:induction false} SortIsStable<T(!new)>(s: seq<T>, key: T, le: (T, T) -> bool)
    requires IsPreorder(le)
    ensures TiesWith(Sort(s, le), key, le) == TiesWith(s, key, le)
  {
    if s != [] {
      SortIsStable(s[1..], key, le);
      var rest := Sort(s[1..], le);
      if Ties(s[0], key, le) {
        forall i | 0 <= i < |rest| && Ties(rest[i], key, le) ensures le(s[0], rest[i]) {
          TiesAreTransitive(s[0], rest[i], key, le);
        }
      }
      InsertIsStable(s[0], rest, key, le);
    }
  }

  lemma SameLeast<T>(s: seq<T>, t: seq<T>, le: (T, T) -> bool)
    requires IsSorted(s, le) && IsSorted(t, le) && multiset(s) == multiset(t)
    requires forall a, b :: a in s && b in s && Ties(a, b, le) ==> a == b
    requires s != [] && t != []
    ensures s[0] == t[0]
  {
    InMultiset(s, t, s[0]);
    InMultiset(s, t, t[0]);
  }

  /** Sorted lists of the same elements are equal once no two of those elements tie. */
  lemma {:induction false} SortedIsUnique<T>(s: seq<T>, t: seq<T>, le: (T, T) -> bool)
    requires IsSorted(s, le) && IsSorted(t, le) && multiset(s) == multiset(t)
    requires forall a, b :: a in s && b in s && Ties(a, b, le) ==> a == b
    ensures s == t
  {
    assert |multiset(s)| == |s| && |multiset(t)| == |t|;
    if s != [] {
      SameLeast(s, t, le);
      TailMultiset(s);
      TailMultiset(t);
      SortedIsUnique(s[1..], t[1..], le);
    }
  }

  lemma TailMultiset<T>(s: seq<T>)
    requires s != []
    ensures multiset(s[1..]) == multiset(s) - multiset{s[0]}
  {
    assert s == [s[0]] + s[1..];
  }

  lemma {:induction false} FilterMembers<T>(s: seq<T>, keep: T -> bool, x: T)
    ensures x in Filter(s, keep) <==> x in s && keep(x)
  {
    if s != [] {
      assert s == [s[0]] + s[1..];
      FilterMembers(s[1..], keep, x);
    }
  }
}
