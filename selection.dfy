/** The list edits the view models make on their `@Published` arrays:
    toggling an element in or out of a selection, `removeAll(where:)` and
    replacing the first element that matches. */
module Selection {

  /** `same` is an equivalence, as every `==` the app uses is. */
  ghost predicate Equivalence<T(!new)>(same: (T, T) -> bool) {
    && (forall a :: same(a, a))
    && (forall a, b :: same(a, b) ==> same(b, a))
    && (forall a, b, c :: same(a, b) && same(b, c) ==> same(a, c))
  }

  /** No two elements of `s` are `same`. */
  ghost predicate DistinctBy<T>(s: seq<T>, same: (T, T) -> bool) {
    forall i, j :: 0 <= i < j < |s| ==> !same(s[i], s[j])
  }

  /** `firstIndex(of: x)` under `same`; `|s|` when there is none. */
  function IndexOfSame<T>(s: seq<T>, x: T, same: (T, T) -> bool): (i: nat)
    ensures i <= |s|
    ensures i < |s| ==> same(s[i], x)
    ensures forall j :: 0 <= j < i && j < |s| ==> !same(s[j], x)
  {
    if s == [] then 0
    else if same(s[0], x) then 0
    else
      var i := IndexOfSame(s[1..], x, same);
      assert forall j :: 1 <= j < i + 1 && j < |s| ==> s[j] == s[1..][j - 1];
      i + 1
  }

  /** `if let index = s.firstIndex(of: x) { s.remove(at: index) } else
      { s.append(x) }`. */
  function Toggle<T>(s: seq<T>, x: T, same: (T, T) -> bool): seq<T> {
    var i := IndexOfSame(s, x, same);
    if i < |s| then s[..i] + s[i + 1..] else s + [x]
  }

  /** Toggling an element that is not selected, and then toggling it again,
      gives back the selection. */
  lemma ToggleTwiceRestores<T(!new)>(s: seq<T>, x: T, same: (T, T) -> bool)
    requires Equivalence(same) && IndexOfSame(s, x, same) == |s|
    ensures Toggle(s, x, same) == s + [x]
    ensures Toggle(Toggle(s, x, same), x, same) == s
  {
    var once := s + [x];
    var i := IndexOfSame(once, x, same);
    assert once[|s|] == x;
    assert i == |s|;
    assert once[..|s|] == s;
  }

  /** After a toggle, some element is `same` as `x` exactly when none was. */
  lemma ToggleFlips<T(!new)>(s: seq<T>, x: T, same: (T, T) -> bool)
    requires Equivalence(same) && DistinctBy(s, same)
    ensures (IndexOfSame(Toggle(s, x, same), x, same) < |Toggle(s, x, same)|) <==> IndexOfSame(s, x, same) == |s|
  {
    var i := IndexOfSame(s, x, same);
    var r := Toggle(s, x, same);
    var k := IndexOfSame(r, x, same);
    if i == |s| {
      assert r[|s|] == x;
    }
  }

  /** A toggle keeps a selection free of duplicates. */
  lemma ToggleKeepsDistinct<T(!new)>(s: seq<T>, x: T, same: (T, T) -> bool)
    requires Equivalence(same) && DistinctBy(s, same)
    ensures DistinctBy(Toggle(s, x, same), same)
  {
    var i := IndexOfSame(s, x, same);
    var r := Toggle(s, x, same);
    if i < |s| {
      forall a, b | 0 <= a < b < |r|
        ensures !same(r[a], r[b])
      {
        var a' := if a < i then a else a + 1;
        var b' := if b < i then b else b + 1;
        assert r[a] == s[a'] && r[b] == s[b'];
      }
    } else {
      forall a, b | 0 <= a < b < |r|
        ensures !same(r[a], r[b])
      {
        if b == |s| {
          assert r[a] == s[a] && r[b] == x;
        } else {
          assert r[a] == s[a] && r[b] == s[b];
        }
      }
    }
  }

  /** Every element that is not `same` as `x` is selected after a toggle
      exactly when it was before. */
  lemma ToggleKeepsOthers<T(!new)>(s: seq<T>, x: T, same: (T, T) -> bool, y: T)
    requires Equivalence(same) && !same(y, x)
    ensures y in Toggle(s, x, same) <==> y in s
  {
    var i := IndexOfSame(s, x, same);
    if i < |s| {
      assert s == s[..i] + [s[i]] + s[i + 1..];
      assert s[i] != y;
    } else {
      assert y != x;
    }
  }

  /** `removeAll(where: drop)`: the elements that are not dropped, in order. */
  function RemoveAll<T(!new)>(s: seq<T>, drop: T -> bool): (r: seq<T>)
    ensures |r| <= |s|
    ensures forall x :: x in r <==> x in s && !drop(x)
    ensures (forall i :: 0 <= i < |s| ==> !drop(s[i])) ==> r == s
  {
    if s == [] then []
    else
      assert s == [s[0]] + s[1..];
      (if drop(s[0]) then [] else [s[0]]) + RemoveAll(s[1..], drop)
  }

  /** `removeAll` works element by element: on a concatenation it is the
      concatenation of the two results, so the survivors keep their order. */
  lemma {:induction false} RemoveAllAppend<T(!new)>(a: seq<T>, b: seq<T>, drop: T -> bool)
    ensures RemoveAll(a + b, drop) == RemoveAll(a, drop) + RemoveAll(b, drop)
  {
    if a == [] {
      assert a + b == b;
    } else {
      assert (a + b)[1..] == a[1..] + b;
      RemoveAllAppend(a[1..], b, drop);
    }
  }

  /** Position `i` holds the first element of `s` that `matches`. */
  predicate FirstMatchAt<T>(s: seq<T>, matches: T -> bool, i: int)
    requires 0 <= i < |s|
  {
    matches(s[i]) && forall j :: 0 <= j < i ==> !matches(s[j])
  }

  /** Past a first element that does not match, the first match sits one
      place further than in the tail. */
  lemma FirstMatchInTail<T>(s: seq<T>, matches: T -> bool, i: int)
    requires 1 <= i < |s| && !matches(s[0])
    ensures FirstMatchAt(s, matches, i) <==> FirstMatchAt(s[1..], matches, i - 1)
  {
    var t := s[1..];
    assert t[i - 1] == s[i];
    if FirstMatchAt(t, matches, i - 1) {
      forall j | 0 <= j < i
        ensures !matches(s[j])
      {
        if j > 0 {
          assert s[j] == t[j - 1];
        }
      }
    }
    if FirstMatchAt(s, matches, i) {
      forall j | 0 <= j < i - 1
        ensures !matches(t[j])
      {
        assert t[j] == s[j + 1];
      }
    }
  }

  lemma FirstMatchesInTail<T>(s: seq<T>, matches: T -> bool)
    requires |s| > 0 && !matches(s[0])
    ensures forall i :: 1 <= i < |s| ==> (FirstMatchAt(s, matches, i) <==> FirstMatchAt(s[1..], matches, i - 1))
  {
    forall i | 1 <= i < |s|
      ensures FirstMatchAt(s, matches, i) <==> FirstMatchAt(s[1..], matches, i - 1)
    {
      FirstMatchInTail(s, matches, i);
    }
  }

  /** `if let index = s.firstIndex(where: matches) { s[index] = v }`. */
  function ReplaceFirst<T>(s: seq<T>, matches: T -> bool, v: T): (r: seq<T>)
    ensures |r| == |s|
    ensures (forall i :: 0 <= i < |s| ==> !matches(s[i])) ==> r == s
    ensures forall i :: 0 <= i < |s| ==> r[i] == if FirstMatchAt(s, matches, i) then v else s[i]
  {
    if s == [] then []
    else if matches(s[0]) then [v] + s[1..]
    else
      FirstMatchesInTail(s, matches);
      [s[0]] + ReplaceFirst(s[1..], matches, v)
  }

  /** `Set(s.map(id))`. */
  function IdSet<T>(s: seq<T>, id: T -> int): (r: set<int>)
    ensures forall k :: k in r <==> exists i :: 0 <= i < |s| && id(s[i]) == k
  {
    set i | 0 <= i < |s| :: id(s[i])
  }

  /** Reordering a list does not change its id set. */
  lemma IdSetOfPermutation<T>(a: seq<T>, b: seq<T>, id: T -> int)
    requires multiset(a) == multiset(b)
    ensures IdSet(a, id) == IdSet(b, id)
  {
    forall k | k in IdSet(a, id)
      ensures k in IdSet(b, id)
    {
      var i :| 0 <= i < |a| && id(a[i]) == k;
      assert a[i] in multiset(b);
      var j :| 0 <= j < |b| && b[j] == a[i];
    }
    forall k | k in IdSet(b, id)
      ensures k in IdSet(a, id)
    {
      var j :| 0 <= j < |b| && id(b[j]) == k;
      assert b[j] in multiset(a);
      var i :| 0 <= i < |a| && a[i] == b[j];
    }
  }

  /** Dropping the element at `i` from a list without duplicate ids takes
      exactly its id out of the id set. */
  lemma RemoveAtIdSet<T(!new)>(s: seq<T>, i: int, same: (T, T) -> bool, id: T -> int)
    requires 0 <= i < |s|
    requires forall a, b :: same(a, b) <==> id(a) == id(b)
    requires DistinctBy(s, same)
    ensures IdSet(s[..i] + s[i + 1..], id) == IdSet(s, id) - {id(s[i])}
  {
    var r := s[..i] + s[i + 1..];
    forall k | k in IdSet(r, id)
      ensures k in IdSet(s, id) && k != id(s[i])
    {
      var j :| 0 <= j < |r| && id(r[j]) == k;
      var j' := if j < i then j else j + 1;
      assert r[j] == s[j'];
      assert !same(s[j'], s[i]) && !same(s[i], s[j']);
    }
    forall k | k in IdSet(s, id) && k != id(s[i])
      ensures k in IdSet(r, id)
    {
      var j :| 0 <= j < |s| && id(s[j]) == k;
      if j < i {
        assert r[j] == s[j];
      } else {
        assert r[j - 1] == s[j];
      }
    }
  }

  /** Appending an element adds its id to the id set. */
  lemma AppendIdSet<T>(s: seq<T>, x: T, id: T -> int)
    ensures IdSet(s + [x], id) == IdSet(s, id) + {id(x)}
  {
    var r := s + [x];
    assert r[|s|] == x;
    forall k | k in IdSet(r, id)
      ensures k in IdSet(s, id) || k == id(x)
    {
      var j :| 0 <= j < |r| && id(r[j]) == k;
      if j < |s| {
        assert r[j] == s[j];
      }
    }
    forall k | k in IdSet(s, id)
      ensures k in IdSet(r, id)
    {
      var j :| 0 <= j < |s| && id(s[j]) == k;
      assert r[j] == s[j];
    }
  }

  /** Toggling `x` in a selection free of duplicates, where elements are the
      same exactly when their ids agree, removes its id when it was there and
      adds it otherwise. */
  lemma ToggleIdSet<T(!new)>(s: seq<T>, x: T, same: (T, T) -> bool, id: T -> int)
    requires forall a, b :: same(a, b) <==> id(a) == id(b)
    requires DistinctBy(s, same)
    ensures IdSet(Toggle(s, x, same), id) ==
      if id(x) in IdSet(s, id) then IdSet(s, id) - {id(x)} else IdSet(s, id) + {id(x)}
  {
    var i := IndexOfSame(s, x, same);
    if i < |s| {
      assert id(s[i]) == id(x);
      RemoveAtIdSet(s, i, same, id);
    } else {
      forall j | 0 <= j < |s|
        ensures id(s[j]) != id(x)
      {
        assert !same(s[j], x);
      }
      AppendIdSet(s, x, id);
    }
  }

  /** Removing every element with one id takes exactly that id out of the id
      set. */
  lemma RemoveAllIdSet<T(!new)>(s: seq<T>, id: T -> int, k: int, drop: T -> bool)
    requires forall x :: drop(x) <==> id(x) == k
    ensures IdSet(RemoveAll(s, drop), id) == IdSet(s, id) - {k}
  {
    var r := RemoveAll(s, drop);
    forall j
      ensures j in IdSet(r, id) <==> j in IdSet(s, id) - {k}
    {
      if j in IdSet(r, id) {
        var i :| 0 <= i < |r| && id(r[i]) == j;
        assert r[i] in r;
        var i' :| 0 <= i' < |s| && s[i'] == r[i];
      }
      if j in IdSet(s, id) - {k} {
        var i :| 0 <= i < |s| && id(s[i]) == j;
        assert s[i] in s;
        assert s[i] in r;
        var i' :| 0 <= i' < |r| && r[i'] == s[i];
      }
    }
  }
}
