/**
 * Python's ordering of strings (lexicographic by character code, a proper
 * prefix first) and the two uses of `sorted` in the tile server: sorting a
 * list of names, and sorting a set of names.
 */
module StringOrder {

  /** `a < b` on Python strings. */
  predicate Below(a: string, b: string)
  {
    if a == [] then b != []
    else if b == [] then false
    else if a[0] != b[0] then a[0] < b[0]
    else Below(a[1..], b[1..])
  }

  lemma {:induction false} BelowIrreflexive(a: string)
    ensures !Below(a, a)
  {
    if a != [] { BelowIrreflexive(a[1..]); }
  }

  lemma {:induction false} BelowTransitive(a: string, b: string, c: string)
    requires Below(a, b) && Below(b, c)
    ensures Below(a, c)
  {
    if a != [] && a[0] == b[0] && b[0] == c[0] {
      BelowTransitive(a[1..], b[1..], c[1..]);
    }
  }

  lemma {:induction false} BelowTotal(a: string, b: string)
    ensures a == b || Below(a, b) || Below(b, a)
  {
    if a != [] && b != [] && a[0] == b[0] {
      BelowTotal(a[1..], b[1..]);
      if a[1..] == b[1..] {
        assert a == [a[0]] + a[1..] && b == [b[0]] + b[1..];
      }
    }
  }

  lemma BelowAsymmetric(a: string, b: string)
    requires Below(a, b)
    ensures !Below(b, a)
  {
  }

  lemma NotBelowThrough(z: string, x: string, y: string)
    requires Below(x, y) && !Below(z, y)
    ensures !Below(z, x)
  {
  }

  /** Non-decreasing order, as Python's `sorted` produces for a list. */
  ghost predicate Ordered(s: seq<string>)
  {
    forall i, j :: 0 <= i < j < |s| ==> !Below(s[j], s[i])
  }

  /** Strictly increasing order: sorted and free of duplicates. */
  ghost predicate StrictlySorted(s: seq<string>)
  {
    forall i, j :: 0 <= i < j < |s| ==> Below(s[i], s[j])
  }

  function Elems<T>(s: seq<T>): set<T>
  {
    set x | x in s
  }

  lemma ElemsCons<T>(a: T, t: seq<T>)
    ensures Elems([a] + t) == {a} + Elems(t)
  {
  }

  lemma ElemsSnoc<T>(t: seq<T>, a: T)
    ensures Elems(t + [a]) == Elems(t) + {a}
  {
  }

  lemma OrderedCons(a: string, t: seq<string>)
    requires forall z :: z in t ==> !Below(z, a)
    requires Ordered(t)
    ensures Ordered([a] + t)
  {
  }

  lemma StrictCons(a: string, t: seq<string>)
    requires forall z :: z in t ==> Below(a, z)
    requires StrictlySorted(t)
    ensures StrictlySorted([a] + t)
  {
  }

  lemma StrictSnoc(s: seq<string>, x: string)
    requires StrictlySorted(s)
    requires forall a :: 0 <= a < |s| ==> Below(s[a], x)
    ensures StrictlySorted(s + [x])
  {
  }

  /** Inserts `x` before the first element that is not below it. */
  function Insert(x: string, s: seq<string>): seq<string>
  {
    if s == [] then [x]
    else if Below(s[0], x) then [s[0]] + Insert(x, s[1..])
    else [x] + s
  }

  lemma {:induction false} InsertElements(x: string, s: seq<string>)
    ensures multiset(Insert(x, s)) == multiset(s) + multiset{x}
    ensures Elems(Insert(x, s)) == Elems(s) + {x}
  {
    if s == [] {
      ElemsCons(x, []);
    } else if Below(s[0], x) {
      InsertElements(x, s[1..]);
      assert s == [s[0]] + s[1..];
      ElemsCons(s[0], Insert(x, s[1..]));
      ElemsCons(s[0], s[1..]);
    } else {
      ElemsCons(x, s);
    }
  }

  lemma {:induction false} InsertOrdered(x: string, s: seq<string>)
    requires Ordered(s)
    ensures Ordered(Insert(x, s))
  {
    if s == [] {
    } else if Below(s[0], x) {
      var t := s[1..];
      assert Ordered(t) by {
        forall i, j | 0 <= i < j < |t| ensures !Below(t[j], t[i]) {
          assert t[j] == s[j + 1] && t[i] == s[i + 1];
        }
      }
      InsertOrdered(x, t);
      InsertElements(x, t);
      forall z | z in Insert(x, t)
        ensures !Below(z, s[0])
      {
        assert z in Elems(Insert(x, t));
        if z == x {
          BelowAsymmetric(s[0], x);
        } else {
          var k :| 0 <= k < |t| && t[k] == z;
          assert s[k + 1] == z;
        }
      }
      OrderedCons(s[0], Insert(x, t));
    } else {
      forall z | z in s
        ensures !Below(z, x)
      {
        var k :| 0 <= k < |s| && s[k] == z;
        BelowTotal(s[0], x);
        if k > 0 && x != s[0] {
          NotBelowThrough(z, x, s[0]);
        }
      }
      OrderedCons(x, s);
    }
  }

  lemma {:induction false} InsertStrict(x: string, s: seq<string>)
    requires StrictlySorted(s) && x !in s
    ensures StrictlySorted(Insert(x, s))
  {
    if s == [] {
    } else if Below(s[0], x) {
      var t := s[1..];
      assert StrictlySorted(t) by {
        forall i, j | 0 <= i < j < |t| ensures Below(t[i], t[j]) {
          assert t[j] == s[j + 1] && t[i] == s[i + 1];
        }
      }
      InsertStrict(x, t);
      InsertElements(x, t);
      forall z | z in Insert(x, t)
        ensures Below(s[0], z)
      {
        assert z in Elems(Insert(x, t));
        if z != x {
          var k :| 0 <= k < |t| && t[k] == z;
          assert s[k + 1] == z;
        }
      }
      StrictCons(s[0], Insert(x, t));
    } else {
      BelowTotal(s[0], x);
      forall z | z in s
        ensures Below(x, z)
      {
        var k :| 0 <= k < |s| && s[k] == z;
        if k > 0 { BelowTransitive(x, s[0], z); }
      }
      StrictCons(x, s);
    }
  }

  /** Python's `sorted(names)` for a list of names (insertion sort). */
  function SortNames(names: seq<string>): (r: seq<string>)
    ensures Ordered(r)
    ensures multiset(r) == multiset(names)
  {
    if names == [] then []
    else
      var rest := SortNames(names[1..]);
      InsertOrdered(names[0], rest);
      InsertElements(names[0], rest);
      assert names == [names[0]] + names[1..];
      Insert(names[0], rest)
  }

  /** The strictly increasing sequence of the elements of `s`. */
  ghost function SortedSeq(s: set<string>): (r: seq<string>)
    ensures StrictlySorted(r) && Elems(r) == s
  {
    if s == {} then []
    else
      var x :| x in s;
      var rest := SortedSeq(s - {x});
      InsertStrict(x, rest);
      InsertElements(x, rest);
      Insert(x, rest)
  }

  lemma StrictTail(s: seq<string>)
    requires StrictlySorted(s) && s != []
    ensures StrictlySorted(s[1..])
    ensures s[0] !in s[1..]
    ensures Elems(s[1..]) == Elems(s) - {s[0]}
    ensures forall z :: z in s[1..] ==> Below(s[0], z)
  {
    var t := s[1..];
    forall i, j | 0 <= i < j < |t| ensures Below(t[i], t[j]) {
      assert t[j] == s[j + 1] && t[i] == s[i + 1];
    }
    forall z | z in t ensures Below(s[0], z) {
      var k :| 0 <= k < |t| && t[k] == z;
      assert s[k + 1] == z;
    }
    BelowIrreflexive(s[0]);
    assert s == [s[0]] + t;
    ElemsCons(s[0], t);
  }

  /** A set has only one strictly increasing enumeration. */
  lemma {:induction false} StrictlySortedUnique(a: seq<string>, b: seq<string>)
    requires StrictlySorted(a) && StrictlySorted(b) && Elems(a) == Elems(b)
    ensures a == b
  {
    assert b == [] || b[0] in Elems(b);
    if a != [] {
      assert a[0] in Elems(b);
      StrictTail(a);
      StrictTail(b);
      if a[0] != b[0] {
        assert b[0] in Elems(a);
        assert b[0] in a[1..] && a[0] in b[1..];
        BelowAsymmetric(a[0], b[0]);
      }
      StrictlySortedUnique(a[1..], b[1..]);
      assert a == [a[0]] + a[1..] && b == [b[0]] + b[1..];
    }
  }

  /** Python's `sorted(names)` for a set of names. */
  method SortedNames(names: set<string>) returns (r: seq<string>)
    ensures StrictlySorted(r) && Elems(r) == names
  {
    r := [];
    var rest := names;
    while rest != {}
      invariant StrictlySorted(r)
      invariant Elems(r) + rest == names && Elems(r) !! rest
      decreases rest
    {
      var x :| x in rest;
      InsertStrict(x, r);
      InsertElements(x, r);
      r := Insert(x, r);
      rest := rest - {x};
    }
  }
}
