/**
 * The Python list idioms the bots use, over any element type: the `if` clause
 * of a comprehension, and `list(dict.fromkeys(s))` to drop repeats.
 */
module Lists {

  /** No element occurs twice. */
  predicate Distinct<T(==)>(s: seq<T>)
  {
    forall i, j :: 0 <= i < j < |s| ==> s[i] != s[j]
  }

  /** The index of the first occurrence of `x` in `s`, or `|s|` when there is none. */
  function FirstIndex<T(==)>(s: seq<T>, x: T): (k: nat)
    ensures k <= |s| && (k < |s| <==> x in s)
    ensures k < |s| ==> s[k] == x
    ensures forall j :: 0 <= j < k ==> s[j] != x
  {
    if s == [] then 0 else if s[0] == x then 0 else 1 + FirstIndex(s[1..], x)
  }

  /** `[x for x in s if test(x)]` */
  function Filter<T>(test: T -> bool, s: seq<T>): seq<T>
  {
    if s == [] then []
    else Filter(test, s[..|s| - 1]) + (if test(s[|s| - 1]) then [s[|s| - 1]] else [])
  }

  lemma {:induction false} FilterMembership<T>(test: T -> bool, s: seq<T>, x: T)
    ensures x in Filter(test, s) <==> x in s && test(x)
  {
    if s != [] {
      var init, last := s[..|s| - 1], s[|s| - 1];
      FilterMembership(test, init, x);
      assert s == init + [last];
    }
  }

  lemma {:induction false} FilterAppend<T>(test: T -> bool, a: seq<T>, b: seq<T>)
    ensures Filter(test, a + b) == Filter(test, a) + Filter(test, b)
  {
    if b == [] {
      assert a + b == a;
    } else {
      var ab := a + b;
      assert ab[..|ab| - 1] == a + b[..|b| - 1];
      FilterAppend(test, a, b[..|b| - 1]);
    }
  }

  /** Inserting an element the test rejects changes nothing that is kept. */
  lemma FilterInsertRejected<T>(test: T -> bool, s: seq<T>, k: nat, x: T)
    requires k <= |s| && !test(x)
    ensures Filter(test, s[..k] + [x] + s[k..]) == Filter(test, s)
  {
    var a, b := s[..k], s[k..];
    assert Filter(test, [x]) == [] by {
      assert [x][..0] == [];
      assert Filter(test, [x]) == Filter(test, []) + [];
    }
    FilterAppend(test, a + [x], b);
    FilterAppend(test, a, [x]);
    assert Filter(test, a + [x]) == Filter(test, a);
    FilterAppend(test, a, b);
    assert a + b == s;
  }

  /** `n` copies of `x`, as a generator yields one value per element it keeps. */
  function Repeat<T>(x: T, n: nat): seq<T>
  {
    if n == 0 then [] else Repeat(x, n - 1) + [x]
  }

  lemma {:induction false} RepeatMembership<T>(x: T, n: nat, y: T)
    ensures y in Repeat(x, n) <==> n > 0 && y == x
  {
    if n > 0 {
      RepeatMembership(x, n - 1, y);
    }
  }

  /** `for a in s: out.extend(f(a))`: the lists `f` gives for the elements, one after the other. */
  function ConcatMap<A, B>(f: A -> seq<B>, s: seq<A>): seq<B>
  {
    if s == [] then [] else ConcatMap(f, s[..|s| - 1]) + f(s[|s| - 1])
  }

  lemma {:induction false} ConcatMapAppend<A, B>(f: A -> seq<B>, a: seq<A>, b: seq<A>)
    ensures ConcatMap(f, a + b) == ConcatMap(f, a) + ConcatMap(f, b)
  {
    if b == [] {
      assert a + b == a;
    } else {
      var ab := a + b;
      assert ab[..|ab| - 1] == a + b[..|b| - 1];
      ConcatMapAppend(f, a, b[..|b| - 1]);
    }
  }

  lemma ConcatMapSnoc<A, B>(f: A -> seq<B>, s: seq<A>, x: A)
    ensures ConcatMap(f, s + [x]) == ConcatMap(f, s) + f(x)
    ensures ConcatMap(f, [x]) == f(x)
  {
    assert (s + [x])[..|s|] == s;
    assert [x][..0] == [];
  }

  lemma ConcatMapFirst<A, B>(f: A -> seq<B>, s: seq<A>)
    requires s != []
    ensures ConcatMap(f, s) == f(s[0]) + ConcatMap(f, s[1..])
  {
    assert s == [s[0]] + s[1..];
    ConcatMapAppend(f, [s[0]], s[1..]);
    ConcatMapSnoc(f, [], s[0]);
  }

  /** Replacing an element by one that `f` maps to the same list changes nothing. */
  lemma ConcatMapReplace<A, B>(f: A -> seq<B>, s: seq<A>, i: nat, y: A)
    requires i < |s| && f(y) == f(s[i])
    ensures ConcatMap(f, s[i := y]) == ConcatMap(f, s)
  {
    var t := s[i := y];
    assert s == s[..i] + [s[i]] + s[i + 1..];
    assert t == s[..i] + [y] + s[i + 1..];
    ConcatMapAppend(f, s[..i] + [s[i]], s[i + 1..]);
    ConcatMapAppend(f, s[..i] + [y], s[i + 1..]);
    ConcatMapSnoc(f, s[..i], s[i]);
    ConcatMapSnoc(f, s[..i], y);
  }

  lemma {:induction false} ConcatMapMembership<A, B>(f: A -> seq<B>, s: seq<A>, x: B)
    ensures x in ConcatMap(f, s) <==> exists i :: 0 <= i < |s| && x in f(s[i])
  {
    if s != [] {
      var init, last := s[..|s| - 1], s[|s| - 1];
      ConcatMapMembership(f, init, x);
      if x in ConcatMap(f, init) {
        var i :| 0 <= i < |init| && x in f(init[i]);
        assert s[i] == init[i];
      }
      if exists i :: 0 <= i < |s| && x in f(s[i]) {
        var i :| 0 <= i < |s| && x in f(s[i]);
        if i < |init| {
          assert init[i] == s[i];
        }
      }
    }
  }

  /** `list(dict.fromkeys(s))`: the first occurrence of every element, in order. */
  function Dedup<T(==)>(s: seq<T>): seq<T>
  {
    if s == [] then []
    else
      var d := Dedup(s[..|s| - 1]);
      if s[|s| - 1] in d then d else d + [s[|s| - 1]]
  }

  /** Dropping repeats keeps every element and only those, and keeps each once. */
  lemma {:induction false} DedupSpec<T>(s: seq<T>)
    ensures forall i :: 0 <= i < |Dedup(s)| ==> Dedup(s)[i] in s
    ensures forall i :: 0 <= i < |s| ==> s[i] in Dedup(s)
    ensures Distinct(Dedup(s))
  {
    if s != [] {
      var init, last := s[..|s| - 1], s[|s| - 1];
      DedupSpec(init);
      var d0, d := Dedup(init), Dedup(s);
      forall i | 0 <= i < |d|
        ensures d[i] in s
      {
        if i < |d0| {
          assert d[i] == d0[i] && d0[i] in init;
          var j :| 0 <= j < |init| && init[j] == d0[i];
          assert s[j] == init[j];
        }
      }
      forall i | 0 <= i < |s|
        ensures s[i] in d
      {
        if i < |init| {
          assert s[i] == init[i];
        }
      }
    }
  }

  /** As a set of elements, dropping repeats changes nothing. */
  lemma DedupMembership<T>(s: seq<T>, x: T)
    ensures x in Dedup(s) <==> x in s
  {
    DedupSpec(s);
    if x in s {
      var j :| 0 <= j < |s| && s[j] == x;
    }
    if x in Dedup(s) {
      var j :| 0 <= j < |Dedup(s)| && Dedup(s)[j] == x;
    }
  }

  /** Dropping repeats from a longer list keeps what it kept from the shorter one, as its prefix. */
  lemma {:induction false} DedupExtends<T>(s: seq<T>, t: seq<T>)
    ensures |Dedup(s)| <= |Dedup(s + t)| && Dedup(s + t)[..|Dedup(s)|] == Dedup(s)
  {
    if t == [] {
      assert s + t == s;
    } else {
      var st, t0 := s + t, t[..|t| - 1];
      assert st[..|st| - 1] == s + t0;
      DedupExtends(s, t0);
      var d0, n := Dedup(s + t0), |Dedup(s)|;
      assert Dedup(st) == d0 || Dedup(st) == d0 + [t[|t| - 1]];
      assert (d0 + [t[|t| - 1]])[..n] == d0[..n];
    }
  }

  lemma {:induction false} FirstIndexOfPrefix<T>(s: seq<T>, t: seq<T>, x: T)
    requires x in s
    ensures FirstIndex(s + t, x) == FirstIndex(s, x)
  {
    if s[0] != x {
      assert (s + t)[1..] == s[1..] + t;
      FirstIndexOfPrefix(s[1..], t, x);
    }
  }

  /** The elements kept are ordered by where each first occurs in the input. */
  lemma {:induction false} DedupFirstOccurrenceOrder<T>(s: seq<T>)
    ensures forall i, j :: 0 <= i < j < |Dedup(s)| ==>
              FirstIndex(s, Dedup(s)[i]) < FirstIndex(s, Dedup(s)[j])
  {
    if s != [] {
      var init, last := s[..|s| - 1], s[|s| - 1];
      DedupFirstOccurrenceOrder(init);
      DedupSpec(init);
      var d0, d := Dedup(init), Dedup(s);
      assert s == init + [last];
      DedupExtends(init, [last]);
      forall x | x in init
        ensures FirstIndex(s, x) == FirstIndex(init, x)
      {
        FirstIndexOfPrefix(init, [last], x);
      }
      forall i, j | 0 <= i < j < |d|
        ensures FirstIndex(s, d[i]) < FirstIndex(s, d[j])
      {
        assert d[i] == d0[i] && d[i] in init;
        if j < |d0| {
          assert d[j] == d0[j];
        } else {
          assert d[j] == last && last !in init;
        }
      }
    }
  }

  /** `list(dict.fromkeys(s))` computed as Python does, keeping the dictionary's keys as a set. */
  method RemoveDuplicates<T(==)>(s: seq<T>) returns (r: seq<T>)
    ensures r == Dedup(s)
  {
    r := [];
    var seen: set<T> := {};
    for i := 0 to |s|
      invariant r == Dedup(s[..i])
      invariant seen == set x | x in r
    {
      assert s[..i + 1][..i] == s[..i];
      if s[i] !in seen {
        r := r + [s[i]];
        seen := seen + {s[i]};
      }
    }
    assert s[..|s|] == s;
  }
}
