/** Small shared vocabulary: failure-carrying results and the ordered-set helpers
    (`IndexSet` insertion, first-seen de-duplication) the graph code relies on. */
module Common {

  datatype Option<T> = None | Some(value: T)

  datatype Result<T, E> = Ok(value: T) | Err(error: E)

  /** No element occurs twice. */
  ghost predicate NoDup<T>(s: seq<T>) {
    forall i, j :: 0 <= i < j < |s| ==> s[i] != s[j]
  }

  /** Position of the first occurrence of `x` in `s`. */
  function FirstIndex<T(==,!new)>(s: seq<T>, x: T): (k: nat)
    requires x in s
    ensures k < |s| && s[k] == x
    ensures forall j :: 0 <= j < k ==> s[j] != x
  {
    if s[0] == x then 0 else 1 + FirstIndex(s[1..], x)
  }

  /** `IndexSet::insert`: a present element keeps its place, a new one goes last. */
  function Insert<T(==,!new)>(s: seq<T>, x: T): (r: seq<T>)
    ensures forall y :: y in r <==> y in s || y == x
    ensures NoDup(s) ==> NoDup(r)
    ensures |s| <= |r| && r[..|s|] == s
  {
    if x in s then s else s + [x]
  }

  /** Collecting a sequence into an `IndexSet`: the distinct elements, in first-seen order. */
  function Dedup<T(==,!new)>(s: seq<T>): (r: seq<T>)
    decreases |s|
  {
    if s == [] then [] else Insert(Dedup(s[..|s| - 1]), s[|s| - 1])
  }

  lemma {:induction false} DedupMembers<T(!new)>(s: seq<T>)
    ensures NoDup(Dedup(s))
    ensures forall x :: x in Dedup(s) <==> x in s
    decreases |s|
  {
    if s != [] {
      var init := s[..|s| - 1];
      DedupMembers(init);
      assert s == init + [s[|s| - 1]];
      var r := Dedup(s);
      assert r == Insert(Dedup(init), s[|s| - 1]);
      forall x ensures x in r <==> x in s {
        assert x in r <==> (x in Dedup(init) || x == s[|s| - 1]);
      }
    }
  }

  /** The elements of `r` occur in `s`, and in `r` they come in the order of their first
      occurrence in `s`. */
  ghost predicate FirstSeenOrder<T(!new)>(r: seq<T>, s: seq<T>) {
    (forall x :: x in r ==> x in s) &&
    forall i, j :: 0 <= i < j < |r| ==> FirstIndex(s, r[i]) < FirstIndex(s, r[j])
  }

  /** One pair of `FirstSeenOrder`, for callers that instantiate `T`. */
  lemma FirstSeenPair<T(!new)>(r: seq<T>, s: seq<T>, i: nat, j: nat)
    requires FirstSeenOrder(r, s) && i < j < |r|
    ensures r[i] in s && r[j] in s && FirstIndex(s, r[i]) < FirstIndex(s, r[j])
  {
  }

  /** The de-duplicated sequence lists elements in the order of their first occurrence. */
  lemma {:induction false} DedupFirstSeen<T(!new)>(s: seq<T>)
    ensures FirstSeenOrder(Dedup(s), s)
    decreases |s|
  {
    if s != [] {
      var init := s[..|s| - 1];
      var last := s[|s| - 1];
      DedupFirstSeen(init);
      DedupMembers(init);
      assert s == init + [last];
      FirstIndexPrefix(init, last);
      var r0 := Dedup(init);
      var r := Dedup(s);
      assert r == Insert(r0, last);
      forall i, j | 0 <= i < j < |r|
        ensures r[i] in s && r[j] in s && FirstIndex(s, r[i]) < FirstIndex(s, r[j])
      {
        assert r[i] == r0[i] && r[i] in init;
        if j < |r0| {
          assert r[j] == r0[j] && r0[j] in init;
        } else {
          assert last !in init && r[j] == last;
        }
      }
    }
  }

  /** Appending an element does not move the first occurrence of anything already present,
      and a new element first occurs at the end. */
  lemma {:induction false} FirstIndexPrefix<T(!new)>(s: seq<T>, x: T)
    ensures forall y :: y in s ==> FirstIndex(s + [x], y) == FirstIndex(s, y)
    ensures x !in s ==> FirstIndex(s + [x], x) == |s|
    decreases |s|
  {
    if s != [] {
      FirstIndexPrefix(s[1..], x);
      assert (s + [x])[1..] == s[1..] + [x];
    }
  }

  /** The elements of `s` that satisfy `p`, in their order in `s`. */
  function Filter<T(!new)>(s: seq<T>, p: T -> bool): (r: seq<T>)
    ensures |r| <= |s|
    ensures forall x :: x in r <==> x in s && p(x)
    decreases |s|
  {
    if s == [] then []
    else if p(s[0]) then [s[0]] + Filter(s[1..], p)
    else Filter(s[1..], p)
  }

  /** Filtering a sequence without duplicates keeps its elements distinct. */
  lemma {:induction false} FilterNoDup<T(!new)>(s: seq<T>, p: T -> bool)
    requires NoDup(s)
    ensures NoDup(Filter(s, p))
    decreases |s|
  {
    if s != [] {
      var t := s[1..];
      FilterNoDup(t, p);
      if p(s[0]) {
        var f := Filter(t, p);
        assert s[0] !in t;
        assert s[0] !in f;
        var r := [s[0]] + f;
        forall i, j | 0 <= i < j < |r| ensures r[i] != r[j] {
          assert r[j] == f[j - 1];
          if i > 0 {
            assert r[i] == f[i - 1];
          }
        }
      }
    }
  }

  lemma FirstIndexTail<T(!new)>(s: seq<T>, y: T)
    requires |s| >= 1 && s[0] != y && y in s[1..]
    ensures FirstIndex(s, y) == 1 + FirstIndex(s[1..], y)
  {
  }

  /** Filtering a sequence without duplicates keeps its elements in order. */
  lemma {:induction false} FilterOrder<T(!new)>(s: seq<T>, p: T -> bool)
    requires NoDup(s)
    ensures FirstSeenOrder(Filter(s, p), s)
    decreases |s|
  {
    if s != [] {
      FilterOrder(s[1..], p);
      assert s[0] !in s[1..];
      OrderTail(s, Filter(s[1..], p));
      if p(s[0]) {
        OrderCons(s, Filter(s[1..], p));
      }
    }
  }

  lemma OrderTail<T(!new)>(s: seq<T>, f: seq<T>)
    requires |s| >= 1 && s[0] !in s[1..] && FirstSeenOrder(f, s[1..])
    ensures FirstSeenOrder(f, s)
  {
    forall i, j | 0 <= i < j < |f|
      ensures f[i] in s && f[j] in s && FirstIndex(s, f[i]) < FirstIndex(s, f[j])
    {
      var t := s[1..];
      assert f[j] in t;
      assert f[i] in t && FirstIndex(t, f[i]) < FirstIndex(t, f[j]);
      FirstIndexTail(s, f[i]);
      FirstIndexTail(s, f[j]);
    }
  }

  lemma OrderCons<T(!new)>(s: seq<T>, f: seq<T>)
    requires |s| >= 1 && s[0] !in s[1..] && FirstSeenOrder(f, s[1..]) && FirstSeenOrder(f, s)
    requires forall x :: x in f ==> x in s[1..]
    ensures FirstSeenOrder([s[0]] + f, s)
  {
    var r := [s[0]] + f;
    forall i, j | 0 <= i < j < |r|
      ensures r[i] in s && r[j] in s && FirstIndex(s, r[i]) < FirstIndex(s, r[j])
    {
      assert r[j] == f[j - 1] && f[j - 1] in s[1..];
      FirstIndexTail(s, r[j]);
      if i > 0 {
        assert r[i] == f[i - 1];
      }
    }
  }

  /** One more element of a prefix. */
  lemma PrefixSnoc<T>(s: seq<T>, i: nat)
    requires i < |s|
    ensures s[..i + 1] == s[..i] + [s[i]]
  {
  }

  /** Dropping the last element of a concatenation drops it from its second part. */
  lemma AppendFront<T>(a: seq<T>, b: seq<T>)
    requires b != []
    ensures (a + b)[..|a + b| - 1] == a + b[..|b| - 1] && (a + b)[|a + b| - 1] == b[|b| - 1]
  {
  }

  /** Filtering after appending one element. */
  lemma {:induction false} FilterSnoc<T(!new)>(s: seq<T>, x: T, p: T -> bool)
    ensures Filter(s + [x], p) == Filter(s, p) + (if p(x) then [x] else [])
    decreases |s|
  {
    if s == [] {
      assert [x][1..] == [];
    } else {
      assert (s + [x])[1..] == s[1..] + [x];
      FilterSnoc(s[1..], x, p);
    }
  }

  /** Keeping the elements that satisfy `p`, each once, one element at a time. */
  lemma DedupFilterSnoc<T(!new)>(s: seq<T>, x: T, p: T -> bool)
    ensures Dedup(Filter(s + [x], p)) == if p(x) then Insert(Dedup(Filter(s, p)), x) else Dedup(Filter(s, p))
  {
    var f := Filter(s, p);
    FilterSnoc(s, x, p);
    if p(x) {
      var g := f + [x];
      assert g[..|g| - 1] == f && g[|g| - 1] == x;
      assert Filter(s + [x], p) == g;
      assert Dedup(g) == Insert(Dedup(f), x);
    } else {
      assert Filter(s + [x], p) == f;
    }
  }

  /** Filtering keeps the relative order of first occurrences. */
  lemma {:induction false} FilterFirstIndex<T(!new)>(s: seq<T>, p: T -> bool, x: T, y: T)
    requires x in Filter(s, p) && y in Filter(s, p)
    requires FirstIndex(Filter(s, p), x) < FirstIndex(Filter(s, p), y)
    ensures FirstIndex(s, x) < FirstIndex(s, y)
    decreases |s|
  {
    if s[0] != x {
      var t, f := s[1..], Filter(s, p);
      assert p(x) && p(y);
      assert s[0] != y;
      assert x in Filter(t, p) && y in Filter(t, p);
      if p(s[0]) {
        assert f[1..] == Filter(t, p);
        FirstIndexTail(f, x);
        FirstIndexTail(f, y);
      }
      FilterFirstIndex(t, p, x, y);
      FirstIndexTail(s, x);
      FirstIndexTail(s, y);
    }
  }

  /** The elements satisfying `p`, each kept once, come in the order of their first
      occurrence in `s`. */
  lemma DedupFilterOrder<T(!new)>(s: seq<T>, p: T -> bool)
    ensures FirstSeenOrder(Dedup(Filter(s, p)), s)
  {
    var f := Filter(s, p);
    var d := Dedup(f);
    DedupMembers(f);
    DedupFirstSeen(f);
    forall i, j | 0 <= i < j < |d|
      ensures d[i] in s && d[j] in s && FirstIndex(s, d[i]) < FirstIndex(s, d[j])
    {
      FirstSeenPair(d, f, i, j);
      FilterFirstIndex(s, p, d[i], d[j]);
    }
  }

  /** The sequences of `ss`, one after the other. */
  function Flatten<T>(ss: seq<seq<T>>): seq<T>
    decreases |ss|
  {
    if ss == [] then [] else Flatten(ss[..|ss| - 1]) + ss[|ss| - 1]
  }

  lemma {:induction false} FlattenMembers<T(!new)>(ss: seq<seq<T>>)
    ensures forall x :: x in Flatten(ss) <==> exists i :: 0 <= i < |ss| && x in ss[i]
    decreases |ss|
  {
    if ss != [] {
      FlattenMembers(ss[..|ss| - 1]);
      forall x | x in Flatten(ss) ensures exists i :: 0 <= i < |ss| && x in ss[i] {
        var sub := ss[..|ss| - 1];
        if x !in ss[|ss| - 1] {
          assert x in Flatten(sub);
          var i :| 0 <= i < |sub| && x in sub[i];
          assert x in ss[i];
        }
      }
      forall x, i | 0 <= i < |ss| && x in ss[i] ensures x in Flatten(ss) {
        if i < |ss| - 1 {
          assert x in ss[..|ss| - 1][i];
        }
      }
    }
  }

  /** `IndexSet::get_index_of`. */
  function IndexOf<T(==,!new)>(s: seq<T>, x: T): (r: Option<nat>)
    ensures r.Some? <==> x in s
    ensures r.Some? ==> r.value < |s| && s[r.value] == x
  {
    if x in s then Some(FirstIndex(s, x)) else None
  }

  /** `IndexSet::insert_full`: the set after insertion, and the position of `x` in it. */
  function InsertFull<T(==,!new)>(s: seq<T>, x: T): (r: (seq<T>, nat))
    ensures r.1 < |r.0| && r.0[r.1] == x
    ensures x !in s ==> r.0 == s + [x] && r.1 == |s|
    ensures x in s ==> r.0 == s
  {
    var t := Insert(s, x);
    if x !in s then
      FirstIndexPrefix(s, x);
      (t, FirstIndex(t, x))
    else (t, FirstIndex(t, x))
  }

  /** In a sequence without duplicates an element's first position is its only one. */
  lemma FirstIndexOfDistinct<T(!new)>(s: seq<T>, k: nat)
    requires NoDup(s) && k < |s|
    ensures FirstIndex(s, s[k]) == k
  {
  }

  /** Growing a sequence at the end does not move the elements already present. */
  lemma FirstIndexExtend<T(!new)>(s: seq<T>, t: seq<T>, x: T)
    requires |s| <= |t| && t[..|s|] == s && x in s
    ensures FirstIndex(t, x) == FirstIndex(s, x)
  {
    assert t[FirstIndex(s, x)] == x;
  }

  lemma FlattenAppend<T>(ss: seq<seq<T>>, s: seq<T>)
    ensures Flatten(ss + [s]) == Flatten(ss) + s
  {
    assert (ss + [s])[..|ss|] == ss;
  }

  /** Flattening distributes over concatenation. */
  lemma {:induction false} FlattenConcat<T>(ss: seq<seq<T>>, tt: seq<seq<T>>)
    ensures Flatten(ss + tt) == Flatten(ss) + Flatten(tt)
    decreases |tt|
  {
    if tt == [] {
      assert ss + tt == ss;
    } else {
      var front := tt[..|tt| - 1];
      FlattenConcat(ss, front);
      AppendFront(ss, tt);
      var x, y, z := Flatten(ss), Flatten(front), tt[|tt| - 1];
      assert (x + y) + z == x + (y + z);
    }
  }

  /** Flattening a longer list of sequences only adds elements at the end. */
  lemma {:induction false} FlattenExtend<T>(ss: seq<seq<T>>, tt: seq<seq<T>>)
    requires |ss| <= |tt| && tt[..|ss|] == ss
    ensures |Flatten(ss)| <= |Flatten(tt)| && Flatten(tt)[..|Flatten(ss)|] == Flatten(ss)
    decreases |tt|
  {
    if |tt| > |ss| {
      var init := tt[..|tt| - 1];
      assert init[..|ss|] == ss;
      FlattenExtend(ss, init);
      assert Flatten(tt) == Flatten(init) + tt[|tt| - 1];
    } else {
      assert tt == ss;
    }
  }
}
