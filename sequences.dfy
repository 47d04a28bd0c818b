/**
 * Generic sequence machinery shared by the invoice code: the insertion-ordered
 * multimap the source builds with `LinkedHashMap.computeIfAbsent(k, ..).add(v)`,
 * "first non-null wins" folds, the list sort, and splitting a list into maximal
 * runs of linked neighbours (the interval merge).
 */
module Sequences {
  import opened JavaText

  /** All elements of `ss`, in order. */
  function Flatten<T>(ss: seq<seq<T>>): seq<T>
  {
    if ss == [] then [] else Flatten(ss[..|ss| - 1]) + Last(ss)
  }

  lemma FlattenAppend<T>(ss: seq<seq<T>>, c: seq<T>)
    ensures Flatten(ss + [c]) == Flatten(ss) + c
  {
    assert (ss + [c])[..|ss|] == ss;
  }

  // ---------------------------------------------------------------
  // Maximal runs
  // ---------------------------------------------------------------

  /**
   * `s` cut into maximal runs: consecutive elements stay in one run exactly
   * when `link(previous, next)` holds.  Built left to right, as a loop that
   * keeps the current run open does it.
   */
  function ChunkBy<T>(s: seq<T>, link: (T, T) -> bool): (r: seq<seq<T>>)
    ensures Flatten(r) == s
    ensures |r| == 0 <==> |s| == 0
    ensures forall i :: 0 <= i < |r| ==> |r[i]| > 0
  {
    if s == [] then []
    else
      var cs := ChunkBy(s[..|s| - 1], link);
      var x := Last(s);
      assert s == s[..|s| - 1] + [x];
      if cs != [] && link(Last(Last(cs)), x) then
        var init := cs[..|cs| - 1];
        assert cs == init + [Last(cs)];
        FlattenAppend(init, Last(cs));
        FlattenAppend(init, Last(cs) + [x]);
        init + [Last(cs) + [x]]
      else
        FlattenAppend(cs, [x]);
        cs + [[x]]
  }

  /** Neighbours inside each run are linked. */
  predicate RunsLinked<T>(r: seq<seq<T>>, link: (T, T) -> bool)
  {
    forall i, j :: 0 <= i < |r| && 0 <= j < |r[i]| - 1 ==> link(r[i][j], r[i][j + 1])
  }

  /** The last element of a run is not linked to the first of the next run. */
  predicate RunsSeparated<T>(r: seq<seq<T>>, link: (T, T) -> bool)
    requires forall i :: 0 <= i < |r| ==> |r[i]| > 0
  {
    forall i :: 0 <= i < |r| - 1 ==> !link(Last(r[i]), r[i + 1][0])
  }

  lemma AppendRunLinked<T>(cs: seq<seq<T>>, c: seq<T>, link: (T, T) -> bool)
    requires RunsLinked(cs, link) && RunsLinked([c], link)
    ensures RunsLinked(cs + [c], link)
  {
    var r := cs + [c];
    forall i, j | 0 <= i < |r| && 0 <= j < |r[i]| - 1 ensures link(r[i][j], r[i][j + 1]) {
      if i < |cs| {
        assert r[i] == cs[i];
        assert link(cs[i][j], cs[i][j + 1]);
      } else {
        assert r[i] == [c][0];
        assert link([c][0][j], [c][0][j + 1]);
      }
    }
  }

  lemma ExtendLastLinked<T>(cs: seq<seq<T>>, x: T, link: (T, T) -> bool)
    requires cs != [] && Last(cs) != []
    requires RunsLinked(cs, link) && link(Last(Last(cs)), x)
    ensures RunsLinked(cs[..|cs| - 1] + [Last(cs) + [x]], link)
  {
    var c := Last(cs) + [x];
    var init := cs[..|cs| - 1];
    assert RunsLinked(init, link) by {
      forall i, j | 0 <= i < |init| && 0 <= j < |init[i]| - 1 ensures link(init[i][j], init[i][j + 1]) {
        assert init[i] == cs[i];
        assert link(cs[i][j], cs[i][j + 1]);
      }
    }
    assert RunsLinked([c], link) by {
      forall j | 0 <= j < |c| - 1 ensures link(c[j], c[j + 1]) {
        if j < |c| - 2 {
          assert link(cs[|cs| - 1][j], cs[|cs| - 1][j + 1]);
        }
      }
    }
    AppendRunLinked(init, c, link);
  }

  /** Neighbours inside each run of `ChunkBy` are linked. */
  lemma {:induction false} ChunkByLinked<T>(s: seq<T>, link: (T, T) -> bool)
    ensures RunsLinked(ChunkBy(s, link), link)
  {
    if s != [] {
      var init := s[..|s| - 1];
      var x := Last(s);
      ChunkByLinked(init, link);
      var cs := ChunkBy(init, link);
      if cs != [] && link(Last(Last(cs)), x) {
        ExtendLastLinked(cs, x, link);
      } else {
        AppendRunLinked(cs, [x], link);
      }
    }
  }

  /** Consecutive runs of `ChunkBy` are not linked: every run is maximal. */
  lemma {:induction false} ChunkBySeparated<T>(s: seq<T>, link: (T, T) -> bool)
    ensures RunsSeparated(ChunkBy(s, link), link)
  {
    if s != [] {
      var init := s[..|s| - 1];
      var x := Last(s);
      ChunkBySeparated(init, link);
      var cs := ChunkBy(init, link);
      var r := ChunkBy(s, link);
      if cs != [] && link(Last(Last(cs)), x) {
        assert r == cs[..|cs| - 1] + [Last(cs) + [x]];
        forall i | 0 <= i < |r| - 1 ensures !link(Last(r[i]), r[i + 1][0]) {
          assert r[i] == cs[i];
          assert r[i + 1][0] == cs[i + 1][0];
        }
      } else {
        assert r == cs + [[x]];
        forall i | 0 <= i < |r| - 1 ensures !link(Last(r[i]), r[i + 1][0]) {
          assert r[i] == cs[i];
          if i < |r| - 2 { assert r[i + 1] == cs[i + 1]; }
        }
      }
    }
  }

  /** One step of the left-to-right construction, as a loop uses it. */
  lemma ChunkByStep<T>(s: seq<T>, x: T, link: (T, T) -> bool)
    ensures var cs := ChunkBy(s, link);
            ChunkBy(s + [x], link) ==
              if cs != [] && link(Last(Last(cs)), x) then cs[..|cs| - 1] + [Last(cs) + [x]]
              else cs + [[x]]
  {
    assert (s + [x])[..|s|] == s;
  }

  /** The last run ends with the last element. */
  lemma ChunkByLast<T>(s: seq<T>, link: (T, T) -> bool)
    requires s != []
    ensures ChunkBy(s, link) != [] && Last(ChunkBy(s, link)) != []
    ensures Last(Last(ChunkBy(s, link))) == Last(s)
  {
  }

  /** Each run ends `le` the start of the next. */
  predicate RunsAscending<T>(r: seq<seq<T>>, le: (T, T) -> bool)
    requires forall i :: 0 <= i < |r| ==> |r[i]| > 0
  {
    forall i :: 0 <= i < |r| - 1 ==> le(Last(r[i]), r[i + 1][0])
  }

  /** Over a list sorted by `le`, each run ends `le` the start of the next. */
  lemma {:induction false} ChunkByBoundaries<T>(s: seq<T>, link: (T, T) -> bool, le: (T, T) -> bool)
    requires Sorted(s, le)
    ensures RunsAscending(ChunkBy(s, link), le)
  {
    if s != [] {
      var init := s[..|s| - 1];
      var x := Last(s);
      assert Sorted(init, le) by {
        forall i | 0 <= i < |init| - 1 ensures le(init[i], init[i + 1]) {
          assert init[i] == s[i] && init[i + 1] == s[i + 1];
        }
      }
      ChunkByBoundaries(init, link, le);
      var cs := ChunkBy(init, link);
      if cs != [] && link(Last(Last(cs)), x) {
        assert ChunkBy(s, link) == cs[..|cs| - 1] + [Last(cs) + [x]];
        AscendingExtendLast(cs, x, le);
      } else {
        assert ChunkBy(s, link) == cs + [[x]];
        if cs != [] {
          ChunkByLast(init, link);
          assert le(s[|s| - 2], s[|s| - 1]);
        }
        AscendingAppendRun(cs, x, le);
      }
    }
  }

  /** Growing the last run keeps the runs ascending: run starts do not change. */
  lemma AscendingExtendLast<T>(cs: seq<seq<T>>, x: T, le: (T, T) -> bool)
    requires cs != [] && forall i :: 0 <= i < |cs| ==> |cs[i]| > 0
    requires RunsAscending(cs, le)
    ensures var r := cs[..|cs| - 1] + [Last(cs) + [x]];
            (forall i :: 0 <= i < |r| ==> |r[i]| > 0) && RunsAscending(r, le)
  {
    var r := cs[..|cs| - 1] + [Last(cs) + [x]];
    forall i | 0 <= i < |r| - 1 ensures le(Last(r[i]), r[i + 1][0]) {
      assert r[i] == cs[i];
      assert le(Last(cs[i]), cs[i + 1][0]);
      if i + 1 == |cs| - 1 {
        assert r[i + 1] == Last(cs) + [x];
      }
    }
  }

  /** A new run `[x]` after runs whose last element is `le` x keeps them ascending. */
  lemma AscendingAppendRun<T>(cs: seq<seq<T>>, x: T, le: (T, T) -> bool)
    requires forall i :: 0 <= i < |cs| ==> |cs[i]| > 0
    requires RunsAscending(cs, le)
    requires cs != [] ==> le(Last(Last(cs)), x)
    ensures var r := cs + [[x]];
            (forall i :: 0 <= i < |r| ==> |r[i]| > 0) && RunsAscending(r, le)
  {
    var r := cs + [[x]];
    forall i | 0 <= i < |r| - 1 ensures le(Last(r[i]), r[i + 1][0]) {
      assert r[i] == cs[i];
      if i < |r| - 2 {
        assert r[i + 1] == cs[i + 1];
      }
    }
  }

  /** The position of the first `true`, or -1. */
  function FirstTrue(bs: seq<bool>): (i: int)
    ensures -1 <= i < |bs|
    ensures i >= 0 ==> bs[i] && forall j :: 0 <= j < i ==> !bs[j]
    ensures i == -1 ==> forall j :: 0 <= j < |bs| ==> !bs[j]
  {
    if bs == [] then -1
    else if bs[0] then 0
    else
      var k := FirstTrue(bs[1..]);
      if k < 0 then -1 else k + 1
  }

  // ---------------------------------------------------------------
  // First non-null value
  // ---------------------------------------------------------------

  /** The first `Some` of `s`: the value a "set it while still null" loop ends with. */
  function FirstSome<T>(s: seq<Option<T>>): Option<T>
  {
    if s == [] then None
    else
      var p := FirstSome(s[..|s| - 1]);
      if p.Some? then p else Last(s)
  }

  lemma FirstSomeStep<T>(s: seq<Option<T>>, x: Option<T>)
    ensures FirstSome(s + [x]) == if FirstSome(s).Some? then FirstSome(s) else x
  {
    assert (s + [x])[..|s|] == s;
  }

  /** The first `Some` at index `i` is what `FirstSome` picks. */
  lemma {:induction false} FirstSomeAt<T>(s: seq<Option<T>>, i: nat)
    requires i < |s| && s[i].Some?
    requires forall j :: 0 <= j < i ==> s[j].None?
    ensures FirstSome(s) == s[i]
  {
    var init := s[..|s| - 1];
    if i < |s| - 1 {
      FirstSomeAt(init, i);
    } else {
      FirstSomeIsEarliest(init);
      assert forall j :: 0 <= j < |init| ==> init[j] == s[j];
    }
  }

  /** A list whose head is a `Some` yields its head. */
  lemma FirstSomeOfHead<T>(s: seq<Option<T>>)
    requires s != [] && s[0].Some?
    ensures FirstSome(s) == s[0]
  {
    FirstSomeIsEarliest(s);
    var i :| 0 <= i < |s| && s[i] == FirstSome(s) && forall j :: 0 <= j < i ==> s[j].None?;
    assert i == 0;
  }

  /** `FirstSome` is `None` only for an all-`None` list, and otherwise the earliest `Some`. */
  lemma {:induction false} FirstSomeIsEarliest<T>(s: seq<Option<T>>)
    ensures FirstSome(s).None? <==> forall i :: 0 <= i < |s| ==> s[i].None?
    ensures FirstSome(s).Some? ==>
              exists i :: 0 <= i < |s| && s[i] == FirstSome(s) && forall j :: 0 <= j < i ==> s[j].None?
  {
    if s != [] {
      var init := s[..|s| - 1];
      FirstSomeIsEarliest(init);
      if FirstSome(init).Some? {
        var i :| 0 <= i < |init| && init[i] == FirstSome(init) && forall j :: 0 <= j < i ==> init[j].None?;
        assert s[i] == FirstSome(s);
      } else {
        assert forall i :: 0 <= i < |init| ==> s[i] == init[i];
        if Last(s).Some? {
          assert s[|s| - 1] == FirstSome(s);
        }
      }
    }
  }

  // ---------------------------------------------------------------
  // Insertion-ordered multimap (LinkedHashMap<K, List<V>>)
  // ---------------------------------------------------------------

  function KeysOf<K, V>(ps: seq<(K, V)>): (r: seq<K>)
    ensures |r| == |ps| && forall i :: 0 <= i < |ps| ==> r[i] == ps[i].0
  {
    seq(|ps|, i requires 0 <= i < |ps| => ps[i].0)
  }

  /** The distinct keys of `ps` in the order they were first met. */
  function GroupKeys<K(==), V>(ps: seq<(K, V)>): (r: seq<K>)
  {
    if ps == [] then []
    else
      var ks := GroupKeys(ps[..|ps| - 1]);
      var k := Last(ps).0;
      if k in ks then ks else ks + [k]
  }

  /** The values filed under `k`, in insertion order. */
  function GroupOf<K(==), V>(ps: seq<(K, V)>, k: K): seq<V>
  {
    if ps == [] then []
    else GroupOf(ps[..|ps| - 1], k) + (if Last(ps).0 == k then [Last(ps).1] else [])
  }

  predicate Distinct<T(==)>(s: seq<T>)
  {
    forall i, j :: 0 <= i < j < |s| ==> s[i] != s[j]
  }

  /** An element occurs at most once in a list without repeats. */
  lemma {:induction false} DistinctCount<T>(s: seq<T>, x: T)
    requires Distinct(s)
    ensures multiset(s)[x] <= 1
  {
    if s != [] {
      var init := s[..|s| - 1];
      assert s == init + [Last(s)];
      assert Distinct(init) by {
        forall i, j | 0 <= i < j < |init| ensures init[i] != init[j] {
          assert init[i] == s[i] && init[j] == s[j];
        }
      }
      DistinctCount(init, x);
      if Last(s) == x {
        assert x !in init by {
          forall i | 0 <= i < |init| ensures init[i] != x {
            assert init[i] == s[i];
          }
        }
      }
    }
  }

  /** A permutation of a list without repeats has no repeats either. */
  lemma DistinctPermutation<T>(s: seq<T>, t: seq<T>)
    requires Distinct(s) && multiset(s) == multiset(t)
    ensures Distinct(t)
  {
    forall i, j | 0 <= i < j < |t| ensures t[i] != t[j] {
      if t[i] == t[j] {
        var x := t[i];
        assert t == t[..i] + [t[i]] + t[i + 1..j] + [t[j]] + t[j + 1..];
        assert multiset(t)[x] >= 2;
        DistinctCount(s, x);
      }
    }
  }

  /** The position at which `k` first occurs in `s`. */
  function FirstIndex<T(==)>(s: seq<T>, k: T): (i: nat)
    requires k in s
    ensures i < |s| && s[i] == k && k !in s[..i]
  {
    if s[0] == k then 0 else 1 + FirstIndex(s[1..], k)
  }

  /**
   * The keys of the map are the distinct keys of the stream, each present
   * once, in the order each was first met.
   */
  lemma {:induction false} GroupKeysAreFirstEncounters<K, V>(ps: seq<(K, V)>)
    ensures Distinct(GroupKeys(ps))
    ensures forall k :: k in GroupKeys(ps) <==> k in KeysOf(ps)
    ensures forall i, j :: 0 <= i < j < |GroupKeys(ps)| ==>
              FirstIndex(KeysOf(ps), GroupKeys(ps)[i]) < FirstIndex(KeysOf(ps), GroupKeys(ps)[j])
  {
    if ps != [] {
      var init := ps[..|ps| - 1];
      var k := Last(ps).0;
      GroupKeysAreFirstEncounters(init);
      var ks := GroupKeys(init);
      assert KeysOf(ps) == KeysOf(init) + [k];
      forall key | key in KeysOf(init)
        ensures FirstIndex(KeysOf(ps), key) == FirstIndex(KeysOf(init), key)
      {
        FirstIndexPrefix(KeysOf(init), [k], key);
      }
      if k !in ks {
        assert k !in KeysOf(init);
        assert FirstIndex(KeysOf(ps), k) == |init| by {
          assert KeysOf(ps)[..|init|] == KeysOf(init);
        }
      }
    }
  }

  lemma FirstIndexPrefix<T>(a: seq<T>, b: seq<T>, k: T)
    requires k in a
    ensures FirstIndex(a + b, k) == FirstIndex(a, k)
  {
    if a[0] != k {
      assert (a + b)[1..] == a[1..] + b;
      FirstIndexPrefix(a[1..], b, k);
    }
  }

  /** `v` is filed under `k` exactly when the pair `(k, v)` was added. */
  lemma {:induction false} GroupOfMembers<K, V>(ps: seq<(K, V)>, k: K, v: V)
    ensures v in GroupOf(ps, k) <==> (k, v) in ps
  {
    if ps != [] {
      var init := ps[..|ps| - 1];
      GroupOfMembers(init, k, v);
      assert ps == init + [Last(ps)];
    }
  }

  /** A key that never occurs has an empty group. */
  lemma {:induction false} GroupOfAbsent<K, V>(ps: seq<(K, V)>, k: K)
    requires k !in KeysOf(ps)
    ensures GroupOf(ps, k) == []
  {
    if ps != [] {
      var init := ps[..|ps| - 1];
      assert forall i :: 0 <= i < |init| ==> KeysOf(init)[i] == KeysOf(ps)[i];
      assert KeysOf(ps)[|ps| - 1] == Last(ps).0;
      GroupOfAbsent(init, k);
    }
  }

  /** Sum of the group sizes of `keys`. */
  function GroupSizes<K(==), V>(ps: seq<(K, V)>, keys: seq<K>): nat
  {
    if keys == [] then 0 else GroupSizes(ps, keys[..|keys| - 1]) + |GroupOf(ps, Last(keys))|
  }

  lemma {:induction false} GroupSizesStep<K, V>(ps: seq<(K, V)>, p: (K, V), keys: seq<K>)
    requires Distinct(keys)
    ensures GroupSizes(ps + [p], keys) == GroupSizes(ps, keys) + (if p.0 in keys then 1 else 0)
  {
    assert (ps + [p])[..|ps|] == ps;
    if keys != [] {
      var init := keys[..|keys| - 1];
      assert keys == init + [Last(keys)];
      assert Distinct(init);
      GroupSizesStep(ps, p, init);
    }
  }

  lemma GroupSizesAppendKey<K, V>(ps: seq<(K, V)>, keys: seq<K>, k: K)
    ensures GroupSizes(ps, keys + [k]) == GroupSizes(ps, keys) + |GroupOf(ps, k)|
  {
    assert (keys + [k])[..|keys|] == keys;
  }

  /** Every added value sits in exactly one group: the group sizes add up to the stream length. */
  lemma {:induction false} GroupSizesTotal<K, V>(ps: seq<(K, V)>)
    ensures GroupSizes(ps, GroupKeys(ps)) == |ps|
  {
    if ps != [] {
      var init := ps[..|ps| - 1];
      var p := Last(ps);
      assert ps == init + [p];
      GroupSizesTotal(init);
      GroupKeysAreFirstEncounters(init);
      var ks := GroupKeys(init);
      GroupSizesStep(init, p, ks);
      if p.0 !in ks {
        GroupSizesAppendKey(ps, ks, p.0);
        GroupOfAbsent(init, p.0);
      }
    }
  }

  /**
   * The map a LinkedHashMap<K, List<V>> holds once `computeIfAbsent(k, ..).add(v)`
   * has run for each pair `(k, v)` of `ps` in turn.
   */
  function GroupMap<K(==), V>(ps: seq<(K, V)>): map<K, seq<V>>
  {
    if ps == [] then map[]
    else
      var m := GroupMap(ps[..|ps| - 1]);
      var p := Last(ps);
      m[p.0 := (if p.0 in m then m[p.0] else []) + [p.1]]
  }

  /** The map has an entry for each key that occurs, holding that key's group. */
  lemma {:induction false} GroupMapIsGroupOf<K, V>(ps: seq<(K, V)>)
    ensures forall k :: k in GroupMap(ps) <==> k in KeysOf(ps)
    ensures forall k :: k in GroupMap(ps) ==> GroupMap(ps)[k] == GroupOf(ps, k)
  {
    if ps != [] {
      var init := ps[..|ps| - 1];
      GroupMapIsGroupOf(init);
      assert KeysOf(ps) == KeysOf(init) + [Last(ps).0];
      var k := Last(ps).0;
      if k !in GroupMap(init) {
        GroupOfAbsent(init, k);
      }
    }
  }

  /** `(keys, m)` is the LinkedHashMap built from the stream `ps`: its key order and its contents. */
  ghost predicate Represents<K, V>(keys: seq<K>, m: map<K, seq<V>>, ps: seq<(K, V)>)
  {
    keys == GroupKeys(ps) && m == GroupMap(ps)
  }

  /** The key order and map after `m.computeIfAbsent(k, x -> new ArrayList<>()).add(v)` on a LinkedHashMap. */
  function AddTo<K(==), V>(keys: seq<K>, m: map<K, seq<V>>, k: K, v: V): (seq<K>, map<K, seq<V>>)
  {
    if k in m then (keys, m[k := m[k] + [v]]) else (keys + [k], m[k := [v]])
  }

  /** Filing one more pair keeps the key order and map in step with the stream. */
  lemma AddToRepresents<K, V>(keys: seq<K>, m: map<K, seq<V>>, ps: seq<(K, V)>, k: K, v: V)
    requires Represents(keys, m, ps)
    ensures Represents(AddTo(keys, m, k, v).0, AddTo(keys, m, k, v).1, ps + [(k, v)])
  {
    var ps' := ps + [(k, v)];
    assert ps'[..|ps|] == ps;
    GroupKeysAreFirstEncounters(ps);
    GroupMapIsGroupOf(ps);
    assert k in keys <==> k in m;
    assert [] + [v] == [v];
  }

  /** The key order and map after filing each pair of `qs` in turn. */
  function AddAll<K(==), V>(keys: seq<K>, m: map<K, seq<V>>, qs: seq<(K, V)>): (seq<K>, map<K, seq<V>>)
  {
    if qs == [] then (keys, m)
    else
      var g := AddAll(keys, m, qs[..|qs| - 1]);
      AddTo(g.0, g.1, Last(qs).0, Last(qs).1)
  }

  lemma {:induction false} AddAllRepresents<K, V>(keys: seq<K>, m: map<K, seq<V>>, ps: seq<(K, V)>, qs: seq<(K, V)>)
    requires Represents(keys, m, ps)
    ensures Represents(AddAll(keys, m, qs).0, AddAll(keys, m, qs).1, ps + qs)
    decreases |qs|
  {
    if qs == [] {
      assert ps + qs == ps;
    } else {
      var init := qs[..|qs| - 1];
      AddAllRepresents(keys, m, ps, init);
      var g := AddAll(keys, m, init);
      AddToRepresents(g.0, g.1, ps + init, Last(qs).0, Last(qs).1);
      assert ps + init + [Last(qs)] == ps + qs;
    }
  }

  lemma {:induction false} AddAllAppend<K, V>(keys: seq<K>, m: map<K, seq<V>>, a: seq<(K, V)>, b: seq<(K, V)>)
    ensures AddAll(keys, m, a + b) == AddAll(AddAll(keys, m, a).0, AddAll(keys, m, a).1, b)
    decreases |b|
  {
    if b == [] {
      assert a + b == a;
    } else {
      var init := b[..|b| - 1];
      AddAllAppend(keys, m, a, init);
      assert (a + b)[..|a + b| - 1] == a + init;
    }
  }

  /** `AddTo` as the statement the source runs; the new entry is the key's earlier group plus `v`. */
  method ComputeIfAbsentAdd<K(==), V>(keys: seq<K>, m: map<K, seq<V>>, k: K, v: V)
    returns (keys': seq<K>, m': map<K, seq<V>>)
    ensures (keys', m') == AddTo(keys, m, k, v)
    ensures k in m' && m'[k] == (if k in m then m[k] else []) + [v]
    ensures forall j :: j != k ==> (j in m' <==> j in m) && (j in m ==> m'[j] == m[j])
  {
    var list: seq<V> := if k in m then m[k] else [];
    keys' := if k in m then keys else keys + [k];
    m' := m[k := list + [v]];
    assert k !in m ==> list + [v] == [v];
  }

  // ---------------------------------------------------------------
  // Sorting (Collections.sort / List.sort)
  // ---------------------------------------------------------------

  ghost predicate Total<T(!new)>(le: (T, T) -> bool)
  {
    forall a, b :: le(a, b) || le(b, a)
  }

  /** Each element is `le` its successor. */
  predicate Sorted<T>(s: seq<T>, le: (T, T) -> bool)
  {
    forall i :: 0 <= i < |s| - 1 ==> le(s[i], s[i + 1])
  }

  function Insert<T(==)>(x: T, s: seq<T>, le: (T, T) -> bool): (r: seq<T>)
    ensures multiset(r) == multiset(s) + multiset{x}
    ensures |r| == |s| + 1
    ensures r[0] == x || (s != [] && r[0] == s[0])
  {
    if s == [] then [x]
    else if !le(s[0], x) then [x] + s
    else
      assert s == [s[0]] + s[1..];
      [s[0]] + Insert(x, s[1..], le)
  }

  /**
   * Insertion sort: a permutation of `s`, sorted whenever `le` is total;
   * an element is inserted behind the elements it ties with (stability is
   * not proved).
   */
  function Sort<T(==)>(s: seq<T>, le: (T, T) -> bool): (r: seq<T>)
    ensures multiset(r) == multiset(s)
    ensures |r| == |s|
  {
    if s == [] then []
    else
      assert s == s[..|s| - 1] + [Last(s)];
      Insert(Last(s), Sort(s[..|s| - 1], le), le)
  }

  lemma {:induction false} InsertSorted<T(!new)>(x: T, s: seq<T>, le: (T, T) -> bool)
    requires Total(le) && Sorted(s, le)
    ensures Sorted(Insert(x, s, le), le)
  {
    if s != [] && !le(s[0], x) {
      assert le(x, s[0]);
    } else if s != [] {
      InsertSorted(x, s[1..], le);
      var r := Insert(x, s, le);
      var t := Insert(x, s[1..], le);
      assert r == [s[0]] + t;
      forall i | 0 <= i < |r| - 1 ensures le(r[i], r[i + 1]) {
        if i > 0 { assert r[i] == t[i - 1] && r[i + 1] == t[i]; }
      }
    }
  }

  lemma {:induction false} SortSorted<T(!new)>(s: seq<T>, le: (T, T) -> bool)
    requires Total(le)
    ensures Sorted(Sort(s, le), le)
  {
    if s != [] {
      SortSorted(s[..|s| - 1], le);
      InsertSorted(Last(s), Sort(s[..|s| - 1], le), le);
    }
  }
}
