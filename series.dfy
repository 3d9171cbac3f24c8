/**
 * Newest-first series, as the data cache keeps its quote ticks, trade ticks
 * and bars: index 0 is the most recently added entry.
 */
module Series {
  import opened Common

  /** True when adding `x` to `s` would re-deliver the current newest entry. */
  predicate RepeatsNewest<T(==)>(s: seq<T>, x: T) {
    |s| > 0 && s[0] == x
  }

  /**
   * Adds `x` as the newest entry of `s`; an entry equal to the current newest
   * one is not added a second time.
   */
  function Push<T(==)>(s: seq<T>, x: T): (r: seq<T>)
    ensures |r| > 0 && r[0] == x
    ensures |r| == if RepeatsNewest(s, x) then |s| else |s| + 1
    ensures r[|r| - |s|..] == s
  {
    if RepeatsNewest(s, x) then s else [x] + s
  }

  /** Adds the entries of `xs` one by one, in list order, with `Push`. */
  function PushAll<T(==)>(s: seq<T>, xs: seq<T>): (r: seq<T>)
    ensures |s| <= |r| <= |s| + |xs|
    decreases |xs|
  {
    if xs == [] then s else PushAll(Push(s, xs[0]), xs[1..])
  }

  /** After a bulk add, the last entry of the list is the newest. */
  lemma {:induction false} PushAllNewest<T>(s: seq<T>, xs: seq<T>)
    requires xs != []
    ensures |PushAll(s, xs)| > 0 && PushAll(s, xs)[0] == xs[|xs| - 1]
    decreases |xs|
  {
    var t, rest := Push(s, xs[0]), xs[1..];
    assert PushAll(s, xs) == PushAll(t, rest);
    if rest == [] {
      assert PushAll(t, rest) == t;
    } else {
      PushAllNewest(t, rest);
      assert rest[|rest| - 1] == xs[|xs| - 1];
    }
  }

  /** The entry at newest-first position `index`, or `None` when there is none. */
  function At<T>(s: seq<T>, index: nat): (r: Option<T>)
    ensures r.Some? <==> index < |s|
    ensures r.Some? ==> r.value == s[index]
  {
    if index < |s| then Some(s[index]) else None
  }

  /** The series stored under `k`, or the empty series for an unknown key. */
  function Get<K, T>(m: map<K, seq<T>>, k: K): seq<T> {
    if k in m then m[k] else []
  }

  /** The keys that hold at least one entry. */
  function Held<K(!new), T>(m: map<K, seq<T>>): (r: set<K>)
    ensures forall k :: k in r <==> |Get(m, k)| > 0
  {
    set k | k in m && |m[k]| > 0
  }

  /** The entries of `xs` whose key is `k`, in list order. */
  function Only<K(==), T>(xs: seq<T>, key: T -> K, k: K): (r: seq<T>)
    ensures |r| <= |xs|
    ensures forall i :: 0 <= i < |r| ==> key(r[i]) == k
  {
    if xs == [] then []
    else if key(xs[0]) == k then [xs[0]] + Only(xs[1..], key, k)
    else Only(xs[1..], key, k)
  }

  /**
   * The bulk-add rule: each entry of `xs` is pushed under its own key, except
   * that a key in `held` (one that held entries when the bulk call began)
   * receives nothing.
   */
  function BulkAdd<K, T(==)>(m: map<K, seq<T>>, held: set<K>, xs: seq<T>, key: T -> K): map<K, seq<T>>
    decreases |xs|
  {
    if xs == [] then m
    else if key(xs[0]) in held then BulkAdd(m, held, xs[1..], key)
    else BulkAdd(m[key(xs[0]) := Push(Get(m, key(xs[0])), xs[0])], held, xs[1..], key)
  }

  /** One step of a bulk add: the first entry, then the rest. */
  lemma BulkAddStep<K, T>(m: map<K, seq<T>>, held: set<K>, xs: seq<T>, key: T -> K)
    requires xs != []
    ensures BulkAdd(m, held, xs, key)
            == BulkAdd(if key(xs[0]) in held then m else m[key(xs[0]) := Push(Get(m, key(xs[0])), xs[0])], held, xs[1..], key)
  {
  }

  /** No two neighbouring entries of `xs` are equal. */
  predicate NoRepeats<T(==)>(xs: seq<T>) {
    forall i :: 0 < i < |xs| ==> xs[i - 1] != xs[i]
  }

  // ----- lemmas -----

  /** Re-delivering the newest entry changes nothing. */
  lemma PushTwice<T>(s: seq<T>, x: T)
    ensures Push(Push(s, x), x) == Push(s, x)
  {
  }

  /** Two distinct entries added in turn: the later one is at index 0, the earlier at 1. */
  lemma PushTwoDistinct<T>(s: seq<T>, x1: T, x2: T)
    requires x1 != x2 && !RepeatsNewest(s, x1)
    ensures |Push(Push(s, x1), x2)| == |s| + 2
    ensures At(Push(Push(s, x1), x2), 0) == Some(x2)
    ensures At(Push(Push(s, x1), x2), 1) == Some(x1)
  {
  }

  /** A bulk add of one entry is a single add. */
  lemma PushAllOne<T>(s: seq<T>, x: T)
    ensures PushAll(s, [x]) == Push(s, x)
  {
    assert [x][1..] == [];
  }

  /**
   * Without repeated neighbours, pushing `xs` onto a series whose newest
   * entry differs from `xs[0]` stores the whole list, newest first.
   */
  lemma {:induction false} PushAllNoRepeats<T>(s: seq<T>, xs: seq<T>)
    requires NoRepeats(xs)
    requires xs != [] ==> !RepeatsNewest(s, xs[0])
    ensures PushAll(s, xs) == Reversed(xs) + s
    decreases |xs|
  {
    if xs == [] {
      assert Reversed(xs) + s == s;
    } else {
      var x, t := xs[0], xs[1..];
      NoRepeatsTail(xs);
      if t != [] {
        assert xs[0] != xs[1];
        assert t[0] == xs[1];
      }
      PushAllNoRepeats([x] + s, t);
      assert Push(s, x) == [x] + s;
      assert Reversed(xs) == Reversed(t) + [x];
      ConcatAssoc(Reversed(t), [x], s);
    }
  }

  lemma ConcatAssoc<T>(a: seq<T>, b: seq<T>, c: seq<T>)
    ensures a + (b + c) == (a + b) + c
  {
  }

  lemma NoRepeatsTail<T>(xs: seq<T>)
    requires xs != [] && NoRepeats(xs)
    ensures NoRepeats(xs[1..])
  {
    var t := xs[1..];
    forall i | 0 < i < |t| ensures t[i - 1] != t[i] {
      assert t[i - 1] == xs[i] && t[i] == xs[i + 1];
    }
  }

  /** Splitting the bulk list at its first entry. */
  lemma OnlyCons<K, T>(xs: seq<T>, key: T -> K, k: K)
    requires xs != []
    ensures Only(xs, key, k) == if key(xs[0]) == k then [xs[0]] + Only(xs[1..], key, k) else Only(xs[1..], key, k)
  {
  }

  /**
   * What a bulk add does to each key: a key held at the start is left as it
   * was, any other key receives its own entries of `xs` through `PushAll`.
   */
  lemma {:induction false} BulkAddEffect<K, T>(m: map<K, seq<T>>, held: set<K>, xs: seq<T>, key: T -> K, k: K)
    ensures k in held ==> Get(BulkAdd(m, held, xs, key), k) == Get(m, k)
    ensures k !in held ==> Get(BulkAdd(m, held, xs, key), k) == PushAll(Get(m, k), Only(xs, key, k))
    decreases |xs|
  {
    if xs != [] {
      var k0 := key(xs[0]);
      OnlyCons(xs, key, k);
      if k0 in held {
        BulkAddEffect(m, held, xs[1..], key, k);
      } else {
        var m' := m[k0 := Push(Get(m, k0), xs[0])];
        BulkAddEffect(m', held, xs[1..], key, k);
        if k == k0 {
          assert Get(m', k) == Push(Get(m, k), xs[0]);
        } else {
          assert Get(m', k) == Get(m, k);
        }
      }
    }
  }

  /** A bulk add never touches a key that already held entries. */
  lemma BulkAddKeepsHeld<K(!new), T>(m: map<K, seq<T>>, xs: seq<T>, key: T -> K, k: K)
    requires |Get(m, k)| > 0
    ensures Get(BulkAdd(m, Held(m), xs, key), k) == Get(m, k)
  {
    BulkAddEffect(m, Held(m), xs, key, k);
  }
}
