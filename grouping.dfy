/**
 * Grouping a list by a string key into buckets kept in first-seen key order, as a
 * `reduce`/`forEach` that pushes each element onto `acc[key]` does (an object whose keys
 * are never array indices enumerates them in insertion order).
 */
module Grouping {
  import Lists

  /** One bucket: its key and the elements pushed onto it, in push order. */
  datatype Group<T> = Group(key: string, members: seq<T>)

  function Keys<T>(gs: seq<Group<T>>): (ks: seq<string>)
    ensures |ks| == |gs|
    ensures forall i :: 0 <= i < |gs| ==> ks[i] == gs[i].key
  {
    seq(|gs|, i requires 0 <= i < |gs| => gs[i].key)
  }

  /** The index of the first bucket with key `k`, or -1 when there is none. */
  function FindKey<T>(gs: seq<Group<T>>, k: string): (r: int)
    ensures -1 <= r < |gs|
    ensures r >= 0 ==> gs[r].key == k && forall i :: 0 <= i < r ==> gs[i].key != k
    ensures r == -1 ==> forall i :: 0 <= i < |gs| ==> gs[i].key != k
  {
    if gs == [] then -1
    else if gs[0].key == k then 0
    else
      var r := FindKey(gs[1..], k);
      if r < 0 then -1 else r + 1
  }

  /** `acc[k] ??= []; acc[k].push(x)` */
  function Push<T>(gs: seq<Group<T>>, k: string, x: T): seq<Group<T>>
  {
    var i := FindKey(gs, k);
    if i < 0 then gs + [Group(k, [x])] else gs[i := Group(k, gs[i].members + [x])]
  }

  /** The buckets after pushing every element of `s`, in order. */
  function Grouped<T>(s: seq<T>, key: T -> string): seq<Group<T>>
    decreases |s|
  {
    if s == [] then [] else Push(Grouped(s[..|s| - 1], key), key(s[|s| - 1]), s[|s| - 1])
  }

  /** The elements of `s` whose key is `k`, in list order (an independent reference). */
  function WithKey<T>(s: seq<T>, key: T -> string, k: string): seq<T>
    decreases |s|
  {
    if s == [] then []
    else WithKey(s[..|s| - 1], key, k) + (if key(s[|s| - 1]) == k then [s[|s| - 1]] else [])
  }

  /** The distinct keys of `s`, each where it first occurs (an independent reference). */
  function FirstSeen<T>(s: seq<T>, key: T -> string): seq<string>
    decreases |s|
  {
    if s == [] then []
    else
      var ks := FirstSeen(s[..|s| - 1], key);
      if key(s[|s| - 1]) in ks then ks else ks + [key(s[|s| - 1])]
  }

  /**
   * The keys of the buckets are the distinct keys of `s` in first-seen order, and each
   * bucket holds exactly the elements with its key, in list order; no bucket is empty.
   */
  lemma GroupedSpec<T>(s: seq<T>, key: T -> string)
    ensures Keys(Grouped(s, key)) == FirstSeen(s, key)
    ensures forall i :: 0 <= i < |Grouped(s, key)| ==>
              && Grouped(s, key)[i].members == WithKey(s, key, Grouped(s, key)[i].key)
              && Grouped(s, key)[i].members != []
  {
    GroupedKeys(s, key);
    GroupedMembers(s, key);
  }

  /** The buckets' keys are the first-seen keys. */
  lemma {:induction false} GroupedKeys<T>(s: seq<T>, key: T -> string)
    ensures Keys(Grouped(s, key)) == FirstSeen(s, key)
    decreases |s|
  {
    if s != [] {
      var n := |s| - 1;
      var init := s[..n];
      var x := s[n];
      GroupedKeys(init, key);
      var gs := Grouped(init, key);
      var j := FindKey(gs, key(x));
      assert key(x) in Keys(gs) <==> j >= 0;
      if j < 0 {
        assert Keys(gs + [Group(key(x), [x])]) == Keys(gs) + [key(x)];
      } else {
        assert Keys(gs[j := Group(key(x), gs[j].members + [x])]) == Keys(gs);
      }
    }
  }

  /** Each bucket holds exactly the elements with its key, in list order, and is not empty. */
  lemma {:induction false} GroupedMembers<T>(s: seq<T>, key: T -> string)
    ensures forall i :: 0 <= i < |Grouped(s, key)| ==>
              && Grouped(s, key)[i].members == WithKey(s, key, Grouped(s, key)[i].key)
              && Grouped(s, key)[i].members != []
    decreases |s|
  {
    if s != [] {
      var n := |s| - 1;
      var init := s[..n];
      var x := s[n];
      GroupedMembers(init, key);
      GroupedKeys(init, key);
      FirstSeenSpec(init, key);
      var gs := Grouped(init, key);
      var j := FindKey(gs, key(x));
      var gs' := Grouped(s, key);
      forall i | 0 <= i < |gs'|
        ensures gs'[i].members == WithKey(s, key, gs'[i].key) && gs'[i].members != []
      {
        if i < |gs| {
          assert gs'[i].key == gs[i].key;
          if gs[i].key == key(x) {
            assert Keys(gs)[i] == Keys(gs)[j];
          }
        } else {
          WithKeyAbsent(init, key, key(x));
        }
      }
    }
  }

  /** No element has key `k`, so none is kept. */
  lemma {:induction false} WithKeyAbsent<T>(s: seq<T>, key: T -> string, k: string)
    requires forall i :: 0 <= i < |s| ==> key(s[i]) != k
    ensures WithKey(s, key, k) == []
    decreases |s|
  {
    if s != [] {
      WithKeyAbsent(s[..|s| - 1], key, k);
    }
  }

  /** Only elements of `s` with key `k` are kept. */
  lemma {:induction false} WithKeyMembers<T>(s: seq<T>, key: T -> string, k: string)
    ensures forall x :: x in WithKey(s, key, k) ==> x in s && key(x) == k
    decreases |s|
  {
    if s != [] {
      WithKeyMembers(s[..|s| - 1], key, k);
    }
  }

  /** The first-seen keys are distinct; they are exactly the keys occurring in `s`. */
  lemma {:induction false} FirstSeenSpec<T>(s: seq<T>, key: T -> string)
    ensures Lists.Distinct(FirstSeen(s, key))
    ensures forall i :: 0 <= i < |s| ==> key(s[i]) in FirstSeen(s, key)
    ensures forall k :: k in FirstSeen(s, key) ==> exists i :: 0 <= i < |s| && key(s[i]) == k
    decreases |s|
  {
    if s != [] {
      var n := |s| - 1;
      FirstSeenSpec(s[..n], key);
      assert forall i :: 0 <= i < n ==> s[..n][i] == s[i];
    }
  }

  /** The buckets' members one bucket after another. */
  function Flatten<T>(gs: seq<Group<T>>): seq<T>
  {
    if gs == [] then [] else gs[0].members + Flatten(gs[1..])
  }

  lemma {:induction false} FlattenAppend<T>(gs: seq<Group<T>>, g: Group<T>)
    ensures Flatten(gs + [g]) == Flatten(gs) + g.members
  {
    if gs == [] {
      assert [g][1..] == [];
    } else {
      assert (gs + [g])[1..] == gs[1..] + [g];
      FlattenAppend(gs[1..], g);
    }
  }

  lemma {:induction false} FlattenPush<T>(gs: seq<Group<T>>, i: int, x: T)
    requires 0 <= i < |gs|
    ensures multiset(Flatten(gs[i := Group(gs[i].key, gs[i].members + [x])])) == multiset(Flatten(gs)) + multiset{x}
    decreases |gs|
  {
    var g := Group(gs[i].key, gs[i].members + [x]);
    var u := gs[i := g];
    assert Flatten(u) == u[0].members + Flatten(u[1..]);
    assert Flatten(gs) == gs[0].members + Flatten(gs[1..]);
    if i == 0 {
      assert u[1..] == gs[1..];
      assert multiset(u[0].members) == multiset(gs[0].members) + multiset{x};
    } else {
      var rest := gs[1..];
      assert u[1..] == rest[i - 1 := Group(rest[i - 1].key, rest[i - 1].members + [x])];
      FlattenPush(rest, i - 1, x);
      assert u[0] == gs[0];
    }
  }

  /**
   * Reading the buckets one after another gives back every element of `s`, as often as it
   * occurs there (in list order only when equal keys are already adjacent).
   */
  lemma {:induction false} GroupedPermutation<T>(s: seq<T>, key: T -> string)
    ensures multiset(Flatten(Grouped(s, key))) == multiset(s)
    decreases |s|
  {
    if s != [] {
      var n := |s| - 1;
      GroupedPermutation(s[..n], key);
      var gs := Grouped(s[..n], key);
      var j := FindKey(gs, key(s[n]));
      if j < 0 {
        FlattenAppend(gs, Group(key(s[n]), [s[n]]));
      } else {
        FlattenPush(gs, j, s[n]);
      }
      assert s == s[..n] + [s[n]];
    }
  }

  /** Building the buckets with a loop, as the source's `reduce`/`forEach` does. */
  method GroupBy<T>(s: seq<T>, key: T -> string) returns (gs: seq<Group<T>>)
    ensures gs == Grouped(s, key)
  {
    gs := [];
    var i := 0;
    while i < |s|
      invariant 0 <= i <= |s|
      invariant gs == Grouped(s[..i], key)
    {
      var k := key(s[i]);
      var j := 0;
      while j < |gs| && gs[j].key != k
        invariant 0 <= j <= |gs|
        invariant forall l :: 0 <= l < j ==> gs[l].key != k
      {
        j := j + 1;
      }
      assert j < |gs| ==> j == FindKey(gs, k);
      assert j == |gs| ==> FindKey(gs, k) == -1;
      if j == |gs| {
        gs := gs + [Group(k, [s[i]])];
      } else {
        gs := gs[j := Group(k, gs[j].members + [s[i]])];
      }
      assert s[..i + 1][..i] == s[..i];
      i := i + 1;
    }
    assert s[..|s|] == s;
  }
}
