/** Names in lexical order. */
module Sorting {
  import opened Text

  predicate Ascending(names: seq<string>)
  {
    forall i, j :: 0 <= i < j < |names| ==> Less(names[i], names[j])
  }

  /** The place of a new name: everything before it is smaller. */
  function Rank(names: seq<string>, name: string): (k: nat)
    ensures k <= |names|
    ensures forall i :: 0 <= i < k ==> Less(names[i], name)
    ensures k < |names| ==> !Less(names[k], name)
  {
    if names == [] || !Less(names[0], name) then 0
    else
      var k := Rank(names[1..], name);
      assert forall i :: 0 < i < k + 1 ==> names[i] == names[1..][i - 1];
      k + 1
  }

  /** The names with one more, kept in order; a name that is there already is not repeated. */
  function With(names: seq<string>, name: string): (r: seq<string>)
    requires Ascending(names)
    ensures Ascending(r) && forall n :: n in r <==> n in names || n == name
  {
    if name in names then names
    else
      var k := Rank(names, name);
      InsertAscends(names, name);
      assert names == names[..k] + names[k..];
      names[..k] + [name] + names[k..]
  }

  lemma InsertAscends(names: seq<string>, name: string)
    requires Ascending(names) && name !in names
    ensures var k := Rank(names, name); Ascending(names[..k] + [name] + names[k..])
  {
    var k := Rank(names, name);
    forall j | k <= j < |names| ensures Less(name, names[j]) {
      LessTotal(names[k], name);
      if k < j { LessTransitive(name, names[k], names[j]); }
    }
  }

  /** The members of a set in lexical order; the set is walked in any order. */
  method SortNames(names: set<string>) returns (r: seq<string>)
    ensures Ascending(r) && forall n :: n in r <==> n in names
  {
    r := [];
    var rest := names;
    while rest != {}
      invariant rest <= names && Ascending(r)
      invariant forall n :: n in r <==> n in names - rest
      decreases |rest|
    {
      ghost var member := SetHasMember(rest);
      var n :| n in rest;
      rest := rest - {n};
      r := With(r, n);
    }
  }

  // ----- The order of a collection is unique -----

  ghost predicate Strict<T(!new)>(less: (T, T) -> bool)
  {
    forall x, y :: less(x, y) ==> !less(y, x)
  }

  ghost predicate Ascends<T>(less: (T, T) -> bool, s: seq<T>)
  {
    forall i, j :: 0 <= i < j < |s| ==> less(s[i], s[j])
  }

  lemma TailMembers<T(!new)>(less: (T, T) -> bool, s: seq<T>)
    requires Strict(less) && s != [] && Ascends(less, s)
    ensures Ascends(less, s[1..])
    ensures forall n :: n in s[1..] <==> n in s && n != s[0]
  {
    assert s == [s[0]] + s[1..];
    forall i | 0 < i < |s| ensures s[i] != s[0] { assert less(s[0], s[i]); }
  }

  lemma SameFirst<T(!new)>(less: (T, T) -> bool, a: seq<T>, b: seq<T>)
    requires Strict(less) && a != [] && b != [] && Ascends(less, a) && Ascends(less, b)
    requires a[0] in b && b[0] in a
    ensures a[0] == b[0]
  {
    var i :| 0 <= i < |b| && b[i] == a[0];
    var j :| 0 <= j < |a| && a[j] == b[0];
  }

  lemma FirstIsMember<T>(s: seq<T>)
    requires s != []
    ensures exists n :: n in s
  {
    assert s[0] in s;
  }

  /** Two strictly ascending sequences of the same members are equal. */
  lemma {:induction false} AscendingUnique<T(!new)>(less: (T, T) -> bool, a: seq<T>, b: seq<T>)
    requires Strict(less) && Ascends(less, a) && Ascends(less, b)
    requires forall n :: n in a <==> n in b
    ensures a == b
    decreases |a|
  {
    if a == [] {
      if b != [] { FirstIsMember(b); }
    } else {
      assert a[0] in b && b != [] && b[0] in a;
      SameFirst(less, a, b);
      TailMembers(less, a);
      TailMembers(less, b);
      AscendingUnique(less, a[1..], b[1..]);
      assert a == [a[0]] + a[1..] && b == [b[0]] + b[1..];
    }
  }

  lemma NamesUnique(a: seq<string>, b: seq<string>)
    requires Ascending(a) && Ascending(b) && forall n :: n in a <==> n in b
    ensures a == b
  {
    forall x, y | Less(x, y) ensures !Less(y, x) { LessAsymmetric(x, y); }
    assert Strict((x, y) => Less(x, y));
    AscendingUnique((x, y) => Less(x, y), a, b);
  }

  // ----- What a filter keeps -----

  ghost predicate PicksAt<T>(all: seq<T>, keep: set<nat>, at: seq<nat>, out: seq<T>)
  {
    && |at| == |out| && (forall j, k :: 0 <= j < k < |at| ==> at[j] < at[k])
    && (forall i :: i in at <==> i in keep)
    && forall k :: 0 <= k < |at| ==> at[k] < |all| && out[k] == all[at[k]]
  }

  /** `out` holds the elements of `all` at the places of `keep`, each once and in the order of `all`. */
  ghost predicate Picks<T>(all: seq<T>, keep: set<nat>, out: seq<T>)
  {
    exists at: seq<nat> :: PicksAt(all, keep, at, out)
  }

  lemma PicksNone<T>(all: seq<T>)
    ensures Picks(all, {}, [])
  {
    assert PicksAt(all, {}, [], []);
  }

  lemma PicksMore<T>(all: seq<T>, keep: set<nat>, out: seq<T>, x: T)
    requires Picks(all, keep, out)
    ensures Picks(all + [x], keep, out) && Picks(all + [x], keep + {|all|}, out + [x])
  {
    var at: seq<nat> :| PicksAt(all, keep, at, out);
    assert PicksAt(all + [x], keep, at, out);
    assert PicksAt(all + [x], keep + {|all|}, at + [|all|], out + [x]);
  }

  /** One more element, taken or not. */
  lemma PicksStep<T>(all: seq<T>, x: T, keep: set<nat>, more: set<nat>, taken: bool, out: seq<T>)
    requires Picks(all, keep, out) && more == if taken then keep + {|all|} else keep
    ensures Picks(all + [x], more, if taken then out + [x] else out)
  {
    PicksMore(all, keep, out, x);
  }

  function Up(): (nat, nat) -> bool
  {
    (i: nat, j: nat) => i < j
  }

  /** There is one such sequence. */
  lemma PicksUnique<T>(all: seq<T>, keep: set<nat>, a: seq<T>, b: seq<T>)
    requires Picks(all, keep, a) && Picks(all, keep, b)
    ensures a == b
  {
    var i: seq<nat> :| PicksAt(all, keep, i, a);
    var j: seq<nat> :| PicksAt(all, keep, j, b);
    AscendingUnique(Up(), i, j);
  }
}
