/**
 Render order: sections sort by slot, and within a slot by the number they were given on insertion. The live
 prompt and the transcript replayer each keep their own numbers.
 */
module SlotOrder {
  datatype Key = Key(slot: int, rank: int)

  predicate Before(a: Key, b: Key) {
    a.slot < b.slot || (a.slot == b.slot && a.rank < b.rank)
  }

  /** No two sections of one slot share a number. */
  ghost predicate Ranked(keys: map<string, Key>) {
    forall m, n :: m in keys && n in keys && m != n ==> keys[m].slot != keys[n].slot || keys[m].rank != keys[n].rank
  }

  ghost predicate Sorted(names: seq<string>, keys: map<string, Key>) {
    && (forall n :: n in names ==> n in keys)
    && forall i, j :: 0 <= i < j < |names| ==> Before(keys[names[i]], keys[names[j]])
  }

  /** `names` lists every key once, in render order. */
  ghost predicate InOrder(names: seq<string>, keys: map<string, Key>) {
    Sorted(names, keys) && forall n :: n in keys ==> n in names
  }

  /** There is only one render order. */
  lemma {:induction false} OnlyOneOrder(a: seq<string>, b: seq<string>, keys: map<string, Key>)
    requires Sorted(a, keys) && Sorted(b, keys) && forall n :: n in a <==> n in b
    ensures a == b
    decreases |a|
  {
    assert (a == [] || a[0] in b) && (b == [] || b[0] in a);
    if a == [] {
    } else {
      SameHead(a, b, keys);
      assert Sorted(a[1..], keys) && Sorted(b[1..], keys);
      forall n ensures n in a[1..] <==> n in b[1..] {
        TailExcludesHead(a, keys, n);
        TailExcludesHead(b, keys, n);
      }
      OnlyOneOrder(a[1..], b[1..], keys);
    }
  }

  lemma SameHead(a: seq<string>, b: seq<string>, keys: map<string, Key>)
    requires a != [] && b != [] && Sorted(a, keys) && Sorted(b, keys) && forall n :: n in a <==> n in b
    ensures a[0] == b[0]
  {
    assert a[0] in b && b[0] in a;
    var i :| 0 <= i < |b| && b[i] == a[0];
    var j :| 0 <= j < |a| && a[j] == b[0];
  }

  lemma TailExcludesHead(a: seq<string>, keys: map<string, Key>, n: string)
    requires a != [] && Sorted(a, keys)
    ensures n in a[1..] <==> n in a && n != a[0]
  {
  }

  /** Puts a new name in its place. */
  method Insert(names: seq<string>, keys: map<string, Key>, n: string) returns (longer: seq<string>)
    requires n in keys && n !in names && Sorted(names, keys) && Ranked(keys)
    ensures Sorted(longer, keys) && forall m :: m in longer <==> m in names || m == n
  {
    var i := 0;
    while i < |names| && Before(keys[names[i]], keys[n])
      invariant 0 <= i <= |names|
      invariant forall j :: 0 <= j < i ==> Before(keys[names[j]], keys[n])
    {
      i := i + 1;
    }
    longer := names[..i] + [n] + names[i..];
    SplicedIsSorted(names, keys, n, i);
  }

  lemma SplicedIsSorted(names: seq<string>, keys: map<string, Key>, n: string, i: nat)
    requires n in keys && n !in names && Sorted(names, keys) && Ranked(keys) && i <= |names|
    requires forall j :: 0 <= j < i ==> Before(keys[names[j]], keys[n])
    requires i < |names| ==> !Before(keys[names[i]], keys[n])
    ensures Sorted(names[..i] + [n] + names[i..], keys)
    ensures forall m :: m in names[..i] + [n] + names[i..] <==> m in names || m == n
  {
    var longer := names[..i] + [n] + names[i..];
    assert names == names[..i] + names[i..];
    forall j | i <= j < |names| ensures Before(keys[n], keys[names[j]]) {
      assert names[i] in names;
    }
    forall j, k | 0 <= j < k < |longer| ensures Before(keys[longer[j]], keys[longer[k]]) {
      var oj := if j <= i then j else j - 1;
      var ok := if k <= i then k else k - 1;
      assert j != i ==> longer[j] == names[oj];
      assert k != i ==> longer[k] == names[ok];
    }
  }

  /** The names of a map, sorted: whatever order the map yields them in, the result is the render order. */
  method SortNames(keys: map<string, Key>) returns (names: seq<string>)
    requires Ranked(keys)
    ensures InOrder(names, keys)
  {
    names := [];
    var left := keys.Keys;
    while left != {}
      invariant left <= keys.Keys
      invariant Sorted(names, keys)
      invariant forall n :: n in names <==> n in keys && n !in left
      decreases left
    {
      var n :| n in left;
      names := Insert(names, keys, n);
      left := left - {n};
    }
  }

  ghost function Place(names: seq<string>, keys: map<string, Key>, n: string): (i: nat)
    requires n in keys && Sorted(names, keys)
    ensures i <= |names| && (forall j :: 0 <= j < i ==> Before(keys[names[j]], keys[n]))
    ensures i < |names| ==> !Before(keys[names[i]], keys[n])
  {
    if names == [] || !Before(keys[names[0]], keys[n]) then 0 else 1 + Place(names[1..], keys, n)
  }

  lemma {:induction false} OrderExists(keys: map<string, Key>)
    requires Ranked(keys)
    ensures exists names :: InOrder(names, keys)
    decreases |keys|
  {
    if keys == map[] {
      assert InOrder([], keys);
    } else {
      var n :| n in keys;
      var fewer := keys - {n};
      assert fewer.Keys == keys.Keys - {n};
      OrderExists(fewer);
      var others :| InOrder(others, fewer);
      SplicedInOrder(others, keys, n);
    }
  }

  lemma SplicedInOrder(others: seq<string>, keys: map<string, Key>, n: string)
    requires n in keys && Ranked(keys) && InOrder(others, keys - {n})
    ensures exists names :: InOrder(names, keys)
  {
    var i := Place(others, keys, n);
    SplicedIsSorted(others, keys, n, i);
    assert InOrder(others[..i] + [n] + others[i..], keys);
  }

  /** The render order of a map. */
  ghost function RenderOrder(keys: map<string, Key>): (names: seq<string>)
    requires Ranked(keys)
    ensures InOrder(names, keys)
  {
    OrderExists(keys);
    var names :| InOrder(names, keys);
    names
  }

  /** Two numberings that agree within every slot give the same order. */
  lemma SameOrder(a: map<string, Key>, b: map<string, Key>)
    requires Ranked(a) && Ranked(b) && a.Keys == b.Keys && Agree(a, b)
    ensures RenderOrder(a) == RenderOrder(b)
  {
    var names := RenderOrder(a);
    assert Sorted(names, b);
    OnlyOneOrder(names, RenderOrder(b), b);
  }

  ghost predicate Agree(a: map<string, Key>, b: map<string, Key>)
    requires a.Keys == b.Keys
  {
    forall m, n :: m in a && n in a && Before(a[m], a[n]) ==> Before(b[m], b[n])
  }

  /** The converse: if some pair is ordered differently, the orders differ. */
  lemma DifferentOrder(a: map<string, Key>, b: map<string, Key>, m: string, n: string)
    requires Ranked(a) && Ranked(b) && a.Keys == b.Keys && m in a && n in a
    requires Before(a[m], a[n]) && Before(b[n], b[m])
    ensures RenderOrder(a) != RenderOrder(b)
  {
    var names := RenderOrder(a);
    var i :| 0 <= i < |names| && names[i] == m;
    var j :| 0 <= j < |names| && names[j] == n;
  }

  lemma SortedAt(names: seq<string>, keys: map<string, Key>, i: nat, j: nat)
    requires Sorted(names, keys) && i < |names| && j < |names|
    ensures i < j <==> Before(keys[names[i]], keys[names[j]])
  {
    assert i < j ==> Before(keys[names[i]], keys[names[j]]);
    assert j < i ==> Before(keys[names[j]], keys[names[i]]);
  }

  lemma TwoInOrder(keys: map<string, Key>, m: string, n: string)
    requires keys.Keys == {m, n} && m != n && Ranked(keys) && Before(keys[m], keys[n])
    ensures RenderOrder(keys) == [m, n]
  {
    OnlyOneOrder([m, n], RenderOrder(keys), keys);
  }

  // ---------------------------------------------------------------------------
  // Part of an order.

  /** The names of `shown`, in the order of `names`. */
  function Visible(names: seq<string>, shown: set<string>): seq<string> {
    if names == [] then []
    else
      var front := Visible(names[..|names| - 1], shown);
      if names[|names| - 1] in shown then front + [names[|names| - 1]] else front
  }

  function Only(keys: map<string, Key>, shown: set<string>): map<string, Key> {
    map n | n in keys && n in shown :: keys[n]
  }

  lemma {:induction false} VisibleIsSorted(names: seq<string>, keys: map<string, Key>, shown: set<string>)
    requires Sorted(names, keys)
    ensures forall n :: n in Visible(names, shown) <==> n in names && n in shown
    ensures Sorted(Visible(names, shown), keys)
    decreases |names|
  {
    if names == [] {
    } else {
      var front, last := names[..|names| - 1], names[|names| - 1];
      VisibleIsSorted(front, keys, shown);
      assert names == front + [last];
      forall n | n in front ensures Before(keys[n], keys[last]) {
        var i :| 0 <= i < |front| && front[i] == n;
        assert names[i] == n;
      }
    }
  }

  /** Part of the render order is the render order of that part. */
  lemma VisibleOrder(keys: map<string, Key>, shown: set<string>)
    requires Ranked(keys)
    ensures Ranked(Only(keys, shown)) && Visible(RenderOrder(keys), shown) == RenderOrder(Only(keys, shown))
  {
    var names := RenderOrder(keys);
    VisibleIsSorted(names, keys, shown);
    OnlyOneOrder(Visible(names, shown), RenderOrder(Only(keys, shown)), Only(keys, shown));
  }
}
