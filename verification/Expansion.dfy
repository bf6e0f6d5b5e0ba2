/**
  pipair, expanding calls: getCalleeExtend replaces callees by their callees to a bounded
  depth, and initInterLocation indexes callers by the functions and pairs they then use.
*/
module Expansion {
  import opened CallIndex

  // The callees of each function, in the order in which their set is iterated.
  type Calls = map<string, seq<string>>

  function Callees(g: Calls, n: string): seq<string> {
    if n in g then g[n] else []
  }

  // ----- the call tree

  datatype CallTree = Node(name: string, kids: seq<CallTree>)

  // The calls made below n, to a depth of d.
  function Unroll(g: Calls, n: string, d: nat): CallTree
    decreases d, 0
  {
    Node(n, if d == 0 then [] else UnrollAll(g, Callees(g, n), d - 1))
  }

  function UnrollAll(g: Calls, ns: seq<string>, d: nat): (r: seq<CallTree>)
    ensures |r| == |ns|
    decreases d, 1 + |ns|
  {
    if ns == [] then [] else [Unroll(g, ns[0], d)] + UnrollAll(g, ns[1..], d)
  }

  function Fringe(t: CallTree): multiset<string> {
    if t.kids == [] then multiset{t.name} else Fringes(t.kids)
  }

  function Fringes(ts: seq<CallTree>): multiset<string> {
    if ts == [] then multiset{} else Fringe(ts[0]) + Fringes(ts[1..])
  }

  // ----- getCalleeExtend

  // java.util.ArrayList
  class Names {
    var items: seq<string>

    constructor ()
      ensures items == []
    {
      items := [];
    }

    // Removes the first occurrence, if there is one.
    method Remove(x: string)
      modifies this
      ensures multiset(items) == multiset(old(items)) - multiset{x}
      ensures x !in old(items) ==> items == old(items)
    {
      var i := 0;
      while i < |items|
        invariant i <= |items| && x !in items[..i] && items == old(items)
      {
        if items[i] == x {
          assert items == items[..i] + [x] + items[i + 1..];
          items := items[..i] + items[i + 1..];
          return;
        }
        i := i + 1;
      }
      assert items[..i] == items;
    }

    method AddAll(xs: seq<string>)
      modifies this
      ensures items == old(items) + xs
    {
      items := items + xs;
    }
  }

  // How much deeper calls are followed from here.
  function Left(expandLevel: int, level: nat): nat {
    if level > expandLevel then 0 else expandLevel + 1 - level
  }

  // The list with one occurrence of the caller replaced by the fringe of its call tree.
  function Replaced(g: Calls, expandLevel: int, before: multiset<string>, caller: string,
      level: nat): multiset<string> {
    if Left(expandLevel, level) == 0 || Callees(g, caller) == [] then before
    else (before - multiset{caller}) + Fringe(Unroll(g, caller, Left(expandLevel, level)))
  }

  // A caller that is listed is replaced in any case, if only by itself.
  lemma ReplacedListed(g: Calls, expandLevel: int, before: multiset<string>, caller: string, level: nat)
    requires caller in before
    ensures Replaced(g, expandLevel, before, caller, level) ==
            (before - multiset{caller}) + Fringe(Unroll(g, caller, Left(expandLevel, level)))
  {
    if Left(expandLevel, level) == 0 || Callees(g, caller) == [] {
      assert Fringe(Unroll(g, caller, Left(expandLevel, level))) == multiset{caller};
      assert (before - multiset{caller}) + multiset{caller} == before;
    }
  }

  // The loop over the callees: those before i have been replaced, the others are still listed.
  function Partly(g: Calls, base: multiset<string>, callees: seq<string>, i: nat, d: nat): multiset<string>
    requires i <= |callees|
  {
    base + Fringes(UnrollAll(g, callees[..i], d)) + multiset(callees[i..])
  }

  lemma AllCallees(g: Calls, expandLevel: int, before: multiset<string>, caller: string, level: nat)
    requires level <= expandLevel && Callees(g, caller) != []
    ensures var callees, d, base := Callees(g, caller), Left(expandLevel, level + 1), before - multiset{caller};
            && Partly(g, base, callees, 0, d) == base + multiset(callees)
            && Partly(g, base, callees, |callees|, d) == Replaced(g, expandLevel, before, caller, level)
  {
    var callees, d := Callees(g, caller), Left(expandLevel, level + 1);
    assert callees[..|callees|] == callees && callees[0..] == callees && callees[..0] == [];
    assert Unroll(g, caller, d + 1) == Node(caller, UnrollAll(g, callees, d));
  }

  lemma NextCallee(g: Calls, expandLevel: int, base: multiset<string>, callees: seq<string>, i: nat, level: nat)
    requires i < |callees|
    ensures var d := Left(expandLevel, level);
            Replaced(g, expandLevel, Partly(g, base, callees, i, d), callees[i], level)
                == Partly(g, base, callees, i + 1, d)
  {
    var d, c := Left(expandLevel, level), callees[i];
    var listed, rest := base + Fringes(UnrollAll(g, callees[..i], d)), multiset(callees[i + 1..]);
    assert callees[i..] == [c] + callees[i + 1..];
    assert callees[..i + 1] == callees[..i] + [c];
    ReplacedListed(g, expandLevel, listed + multiset(callees[i..]), c, level);
    FringesSnoc(g, callees[..i], c, d);
    Swap(listed, rest, c, Fringe(Unroll(g, c, d)));
  }

  lemma Swap(listed: multiset<string>, rest: multiset<string>, c: string, f: multiset<string>)
    ensures ((listed + (multiset{c} + rest)) - multiset{c}) + f == (listed + f) + rest
  {
  }

  method GetCalleeExtend(g: Calls, expandLevel: int, result: Names, caller: string, level: nat)
    modifies result
    ensures multiset(result.items) == Replaced(g, expandLevel, multiset(old(result.items)), caller, level)
    decreases Left(expandLevel, level)
  {
    if level > expandLevel {
      return;
    }
    var callees := Callees(g, caller);
    if callees != [] {
      result.Remove(caller);
      ghost var base := multiset(result.items);
      result.AddAll(callees);
      var i := 0;
      ghost var d := Left(expandLevel, level + 1);
      AllCallees(g, expandLevel, multiset(old(result.items)), caller, level);
      while i < |callees|
        invariant i <= |callees| && multiset(result.items) == Partly(g, base, callees, i, d)
      {
        NextCallee(g, expandLevel, base, callees, i, level + 1);
        GetCalleeExtend(g, expandLevel, result, callees[i], level + 1);
        i := i + 1;
      }
    }
  }

  lemma {:induction false} FringesSnoc(g: Calls, ns: seq<string>, n: string, d: nat)
    ensures Fringes(UnrollAll(g, ns + [n], d)) == Fringes(UnrollAll(g, ns, d)) + Fringe(Unroll(g, n, d))
    decreases |ns|
  {
    if ns == [] {
      assert UnrollAll(g, [n], d) == [Unroll(g, n, d)];
      assert Fringes([Unroll(g, n, d)]) == Fringe(Unroll(g, n, d)) + Fringes([]);
    } else {
      assert (ns + [n])[0] == ns[0] && (ns + [n])[1..] == ns[1..] + [n];
      FringesSnoc(g, ns[1..], n, d);
    }
  }

  // ----- what the fringe is

  // A chain of calls: each name is called by the one before it.
  predicate Chain(g: Calls, path: seq<string>) {
    path != [] && forall i :: 0 <= i < |path| - 1 ==> path[i + 1] in Callees(g, path[i])
  }

  // A chain from n to x of d calls, or of fewer if x calls nothing.
  ghost predicate Reaches(g: Calls, n: string, x: string, d: nat, path: seq<string>) {
    && Chain(g, path) && path[0] == n && path[|path| - 1] == x
    && (|path| - 1 == d || (|path| - 1 < d && Callees(g, x) == []))
  }

  // The fringe consists of the ends of such chains, and of nothing else.
  lemma FringeIsChainEnds(g: Calls, n: string, d: nat)
    ensures forall x :: x in Fringe(Unroll(g, n, d)) <==> exists path :: Reaches(g, n, x, d, path)
  {
    forall x
      ensures x in Fringe(Unroll(g, n, d)) <==> exists path :: Reaches(g, n, x, d, path)
    {
      if x in Fringe(Unroll(g, n, d)) {
        var path := FringeToChain(g, n, x, d);
      }
      forall path | Reaches(g, n, x, d, path)
        ensures x in Fringe(Unroll(g, n, d))
      {
        ChainToFringe(g, n, x, d, path);
      }
    }
  }

  lemma {:induction false} FringeToChain(g: Calls, n: string, x: string, d: nat) returns (path: seq<string>)
    requires x in Fringe(Unroll(g, n, d))
    ensures Reaches(g, n, x, d, path)
    decreases d
  {
    hide Fringe, Fringes, UnrollAll;
    if d == 0 || Callees(g, n) == [] {
      AloneInFringe(g, n, d);
      path := [n];
    } else {
      FringeOfNode(g, n, d);
      var k := FringesIndex(g, Callees(g, n), x, d - 1);
      path := FringeToChain(g, Callees(g, n)[k], x, d - 1);
      LongerChain(g, n, path);
      path := [n] + path;
    }
  }

  lemma LongerChain(g: Calls, n: string, path: seq<string>)
    requires Chain(g, path) && path[0] in Callees(g, n)
    ensures Chain(g, [n] + path)
  {
    forall i | 0 <= i < |path|
      ensures ([n] + path)[i + 1] in Callees(g, ([n] + path)[i])
    {
      if i > 0 {
        assert path[i - 1 + 1] in Callees(g, path[i - 1]);
      }
    }
  }

  lemma ShorterChain(g: Calls, path: seq<string>)
    requires Chain(g, path) && |path| > 1
    ensures Chain(g, path[1..])
  {
    forall i | 0 <= i < |path[1..]| - 1
      ensures path[1..][i + 1] in Callees(g, path[1..][i])
    {
      assert path[i + 1 + 1] in Callees(g, path[i + 1]);
    }
  }

  lemma {:induction false} ChainToFringe(g: Calls, n: string, x: string, d: nat, path: seq<string>)
    requires Reaches(g, n, x, d, path)
    ensures x in Fringe(Unroll(g, n, d))
    decreases d
  {
    hide Fringe, Fringes, UnrollAll;
    if |path| <= 1 {
      AloneInFringe(g, n, d);
    } else {
      assert path[0 + 1] in Callees(g, path[0]);
      var k: nat :| k < |Callees(g, n)| && Callees(g, n)[k] == path[1];
      ShorterChain(g, path);
      ChainToFringe(g, path[1], x, d - 1, path[1..]);
      InFringes(g, Callees(g, n), x, d - 1, k);
      FringeOfNode(g, n, d);
    }
  }

  // A function that is not expanded further is its own fringe.
  lemma AloneInFringe(g: Calls, n: string, d: nat)
    requires d == 0 || Callees(g, n) == []
    ensures Fringe(Unroll(g, n, d)) == multiset{n}
  {
  }

  lemma FringeOfNode(g: Calls, n: string, d: nat)
    requires d > 0 && Callees(g, n) != []
    ensures Fringe(Unroll(g, n, d)) == Fringes(UnrollAll(g, Callees(g, n), d - 1))
  {
  }

  lemma {:induction false} FringesIndex(g: Calls, ns: seq<string>, x: string, d: nat) returns (k: nat)
    requires x in Fringes(UnrollAll(g, ns, d))
    ensures k < |ns| && x in Fringe(Unroll(g, ns[k], d))
    decreases |ns|
  {
    hide Unroll, Fringe, Fringes, UnrollAll;
    FringesHead(g, ns, d);
    if x in Fringe(Unroll(g, ns[0], d)) {
      k := 0;
    } else {
      k := FringesIndex(g, ns[1..], x, d);
      k := k + 1;
    }
  }

  lemma FringesHead(g: Calls, ns: seq<string>, d: nat)
    ensures Fringes(UnrollAll(g, ns, d)) ==
            if ns == [] then multiset{} else Fringe(Unroll(g, ns[0], d)) + Fringes(UnrollAll(g, ns[1..], d))
  {
  }

  lemma {:induction false} InFringes(g: Calls, ns: seq<string>, x: string, d: nat, k: nat)
    requires k < |ns| && x in Fringe(Unroll(g, ns[k], d))
    ensures x in Fringes(UnrollAll(g, ns, d))
    decreases |ns|
  {
    if k > 0 {
      InFringes(g, ns[1..], x, d, k - 1);
    }
  }

  // ----- initInterLocation

  // What a caller uses after expansion.
  function Extend(g: Calls, expandLevel: int, caller: string): set<string> {
    set x | x in Replaced(g, expandLevel, multiset{}, caller, 0)
  }

  // For a caller with callees these are the ends of its chains.
  lemma ExtendIsChainEnds(g: Calls, expandLevel: int, caller: string)
    ensures if Callees(g, caller) == [] || expandLevel < 0 then Extend(g, expandLevel, caller) == {}
            else
              && Left(expandLevel, 0) == expandLevel + 1
              && forall x :: x in Extend(g, expandLevel, caller) <==>
                   exists path :: Reaches(g, caller, x, Left(expandLevel, 0), path)
  {
    if Callees(g, caller) != [] && expandLevel >= 0 {
      FringeIsChainEnds(g, caller, expandLevel + 1);
      var none: multiset<string> := multiset{};
      assert none - multiset{caller} == none;
      assert none + Fringe(Unroll(g, caller, expandLevel + 1)) == Fringe(Unroll(g, caller, expandLevel + 1));
    }
  }

  // The callers that use all functions of a key.
  function UsersOf(ext: map<string, set<string>>, key: set<string>): set<string> {
    set c | c in ext && key <= ext[c]
  }

  // The index has the one- and two-element sets that some caller uses, each with exactly
  // its users.
  ghost predicate Indexes(location: Index, ext: map<string, set<string>>) {
    && (forall key :: key in location <==> IsKey(key) && UsersOf(ext, key) != {})
    && (forall key :: key in location ==> location[key] == UsersOf(ext, key))
  }

  // Object[] toArray()
  method ToArray(s: set<string>) returns (a: seq<string>)
    ensures forall x :: x in a <==> x in s
    ensures forall i, j :: 0 <= i < j < |a| ==> a[i] != a[j]
  {
    a := [];
    var rest := s;
    while rest != {}
      invariant rest <= s
      invariant forall x :: x in a <==> x in s - rest
      invariant forall i, j :: 0 <= i < j < |a| ==> a[i] != a[j]
    {
      var x :| x in rest;
      assert forall y :: y in a + [x] <==> y in a || y == x;
      a := a + [x];
      rest := rest - {x};
    }
  }

  class Pipair {
    const callerCallee: Calls
    const expandLevel: int
    var callerCalleeExtend: map<string, set<string>>
    var location: Index

    constructor (callerCallee: Calls, expandLevel: int)
      ensures this.callerCallee == callerCallee && this.expandLevel == expandLevel
      ensures callerCalleeExtend == map[] && location == map[]
    {
      this.callerCallee, this.expandLevel := callerCallee, expandLevel;
      callerCalleeExtend, location := map[], map[];
    }

    // initInterLocation
    method InitInterLocation()
      requires callerCalleeExtend == map[]
      modifies this
      ensures callerCalleeExtend.Keys == callerCallee.Keys
      ensures forall c :: c in callerCallee ==> callerCalleeExtend[c] == Extend(callerCallee, expandLevel, c)
      ensures Indexes(location, callerCalleeExtend)
    {
      var callers := callerCallee.Keys;
      while callers != {}
        invariant callers <= callerCallee.Keys && callerCalleeExtend.Keys == callerCallee.Keys - callers
        invariant forall c :: c in callerCalleeExtend ==> callerCalleeExtend[c] == Extend(callerCallee, expandLevel, c)
      {
        var caller :| caller in callers;
        var tranSet := ExpandCaller(callerCallee, expandLevel, caller);
        callerCalleeExtend := callerCalleeExtend[caller := tranSet];
        callers := callers - {caller};
      }
      location := IndexAll(callerCalleeExtend);
    }
  }

  method ExpandCaller(g: Calls, expandLevel: int, caller: string) returns (tranSet: set<string>)
    ensures tranSet == Extend(g, expandLevel, caller)
  {
    var tranList := new Names();
    GetCalleeExtend(g, expandLevel, tranList, caller, 0);
    assert forall x :: x in tranList.items <==> x in multiset(tranList.items);
    tranSet := set x | x in tranList.items;
  }

  // The second half of initInterLocation.
  method IndexAll(ext: map<string, set<string>>) returns (location: Index)
    ensures Indexes(location, ext)
  {
    location := map[];
    var rest := ext.Keys;
    ghost var done: map<string, set<string>> := map[];
    while rest != {}
      invariant rest <= ext.Keys && done == ext - rest && Indexes(location, done)
    {
      var caller :| caller in rest;
      location := AddCaller(location, caller, ext[caller], done);
      done := done[caller := ext[caller]];
      rest := rest - {caller};
    }
    assert done == ext;
  }

  // The keys of the first j pairs with a[i], and of all pairs with what is before i.
  function RowKeys(a: seq<string>, i: nat, j: nat): set<set<string>>
    requires i < |a| && j <= |a|
  {
    set q | 0 <= q < j :: {a[i], a[q]}
  }

  function PairKeys(a: seq<string>, i: nat): set<set<string>>
    requires i <= |a|
  {
    if i == 0 then {} else PairKeys(a, i - 1) + RowKeys(a, i - 1, |a|)
  }

  // The pairs of the extended callees of one caller.
  method AddCaller(location: Index, caller: string, callees: set<string>, ghost done: map<string, set<string>>)
    returns (location': Index)
    requires Indexes(location, done) && caller !in done
    ensures Indexes(location', done[caller := callees])
  {
    location' := location;
    var a := ToArray(callees);
    for i := 0 to |a|
      invariant Recorded(location, location', PairKeys(a, i), caller)
    {
      location' := AddRow(location', a, i, caller, location, PairKeys(a, i));
    }
    ArrayKeys(a, callees);
    RecordedIndexes(location, location', PairKeys(a, |a|), caller, callees, done);
  }

  method AddRow(location: Index, a: seq<string>, i: nat, caller: string, ghost first: Index,
      ghost keys: set<set<string>>)
    returns (location': Index)
    requires i < |a| && Recorded(first, location, keys, caller)
    ensures Recorded(first, location', keys + RowKeys(a, i, |a|), caller)
  {
    location' := location;
    assert keys + RowKeys(a, i, 0) == keys;
    for j := 0 to |a|
      invariant Recorded(first, location', keys + RowKeys(a, i, j), caller)
    {
      RecordOne(first, location', keys + RowKeys(a, i, j), caller, {a[i], a[j]});
      NextInRow(a, i, j, keys);
      location' := Put(location', {a[i], a[j]}, caller);
    }
  }

  lemma NextInRow(a: seq<string>, i: nat, j: nat, keys: set<set<string>>)
    requires i < |a| && j < |a|
    ensures keys + RowKeys(a, i, j) + {{a[i], a[j]}} == keys + RowKeys(a, i, j + 1)
  {
    assert RowKeys(a, i, j + 1) == RowKeys(a, i, j) + {{a[i], a[j]}};
  }

  lemma {:induction false} InPairKeys(a: seq<string>, i: nat, key: set<string>)
    requires i <= |a|
    ensures key in PairKeys(a, i) <==> exists p, q :: 0 <= p < i && 0 <= q < |a| && key == {a[p], a[q]}
  {
    if i > 0 {
      InPairKeys(a, i - 1, key);
    }
  }

  lemma ArrayKeys(a: seq<string>, callees: set<string>)
    requires forall x :: x in a <==> x in callees
    ensures forall key :: key in PairKeys(a, |a|) <==> IsKey(key) && key <= callees
  {
    forall key
      ensures key in PairKeys(a, |a|) <==> IsKey(key) && key <= callees
    {
      InPairKeys(a, |a|, key);
      if IsKey(key) && key <= callees {
        var x, y :| x in key && y in key && key == {x, y};
        var p, q :| 0 <= p < |a| && 0 <= q < |a| && a[p] == x && a[q] == y;
        assert key == {a[p], a[q]};
      }
    }
  }

  lemma OneMoreUser(done: map<string, set<string>>, caller: string, callees: set<string>, key: set<string>)
    requires caller !in done
    ensures UsersOf(done[caller := callees], key) == UsersOf(done, key) + if key <= callees then {caller} else {}
  {
  }

  lemma RecordedIndexes(location: Index, location': Index, keys: set<set<string>>, caller: string,
      callees: set<string>, done: map<string, set<string>>)
    requires Indexes(location, done) && caller !in done && Recorded(location, location', keys, caller)
    requires forall key :: key in keys <==> IsKey(key) && key <= callees
    ensures Indexes(location', done[caller := callees])
  {
    hide UsersOf;
    var ext := done[caller := callees];
    forall key
      ensures UsersOf(ext, key) == UsersOf(done, key) + if key <= callees then {caller} else {}
    {
      OneMoreUser(done, caller, callees, key);
    }
  }
}
