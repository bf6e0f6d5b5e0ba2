/**
  pipair, when the two programs of the base algorithm print the same: always when no caller
  has two blocks, and otherwise exactly when repeated blocks do not concern what is printed.
*/
module Agreement {
  import opened CallIndex
  import opened Miners

  // No caller has two blocks with all functions of the key.
  ghost predicate Once(blocks: seq<Block>, key: set<string>) {
    forall i, j :: 0 <= i < j < |blocks| && key <= blocks[i].callees && key <= blocks[j].callees ==>
      blocks[i].caller != blocks[j].caller
  }

  // Counting blocks measures the set of callers exactly if no caller is counted twice.
  lemma {:induction false} CountMeasures(blocks: seq<Block>, key: set<string>)
    ensures |Callers(blocks, key)| <= Count(blocks, key)
    ensures |Callers(blocks, key)| == Count(blocks, key) <==> Once(blocks, key)
    decreases |blocks|
  {
    if blocks != [] {
      var n := |blocks| - 1;
      var rest, b := blocks[..n], blocks[n];
      assert blocks == rest + [b];
      CountMeasures(rest, key);
      CallersSnoc(rest, b, key);
      OnceSnoc(rest, b, key);
    }
  }

  lemma OnceSnoc(rest: seq<Block>, b: Block, key: set<string>)
    ensures Once(rest + [b], key) <==> Once(rest, key) && (key <= b.callees ==> b.caller !in Callers(rest, key))
  {
    var blocks := rest + [b];
    if Once(blocks, key) {
      forall i, j | 0 <= i < j < |rest| && key <= rest[i].callees && key <= rest[j].callees
        ensures rest[i].caller != rest[j].caller
      {
        assert blocks[i] == rest[i] && blocks[j] == rest[j];
      }
      forall i | 0 <= i < |rest| && key <= rest[i].callees && key <= b.callees
        ensures rest[i].caller != b.caller
      {
        assert blocks[i] == rest[i] && blocks[|rest|] == b;
      }
    }
  }

  lemma OnceMore(blocks: seq<Block>, small: set<string>, large: set<string>)
    requires Once(blocks, small) && small <= large
    ensures Once(blocks, large)
  {
  }

  // Some caller uses the function with the partner, and some caller without it.
  ghost predicate Exposed(blocks: seq<Block>, fn: string, pair: set<string>) {
    && IsKey(pair) && fn in pair && pair != {fn}
    && Callers(blocks, pair) != {} && !(Callers(blocks, {fn}) <= Callers(blocks, pair))
  }

  ghost predicate Agree(blocks: seq<Block>) {
    forall support: int, confidence: real, bug: Bug ::
      BySets(blocks, support, confidence, bug) <==> ByLists(blocks, support, confidence, bug)
  }

  // The programs print the same for all thresholds if and only if no function with a line
  // to print is called in two blocks of one caller.
  lemma AgreeIff(blocks: seq<Block>)
    ensures Agree(blocks) <==> forall fn, pair :: Exposed(blocks, fn, pair) ==> Once(blocks, {fn})
  {
    if forall fn, pair :: Exposed(blocks, fn, pair) ==> Once(blocks, {fn}) {
      forall support: int, confidence: real, bug: Bug
        ensures BySets(blocks, support, confidence, bug) <==> ByLists(blocks, support, confidence, bug)
      {
        if Exposed(blocks, bug.fn, bug.pair) {
          SameSupports(blocks, bug.fn, bug.pair);
        } else {
          PrintsOnlyExposed(blocks, support, confidence, bug);
        }
      }
    } else {
      var fn, pair :| Exposed(blocks, fn, pair) && !Once(blocks, {fn});
      Disagree(blocks, fn, pair);
    }
  }

  lemma SameSupports(blocks: seq<Block>, fn: string, pair: set<string>)
    requires fn in pair && Once(blocks, {fn})
    ensures |Callers(blocks, {fn})| == Count(blocks, {fn}) && |Callers(blocks, pair)| == Count(blocks, pair)
  {
    OnceMore(blocks, {fn}, pair);
    CountMeasures(blocks, {fn});
    CountMeasures(blocks, pair);
  }

  lemma PrintsOnlyExposed(blocks: seq<Block>, support: int, confidence: real, bug: Bug)
    ensures BySets(blocks, support, confidence, bug) ==> Exposed(blocks, bug.fn, bug.pair)
    ensures ByLists(blocks, support, confidence, bug) ==> Exposed(blocks, bug.fn, bug.pair)
  {
    if bug.fn in bug.pair {
      CountFewer(blocks, {bug.fn}, bug.pair);
    }
  }

  // With thresholds of zero the lists print a line that the sets do not.
  lemma Disagree(blocks: seq<Block>, fn: string, pair: set<string>)
    requires Exposed(blocks, fn, pair) && !Once(blocks, {fn})
    ensures !Agree(blocks)
  {
    var caller :| caller in Callers(blocks, {fn}) && caller !in Callers(blocks, pair);
    var key, both := Count(blocks, {fn}), Count(blocks, pair);
    CountFewer(blocks, {fn}, pair);
    CountMeasures(blocks, {fn});
    CountMeasures(blocks, pair);
    FewerPairs(blocks, fn, pair, caller);
    var sets := |Callers(blocks, pair)|;
    assert sets > 0 && |Callers(blocks, {fn})| > 0;
    Ratios(both, key, |Callers(blocks, {fn})|);
    var bug := Bug(fn, caller, pair, both, both as real / key as real);
    assert ByLists(blocks, 0, 0.0, bug);
    assert !BySets(blocks, 0, 0.0, bug);
  }

  lemma Ratios(both: nat, key: nat, callers: nat)
    requires 0 < both < key && 0 < callers < key
    ensures 0.0 <= both as real / key as real < 1.0
    ensures both as real / key as real < both as real / callers as real
  {
    var b, k, c := both as real, key as real, callers as real;
    Quotient(b, k);
    Quotient(b, c);
    Ordered(b / k, 1.0, b, k, k);
    Ordered(b / k, b / c, b, k, c);
  }

  // Of two numbers, the one that needs the larger factor for no larger a product is smaller.
  lemma Ordered(p: real, q: real, b: real, k: real, c: real)
    requires p * k == b <= q * c && 0.0 < c <= k && q > 0.0 && (c < k || b < q * c)
    ensures p < q
  {
    if c < k {
      ScaledLess(c, k, q);
    }
    if p >= q {
      Scaled(p, q, k);
      assert false;
    }
  }

  lemma Quotient(a: real, b: real)
    requires a > 0.0 && b > 0.0
    ensures (a / b) * b == a && a / b > 0.0
  {
    Undone(a, b);
    if a / b <= 0.0 {
      Scaled(0.0, a / b, b);
    }
  }

  lemma Undone(a: real, b: real)
    requires b != 0.0
    ensures (a / b) * b == a
  {
  }

  lemma Scaled(p: real, q: real, y: real)
    requires y > 0.0 && p >= q
    ensures p * y >= q * y
  {
    assert (p - q) * y >= 0.0;
  }

  lemma ScaledLess(p: real, q: real, y: real)
    requires y > 0.0 && p < q
    ensures p * y < q * y && y * p < y * q
  {
    assert (q - p) * y > 0.0;
  }

  lemma {:induction false} FewerPairs(blocks: seq<Block>, fn: string, pair: set<string>, caller: string)
    requires fn in pair && caller in Callers(blocks, {fn}) && caller !in Callers(blocks, pair)
    ensures Count(blocks, pair) < Count(blocks, {fn})
    decreases |blocks|
  {
    var n := |blocks| - 1;
    var rest, b := blocks[..n], blocks[n];
    assert blocks == rest + [b];
    CallersSnoc(rest, b, {fn});
    CallersSnoc(rest, b, pair);
    CountFewer(rest, {fn}, pair);
    if caller in Callers(rest, {fn}) {
      FewerPairs(rest, fn, pair, caller);
    }
  }

  // One block for each caller is enough.
  lemma OneBlockPerCaller(blocks: seq<Block>)
    requires forall i, j :: 0 <= i < j < |blocks| ==> blocks[i].caller != blocks[j].caller
    ensures Agree(blocks)
  {
    AgreeIff(blocks);
  }

  // Two equal blocks of one caller are enough for a difference.
  lemma TwoBlocksDiffer()
    ensures !Agree([Block("f", {"a", "b"}), Block("f", {"a", "b"}), Block("g", {"a"})])
  {
    var blocks := [Block("f", {"a", "b"}), Block("f", {"a", "b"}), Block("g", {"a"})];
    AgreeIff(blocks);
    assert blocks[0].callees == {"a", "b"} && blocks[1].callees == {"a", "b"} && blocks[2].callees == {"a"};
    assert "f" in Callers(blocks, {"a", "b"}) && "g" in Callers(blocks, {"a"});
    assert "b" in {"a", "b"} && "b" !in blocks[2].callees;
    assert "g" !in Callers(blocks, {"a", "b"});
    assert IsKey({"a", "b"});
    assert Exposed(blocks, "a", {"a", "b"});
    assert {"a"} <= blocks[0].callees && {"a"} <= blocks[1].callees && !Once(blocks, {"a"});
  }

  // Both programs, from the lines of the call graph to the printed lines.
  method RunBoth(calls: seq<Call>, support: int, confidence: real) returns (bySets: seq<Bug>, byLists: seq<Bug>)
    ensures Agree(Understood(calls)) ==> multiset(bySets) == multiset(byLists)
  {
    var sets := new SetMiner();
    sets.Read(calls);
    bySets := sets.PrintBug(support, confidence, Understood(calls));
    var lists := new ListMiner();
    lists.Read(calls);
    byLists := lists.PrintBug(support, confidence, Understood(calls));
    if Agree(Understood(calls)) {
      SameLines(bySets, byLists);
    }
  }

  lemma SameLines(a: seq<Bug>, b: seq<Bug>)
    requires NoRepeats(a) && NoRepeats(b) && forall bug :: bug in a <==> bug in b
    ensures multiset(a) == multiset(b)
  {
    forall bug
      ensures multiset(a)[bug] == multiset(b)[bug]
    {
      AtMostOnce(a, bug);
      AtMostOnce(b, bug);
      assert bug in a <==> bug in multiset(a);
      assert bug in b <==> bug in multiset(b);
    }
  }

  lemma {:induction false} AtMostOnce(a: seq<Bug>, bug: Bug)
    requires NoRepeats(a)
    ensures multiset(a)[bug] <= 1
    decreases |a|
  {
    if a != [] {
      var n := |a| - 1;
      assert a == a[..n] + [a[n]];
      AtMostOnce(a[..n], bug);
      assert a[n] !in a[..n];
      assert a[n] in multiset(a[..n]) <==> a[n] in a[..n];
    }
  }
}
