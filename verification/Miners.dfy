/**
  pipair, the base algorithm twice: one program counts the pairs in lists of callees, the
  other measures the sets of callers in its index.  Both print a bug for each caller that
  uses a function without the partner it usually has.
*/
module Miners {
  import opened CallIndex

  // A block of the call graph, as it is read: a caller and the callees listed below it.
  datatype Call = Call(caller: string, lines: seq<string>)

  // A block as it is understood: repeated callees count once.
  datatype Block = Block(caller: string, callees: set<string>)

  function Names(lines: seq<string>): set<string> {
    set x | x in lines
  }

  function Understood(calls: seq<Call>): (r: seq<Block>)
    ensures |r| == |calls|
  {
    seq(|calls|, i requires 0 <= i < |calls| => Block(calls[i].caller, Names(calls[i].lines)))
  }

  // The callers of all functions of a key.
  function Callers(blocks: seq<Block>, key: set<string>): set<string> {
    set i | 0 <= i < |blocks| && key <= blocks[i].callees :: blocks[i].caller
  }

  // The number of blocks that call all functions of a key.
  function Count(blocks: seq<Block>, key: set<string>): nat {
    if blocks == [] then 0
    else Count(blocks[..|blocks| - 1], key) + if key <= blocks[|blocks| - 1].callees then 1 else 0
  }

  lemma CallersSnoc(blocks: seq<Block>, b: Block, key: set<string>)
    ensures Callers(blocks + [b], key) == Callers(blocks, key) + if key <= b.callees then {b.caller} else {}
  {
    var more := blocks + [b];
    forall c
      ensures c in Callers(more, key) <==> c in Callers(blocks, key) || (key <= b.callees && c == b.caller)
    {
      if i :| 0 <= i < |blocks| && key <= blocks[i].callees && blocks[i].caller == c {
        assert more[i] == blocks[i];
      }
      assert more[|blocks|] == b;
    }
  }

  lemma CountSnoc(blocks: seq<Block>, b: Block, key: set<string>)
    ensures Count(blocks + [b], key) == Count(blocks, key) + if key <= b.callees then 1 else 0
  {
    assert (blocks + [b])[..|blocks|] == blocks;
  }

  // ----- reading, in both programs: the index

  ghost predicate Located(location: Index, blocks: seq<Block>) {
    && (forall key :: key in location <==> IsKey(key) && Callers(blocks, key) != {})
    && (forall key :: key in location ==> location[key] == Callers(blocks, key))
  }

  // The part of addValueToMap that is the same in both.
  method AddToLocation(location: Index, nearBy: set<string>, addValue: string, addLocation: string,
      ghost done: seq<Block>)
    returns (location': Index)
    requires addValue !in nearBy && Located(location, done + [Block(addLocation, nearBy)])
    ensures Located(location', done + [Block(addLocation, nearBy + {addValue})])
  {
    location' := location;
    var rest := nearBy;
    while rest != {}
      invariant rest <= nearBy && Recorded(location, location', PairsWith(addValue, nearBy - rest), addLocation)
    {
      var k :| k in rest;
      RecordOne(location, location', PairsWith(addValue, nearBy - rest), addLocation, {addValue, k});
      OnePairMore(addValue, nearBy, rest, k);
      location' := Put(location', {addValue, k}, addLocation);
      rest := rest - {k};
    }
    assert nearBy - rest == nearBy;
    RecordOne(location, location', PairsWith(addValue, nearBy), addLocation, {addValue});
    location' := Put(location', {addValue}, addLocation);
    NewKeys(nearBy, addValue);
    OneMoreCallee(location, location', PairsWith(addValue, nearBy) + {{addValue}}, nearBy, addValue, addLocation, done);
  }

  function PairsWith(v: string, others: set<string>): set<set<string>> {
    set k | k in others :: {v, k}
  }

  lemma OnePairMore(v: string, nearBy: set<string>, rest: set<string>, k: string)
    requires k in rest && rest <= nearBy
    ensures PairsWith(v, nearBy - (rest - {k})) == PairsWith(v, nearBy - rest) + {{v, k}}
  {
    assert nearBy - (rest - {k}) == (nearBy - rest) + {k};
  }

  // The keys a new callee brings.
  lemma NewKeys(nearBy: set<string>, v: string)
    requires v !in nearBy
    ensures forall key :: key in PairsWith(v, nearBy) + {{v}} <==> IsKey(key) && v in key && key <= nearBy + {v}
  {
    forall key
      ensures key in PairsWith(v, nearBy) + {{v}} <==> IsKey(key) && v in key && key <= nearBy + {v}
    {
      if IsKey(key) && v in key && key <= nearBy + {v} {
        var a, b :| a in key && b in key && key == {a, b};
        var k := if a == v then b else a;
        assert key == {v, k};
        assert k == v ==> key == {v};
      }
      if key == {v} {
        assert v in key && v in key && key == {v, v};
      }
    }
  }

  lemma OneMoreCallee(location: Index, location': Index, keys: set<set<string>>, nearBy: set<string>, v: string,
      caller: string, done: seq<Block>)
    requires v !in nearBy && Located(location, done + [Block(caller, nearBy)])
        && Recorded(location, location', keys, caller)
    requires forall key :: key in keys <==> IsKey(key) && v in key && key <= nearBy + {v}
    ensures Located(location', done + [Block(caller, nearBy + {v})])
  {
    var before, after := done + [Block(caller, nearBy)], done + [Block(caller, nearBy + {v})];
    forall key | IsKey(key)
      ensures Callers(after, key) == Callers(before, key) + if key in keys then {caller} else {}
    {
      CallersSnoc(done, Block(caller, nearBy), key);
      CallersSnoc(done, Block(caller, nearBy + {v}), key);
    }
    RelocatedBy(location, location', keys, caller, before, after);
  }

  lemma RelocatedBy(location: Index, location': Index, keys: set<set<string>>, caller: string, before: seq<Block>,
      after: seq<Block>)
    requires Located(location, before) && Recorded(location, location', keys, caller)
    requires forall key :: key in keys ==> IsKey(key)
    requires forall key :: IsKey(key) ==>
               Callers(after, key) == Callers(before, key) + if key in keys then {caller} else {}
    ensures Located(location', after)
  {
  }

  // Before the first callee of a block has been read.
  lemma NewBlock(location: Index, done: seq<Block>, caller: string)
    requires Located(location, done)
    ensures Located(location, done + [Block(caller, {})])
  {
    forall key | IsKey(key)
      ensures Callers(done + [Block(caller, {})], key) == Callers(done, key)
    {
      CallersSnoc(done, Block(caller, {}), key);
    }
  }

  // ----- printing

  // A printed line: `fn` is used in `caller` without its partner.
  datatype Bug = Bug(fn: string, caller: string, pair: set<string>, support: nat, confidence: real)

  // The line is printed when the function has support supportKey and the pair supportPair.
  ghost predicate Prints(blocks: seq<Block>, supportKey: nat, supportPair: nat, support: int, confidence: real,
      bug: Bug) {
    && IsKey(bug.pair) && bug.fn in bug.pair && bug.pair != {bug.fn}
    && supportKey > 0 && supportPair > 0
    && supportKey >= support && supportPair >= support
    && confidence <= supportPair as real / supportKey as real < 1.0
    && bug.caller in Callers(blocks, {bug.fn}) && bug.caller !in Callers(blocks, bug.pair)
    && bug.support == supportPair && bug.confidence == supportPair as real / supportKey as real
  }

  // What the two programs print.
  ghost predicate BySets(blocks: seq<Block>, support: int, confidence: real, bug: Bug) {
    Prints(blocks, |Callers(blocks, {bug.fn})|, |Callers(blocks, bug.pair)|, support, confidence, bug)
  }

  ghost predicate ByLists(blocks: seq<Block>, support: int, confidence: real, bug: Bug) {
    Prints(blocks, Count(blocks, {bug.fn}), Count(blocks, bug.pair), support, confidence, bug)
  }

  ghost predicate NoRepeats(out: seq<Bug>) {
    forall i, j :: 0 <= i < j < |out| ==> out[i] != out[j]
  }

  // What a line of the list-counting program needs.
  lemma ListsNeed(blocks: seq<Block>, support: int, confidence: real)
    ensures forall bug :: ByLists(blocks, support, confidence, bug) ==>
              && IsKey(bug.pair) && bug.fn in bug.pair && bug.pair != {bug.fn}
              && Count(blocks, bug.pair) > 0
  {
  }

  lemma NoRepeatsNone()
    ensures NoRepeats([])
  {
  }

  lemma NoRepeatsAppend(a: seq<Bug>, b: seq<Bug>)
    requires NoRepeats(a) && NoRepeats(b) && forall x :: x in a ==> x !in b
    ensures NoRepeats(a + b)
  {
    forall i, j | 0 <= i < j < |a + b|
      ensures (a + b)[i] != (a + b)[j]
    {
      assert i < |a| <= j ==> a[i] in a && b[j - |a|] in b;
    }
  }

  // The lines of a function and a pair; the loop at the core of both printBug methods.
  method PrintLines(fn: string, pair: set<string>, callers: set<string>, supportPair: nat, confidencePair: real)
    returns (out: seq<Bug>)
    ensures NoRepeats(out) && |out| == |callers|
    ensures forall bug :: bug in out <==>
              bug.caller in callers && bug == Bug(fn, bug.caller, pair, supportPair, confidencePair)
  {
    out := [];
    var rest := callers;
    while rest != {}
      invariant rest <= callers && NoRepeats(out) && |out| == |callers| - |rest|
      invariant forall bug :: bug in out <==>
                  bug.caller in callers - rest && bug == Bug(fn, bug.caller, pair, supportPair, confidencePair)
    {
      var caller :| caller in rest;
      out := out + [Bug(fn, caller, pair, supportPair, confidencePair)];
      rest := rest - {caller};
    }
  }

  // The test and the lines of one function and one pair.
  method PrintPair(location: Index, fn: string, pair: set<string>, supportKey: nat, supportPair: nat, support: int,
      confidence: real, ghost blocks: seq<Block>)
    returns (out: seq<Bug>)
    requires Located(location, blocks) && pair in location && {fn} in location && fn in pair && pair != {fn}
    requires supportKey > 0 && supportPair > 0
    ensures NoRepeats(out)
    ensures out == [] || |out| == |Callers(blocks, {fn})| - |Callers(blocks, pair)|
    ensures forall bug :: bug in out <==>
              bug.fn == fn && bug.pair == pair && Prints(blocks, supportKey, supportPair, support, confidence, bug)
  {
    var confidencePair := supportPair as real / supportKey as real;
    if supportKey >= support && supportPair >= support && confidencePair < 1.0 && confidencePair >= confidence {
      SubsetOfUsers(blocks, fn, pair);
      out := PrintLines(fn, pair, location[{fn}] - location[pair], supportPair, confidencePair);
    } else {
      out := [];
    }
  }

  // The callers of a pair are callers of each of its functions.
  lemma SubsetOfUsers(blocks: seq<Block>, fn: string, pair: set<string>)
    requires fn in pair
    ensures Callers(blocks, pair) <= Callers(blocks, {fn})
    ensures |Callers(blocks, {fn}) - Callers(blocks, pair)| == |Callers(blocks, {fn})| - |Callers(blocks, pair)|
  {
    var all, some := Callers(blocks, {fn}), Callers(blocks, pair);
    assert some <= all;
    assert all == (all - some) + some;
  }

  lemma OnlyElement(s: set<string>, x: string)
    requires x in s
    ensures |s| == 1 <==> s == {x}
  {
    assert s == {x} + (s - {x});
  }

  // ----- the program that measures sets

  class SetMiner {
    var location: Index
    var nearByCallees: set<string>

    constructor ()
      ensures location == map[] && nearByCallees == {}
    {
      location, nearByCallees := map[], {};
    }

    // addValueToMap
    method AddValueToMap(addValue: string, addLocation: string, ghost done: seq<Block>)
      requires Located(location, done + [Block(addLocation, nearByCallees)])
      modifies this`location
      ensures Located(location, done + [Block(addLocation, nearByCallees + {addValue})])
    {
      if addValue in nearByCallees {
        assert nearByCallees + {addValue} == nearByCallees;
        return;
      }
      location := AddToLocation(location, nearByCallees, addValue, addLocation, done);
    }

    // The reading loop of main.
    method Read(calls: seq<Call>)
      requires location == map[]
      modifies this
      ensures Located(location, Understood(calls))
    {
      for i := 0 to |calls|
        invariant Located(location, Understood(calls[..i]))
      {
        nearByCallees := {};
        ghost var done := Understood(calls[..i]);
        NewBlock(location, done, calls[i].caller);
        var lines := calls[i].lines;
        for j := 0 to |lines|
          invariant nearByCallees == Names(lines[..j])
          invariant Located(location, done + [Block(calls[i].caller, nearByCallees)])
        {
          assert Names(lines[..j + 1]) == Names(lines[..j]) + {lines[j]};
          AddValueToMap(lines[j], calls[i].caller, done);
          nearByCallees := nearByCallees + {lines[j]};
        }
        assert lines[..|lines|] == lines;
        assert Understood(calls[..i + 1]) == done + [Block(calls[i].caller, nearByCallees)];
      }
      assert calls[..|calls|] == calls;
    }

    // printBug
    method PrintBug(support: int, confidence: real, ghost blocks: seq<Block>) returns (out: seq<Bug>)
      requires Located(location, blocks)
      ensures NoRepeats(out) && forall bug :: bug in out <==> BySets(blocks, support, confidence, bug)
    {
      out := [];
      var rest := location.Keys;
      while rest != {}
        invariant rest <= location.Keys && NoRepeats(out)
        invariant forall bug :: bug in out <==>
                    BySets(blocks, support, confidence, bug) && {bug.fn} in location.Keys - rest
      {
        var singleKey :| singleKey in rest;
        if |singleKey| == 1 {
          var fn :| fn in singleKey;
          OnlyElement(singleKey, fn);
          var lines := PrintFunction(fn, support, confidence, blocks);
          NoRepeatsAppend(out, lines);
          out := out + lines;
        } else {
          forall fn
            ensures {fn} != singleKey
          {
            OnlyElement({fn}, fn);
          }
        }
        rest := rest - {singleKey};
      }
      forall bug | BySets(blocks, support, confidence, bug)
        ensures {bug.fn} in location
      {
        assert IsKey({bug.fn});
      }
    }

    // The loop over the pairs of one function.
    method PrintFunction(fn: string, support: int, confidence: real, ghost blocks: seq<Block>) returns (out: seq<Bug>)
      requires Located(location, blocks) && {fn} in location
      ensures NoRepeats(out) && forall bug :: bug in out <==> BySets(blocks, support, confidence, bug) && bug.fn == fn
    {
      out := [];
      var supportKey := |location[{fn}]|;
      var rest := location.Keys;
      while rest != {}
        invariant rest <= location.Keys && NoRepeats(out)
        invariant forall bug :: bug in out <==>
                    BySets(blocks, support, confidence, bug) && bug.fn == fn && bug.pair in location.Keys - rest
      {
        var pairKey :| pairKey in rest;
        if |pairKey| > 1 && fn in pairKey {
          OnlyElement(pairKey, fn);
          var lines := PrintPair(location, fn, pairKey, supportKey, |location[pairKey]|, support, confidence, blocks);
          NoRepeatsAppend(out, lines);
          out := out + lines;
        } else if fn in pairKey {
          OnlyElement(pairKey, fn);
          assert |pairKey| != 0;
        }
        rest := rest - {pairKey};
      }
      forall bug | BySets(blocks, support, confidence, bug)
        ensures bug.pair in location
      {
      }
    }
  }

  // ----- the program that counts lists

  function Items(m: map<string, seq<string>>, a: string): seq<string> {
    if a in m then m[a] else []
  }

  // The list of a function holds a partner once for each block that has both.
  ghost predicate Counted(m: map<string, seq<string>>, blocks: seq<Block>) {
    && (forall a :: a in m ==> m[a] != [])
    && (forall a, b :: multiset(Items(m, a))[b] == Count(blocks, {a, b}))
  }

  // The first half of addValueToMap: all callees seen in the block go to the list of the new
  // one, and the new one goes to all their lists.
  method AddToLists(lists: map<string, seq<string>>, nearBy: set<string>, addValue: string, ghost caller: string,
      ghost done: seq<Block>)
    returns (lists': map<string, seq<string>>)
    requires addValue !in nearBy && Counted(lists, done + [Block(caller, nearBy)])
    ensures Counted(lists', done + [Block(caller, nearBy + {addValue})])
  {
    hide Count, Counted;
    var nearByValues := AddAll(Items(lists, addValue), nearBy);
    nearByValues := nearByValues + [addValue];
    lists' := lists[addValue := nearByValues];
    ghost var middle := lists';
    var rest := nearBy;
    while rest != {}
      invariant rest <= nearBy && Extended(middle, lists', nearBy - rest, addValue)
    {
      var key :| key in rest;
      HasList(lists, nearBy, key, caller, done);
      lists' := lists'[key := lists'[key] + [addValue]];
      rest := rest - {key};
    }
    assert nearBy - rest == nearBy;
    ListsCount(lists, middle, lists', nearBy, addValue, caller, done);
  }

  method AddAll(list: seq<string>, nearBy: set<string>) returns (list': seq<string>)
    ensures list' != [] || nearBy == {}
    ensures forall b :: multiset(list')[b] == multiset(list)[b] + if b in nearBy then 1 else 0
  {
    list' := list;
    var rest := nearBy;
    while rest != {}
      invariant rest <= nearBy && (list' != [] || rest == nearBy)
      invariant forall b :: multiset(list')[b] == multiset(list)[b] + if b in nearBy - rest then 1 else 0
    {
      var key :| key in rest;
      list' := list' + [key];
      rest := rest - {key};
    }
  }

  // The lists of these functions are one entry longer.
  ghost predicate Extended(m: map<string, seq<string>>, m': map<string, seq<string>>, keys: set<string>, v: string) {
    m'.Keys == m.Keys && forall a :: a in m' ==> m'[a] == if a in keys then m[a] + [v] else m[a]
  }

  lemma ListsCount(before: map<string, seq<string>>, middle: map<string, seq<string>>,
      after: map<string, seq<string>>, nearBy: set<string>, v: string, caller: string, done: seq<Block>)
    requires v !in nearBy && Counted(before, done + [Block(caller, nearBy)]) && Extended(middle, after, nearBy, v)
    requires v in middle && middle == before[v := middle[v]] && middle[v] != []
    requires forall b :: multiset(middle[v])[b] == multiset(Items(before, v))[b] + if b in nearBy + {v} then 1 else 0
    ensures Counted(after, done + [Block(caller, nearBy + {v})])
  {
    hide Count;
    forall a, b
      ensures multiset(Items(after, a))[b] == Count(done + [Block(caller, nearBy + {v})], {a, b})
    {
      assert multiset(Items(before, a))[b] == Count(done + [Block(caller, nearBy)], {a, b});
      if a in nearBy {
        HasList(before, nearBy, a, caller, done);
      }
      ItemsCount(before, middle, after, nearBy, v, a, b);
      PairCount(nearBy, v, caller, done, a, b);
    }
  }

  // What one list gains.
  lemma ItemsCount(before: map<string, seq<string>>, middle: map<string, seq<string>>,
      after: map<string, seq<string>>, nearBy: set<string>, v: string, a: string, b: string)
    requires v !in nearBy && Extended(middle, after, nearBy, v) && (a in nearBy ==> a in before)
    requires v in middle && middle == before[v := middle[v]]
    requires multiset(middle[v])[b] == multiset(Items(before, v))[b] + if b in nearBy + {v} then 1 else 0
    ensures multiset(Items(after, a))[b] == multiset(Items(before, a))[b] +
              if (a == v && b in nearBy + {v}) || (a in nearBy && b == v) then 1 else 0
  {
  }

  // What one more callee of the block adds to the count of a pair.
  lemma PairCount(nearBy: set<string>, v: string, caller: string, done: seq<Block>, a: string, b: string)
    requires v !in nearBy
    ensures Count(done + [Block(caller, nearBy + {v})], {a, b}) == Count(done + [Block(caller, nearBy)], {a, b}) +
              if (a == v && b in nearBy + {v}) || (a in nearBy && b == v) then 1 else 0
  {
    hide Count;
    CountSnoc(done, Block(caller, nearBy), {a, b});
    CountSnoc(done, Block(caller, nearBy + {v}), {a, b});
  }

  class ListMiner {
    var lists: map<string, seq<string>>      // the field `map`
    var location: Index
    var nearByCallees: set<string>

    constructor ()
      ensures lists == map[] && location == map[] && nearByCallees == {}
    {
      lists, location, nearByCallees := map[], map[], {};
    }

    // addValueToMap
    method AddValueToMap(addValue: string, addLocation: string, ghost done: seq<Block>)
      requires Located(location, done + [Block(addLocation, nearByCallees)])
      requires Counted(lists, done + [Block(addLocation, nearByCallees)])
      modifies this`location, this`lists
      ensures Located(location, done + [Block(addLocation, nearByCallees + {addValue})])
      ensures Counted(lists, done + [Block(addLocation, nearByCallees + {addValue})])
    {
      if addValue in nearByCallees {
        assert nearByCallees + {addValue} == nearByCallees;
        return;
      }
      lists := AddToLists(lists, nearByCallees, addValue, addLocation, done);
      location := AddToLocation(location, nearByCallees, addValue, addLocation, done);
    }

    // The reading loop of main.
    method Read(calls: seq<Call>)
      requires location == map[] && lists == map[]
      modifies this
      ensures Located(location, Understood(calls)) && Counted(lists, Understood(calls))
    {
      hide Count, Callers;
      NothingRead();
      for i := 0 to |calls|
        invariant Located(location, Understood(calls[..i])) && Counted(lists, Understood(calls[..i]))
      {
        nearByCallees := {};
        ghost var done := Understood(calls[..i]);
        NewBlock(location, done, calls[i].caller);
        NewBlockCounted(lists, done, calls[i].caller);
        var lines := calls[i].lines;
        for j := 0 to |lines|
          invariant nearByCallees == Names(lines[..j])
          invariant Located(location, done + [Block(calls[i].caller, nearByCallees)])
          invariant Counted(lists, done + [Block(calls[i].caller, nearByCallees)])
        {
          assert Names(lines[..j + 1]) == Names(lines[..j]) + {lines[j]};
          AddValueToMap(lines[j], calls[i].caller, done);
          nearByCallees := nearByCallees + {lines[j]};
        }
        assert lines[..|lines|] == lines;
        assert Understood(calls[..i + 1]) == done + [Block(calls[i].caller, nearByCallees)];
      }
      assert calls[..|calls|] == calls;
    }

    // printBug
    method PrintBug(support: int, confidence: real, ghost blocks: seq<Block>) returns (out: seq<Bug>)
      requires Located(location, blocks) && Counted(lists, blocks)
      ensures NoRepeats(out) && forall bug :: bug in out <==> ByLists(blocks, support, confidence, bug)
    {
      out := [];
      var rest := lists.Keys;
      while rest != {}
        invariant rest <= lists.Keys && NoRepeats(out)
        invariant forall bug :: bug in out <==> ByLists(blocks, support, confidence, bug) && bug.fn in lists.Keys - rest
      {
        var key :| key in rest;
        var lines := PrintFunction(key, support, confidence, blocks);
        NoRepeatsAppend(out, lines);
        out := out + lines;
        rest := rest - {key};
      }
      forall bug | ByLists(blocks, support, confidence, bug)
        ensures bug.fn in lists
      {
        ListHolds(lists, blocks, bug.fn, bug.fn);
      }
    }

    // The counts and the lines of one function.
    method PrintFunction(key: string, support: int, confidence: real, ghost blocks: seq<Block>) returns (out: seq<Bug>)
      requires Located(location, blocks) && Counted(lists, blocks) && key in lists
      ensures NoRepeats(out) && forall bug :: bug in out <==> ByLists(blocks, support, confidence, bug) && bug.fn == key
    {
      hide Located, Counted, Callers, Count, Prints, NoRepeats, IsKey;
      ListsNeed(blocks, support, confidence);
      NoRepeatsNone();
      var countMap := InitCountMap(lists, key, blocks);
      var supportKey := countMap[{key}];
      out := [];
      var rest := countMap.Keys;
      while rest != {}
        invariant rest <= countMap.Keys && NoRepeats(out)
        invariant forall bug :: bug in out <==>
                    ByLists(blocks, support, confidence, bug) && bug.fn == key && bug.pair in countMap.Keys - rest
      {
        var countMapKey :| countMapKey in rest;
        if countMapKey != {key} {
          PairLocated(location, blocks, key, countMapKey);
          var lines := PrintPair(location, key, countMapKey, supportKey, countMap[countMapKey], support, confidence,
              blocks);
          NoRepeatsAppend(out, lines);
          out := out + lines;
        }
        rest := rest - {countMapKey};
      }
    }
  }

  // initCountMap: how often each element is in the list of the key.
  method CountElements(key: string, list: seq<string>) returns (countMap: map<set<string>, nat>)
    ensures forall pair :: pair in countMap <==> exists e :: e in list && pair == {key, e}
    ensures forall e :: e in list ==> countMap[{key, e}] == multiset(list)[e]
  {
    countMap := map[];
    for i := 0 to |list|
      invariant forall pair :: pair in countMap <==> exists e :: e in list[..i] && pair == {key, e}
      invariant forall e :: e in list[..i] ==> countMap[{key, e}] == multiset(list[..i])[e]
    {
      assert list[..i + 1] == list[..i] + [list[i]];
      SamePair(key, list[i]);
      countMap := countMap[{key, list[i]} := (if {key, list[i]} in countMap then countMap[{key, list[i]}] else 0) + 1];
    }
    assert list[..|list|] == list;
  }

  lemma SamePair(key: string, e: string)
    ensures forall f :: {key, f} == {key, e} <==> f == e
  {
    forall f | {key, f} == {key, e}
      ensures f == e
    {
      assert f in {key, e} && e in {key, f};
    }
  }

  lemma ListHolds(m: map<string, seq<string>>, blocks: seq<Block>, a: string, b: string)
    requires Counted(m, blocks)
    ensures a in m && b in m[a] <==> Count(blocks, {a, b}) > 0
    ensures a in m ==> multiset(m[a])[b] == Count(blocks, {a, b})
  {
    assert multiset(Items(m, a))[b] == Count(blocks, {a, b});
  }

  // A function that has a list is in its own list.
  lemma SomeBlock(m: map<string, seq<string>>, blocks: seq<Block>, a: string)
    requires Counted(m, blocks) && a in m
    ensures Count(blocks, {a}) > 0 && a in m[a] && {a, a} == {a}
  {
    ListHolds(m, blocks, a, m[a][0]);
    CountFewer(blocks, {a}, {a, m[a][0]});
    ListHolds(m, blocks, a, a);
    assert {a, a} == {a};
  }

  lemma {:induction false} CountFewer(blocks: seq<Block>, small: set<string>, large: set<string>)
    requires small <= large
    ensures Count(blocks, large) <= Count(blocks, small)
    ensures Count(blocks, large) == 0 <==> Callers(blocks, large) == {}
    decreases |blocks|
  {
    if blocks != [] {
      var n := |blocks| - 1;
      CountFewer(blocks[..n], small, large);
      assert blocks == blocks[..n] + [blocks[n]];
      CallersSnoc(blocks[..n], blocks[n], large);
    }
  }

  lemma PairLocated(location: Index, blocks: seq<Block>, key: string, pair: set<string>)
    requires Located(location, blocks) && IsKey(pair) && key in pair && Count(blocks, pair) > 0
    ensures pair in location && {key} in location
  {
    CountFewer(blocks, {key}, pair);
    CountFewer(blocks, {key}, {key});
    assert IsKey({key});
  }

  // The counts of one list are the counts of the keys with its function.
  method InitCountMap(m: map<string, seq<string>>, key: string, ghost blocks: seq<Block>)
    returns (countMap: map<set<string>, nat>)
    requires Counted(m, blocks) && key in m
    ensures {key} in countMap
    ensures forall pair :: pair in countMap <==> IsKey(pair) && key in pair && Count(blocks, pair) > 0
    ensures forall pair :: pair in countMap ==> countMap[pair] == Count(blocks, pair)
  {
    countMap := CountElements(key, m[key]);
    forall pair
      ensures pair in countMap <==> IsKey(pair) && key in pair && Count(blocks, pair) > 0
    {
      if pair in countMap {
        var e :| e in m[key] && pair == {key, e};
        ListHolds(m, blocks, key, e);
      }
      if IsKey(pair) && key in pair && Count(blocks, pair) > 0 {
        var e := Listed(m, blocks, key, pair);
      }
    }
    forall pair | pair in countMap
      ensures countMap[pair] == Count(blocks, pair)
    {
      var e :| e in m[key] && pair == {key, e};
      ListHolds(m, blocks, key, e);
    }
    SomeBlock(m, blocks, key);
    assert IsKey({key});
  }

  lemma Listed(m: map<string, seq<string>>, blocks: seq<Block>, key: string, pair: set<string>) returns (e: string)
    requires Counted(m, blocks) && IsKey(pair) && key in pair && Count(blocks, pair) > 0
    ensures key in m && e in m[key] && pair == {key, e}
  {
    var a, b :| a in pair && b in pair && pair == {a, b};
    e := if a == key then b else a;
    assert pair == {key, e};
    ListHolds(m, blocks, key, e);
  }

  lemma NothingRead()
    ensures Located(map[], []) && Counted(map[], [])
  {
  }

  // A callee of the present block has a list.
  lemma HasList(m: map<string, seq<string>>, nearBy: set<string>, key: string, caller: string, done: seq<Block>)
    requires Counted(m, done + [Block(caller, nearBy)]) && key in nearBy
    ensures key in m
  {
    CountSnoc(done, Block(caller, nearBy), {key, key});
    assert multiset(Items(m, key))[key] > 0;
  }

  lemma NewBlockCounted(m: map<string, seq<string>>, done: seq<Block>, caller: string)
    requires Counted(m, done)
    ensures Counted(m, done + [Block(caller, {})])
  {
    forall a, b
      ensures Count(done + [Block(caller, {})], {a, b}) == Count(done, {a, b})
    {
      CountSnoc(done, Block(caller, {}), {a, b});
      assert a in {a, b};
    }
  }
}
