/**
  pipair, filtering bugs by reachability: reachReducedBug searches the calls below the other
  callees of a caller for the missing function of a pair, depth first, with a depth bound.
*/
module Reach {
  import opened Expansion

  // The state of one search.  A level is overwritten whenever its function is seen again.
  datatype Search = Search(stack: seq<string>, visit: set<string>, level: map<string, int>)

  function Start(s: string): Search {
    Search([s], {s}, map[s := 0])
  }

  // The functions that are called at all.
  function Called(g: Calls): set<string> {
    set n, x | n in g && x in g[n] :: x
  }

  // The loop over the callees of `pop`; None when the partner is found.
  datatype Scanned = Found | Onward(st: Search)

  function Scan(expandLevel: int, partner: string, pop: string, callees: seq<string>, st: Search): (r: Scanned)
    requires pop in st.level
    ensures r.Onward? ==> Grown(callees, st, r.st)
    decreases |callees|
  {
    if callees == [] then Onward(st)
    else
      var x := callees[0];
      var level := st.level[x := st.level[pop] + 1];
      if x !in st.visit && level[x] <= expandLevel then
        if x == partner then Found
        else
          var r := Scan(expandLevel, partner, pop, callees[1..], Search(st.stack + [x], st.visit + {x}, level));
          assert r.Onward? ==> x in r.st.visit;
          r
      else Scan(expandLevel, partner, pop, callees[1..], st.(level := level))
  }

  // What one callee that is not the partner within reach does to the search.
  function Seen(expandLevel: int, pop: string, x: string, st: Search): Search
    requires pop in st.level
  {
    var level := st.level[x := st.level[pop] + 1];
    if x !in st.visit && level[x] <= expandLevel then Search(st.stack + [x], st.visit + {x}, level)
    else st.(level := level)
  }

  lemma ScanHead(expandLevel: int, partner: string, pop: string, callees: seq<string>, st: Search)
    requires pop in st.level && callees != []
    ensures Scan(expandLevel, partner, pop, callees, st) ==
            if callees[0] == partner && partner !in st.visit && st.level[pop] < expandLevel then Found
            else Scan(expandLevel, partner, pop, callees[1..], Seen(expandLevel, pop, callees[0], st))
  {
  }

  // Scanning pushes new callees only.
  ghost predicate Grown(callees: seq<string>, st: Search, st': Search) {
    && st.stack <= st'.stack && st.visit <= st'.visit && st.level.Keys <= st'.level.Keys
    && (forall x :: x in st'.visit && x !in st.visit ==> x in callees)
    && (st'.visit == st.visit ==> st'.stack == st.stack)
    && (forall x :: x in st'.stack ==> x in st.stack || x in st'.level)
  }

  ghost predicate Levelled(st: Search) {
    forall x :: x in st.stack ==> x in st.level
  }

  lemma FewerLeft(g: Calls, pop: string, st: Search, st': Search)
    requires pop in g && Grown(g[pop], st, st')
    ensures |Called(g) - st'.visit| <= |Called(g) - st.visit|
    ensures st'.visit != st.visit ==> |Called(g) - st'.visit| < |Called(g) - st.visit|
  {
    Smaller(Called(g) - st'.visit, Called(g) - st.visit);
    if st'.visit != st.visit {
      var x :| x in st'.visit && x !in st.visit;
      assert x in Called(g);
      Smaller(Called(g) - st'.visit, Called(g) - st.visit - {x});
    }
  }

  lemma Smaller(a: set<string>, b: set<string>)
    requires a <= b
    ensures |a| <= |b|
  {
    if a != {} {
      var x :| x in a;
      Smaller(a - {x}, b - {x});
    }
  }

  // The loop over the stack.
  function Reached(g: Calls, expandLevel: int, partner: string, st: Search): bool
    requires Levelled(st)
    decreases |Called(g) - st.visit|, |st.stack|
  {
    if st.stack == [] then false
    else
      var n := |st.stack| - 1;
      var pop, below := st.stack[n], st.(stack := st.stack[..n]);
      if pop !in g then Reached(g, expandLevel, partner, below)
      else
        match Scan(expandLevel, partner, pop, g[pop], below)
        case Found => true
        case Onward(st') =>
          FewerLeft(g, pop, below, st');
          Reached(g, expandLevel, partner, st')
  }

  // The loop over the callees of the caller.
  function Filtered(g: Calls, expandLevel: int, single: string, partner: string, nearBy: seq<string>): bool {
    exists i :: 0 <= i < |nearBy| && nearBy[i] != single && Reached(g, expandLevel, partner, Start(nearBy[i]))
  }

  // reachReducedBug
  method ReachReducedBug(g: Calls, expandLevel: int, single: string, partner: string, nearBy: seq<string>)
    returns (found: bool)
    ensures found == Filtered(g, expandLevel, single, partner, nearBy)
  {
    for i := 0 to |nearBy|
      invariant forall j :: 0 <= j < i ==> nearBy[j] == single || !Reached(g, expandLevel, partner, Start(nearBy[j]))
    {
      if nearBy[i] == single {
        continue;
      }
      var stack, visit, level := [nearBy[i]], {nearBy[i]}, map[nearBy[i] := 0];
      while stack != []
        invariant Levelled(Search(stack, visit, level))
        invariant Reached(g, expandLevel, partner, Search(stack, visit, level))
               == Reached(g, expandLevel, partner, Start(nearBy[i]))
        decreases |Called(g) - visit|, |stack|
      {
        var pop := stack[|stack| - 1];
        stack := stack[..|stack| - 1];
        if pop !in g {
          continue;
        }
        ghost var below := Search(stack, visit, level);
        var hit;
        hit, stack, visit, level := ScanCallees(expandLevel, partner, pop, g[pop], stack, visit, level);
        if hit {
          return true;
        }
        FewerLeft(g, pop, below, Search(stack, visit, level));
      }
    }
    found := false;
  }

  // The loop over the callees of the function on top of the stack.
  method ScanCallees(expandLevel: int, partner: string, pop: string, callees: seq<string>, stack: seq<string>,
      visit: set<string>, level: map<string, int>)
    returns (hit: bool, stack': seq<string>, visit': set<string>, level': map<string, int>)
    requires pop in level
    ensures Scan(expandLevel, partner, pop, callees, Search(stack, visit, level))
         == if hit then Found else Onward(Search(stack', visit', level'))
  {
    stack', visit', level' := stack, visit, level;
    for k := 0 to |callees|
      invariant pop in level'
      invariant Scan(expandLevel, partner, pop, callees[k..], Search(stack', visit', level'))
             == Scan(expandLevel, partner, pop, callees, Search(stack, visit, level))
    {
      var x := callees[k];
      assert callees[k..][0] == x && callees[k..][1..] == callees[k + 1..];
      level' := level'[x := level'[pop] + 1];
      if x !in visit' && level'[x] <= expandLevel {
        if x == partner {
          return true, stack', visit', level';
        }
        visit' := visit' + {x};
        stack' := stack' + [x];
      }
    }
    hit := false;
  }

  // ----- what a hit means

  // A chain of n calls from s to x.
  ghost predicate HasChain(g: Calls, s: string, x: string, n: int) {
    exists path :: Chain(g, path) && path[0] == s && path[|path| - 1] == x && |path| == n + 1
  }

  lemma OneMoreCall(g: Calls, s: string, y: string, x: string, n: int)
    requires HasChain(g, s, y, n) && x in Callees(g, y)
    ensures HasChain(g, s, x, n + 1)
  {
    var path :| Chain(g, path) && path[0] == s && path[|path| - 1] == y && |path| == n + 1;
    var longer := path + [x];
    forall i | 0 <= i < |longer| - 1
      ensures longer[i + 1] in Callees(g, longer[i])
    {
      if i < |path| - 1 {
        assert path[i + 1] in Callees(g, path[i]);
      }
    }
    assert Chain(g, longer);
  }

  // Each level is the length of some chain of calls, even though it is overwritten.
  ghost predicate Honest(g: Calls, s: string, level: map<string, int>) {
    forall x :: x in level ==> level[x] >= 0 && HasChain(g, s, x, level[x])
  }

  lemma {:induction false} ScanHonest(g: Calls, s: string, expandLevel: int, partner: string, pop: string,
      callees: seq<string>, st: Search)
    requires pop in st.level && Honest(g, s, st.level) && forall x :: x in callees ==> x in Callees(g, pop)
    ensures match Scan(expandLevel, partner, pop, callees, st)
            case Found => exists n :: 1 <= n <= expandLevel && HasChain(g, s, partner, n)
            case Onward(st') => Honest(g, s, st'.level)
    decreases |callees|
  {
    if callees != [] {
      var x := callees[0];
      var level := st.level[x := st.level[pop] + 1];
      OneMoreCall(g, s, pop, x, st.level[pop]);
      assert Honest(g, s, level);
      if x !in st.visit && level[x] <= expandLevel {
        if x == partner {
          assert HasChain(g, s, partner, level[x]);
        } else {
          ScanHonest(g, s, expandLevel, partner, pop, callees[1..], Search(st.stack + [x], st.visit + {x}, level));
        }
      } else {
        ScanHonest(g, s, expandLevel, partner, pop, callees[1..], st.(level := level));
      }
    }
  }

  lemma {:induction false} ReachedHonest(g: Calls, s: string, expandLevel: int, partner: string, st: Search)
    requires Levelled(st) && Honest(g, s, st.level) && Reached(g, expandLevel, partner, st)
    ensures exists n :: 1 <= n <= expandLevel && HasChain(g, s, partner, n)
    decreases |Called(g) - st.visit|, |st.stack|
  {
    var n := |st.stack| - 1;
    var pop, below := st.stack[n], st.(stack := st.stack[..n]);
    if pop !in g {
      ReachedHonest(g, s, expandLevel, partner, below);
    } else {
      ScanHonest(g, s, expandLevel, partner, pop, g[pop], below);
      match Scan(expandLevel, partner, pop, g[pop], below)
      case Found =>
      case Onward(st') =>
        FewerLeft(g, pop, below, st');
        ReachedHonest(g, s, expandLevel, partner, st');
    }
  }

  // A hit is a chain of 1 to expandLevel calls from another callee to the partner.
  lemma HitIsChain(g: Calls, expandLevel: int, single: string, partner: string, nearBy: seq<string>)
    requires Filtered(g, expandLevel, single, partner, nearBy)
    ensures exists s, n :: s in nearBy && s != single && 1 <= n <= expandLevel && HasChain(g, s, partner, n)
  {
    var i :| 0 <= i < |nearBy| && nearBy[i] != single && Reached(g, expandLevel, partner, Start(nearBy[i]));
    var s := nearBy[i];
    assert Chain(g, [s]);
    assert HasChain(g, s, s, 0);
    ReachedHonest(g, s, expandLevel, partner, Start(s));
  }

  // ----- one level

  // The partner is among the callees of s, before any call of s to itself.
  predicate CallsFirst(s: string, partner: string, callees: seq<string>) {
    callees != [] && callees[0] != s && (callees[0] == partner || CallsFirst(s, partner, callees[1..]))
  }

  // At level 1 a miss stays a miss: the functions on the stack are a call away from the start.
  lemma {:induction false} ScanTooDeep(partner: string, pop: string, callees: seq<string>, st: Search)
    requires pop in st.level && forall x :: x in st.level && (x == pop || x in st.stack) ==> st.level[x] >= 1
    requires Levelled(st)
    ensures var r := Scan(1, partner, pop, callees, st);
            r.Onward? && r.st.stack == st.stack && Levelled(r.st) && forall x :: x in st.stack ==> r.st.level[x] >= 1
    decreases |callees|
  {
    if callees != [] {
      ScanTooDeep(partner, pop, callees[1..], st.(level := st.level[callees[0] := st.level[pop] + 1]));
    }
  }

  lemma {:induction false} ReachedTooDeep(g: Calls, partner: string, st: Search)
    requires Levelled(st) && forall x :: x in st.stack ==> st.level[x] >= 1
    ensures !Reached(g, 1, partner, st)
    decreases |Called(g) - st.visit|, |st.stack|
  {
    if st.stack != [] {
      var n := |st.stack| - 1;
      var pop, below := st.stack[n], st.(stack := st.stack[..n]);
      if pop !in g {
        ReachedTooDeep(g, partner, below);
      } else {
        ScanTooDeep(partner, pop, g[pop], below);
        var st' := Scan(1, partner, pop, g[pop], below).st;
        FewerLeft(g, pop, below, st');
        ReachedTooDeep(g, partner, st');
      }
    }
  }

  lemma {:induction false} ScanStart(s: string, partner: string, callees: seq<string>, st: Search)
    requires s in st.level && st.level[s] == 0 && s in st.visit && partner !in st.visit && s !in st.stack
        && Levelled(st)
    requires forall x :: x in st.stack ==> st.level[x] >= 1
    ensures var r := Scan(1, partner, s, callees, st);
            if CallsFirst(s, partner, callees) then r == Found
            else r.Onward? && Levelled(r.st) && forall x :: x in r.st.stack ==> r.st.level[x] >= 1
    decreases |callees|
  {
    if callees != [] {
      var x := callees[0];
      var level := st.level[x := 1];
      if x == s {
        ScanTooDeep(partner, s, callees[1..], st.(level := level));
      } else if x != partner {
        if x !in st.visit {
          ScanStart(s, partner, callees[1..], Search(st.stack + [x], st.visit + {x}, level));
        } else {
          ScanStart(s, partner, callees[1..], st.(level := level));
        }
      }
    }
  }

  // Exactly when a search of one level succeeds.
  lemma ReachedAtOne(g: Calls, s: string, partner: string)
    ensures Reached(g, 1, partner, Start(s)) <==> s != partner && CallsFirst(s, partner, Callees(g, s))
  {
    var below := Search([], {s}, map[s := 0]);
    assert Start(s).stack[..0] == [] && Start(s).(stack := Start(s).stack[..0]) == below;
    if s in g {
      if s != partner {
        ScanStart(s, partner, g[s], below);
        match Scan(1, partner, s, g[s], below)
        case Found =>
        case Onward(st') => ReachedTooDeep(g, partner, st');
      } else {
        ScanVisited(s, g[s], below);
        ReachedTooDeep(g, partner, Scan(1, partner, s, g[s], below).st);
      }
    }
  }

  // A partner that is the start itself is never found.
  lemma {:induction false} ScanVisited(s: string, callees: seq<string>, st: Search)
    requires s in st.level && st.level[s] >= 0 && s in st.visit && s !in st.stack && Levelled(st)
    requires forall x :: x in st.stack ==> st.level[x] >= 1
    ensures var r := Scan(1, s, s, callees, st);
            r.Onward? && Levelled(r.st) && forall x :: x in r.st.stack ==> r.st.level[x] >= 1
    decreases |callees|
  {
    if callees != [] {
      var x := callees[0];
      var level := st.level[x := st.level[s] + 1];
      if x !in st.visit && level[x] <= 1 {
        ScanVisited(s, callees[1..], Search(st.stack + [x], st.visit + {x}, level));
      } else {
        ScanVisited(s, callees[1..], st.(level := level));
      }
    }
  }

  lemma {:induction false} NoSelfCall(s: string, partner: string, callees: seq<string>)
    requires s !in callees
    ensures CallsFirst(s, partner, callees) <==> partner in callees
  {
    if callees != [] {
      NoSelfCall(s, partner, callees[1..]);
    }
  }

  // With one level, no callee that calls itself, and a partner that the caller does not
  // call, the search finds exactly the partners that are one call away.
  lemma ExactAtOne(g: Calls, single: string, partner: string, nearBy: seq<string>)
    requires partner !in nearBy && forall s :: s in nearBy ==> s !in Callees(g, s)
    ensures Filtered(g, 1, single, partner, nearBy) <==>
              exists s :: s in nearBy && s != single && partner in Callees(g, s)
  {
    forall s | s in nearBy
      ensures Reached(g, 1, partner, Start(s)) <==> partner in Callees(g, s)
    {
      ReachedAtOne(g, s, partner);
      NoSelfCall(s, partner, Callees(g, s));
    }
    if s :| s in nearBy && s != single && partner in Callees(g, s) {
      var i :| 0 <= i < |nearBy| && nearBy[i] == s;
      assert Reached(g, 1, partner, Start(nearBy[i]));
    }
  }

  // ----- more levels

  // All chains of up to expandLevel + 1 calls from s to one function have the same length,
  // as in a call graph with layers.
  ghost predicate Graded(g: Calls, s: string, expandLevel: int) {
    forall x, m, n ::
      0 <= m <= expandLevel + 1 && 0 <= n <= expandLevel + 1 && HasChain(g, s, x, m) && HasChain(g, s, x, n) ==> m == n
  }

  // Levels are depths, and the partner has not been seen.
  ghost predicate Sane(g: Calls, s: string, expandLevel: int, partner: string, st: Search) {
    && Honest(g, s, st.level) && (forall x :: x in st.level ==> st.level[x] <= expandLevel + 1)
    && (forall x :: x in st.visit ==> x in st.level && st.level[x] <= expandLevel)
    && (forall x :: x in st.stack ==> x in st.visit)
    && s in st.visit && partner !in st.visit
  }

  // The callees of a function that are still within reach have been visited.
  ghost predicate Closed(g: Calls, expandLevel: int, st: Search, x: string) {
    x in st.level && (st.level[x] < expandLevel ==> forall y :: y in Callees(g, x) ==> y in st.visit)
  }

  // What one callee changes: its level is what it was, if it had one.
  lemma SeeOne(g: Calls, s: string, expandLevel: int, partner: string, pop: string, x: string, st: Search)
    requires Graded(g, s, expandLevel) && Sane(g, s, expandLevel, partner, st) && pop in st.visit
        && x in Callees(g, pop)
    ensures var level := st.level[x := st.level[pop] + 1];
            && (x in st.level ==> level == st.level)
            && Sane(g, s, expandLevel, partner, st.(level := level))
            && (x != partner && level[x] <= expandLevel ==>
                  Sane(g, s, expandLevel, partner, Search(st.stack + [x], st.visit + {x}, level)))
  {
    hide HasChain, Chain;
    OneMoreCall(g, s, pop, x, st.level[pop]);
    if x in st.level {
      assert st.level[x := st.level[pop] + 1] == st.level;
    }
  }

  // Scanning visits what is within reach, keeps the levels of what was visited, and leaves
  // what is new on the stack.
  ghost predicate Advances(expandLevel: int, pop: string, callees: seq<string>, st: Search, st': Search) {
    && st.level.Keys <= st'.level.Keys && (forall x :: x in st.level ==> st'.level[x] == st.level[x])
    && (forall x :: x in st.visit ==> x in st'.visit)
    && (forall x :: x in st.stack ==> x in st'.stack)
    && (forall x :: x in st'.visit && x !in st.visit ==> x in st'.stack)
    && (pop in st.level && st.level[pop] < expandLevel ==> forall y :: y in callees ==> y in st'.visit)
  }

  lemma AdvancesOn(expandLevel: int, pop: string, callees: seq<string>, st: Search, st1: Search, st2: Search)
    requires callees != [] && pop in st.level && Advances(expandLevel, pop, callees[1..], st1, st2)
    requires st.level.Keys <= st1.level.Keys && (forall x :: x in st.level ==> st1.level[x] == st.level[x])
    requires (st1.stack == st.stack && st1.visit == st.visit)
             || (st1.stack == st.stack + [callees[0]] && st1.visit == st.visit + {callees[0]})
    requires st.level[pop] < expandLevel ==> callees[0] in st1.visit
    ensures Advances(expandLevel, pop, callees, st, st2)
  {
    assert forall x :: x in st.stack ==> x in st1.stack;
  }

  lemma {:induction false} ScanCloses(g: Calls, s: string, expandLevel: int, partner: string, pop: string,
      callees: seq<string>, st: Search)
    requires Graded(g, s, expandLevel) && Sane(g, s, expandLevel, partner, st) && pop in st.visit
    requires forall y :: y in callees ==> y in Callees(g, pop)
    ensures match Scan(expandLevel, partner, pop, callees, st)
            case Found => true
            case Onward(st') => Sane(g, s, expandLevel, partner, st') && Advances(expandLevel, pop, callees, st, st')
    decreases |callees|
  {
    hide HasChain, Chain, Graded, Honest, Seen;
    if callees == [] {
    } else if callees[0] == partner && partner !in st.visit && st.level[pop] < expandLevel {
      ScanHead(expandLevel, partner, pop, callees, st);
    } else {
      var next := Seen(expandLevel, pop, callees[0], st);
      SeenSane(g, s, expandLevel, partner, pop, callees[0], st);
      ScanHead(expandLevel, partner, pop, callees, st);
      hide Scan, Sane, Advances;
      ScanCloses(g, s, expandLevel, partner, pop, callees[1..], next);
      match Scan(expandLevel, partner, pop, callees[1..], next)
      case Found =>
      case Onward(st') => AdvancesOn(expandLevel, pop, callees, st, next, st');
    }
  }

  lemma SeenSane(g: Calls, s: string, expandLevel: int, partner: string, pop: string, x: string, st: Search)
    requires Graded(g, s, expandLevel) && Sane(g, s, expandLevel, partner, st) && pop in st.visit
    requires x in Callees(g, pop) && !(x == partner && partner !in st.visit && st.level[pop] < expandLevel)
    ensures var next := Seen(expandLevel, pop, x, st);
            && Sane(g, s, expandLevel, partner, next) && pop in next.visit
            && st.level.Keys <= next.level.Keys && (forall y :: y in st.level ==> next.level[y] == st.level[y])
            && ((next.stack == st.stack && next.visit == st.visit)
                || (next.stack == st.stack + [x] && next.visit == st.visit + {x}))
            && (st.level[pop] < expandLevel ==> x in next.visit)
  {
    hide HasChain, Chain, Graded, Honest;
    SeeOne(g, s, expandLevel, partner, pop, x, st);
  }

  ghost predicate AllClosed(g: Calls, expandLevel: int, st: Search) {
    forall x :: x in st.visit && x !in st.stack ==> Closed(g, expandLevel, st, x)
  }

  // With nothing left to pop everything within reach has been visited.
  lemma {:induction false} WithinReach(g: Calls, s: string, expandLevel: int, partner: string, st: Search, x: string,
      n: int)
    requires Graded(g, s, expandLevel) && Sane(g, s, expandLevel, partner, st)
    requires st.stack == [] && AllClosed(g, expandLevel, st)
    requires 0 <= n <= expandLevel && HasChain(g, s, x, n)
    ensures x in st.visit
    decreases n
  {
    var path :| Chain(g, path) && path[0] == s && path[|path| - 1] == x && |path| == n + 1;
    if n > 0 {
      var front, y := path[..n], path[n - 1];
      forall i | 0 <= i < |front| - 1
        ensures front[i + 1] in Callees(g, front[i])
      {
        assert path[i + 1] in Callees(g, path[i]);
      }
      assert Chain(g, front);
      assert HasChain(g, s, y, n - 1);
      WithinReach(g, s, expandLevel, partner, st, y, n - 1);
      assert Closed(g, expandLevel, st, y) && st.level[y] == n - 1;
      assert path[n - 1 + 1] in Callees(g, path[n - 1]);
    }
  }

  lemma {:induction false} ReachedComplete(g: Calls, s: string, expandLevel: int, partner: string, st: Search, n: int)
    requires Graded(g, s, expandLevel) && Sane(g, s, expandLevel, partner, st) && AllClosed(g, expandLevel, st)
    requires 1 <= n <= expandLevel && HasChain(g, s, partner, n) && Levelled(st)
    ensures Reached(g, expandLevel, partner, st)
    decreases |Called(g) - st.visit|, |st.stack|
  {
    hide Scan, HasChain, Chain, Graded, Honest, Advances, Closed, Sane, AllClosed;
    PartnerVisited(g, s, expandLevel, partner, st, n);
    var k := |st.stack| - 1;
    var pop, below := st.stack[k], st.(stack := st.stack[..k]);
    SanePop(g, s, expandLevel, partner, st, pop, below);
    if pop !in g {
      ReachedComplete(g, s, expandLevel, partner, below, n);
    } else {
      ScanCloses(g, s, expandLevel, partner, pop, g[pop], below);
      match Scan(expandLevel, partner, pop, g[pop], below)
      case Found =>
      case Onward(st') =>
        FewerLeft(g, pop, below, st');
        StaysClosed(g, s, expandLevel, partner, pop, below, st');
        ReachedComplete(g, s, expandLevel, partner, st', n);
    }
  }

  lemma PartnerVisited(g: Calls, s: string, expandLevel: int, partner: string, st: Search, n: int)
    requires Graded(g, s, expandLevel) && Sane(g, s, expandLevel, partner, st) && AllClosed(g, expandLevel, st)
    requires 1 <= n <= expandLevel && HasChain(g, s, partner, n)
    ensures st.stack != []
  {
    if st.stack == [] {
      WithinReach(g, s, expandLevel, partner, st, partner, n);
      assert false;
    }
  }

  lemma SanePop(g: Calls, s: string, expandLevel: int, partner: string, st: Search, pop: string, below: Search)
    requires Sane(g, s, expandLevel, partner, st) && AllClosed(g, expandLevel, st) && Levelled(st) && st.stack != []
    requires pop == st.stack[|st.stack| - 1] && below == st.(stack := st.stack[..|st.stack| - 1])
    ensures Sane(g, s, expandLevel, partner, below) && Levelled(below) && pop in below.visit && pop in below.level
    ensures forall x :: x in below.visit && x !in below.stack && x != pop ==> Closed(g, expandLevel, below, x)
    ensures pop !in g ==> AllClosed(g, expandLevel, below)
  {
    hide Honest;
    assert forall x :: x in st.stack ==> x in below.stack || x == pop;
    assert forall x :: x in below.stack ==> x in st.stack;
    forall x | x in below.visit && x !in below.stack && x != pop
      ensures Closed(g, expandLevel, below, x)
    {
      assert Closed(g, expandLevel, st, x);
    }
  }

  lemma StaysClosed(g: Calls, s: string, expandLevel: int, partner: string, pop: string, st: Search, st': Search)
    requires Sane(g, s, expandLevel, partner, st) && pop in st.visit
    requires forall x :: x in st.visit && x !in st.stack && x != pop ==> Closed(g, expandLevel, st, x)
    requires Advances(expandLevel, pop, Callees(g, pop), st, st')
    ensures AllClosed(g, expandLevel, st')
  {
    hide Honest;
    forall x | x in st'.visit && x !in st'.stack
      ensures Closed(g, expandLevel, st', x)
    {
      assert x == pop || Closed(g, expandLevel, st, x);
    }
  }

  // In such a graph the search is exact at every level.
  lemma GradedIsExact(g: Calls, expandLevel: int, s: string, partner: string)
    requires Graded(g, s, expandLevel)
    ensures Reached(g, expandLevel, partner, Start(s)) <==>
              exists n :: 1 <= n <= expandLevel && HasChain(g, s, partner, n)
  {
    assert Chain(g, [s]);
    assert HasChain(g, s, s, 0);
    if Reached(g, expandLevel, partner, Start(s)) {
      ReachedHonest(g, s, expandLevel, partner, Start(s));
    }
    if n :| 1 <= n <= expandLevel && HasChain(g, s, partner, n) {
      ReachedComplete(g, s, expandLevel, partner, Start(s), n);
    }
  }

  // ----- one good chain

  // All chains of calls from s to the function have the same length.
  ghost predicate Single(g: Calls, s: string, x: string) {
    forall m, n :: HasChain(g, s, x, m) && HasChain(g, s, x, n) ==> m == n
  }

  // A chain of 1 to expandLevel calls to the partner, with single functions on its way.
  ghost predicate GoodChain(g: Calls, expandLevel: int, s: string, partner: string, path: seq<string>) {
    && Chain(g, path) && 2 <= |path| <= expandLevel + 1
    && path[0] == s && path[|path| - 1] == partner
    && forall i :: 0 < i < |path| - 1 ==> Single(g, s, path[i])
  }

  // What scanning does to the stack and to the visited functions.
  ghost predicate Pushes(st: Search, st': Search) {
    && st.visit <= st'.visit
    && (forall x :: x in st.stack ==> x in st'.stack)
    && (forall x :: x in st'.visit && x !in st.visit ==> x in st'.stack)
    && (forall x :: x in st'.stack ==> x in st.stack || (x !in st.visit && x in st'.visit))
  }

  lemma {:induction false} ScanPushes(expandLevel: int, partner: string, pop: string, callees: seq<string>, st: Search)
    requires pop in st.level && partner !in st.visit && st.visit <= st.level.Keys
    ensures match Scan(expandLevel, partner, pop, callees, st)
            case Found => true
            case Onward(st') =>
              && Pushes(st, st') && partner !in st'.visit && st'.visit <= st'.level.Keys
              && (pop !in callees && st.level[pop] < expandLevel ==> forall y :: y in callees ==> y in st'.visit)
    decreases |callees|
  {
    hide Pushes, Seen;
    if callees == [] {
      PushedNone(st);
    } else if !(callees[0] == partner && partner !in st.visit && st.level[pop] < expandLevel) {
      var x, next := callees[0], Seen(expandLevel, pop, callees[0], st);
      assert callees == [x] + callees[1..];
      ScanHead(expandLevel, partner, pop, callees, st);
      SeenPushes(expandLevel, partner, pop, x, st);
      hide Scan;
      ScanPushes(expandLevel, partner, pop, callees[1..], next);
      match Scan(expandLevel, partner, pop, callees[1..], next)
      case Found =>
      case Onward(st') => PushedMore(st, next, st');
    } else {
      ScanHead(expandLevel, partner, pop, callees, st);
    }
  }

  lemma SeenPushes(expandLevel: int, partner: string, pop: string, x: string, st: Search)
    requires pop in st.level && partner !in st.visit && st.visit <= st.level.Keys
    requires !(x == partner && st.level[pop] < expandLevel)
    ensures var next := Seen(expandLevel, pop, x, st);
            && Pushes(st, next) && partner !in next.visit && next.visit <= next.level.Keys && pop in next.level
            && (st.level[pop] < expandLevel ==> x in next.visit) && (x != pop ==> next.level[pop] == st.level[pop])
  {
  }

  lemma PushedNone(st: Search)
    ensures Pushes(st, st)
  {
  }

  lemma PushedMore(st: Search, next: Search, st': Search)
    requires Pushes(st, next) && Pushes(next, st')
    ensures Pushes(st, st') && next.visit <= st'.visit
  {
  }

  // A function that was scanned within the bound has had its callees visited.
  ghost predicate Done(g: Calls, expandLevel: int, s: string, st: Search, x: string) {
    x == s || (Single(g, s, x) && x in st.level && st.level[x] < expandLevel) ==>
      forall y :: y in Callees(g, x) ==> y in st.visit
  }

  ghost predicate AllDone(g: Calls, expandLevel: int, s: string, st: Search) {
    forall x :: x in st.visit && x !in st.stack ==> Done(g, expandLevel, s, st, x)
  }

  // A search that has left s behind.
  ghost predicate UnderWay(g: Calls, expandLevel: int, s: string, partner: string, st: Search) {
    && Honest(g, s, st.level) && st.visit <= st.level.Keys
    && (forall x :: x in st.stack ==> x in st.visit)
    && s in st.visit && s !in st.stack && partner !in st.visit
    && AllDone(g, expandLevel, s, st)
  }

  // A single function does not call itself.
  lemma SingleNoSelf(g: Calls, s: string, x: string, n: int)
    requires Single(g, s, x) && HasChain(g, s, x, n)
    ensures x !in Callees(g, x)
  {
    if x in Callees(g, x) {
      OneMoreCall(g, s, x, x, n);
    }
  }

  lemma StaysUnderWay(g: Calls, expandLevel: int, s: string, partner: string, pop: string, st: Search, st': Search)
    requires Honest(g, s, st.level) && st.visit <= st.level.Keys && (forall x :: x in st.stack ==> x in st.visit)
    requires s in st.visit && s !in st.stack && pop in st.visit
    requires forall x :: x in st.visit && x !in st.stack && x != pop ==> Done(g, expandLevel, s, st, x)
    requires Pushes(st, st') && Honest(g, s, st'.level) && st'.visit <= st'.level.Keys && partner !in st'.visit
    requires pop == s || (Single(g, s, pop) && st.level[pop] < expandLevel) ==>
               forall y :: y in Callees(g, pop) ==> y in st'.visit
    ensures UnderWay(g, expandLevel, s, partner, st')
  {
    hide HasChain;
    forall x | x in st'.visit && x !in st'.stack
      ensures Done(g, expandLevel, s, st', x)
    {
      if Single(g, s, x) {
        assert st.level[x] == st'.level[x];
      }
    }
  }

  // When nothing is left to pop, the whole of a good chain has been visited.
  lemma {:induction false} ChainVisited(g: Calls, expandLevel: int, s: string, partner: string, st: Search,
      path: seq<string>, i: nat)
    requires UnderWay(g, expandLevel, s, partner, st) && st.stack == []
    requires GoodChain(g, expandLevel, s, partner, path) && i < |path|
    ensures path[i] in st.visit
    decreases i
  {
    if i > 0 {
      ChainVisited(g, expandLevel, s, partner, st, path, i - 1);
      if i > 1 {
        PrefixChain(g, path, i);
        assert HasChain(g, s, path[i - 1], i - 1);
      }
      assert Done(g, expandLevel, s, st, path[i - 1]);
      assert path[i - 1 + 1] in Callees(g, path[i - 1]);
    }
  }

  lemma PrefixChain(g: Calls, path: seq<string>, n: nat)
    requires Chain(g, path) && 0 < n <= |path|
    ensures Chain(g, path[..n])
  {
    forall i | 0 <= i < n - 1
      ensures path[..n][i + 1] in Callees(g, path[..n][i])
    {
      assert path[i + 1] in Callees(g, path[i]);
    }
  }

  lemma NothingLeft(g: Calls, expandLevel: int, s: string, partner: string, st: Search, path: seq<string>)
    requires UnderWay(g, expandLevel, s, partner, st) && GoodChain(g, expandLevel, s, partner, path)
    ensures st.stack != []
  {
    if st.stack == [] {
      ChainVisited(g, expandLevel, s, partner, st, path, |path| - 1);
      assert false;
    }
  }

  lemma {:induction false} ReachedAlong(g: Calls, expandLevel: int, s: string, partner: string, st: Search,
      path: seq<string>)
    requires UnderWay(g, expandLevel, s, partner, st) && Levelled(st)
    requires GoodChain(g, expandLevel, s, partner, path)
    ensures Reached(g, expandLevel, partner, st)
    decreases |Called(g) - st.visit|, |st.stack|
  {
    hide Scan, GoodChain, Honest, Done, Single, Pushes;
    NothingLeft(g, expandLevel, s, partner, st, path);
    var k := |st.stack| - 1;
    var pop, below := st.stack[k], st.(stack := st.stack[..k]);
    Popped(g, expandLevel, s, partner, st, pop, below);
    if pop !in g {
      Unscanned(g, expandLevel, s, partner, pop, below);
      ReachedAlong(g, expandLevel, s, partner, below, path);
    } else {
      ScanOnward(g, expandLevel, s, partner, pop, below);
      match Scan(expandLevel, partner, pop, g[pop], below)
      case Found =>
      case Onward(st') =>
        FewerLeft(g, pop, below, st');
        ReachedAlong(g, expandLevel, s, partner, st', path);
    }
  }

  lemma Popped(g: Calls, expandLevel: int, s: string, partner: string, st: Search, pop: string, below: Search)
    requires UnderWay(g, expandLevel, s, partner, st) && st.stack != []
    requires pop == st.stack[|st.stack| - 1] && below == st.(stack := st.stack[..|st.stack| - 1])
    ensures pop in st.visit && pop != s && s !in below.stack && forall x :: x in below.stack ==> x in st.visit
    ensures forall x :: x in st.visit && x !in below.stack && x != pop ==> Done(g, expandLevel, s, below, x)
  {
    hide HasChain;
    assert forall x :: x in st.stack ==> x in below.stack || x == pop;
    assert forall x :: x in below.stack ==> x in st.stack;
    forall x | x in st.visit && x !in below.stack && x != pop
      ensures Done(g, expandLevel, s, below, x)
    {
      assert Done(g, expandLevel, s, st, x);
    }
  }

  lemma Unscanned(g: Calls, expandLevel: int, s: string, partner: string, pop: string, st: Search)
    requires Honest(g, s, st.level) && st.visit <= st.level.Keys && (forall x :: x in st.stack ==> x in st.visit)
    requires s in st.visit && s !in st.stack && partner !in st.visit && pop in st.visit && pop !in g
    requires forall x :: x in st.visit && x !in st.stack && x != pop ==> Done(g, expandLevel, s, st, x)
    ensures UnderWay(g, expandLevel, s, partner, st)
  {
    assert Callees(g, pop) == [];
    StaysUnderWay(g, expandLevel, s, partner, pop, st, st);
  }

  lemma ScanOnward(g: Calls, expandLevel: int, s: string, partner: string, pop: string, st: Search)
    requires Honest(g, s, st.level) && st.visit <= st.level.Keys && (forall x :: x in st.stack ==> x in st.visit)
    requires s in st.visit && s !in st.stack && partner !in st.visit && pop in st.visit && pop in g
    requires pop == s ==> s !in g[s] && st.level[s] < expandLevel
    requires forall x :: x in st.visit && x !in st.stack && x != pop ==> Done(g, expandLevel, s, st, x)
    ensures var r := Scan(expandLevel, partner, pop, g[pop], st);
            r.Onward? ==> UnderWay(g, expandLevel, s, partner, r.st) && Levelled(r.st)
  {
    hide Scan, HasChain, Pushes, Done;
    assert Callees(g, pop) == g[pop];
    ScanPushes(expandLevel, partner, pop, g[pop], st);
    ScanHonest(g, s, expandLevel, partner, pop, g[pop], st);
    if Single(g, s, pop) {
      SingleNoSelf(g, s, pop, st.level[pop]);
    }
    match Scan(expandLevel, partner, pop, g[pop], st)
    case Found =>
    case Onward(st') =>
      StaysUnderWay(g, expandLevel, s, partner, pop, st, st');
  }

  // The search finds a partner at the end of a good chain, whatever else it runs into.
  lemma GoodChainIsFound(g: Calls, expandLevel: int, s: string, partner: string, path: seq<string>)
    requires GoodChain(g, expandLevel, s, partner, path) && partner != s && s !in Callees(g, s)
    ensures Reached(g, expandLevel, partner, Start(s))
  {
    hide Scan;
    var below := Search([], {s}, map[s := 0]);
    assert Start(s).(stack := Start(s).stack[..0]) == below;
    assert path[0 + 1] in Callees(g, path[0]);
    assert Chain(g, [s]);
    assert HasChain(g, s, s, 0);
    ScanOnward(g, expandLevel, s, partner, s, below);
    match Scan(expandLevel, partner, s, g[s], below)
    case Found =>
    case Onward(st') =>
      ReachedAlong(g, expandLevel, s, partner, st', path);
  }

  // So the search is exact wherever each partner within the bound has a good chain.
  lemma GoodChainsAreExact(g: Calls, expandLevel: int, s: string, partner: string)
    requires partner != s && s !in Callees(g, s)
    requires (exists n :: 1 <= n <= expandLevel && HasChain(g, s, partner, n)) ==>
               exists path :: GoodChain(g, expandLevel, s, partner, path)
    ensures Reached(g, expandLevel, partner, Start(s)) <==>
              exists n :: 1 <= n <= expandLevel && HasChain(g, s, partner, n)
  {
    assert Chain(g, [s]);
    assert HasChain(g, s, s, 0);
    if Reached(g, expandLevel, partner, Start(s)) {
      ReachedHonest(g, s, expandLevel, partner, Start(s));
    }
    if path :| GoodChain(g, expandLevel, s, partner, path) {
      GoodChainIsFound(g, expandLevel, s, partner, path);
    }
  }

  // With two levels a chain of two calls can be missed: b is popped first and overwrites
  // the level of a with 2.
  lemma OverwrittenLevelMisses()
    ensures var g: Calls := map["s" := ["a", "b"], "a" := ["p"], "b" := ["a"]];
            HasChain(g, "s", "p", 2) && !Filtered(g, 2, "x", "p", ["s"])
  {
    var g: Calls := map["s" := ["a", "b"], "a" := ["p"], "b" := ["a"]];
    assert Chain(g, ["s", "a", "p"]);
    var m1 := map["s" := 0, "a" := 1, "b" := 1];
    var at1 := Search(["a", "b"], {"s", "a", "b"}, m1);
    FirstPop();
    assert Start("s").(stack := Start("s").stack[..0]) == Search([], {"s"}, map["s" := 0]);
    assert Reached(g, 2, "p", Start("s")) == Reached(g, 2, "p", at1);
    LaterPops();
  }

  lemma FirstPop()
    ensures Scan(2, "p", "s", ["a", "b"], Search([], {"s"}, map["s" := 0]))
         == Onward(Search(["a", "b"], {"s", "a", "b"}, map["s" := 0, "a" := 1, "b" := 1]))
  {
    var m0, m1 := map["s" := 0], map["s" := 0, "a" := 1];
    assert Scan(2, "p", "s", ["a", "b"], Search([], {"s"}, m0))
        == Scan(2, "p", "s", ["b"], Search(["a"], {"s", "a"}, m1));
    assert Scan(2, "p", "s", ["b"], Search(["a"], {"s", "a"}, m1))
        == Onward(Search(["a", "b"], {"s", "a", "b"}, map["s" := 0, "a" := 1, "b" := 1]));
  }

  lemma LaterPops()
    ensures var g: Calls := map["s" := ["a", "b"], "a" := ["p"], "b" := ["a"]];
            !Reached(g, 2, "p", Search(["a", "b"], {"s", "a", "b"}, map["s" := 0, "a" := 1, "b" := 1]))
  {
    var g: Calls := map["s" := ["a", "b"], "a" := ["p"], "b" := ["a"]];
    var visit, m1 := {"s", "a", "b"}, map["s" := 0, "a" := 1, "b" := 1];
    var m2 := m1["a" := 2];
    var at1, at2 := Search(["a", "b"], visit, m1), Search(["a"], visit, m2);
    assert at1.(stack := at1.stack[..1]) == Search(["a"], visit, m1);
    assert Scan(2, "p", "b", ["a"], Search(["a"], visit, m1)) == Onward(at2);
    assert Reached(g, 2, "p", at1) == Reached(g, 2, "p", at2);
    assert at2.(stack := at2.stack[..0]) == Search([], visit, m2);
    assert Scan(2, "p", "a", ["p"], Search([], visit, m2)) == Onward(Search([], visit, m2["p" := 3]));
  }
}
