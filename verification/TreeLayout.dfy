/**
  The pointers a zipper stands for.  Nodes are numbered in the order in which they are made,
  which is the order of their lines; a node's record gives its pointers as numbers, with
  NIL for null.
*/
module TreeLayout {
  import opened Directives

  const NIL := -1

  datatype Rec = Rec(name: string, args: string, up: int, next: int, child: int)

  function Size(t: Tree): nat {
    1 + Sizes(t.kids)
  }

  function Sizes(f: seq<Tree>): nat {
    if f == [] then 0 else Size(f[0]) + Sizes(f[1..])
  }

  // The records of the forest f when its first node has number lo, its parent is up, and
  // the node after it is end.
  function Layout(f: seq<Tree>, lo: nat, up: int, end: int): (r: seq<Rec>)
    ensures |r| == Sizes(f)
  {
    if f == [] then []
    else
      var t, after := f[0], lo + Size(f[0]);
      [Rec(t.name, t.args, up, if |f| > 1 then after else end, if t.kids == [] then NIL else lo + 1)]
      + Layout(t.kids, lo + 1, lo, NIL)
      + Layout(f[1..], after, up, end)
  }

  lemma {:induction false} SizesAppend(f: seq<Tree>, g: seq<Tree>)
    ensures Sizes(f + g) == Sizes(f) + Sizes(g)
  {
    if f == [] {
      assert f + g == g;
    } else {
      SizesAppend(f[1..], g);
      assert (f + g)[1..] == f[1..] + g;
    }
  }

  lemma SizesOne(t: Tree)
    ensures Sizes([t]) == Size(t)
  {
    assert [t][1..] == [];
  }

  // The number of the last tree of f, counted from the first node.
  function LastRoot(f: seq<Tree>): nat
    requires f != []
  {
    Sizes(f[..|f| - 1])
  }

  lemma {:induction false} LayoutAppend(f: seq<Tree>, g: seq<Tree>, lo: nat, up: int, end: int)
    requires g != []
    ensures Layout(f + g, lo, up, end) == Layout(f, lo, up, lo + Sizes(f)) + Layout(g, lo + Sizes(f), up, end)
  {
    hide Layout;
    if f == [] {
      assert f + g == g;
      LayoutNone(lo, up, lo + Sizes(f));
    } else {
      var after := lo + Size(f[0]);
      assert after + Sizes(f[1..]) == lo + Sizes(f);
      LayoutAppend(f[1..], g, after, up, end);
      LayoutStep(f, g, lo, up, end, Layout(g, lo + Sizes(f), up, end));
    }
  }

  lemma LayoutNone(lo: nat, up: int, end: int)
    ensures Layout([], lo, up, end) == []
  {
  }

  lemma LayoutStep(f: seq<Tree>, g: seq<Tree>, lo: nat, up: int, end: int, more: seq<Rec>)
    requires f != [] && g != []
    requires Layout(f[1..] + g, lo + Size(f[0]), up, end) == Layout(f[1..], lo + Size(f[0]), up, lo + Sizes(f)) + more
    ensures Layout(f + g, lo, up, end) == Layout(f, lo, up, lo + Sizes(f)) + more
  {
    hide Layout, Sizes;
    var t, after := f[0], lo + Size(f[0]);
    var first := [Rec(t.name, t.args, up, after, if t.kids == [] then NIL else lo + 1)];
    assert (f + g)[0] == t && (f + g)[1..] == f[1..] + g;
    LayoutHead(f, lo, up, lo + Sizes(f));
    LayoutHead(f + g, lo, up, end);
    Group(first, Layout(t.kids, lo + 1, lo, NIL), Layout(f[1..], after, up, lo + Sizes(f)), more);
  }

  lemma LayoutHead(f: seq<Tree>, lo: nat, up: int, end: int)
    requires f != []
    requires |f| == 1 ==> end == lo + Sizes(f)
    ensures var t, after := f[0], lo + Size(f[0]);
            Layout(f, lo, up, end) ==
            [Rec(t.name, t.args, up, after, if t.kids == [] then NIL else lo + 1)]
            + Layout(t.kids, lo + 1, lo, NIL) + Layout(f[1..], after, up, end)
  {
  }

  lemma Group(a: seq<Rec>, b: seq<Rec>, c: seq<Rec>, d: seq<Rec>)
    ensures a + b + (c + d) == (a + b + c) + d == a + (b + (c + d))
  {
  }

  // Only the last tree's next pointer depends on what follows.
  lemma {:induction false} LayoutEnd(f: seq<Tree>, lo: nat, up: int, end: int, end': int)
    requires f != []
    ensures LastRoot(f) < Sizes(f)
    ensures Layout(f, lo, up, end)[LastRoot(f)].next == end
    ensures Layout(f, lo, up, end') == Layout(f, lo, up, end)[LastRoot(f) := Layout(f, lo, up,
        end)[LastRoot(f)].(next := end')]
  {
    hide Layout, Sizes;
    var front, t := f[..|f| - 1], f[|f| - 1];
    var mid := lo + Sizes(front);
    assert f == front + [t];
    SizesAppend(front, [t]);
    SizesOne(t);
    LayoutAppend(front, [t], lo, up, end);
    LayoutAppend(front, [t], lo, up, end');
    LayoutOne(t, mid, up, end);
    LayoutOne(t, mid, up, end');
  }

  lemma LayoutOne(t: Tree, lo: nat, up: int, end: int)
    ensures Layout([t], lo, up, end)
         == [Rec(t.name, t.args, up, end, if t.kids == [] then NIL else lo + 1)] + Layout(t.kids, lo + 1, lo, NIL)
  {
    assert [t][1..] == [];
  }

  // A change of parent shows in the roots alone.
  lemma {:induction false} LayoutUp(f: seq<Tree>, lo: nat, up: nat, end: int)
    ensures forall i :: 0 <= i < Sizes(f) ==>
              var r := Layout(f, lo, NIL, end)[i];
              Layout(f, lo, up, end)[i] == if r.up == NIL then r.(up := up) else r
  {
    if f != [] {
      LayoutUp(f[1..], lo + Size(f[0]), up, end);
      LayoutInner(f[0].kids, lo + 1, lo, NIL);
    }
  }

  lemma {:induction false} LayoutInner(f: seq<Tree>, lo: nat, up: nat, end: int)
    requires up < lo
    ensures forall i :: 0 <= i < Sizes(f) ==> Layout(f, lo, up, end)[i].up >= up
  {
    if f != [] {
      LayoutInner(f[0].kids, lo + 1, lo, NIL);
      LayoutInner(f[1..], lo + Size(f[0]), up, end);
    }
  }

  // The k-th tree of a forest: where it starts, what follows it, and that it has one root.
  lemma LayoutTree(f: seq<Tree>, k: nat, lo: nat)
    requires k < |f|
    ensures var r, i, j := Layout(f, lo, NIL, NIL), Sizes(f[..k]), Sizes(f[..k + 1]);
            && i < j <= Sizes(f)
            && r[i].up == NIL && r[i].next == (if k + 1 < |f| then lo + j else NIL)
            && forall m :: i < m < j ==> r[m].up != NIL
  {
    hide Layout, Sizes;
    var front, t, back := f[..k], f[k], f[k + 1..];
    var at := lo + Sizes(front);
    assert f == front + ([t] + back) && f[..k + 1] == front + [t];
    SizesAppend(front, [t] + back);
    SizesAppend(front, [t]);
    SizesAppend([t], back);
    SizesOne(t);
    LayoutAppend(front, [t] + back, lo, NIL, NIL);
    FirstTree(t, back, at);
  }

  lemma FirstTree(t: Tree, back: seq<Tree>, at: nat)
    ensures var r := Layout([t] + back, at, NIL, NIL);
            && |r| >= Size(t) > 0
            && r[0].up == NIL && r[0].next == (if back != [] then at + Size(t) else NIL)
            && forall m :: 0 < m < Size(t) ==> r[m].up != NIL
  {
    assert ([t] + back)[1..] == back;
    LayoutInner(t.kids, at + 1, at, NIL);
  }

  // ----- the layout of a zipper

  // The number of the innermost open section.
  function Par(from: nat, frames: seq<Frame>): (r: int)
    ensures if frames == [] then r == NIL else r >= from
  {
    if frames == [] then NIL
    else Base(from, frames[..|frames| - 1]) + Sizes(frames[|frames| - 1].left)
  }

  // The number the first node of the present level has or will have.
  function Base(from: nat, frames: seq<Frame>): (r: nat)
    ensures r >= from
  {
    if frames == [] then from else
      Base(from, frames[..|frames| - 1]) + Sizes(frames[|frames| - 1].left) + 1
  }

  // The records of the open sections and of what lies to their left; `loaded` says that
  // the innermost one has children.
  function Spine(from: nat, frames: seq<Frame>, loaded: bool): (r: seq<Rec>)
    ensures |r| == Base(from, frames) - from
  {
    if frames == [] then []
    else
      var outer, f := frames[..|frames| - 1], frames[|frames| - 1];
      var at := Par(from, frames);
      Spine(from, outer, true)
      + Layout(f.left, Base(from, outer), Par(from, outer), at)
      + [Rec(f.name, f.args, Par(from, outer), NIL, if loaded then at + 1 else NIL)]
  }

  function Records(from: nat, z: Zip): (r: seq<Rec>)
    ensures |r| == Base(from, z.frames) - from + Sizes(z.here)
  {
    Spine(from, z.frames, z.here != []) + Layout(z.here, Base(from, z.frames), Par(from, z.frames), NIL)
  }

  // The number of the node behind which the next one comes.
  function Cur(from: nat, z: Zip): int {
    if z.here == [] then NIL else Base(from, z.frames) + LastRoot(z.here)
  }

  // Closing a section moves no pointer.
  lemma RiseKeepsRecords(from: nat, z: Zip)
    requires z.frames != []
    ensures Records(from, Rise(z)) == Records(from, z)
    ensures Cur(from, Rise(z)) == Par(from, z.frames)
    ensures Records(from, z)[Par(from, z.frames) - from].up == Par(from, Rise(z).frames)
    ensures Records(from, z)[Par(from, z.frames) - from].name == z.frames[|z.frames| - 1].name
  {
    hide Layout;
    var outer, f := z.frames[..|z.frames| - 1], z.frames[|z.frames| - 1];
    var at := Par(from, z.frames);
    var spine, left := Spine(from, outer, true), Layout(f.left, Base(from, outer), Par(from, outer), at);
    var rec := Rec(f.name, f.args, Par(from, outer), NIL, if z.here != [] then at + 1 else NIL);
    var inner := Layout(z.here, at + 1, at, NIL);
    calc {
      Records(from, Rise(z));
      spine + Layout(f.left + [Node(f.name, f.args, z.here)], Base(from, outer), Par(from, outer), NIL);
      { ClosedLevel(f, z.here, Base(from, outer), Par(from, outer)); }
      spine + (left + ([rec] + inner));
      { Group(spine, left, [rec], inner); }
      (spine + left + [rec]) + inner;
      Records(from, z);
    }
    assert Rise(z).here[..|f.left|] == f.left;
    PickMiddle(spine + left, rec, inner);
  }

  lemma ClosedLevel(f: Frame, here: seq<Tree>, base: nat, up: int)
    ensures var at := base + Sizes(f.left);
            var rec := Rec(f.name, f.args, up, NIL, if here != [] then at + 1 else NIL);
            Layout(f.left + [Node(f.name, f.args, here)], base, up, NIL) ==
            Layout(f.left, base, up, at) + ([rec] + Layout(here, at + 1, at, NIL))
  {
    LayoutAppend(f.left, [Node(f.name, f.args, here)], base, up, NIL);
    LayoutOne(Node(f.name, f.args, here), base + Sizes(f.left), up, NIL);
  }

  lemma PickMiddle(a: seq<Rec>, r: Rec, b: seq<Rec>)
    ensures (a + [r] + b)[|a|] == r
  {
  }

  // Nor does closing all of them.
  lemma {:induction false} UnwindKeepsRecords(from: nat, z: Zip)
    ensures Records(from, Zip([], Unwind(z))) == Records(from, z)
    decreases |z.frames|
  {
    if z.frames != [] {
      RiseKeepsRecords(from, z);
      UnwindKeepsRecords(from, Rise(z));
    } else {
      assert Zip([], z.here) == z;
    }
  }

  // Where the trees that come next are hung: behind the present node, below the open
  // section, or nowhere.
  function Hung(from: nat, z: Zip): (r: seq<Rec>)
    ensures |r| == |Records(from, z)|
  {
    var recs := Records(from, z);
    var n := from + |recs|;
    if z.here != [] then
      LayoutEnd(z.here, Base(from, z.frames), Par(from, z.frames), NIL, NIL);
      recs[Cur(from, z) - from := recs[Cur(from, z) - from].(next := n)]
    else if z.frames != [] then recs[Par(from, z.frames) - from := recs[Par(from, z.frames) - from].(child := n)]
    else recs
  }

  // New trees are hung there and change nothing else.
  lemma AddRecords(from: nat, z: Zip, g: seq<Tree>)
    requires g != []
    ensures Records(from, Add(z, g)) == Hung(from, z) + Layout(g, from + |Records(from, z)|, Par(from, z.frames), NIL)
  {
    if z.here != [] {
      AddBehind(from, z, g);
    } else {
      AddFirst(from, z, g);
    }
  }

  lemma AddBehind(from: nat, z: Zip, g: seq<Tree>)
    requires g != [] && z.here != []
    ensures Records(from, Add(z, g)) == Hung(from, z) + Layout(g, from + |Records(from, z)|, Par(from, z.frames), NIL)
  {
    hide Layout, Sizes;
    var base, par := Base(from, z.frames), Par(from, z.frames);
    var spine, here, end := Spine(from, z.frames, true), Layout(z.here, base, par, NIL), base + Sizes(z.here);
    var more := Layout(g, end, par, NIL);
    var i := LastRoot(z.here);
    LayoutEnd(z.here, base, par, NIL, end);
    var here' := here[i := here[i].(next := end)];
    calc {
      Records(from, Add(z, g));
      spine + Layout(z.here + g, base, par, NIL);
      { LayoutAppend(z.here, g, base, par, NIL); }
      spine + (here' + more);
      { Assoc(spine, here', more); }
      (spine + here') + more;
      { HungBehind(from, z); }
      Hung(from, z) + more;
    }
  }

  lemma HungBehind(from: nat, z: Zip)
    requires z.here != []
    ensures var base, par := Base(from, z.frames), Par(from, z.frames);
            var here, i := Layout(z.here, base, par, NIL), LastRoot(z.here);
            && i < |here|
            && Hung(from, z) == Spine(from, z.frames, true) + here[i := here[i].(next := base + Sizes(z.here))]
  {
    hide Layout, Sizes, Spine;
    var base, par := Base(from, z.frames), Par(from, z.frames);
    var here, i := Layout(z.here, base, par, NIL), LastRoot(z.here);
    LayoutEnd(z.here, base, par, NIL, NIL);
    UpdateRight(Spine(from, z.frames, true), here, i, here[i].(next := base + Sizes(z.here)));
  }

  lemma AddFirst(from: nat, z: Zip, g: seq<Tree>)
    requires g != [] && z.here == []
    ensures Records(from, Add(z, g)) == Hung(from, z) + Layout(g, from + |Records(from, z)|, Par(from, z.frames), NIL)
  {
    hide Layout, Sizes;
    LayoutNone(Base(from, z.frames), Par(from, z.frames), NIL);
    assert z.here + g == g;
    var spine := Spine(from, z.frames, false);
    assert Records(from, z) == spine;
    if z.frames != [] {
      var par := Par(from, z.frames);
      assert Spine(from, z.frames, true) == spine[par - from := spine[par - from].(child := Base(from, z.frames))];
    }
  }

  lemma UpdateRight(a: seq<Rec>, b: seq<Rec>, i: nat, r: Rec)
    requires i < |b|
    ensures (a + b)[|a| + i] == b[i] && (a + b)[|a| + i := r] == a + b[i := r]
  {
  }

  lemma Assoc(a: seq<Rec>, b: seq<Rec>, c: seq<Rec>)
    ensures (a + b) + c == a + (b + c)
  {
  }

  // Every pointer is null, or leads to a node there is.
  ghost predicate InRange(r: Rec, lo: int, hi: int, up: int, end: int) {
    && (r.up == up || lo <= r.up < hi)
    && (r.next == end || r.next == NIL || lo <= r.next < hi)
    && (r.child == NIL || lo <= r.child < hi)
  }

  lemma {:induction false} LayoutRange(f: seq<Tree>, lo: nat, up: int, end: int)
    ensures forall i :: 0 <= i < Sizes(f) ==> InRange(Layout(f, lo, up, end)[i], lo, lo + Sizes(f), up, end)
  {
    if f != [] {
      LayoutRange(f[0].kids, lo + 1, lo, NIL);
      LayoutRange(f[1..], lo + Size(f[0]), up, end);
    }
  }

  lemma RecordsRange(from: nat, z: Zip)
    ensures forall i :: 0 <= i < |Records(from, z)| ==>
              InRange(Records(from, z)[i], from, from + |Records(from, z)|, NIL, NIL)
  {
    UnwindKeepsRecords(from, z);
    LayoutRange(Unwind(z), from, NIL, NIL);
  }

  // A section that is opened makes the records of a directive.
  lemma OpenRecords(from: nat, z: Zip, name: string, args: string)
    ensures var node, inside := Node(name, args, []), Zip(z.frames + [Frame(name, args, z.here)], []);
            && Records(from, inside) == Records(from, Add(z, [node]))
            && Par(from, inside.frames) == from + |Records(from, z)| == Cur(from, Add(z, [node]))
            && Cur(from, inside) == NIL
            && Rise(inside) == Add(z, [node])
  {
    var node, inside := Node(name, args, []), Zip(z.frames + [Frame(name, args, z.here)], []);
    assert inside.frames[..|z.frames|] == z.frames;
    assert Rise(inside) == Add(z, [node]);
    RiseKeepsRecords(from, inside);
  }

  // The record of a node that is added.
  lemma AddOne(from: nat, z: Zip, name: string, args: string)
    ensures Records(from, Add(z, [Node(name, args, [])])) == Hung(from, z) + [Rec(name, args, Par(from, z.frames),
        NIL, NIL)]
  {
    var n, rec := from + |Records(from, z)|, Rec(name, args, Par(from, z.frames), NIL, NIL);
    AddRecords(from, z, [Node(name, args, [])]);
    LayoutOne(Node(name, args, []), n, Par(from, z.frames), NIL);
    var none: seq<Tree> := [];
    assert Layout(none, n + 1, n, NIL) == [];
    assert [rec] + Layout(none, n + 1, n, NIL) == [rec];
    assert Layout([Node(name, args, none)], n, Par(from, z.frames), NIL) == [rec];
  }

  // What a directive or the opening of a section adds.
  function Grow(z: Zip, name: string, args: string, child: bool): Zip {
    if child then Zip(z.frames + [Frame(name, args, z.here)], []) else Add(z, [Node(name, args, [])])
  }

  lemma GrownRecords(from: nat, z: Zip, name: string, args: string, child: bool)
    ensures var grown, n := Grow(z, name, args, child), from + |Records(from, z)|;
            && Records(from, grown) == Hung(from, z) + [Rec(name, args, Par(from, z.frames), NIL, NIL)]
            && Cur(from, grown) == (if child then NIL else n)
            && Par(from, grown.frames) == (if child then n else Par(from, z.frames))
  {
    AddOne(from, z, name, args);
    OpenRecords(from, z, name, args);
  }

  // The place where trees are hung is free.
  lemma Dangling(from: nat, z: Zip)
    ensures z.here != [] ==> from <= Cur(from, z) < from + |Records(from, z)|
                             && Records(from, z)[Cur(from, z) - from].next == NIL
    ensures z.here == [] && z.frames != [] ==> Records(from, z)[Par(from, z.frames) - from].child == NIL
  {
    if z.here != [] {
      LayoutEnd(z.here, Base(from, z.frames), Par(from, z.frames), NIL, NIL);
    }
  }
}
