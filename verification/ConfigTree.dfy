/**
  The configuration tree in memory: directives linked by next, first_child and parent
  pointers, grown line by line through the pointer pair (current, curr_parent).
*/
module ConfigTree {
  import opened Directives
  import opened TreeLayout

  class Directive {
    const name: string        // directive
    const args: string
    var next: Directive?
    var firstChild: Directive?
    var parent: Directive?

    constructor (name: string, args: string)
      ensures this.name == name && this.args == args
      ensures next == null && firstChild == null && parent == null
    {
      this.name, this.args := name, args;
      next, firstChild, parent := null, null, null;
    }
  }

  // The configuration file.
  class Reader {
    var lines: seq<Line>

    constructor (lines: seq<Line>)
      ensures this.lines == lines
    {
      this.lines := lines;
    }

    // ap_cfg_getline
    method Getline() returns (eof: bool, line: Line)
      modifies this
      ensures eof == (old(lines) == [])
      ensures !eof ==> line == old(lines)[0] && lines == old(lines)[1..]
      ensures eof ==> lines == []
    {
      if lines == [] {
        return true, Blank;
      }
      eof, line, lines := false, lines[0], lines[1..];
    }
  }

  // The linked nodes from n on, all children of p, hold the forest f.
  ghost predicate Mirrors(n: Directive?, p: Directive?, f: seq<Tree>, nodes: set<Directive>)
    reads nodes
    decreases f
  {
    if f == [] then n == null
    else
      && n != null && n in nodes && n.parent == p
      && n.name == f[0].name && n.args == f[0].args
      && Mirrors(n.firstChild, n, f[0].kids, nodes)
      && Mirrors(n.next, p, f[1..], nodes)
  }

  ghost function Numbered(from: nat, arena: seq<Directive>, i: int): Directive? {
    if from <= i < from + |arena| then arena[i - from] else null
  }

  // The pointers of a node.
  datatype Fields = Fields(parent: Directive?, next: Directive?, child: Directive?)

  // The nodes have these pointers.
  ghost predicate Matches(arena: seq<Directive>, fields: seq<Fields>)
    reads arena
  {
    && |arena| == |fields|
    && forall i {:trigger fields[i]} ::
         0 <= i < |arena| ==> Fields(arena[i].parent, arena[i].next, arena[i].firstChild) == fields[i]
  }

  // The pointers the records ask for.
  ghost function Wanted(from: nat, arena: seq<Directive>, recs: seq<Rec>): (r: seq<Fields>)
    ensures |r| == |recs|
  {
    seq(|recs|, i requires 0 <= i < |recs| =>
      Fields(Numbered(from, arena, recs[i].up), Numbered(from, arena, recs[i].next), Numbered(from, arena,
          recs[i].child)))
  }

  ghost predicate Named(arena: seq<Directive>, recs: seq<Rec>) {
    && |arena| == |recs|
    && forall i :: 0 <= i < |arena| ==> arena[i].name == recs[i].name && arena[i].args == recs[i].args
  }

  ghost predicate Distinct(arena: seq<Directive>) {
    forall i, j :: 0 <= i < j < |arena| ==> arena[i] != arena[j]
  }

  // The list of nodes behind `subTree` is the forest g, with numbers from `from` on.
  ghost predicate Listed(subTree: Directive?, from: nat, sub: seq<Directive>, g: seq<Tree>)
    reads sub
  {
    var recs := Layout(g, from, NIL, NIL);
    && Distinct(sub) && Named(sub, recs) && Matches(sub, Wanted(from, sub, recs))
    && subTree == if sub == [] then null else sub[0]
  }

  // What adding a node does to the pointers.
  ghost function HungFields(from: nat, fields: seq<Fields>, z: Zip, n: Directive?): seq<Fields>
    requires |fields| == |Records(from, z)|
  {
    if z.here != [] && from <= Cur(from, z) < from + |fields| then
      fields[Cur(from, z) - from := fields[Cur(from, z) - from].(next := n)]
    else if z.here == [] && z.frames != [] then
      fields[Par(from, z.frames) - from := fields[Par(from, z.frames) - from].(child := n)]
    else fields
  }

  lemma WantedWithNode(from: nat, arena: seq<Directive>, z: Zip, n: Directive)
    requires |arena| == |Records(from, z)|
    ensures var rec := Rec(n.name, n.args, Par(from, z.frames), NIL, NIL);
            Wanted(from, arena + [n], Hung(from, z) + [rec]) ==
            HungFields(from, Wanted(from, arena, Records(from, z)), z, n)
            + [Fields(Numbered(from, arena, Par(from, z.frames)), null, null)]
  {
    var hung, par := Hung(from, z), Par(from, z.frames);
    ParInRange(from, z);
    WantedHung(from, arena, z, [n]);
    WantedSnoc(from, arena + [n], hung, Rec(n.name, n.args, par, NIL, NIL));
  }

  lemma WantedSnoc(from: nat, arena: seq<Directive>, recs: seq<Rec>, r: Rec)
    ensures Wanted(from, arena, recs + [r]) == Wanted(from, arena, recs) +
              [Fields(Numbered(from, arena, r.up), Numbered(from, arena, r.next), Numbered(from, arena, r.child))]
  {
  }

  // Nodes keep their numbers when others are added.
  lemma WantedStays(from: nat, arena: seq<Directive>, more: seq<Directive>, recs: seq<Rec>)
    requires forall i :: 0 <= i < |recs| ==> InRange(recs[i], from, from + |arena|, NIL, NIL)
    ensures Wanted(from, arena + more, recs) == Wanted(from, arena, recs)
  {
  }

  // Nodes that are added are hung by the first of them.
  lemma WantedHung(from: nat, arena: seq<Directive>, z: Zip, more: seq<Directive>)
    requires |arena| == |Records(from, z)| && more != []
    ensures Wanted(from, arena + more, Hung(from, z)) ==
            HungFields(from, Wanted(from, arena, Records(from, z)), z, more[0])
  {
    hide Layout, Spine, Sizes, Records;
    var recs := Records(from, z);
    RecordsRange(from, z);
    CurInRange(from, z);
    WantedStays(from, arena, more, recs);
    assert Numbered(from, arena + more, from + |recs|) == more[0];
    if z.here != [] {
      WantedUpdate(from, arena + more, recs, Cur(from, z) - from, recs[Cur(from, z) - from].(next := from + |recs|));
    } else if z.frames != [] {
      WantedUpdate(from, arena + more, recs, Par(from, z.frames) - from, recs[Par(from,
          z.frames) - from].(child := from + |recs|));
    }
  }

  lemma WantedUpdate(from: nat, arena: seq<Directive>, recs: seq<Rec>, i: nat, r: Rec)
    requires i < |recs|
    ensures Wanted(from, arena, recs[i := r]) == Wanted(from, arena, recs)[i :=
              Fields(Numbered(from, arena, r.up), Numbered(from, arena, r.next), Numbered(from, arena, r.child))]
  {
  }

  // Setting the pointer to null that leads to what comes next changes nothing.
  lemma HangingNothing(from: nat, arena: seq<Directive>, z: Zip)
    ensures var fields := Wanted(from, arena, Records(from, z)); HungFields(from, fields, z, null) == fields
  {
    Dangling(from, z);
    var fields := Wanted(from, arena, Records(from, z));
    if z.here != [] {
      SameFields(fields, Cur(from, z) - from, fields[Cur(from, z) - from].(next := null));
    } else if z.frames != [] {
      SameFields(fields, Par(from, z.frames) - from, fields[Par(from, z.frames) - from].(child := null));
    }
  }

  lemma SameFields(fields: seq<Fields>, i: nat, f: Fields)
    requires i < |fields| && fields[i] == f
    ensures fields[i := f] == fields
  {
  }

  lemma ParInRange(from: nat, z: Zip)
    ensures Par(from, z.frames) < from + |Records(from, z)|
  {
  }

  lemma CurInRange(from: nat, z: Zip)
    ensures z.here != [] ==> from <= Cur(from, z) < from + |Records(from, z)|
  {
    if z.here != [] {
      LayoutEnd(z.here, Base(from, z.frames), Par(from, z.frames), NIL, NIL);
    }
  }

  // The pointers of spliced nodes: the roots get the open section as their parent.
  ghost function Adopted(fields: seq<Fields>, recs: seq<Rec>, bound: nat, p: Directive?): (r: seq<Fields>)
    requires |fields| == |recs|
    ensures |r| == |fields|
  {
    seq(|fields|, i requires 0 <= i < |fields| =>
      if recs[i].up == NIL && i < bound then fields[i].(parent := p) else fields[i])
  }

  lemma WantedSplice(from: nat, arena: seq<Directive>, sub: seq<Directive>, g: seq<Tree>, par: int)
    requires |sub| == Sizes(g) && NIL <= par < from + |arena| && (par >= 0 ==> from <= par)
    ensures var at := from + |arena|;
            var recs := Layout(g, at, NIL, NIL);
            Wanted(from, arena + sub, Layout(g, at, par, NIL)) ==
            Adopted(Wanted(at, sub, recs), recs, Sizes(g), Numbered(from, arena, par))
  {
    hide Layout;
    var at := from + |arena|;
    var recs := Layout(g, at, NIL, NIL);
    LayoutRange(g, at, NIL, NIL);
    if par >= 0 {
      LayoutUp(g, at, par, NIL);
    }
    forall i | 0 <= i < |recs|
      ensures Wanted(from, arena + sub, Layout(g, at, par, NIL))[i] ==
              Adopted(Wanted(at, sub, recs), recs, Sizes(g), Numbered(from, arena, par))[i]
    {
      assert Layout(g, at, par, NIL)[i] == if recs[i].up == NIL then recs[i].(up := par) else recs[i];
      assert InRange(recs[i], at, at + |sub|, NIL, NIL);
    }
  }

  lemma WantedConcat(from: nat, arena: seq<Directive>, a: seq<Rec>, b: seq<Rec>)
    ensures Wanted(from, arena, a + b) == Wanted(from, arena, a) + Wanted(from, arena, b)
  {
  }

  // What the zipper with a spliced forest asks for.
  lemma SplicedPointers(from: nat, arena: seq<Directive>, z: Zip, sub: seq<Directive>, g: seq<Tree>)
    requires |arena| == |Records(from, z)| && |sub| == Sizes(g) && g != []
    ensures var at := from + |arena|;
            var recs := Layout(g, at, NIL, NIL);
            sub != [] && Wanted(from, arena + sub, Records(from, Add(z, g))) ==
              HungFields(from, Wanted(from, arena, Records(from, z)), z, sub[0])
              + Adopted(Wanted(at, sub, recs), recs, Sizes(g), Numbered(from, arena, Par(from, z.frames)))
  {
    hide Layout, Spine;
    var par := Par(from, z.frames);
    AddRecords(from, z, g);
    ParInRange(from, z);
    WantedHung(from, arena, z, sub);
    WantedSplice(from, arena, sub, g, par);
    WantedConcat(from, arena + sub, Hung(from, z), Layout(g, from + |arena|, par, NIL));
  }

  lemma SplicedNames(from: nat, arena: seq<Directive>, z: Zip, sub: seq<Directive>, g: seq<Tree>)
    requires Named(arena, Records(from, z)) && g != []
    requires Named(sub, Layout(g, from + |arena|, NIL, NIL))
    ensures Named(arena + sub, Records(from, Add(z, g)))
  {
    hide Layout, Spine, Sizes;
    NamedAnyUp(sub, g, from + |arena|, Par(from, z.frames));
    HungNames(from, arena, z);
    NamedAppend(arena, Hung(from, z), sub, Layout(g, from + |arena|, Par(from, z.frames), NIL));
    AddRecords(from, z, g);
  }

  lemma NamedAnyUp(sub: seq<Directive>, g: seq<Tree>, at: nat, par: int)
    requires Named(sub, Layout(g, at, NIL, NIL)) && NIL <= par
    ensures Named(sub, Layout(g, at, par, NIL))
  {
    if par >= 0 {
      LayoutUp(g, at, par, NIL);
    }
  }

  lemma NamedAppend(a: seq<Directive>, r: seq<Rec>, b: seq<Directive>, s: seq<Rec>)
    requires Named(a, r) && Named(b, s)
    ensures Named(a + b, r + s)
  {
  }

  lemma SplicedCursor(from: nat, arena: seq<Directive>, z: Zip, sub: seq<Directive>, g: seq<Tree>)
    requires |arena| == |Records(from, z)| && |sub| == Sizes(g) && g != []
    ensures Cur(from, Add(z, g)) == from + |arena| + LastRoot(g)
    ensures LastRoot(g) < |sub|
    ensures Numbered(from, arena + sub, Cur(from, Add(z, g))) == sub[LastRoot(g)]
    ensures Numbered(from, arena + sub, Par(from, z.frames)) == Numbered(from, arena, Par(from, z.frames))
  {
    CurAfter(from, z, g);
    ParInRange(from, z);
    LayoutEnd(g, 0, NIL, NIL, NIL);
    assert (arena + sub)[|arena| + LastRoot(g)] == sub[LastRoot(g)];
  }

  lemma CurAfter(from: nat, z: Zip, g: seq<Tree>)
    requires g != []
    ensures Cur(from, Add(z, g)) == from + |Records(from, z)| + LastRoot(g)
  {
    var last := g[..|g| - 1];
    assert (z.here + g)[..|z.here + g| - 1] == z.here + last;
    SizesAppend(z.here, last);
  }

  lemma SpliceReady(from: nat, arena: seq<Directive>, z: Zip, sub: seq<Directive>, g: seq<Tree>, at: nat,
      first: Directive, p: Directive?)
    requires at == from + |arena|
    requires Distinct(arena) && Apart(arena, sub) && Named(arena, Records(from, z))
    requires Named(sub, Layout(g, at, NIL, NIL)) && sub != [] && first == sub[0]
    requires p == Numbered(from, arena, Par(from, z.frames))
    ensures g != [] && LastRoot(g) < |sub|
    ensures Distinct(arena + sub) && Named(arena + sub, Records(from, Add(z, g)))
    ensures Wanted(from, arena + sub, Records(from, Add(z, g))) ==
              HungFields(from, Wanted(from, arena, Records(from, z)), z, first) + Roots(sub, g, at, Sizes(g), p)
    ensures sub[LastRoot(g)] == Numbered(from, arena + sub, Cur(from, Add(z, g)))
    ensures p == Numbered(from, arena + sub, Par(from, Add(z, g).frames))
  {
    hide Wanted, HungFields, Numbered, Cur, Par, Records, Layout;
    SplicedPointers(from, arena, z, sub, g);
    SplicedNames(from, arena, z, sub, g);
    SplicedCursor(from, arena, z, sub, g);
    ApartDistinct(arena, sub);
  }

  // What the zipper with one more node asks for.
  lemma Grown(from: nat, arena: seq<Directive>, z: Zip, n: Directive, child: bool)
    requires Distinct(arena) && n !in arena && Named(arena, Records(from, z))
    ensures var grown := Grow(z, n.name, n.args, child);
            && Distinct(arena + [n]) && Named(arena + [n], Records(from, grown))
            && Wanted(from, arena + [n], Records(from, grown)) ==
               HungFields(from, Wanted(from, arena, Records(from, z)), z, n)
               + [Fields(Numbered(from, arena, Par(from, z.frames)), null, null)]
            && Numbered(from, arena + [n], Cur(from, grown)) == (if child then null else n)
            && Numbered(from, arena + [n], Par(from, grown.frames)) ==
               (if child then n else Numbered(from, arena, Par(from, z.frames)))
  {
    DistinctSnoc(arena, n);
    HungNames(from, arena, z);
    NamedSnoc(arena, Hung(from, z), n, Rec(n.name, n.args, Par(from, z.frames), NIL, NIL));
    WantedWithNode(from, arena, z, n);
    ParInRange(from, z);
    NumberedSnoc(from, arena, n, Par(from, z.frames));
    GrownRecords(from, z, n.name, n.args, child);
  }

  lemma DistinctSnoc(arena: seq<Directive>, n: Directive)
    requires Distinct(arena) && n !in arena
    ensures Distinct(arena + [n])
  {
  }

  lemma NamedSnoc(arena: seq<Directive>, recs: seq<Rec>, n: Directive, r: Rec)
    requires Named(arena, recs) && n.name == r.name && n.args == r.args
    ensures Named(arena + [n], recs + [r])
  {
  }

  // A new node takes the next number and leaves the others alone.
  lemma NumberedSnoc(from: nat, arena: seq<Directive>, n: Directive, i: int)
    ensures i < from + |arena| ==> Numbered(from, arena + [n], i) == Numbered(from, arena, i)
    ensures Numbered(from, arena + [n], from + |arena|) == n && Numbered(from, arena + [n], NIL) == null
  {
  }

  lemma HungNames(from: nat, arena: seq<Directive>, z: Zip)
    requires Named(arena, Records(from, z))
    ensures Named(arena, Hung(from, z))
  {
    CurInRange(from, z);
  }

  // The pointers of one node.
  lemma PointersOf(arena: seq<Directive>, fields: seq<Fields>, i: nat)
    requires Matches(arena, fields) && i < |arena|
    ensures i < |fields| && Fields(arena[i].parent, arena[i].next, arena[i].firstChild) == fields[i]
  {
    assert |fields| == |arena|;
    assert fields[i] == fields[i];
  }

  // The node of the innermost open section, and what its parent pointer asks for.
  lemma ParentPointer(from: nat, arena: seq<Directive>, z: Zip)
    requires z.frames != [] && Named(arena, Records(from, z))
    ensures var i := Par(from, z.frames) - from;
            && 0 <= i < |arena| && Numbered(from, arena, Par(from, z.frames)) == arena[i]
            && arena[i].name == z.frames[|z.frames| - 1].name
            && Wanted(from, arena, Records(from, z))[i].parent == Numbered(from, arena, Par(from, Rise(z).frames))
  {
    hide Layout, Spine, Sizes, Records;
    ParInRange(from, z);
    RiseKeepsRecords(from, z);
  }

  lemma MatchesSnoc(arena: seq<Directive>, fields: seq<Fields>, n: Directive)
    requires Matches(arena, fields)
    ensures Matches(arena + [n], fields + [Fields(n.parent, n.next, n.firstChild)])
  {
  }

  // One pointer of one node is set.
  method SetParent(n: Directive, p: Directive?, ghost arena: seq<Directive>, ghost i: nat, ghost fields: seq<Fields>)
    requires Distinct(arena) && i < |arena| && arena[i] == n && Matches(arena, fields)
    modifies n`parent
    ensures Matches(arena, fields[i := fields[i].(parent := p)]) && n.parent == p
  {
    n.parent := p;
  }

  method SetNextOf(n: Directive, next: Directive?, ghost arena: seq<Directive>, ghost i: nat, ghost fields: seq<Fields>)
    requires Distinct(arena) && i < |arena| && arena[i] == n && Matches(arena, fields)
    modifies n`next
    ensures Matches(arena, fields[i := fields[i].(next := next)]) && n.next == next
  {
    n.next := next;
  }

  method SetChildOf(n: Directive, child: Directive?, ghost arena: seq<Directive>, ghost i: nat,
      ghost fields: seq<Fields>)
    requires Distinct(arena) && i < |arena| && arena[i] == n && Matches(arena, fields)
    modifies n`firstChild
    ensures Matches(arena, fields[i := fields[i].(child := child)])
  {
    n.firstChild := child;
  }

  lemma NoNodes(from: nat)
    ensures Records(from, TOP) == [] && Cur(from, TOP) == NIL && Par(from, TOP.frames) == NIL
  {
  }

  lemma WholeRecords(trees: seq<Tree>)
    ensures Records(0, Zip([], trees)) == Layout(trees, 0, NIL, NIL)
  {
  }

  // The pointer pair with the tree it grows.  The nodes of `arena` are numbered from
  // `from` on, in the order in which they were made; z is the zipper they stand for.
  class Cursor {
    var current: Directive?
    var currParent: Directive?
    var head: Directive?           // *conftree, or sub_tree
    ghost var from: nat
    ghost var arena: seq<Directive>
    ghost var z: Zip

    constructor (ghost from: nat)
      ensures Valid() && z == TOP && arena == [] && this.from == from && HeadSet()
    {
      current, currParent, head := null, null, null;
      this.from, arena, z := from, [], TOP;
      new;
      hide Records, Cur, Par, Layout, Spine;
      NoNodes(from);
    }

    // A cursor at the end of a finished list.
    constructor Behind(conftree: Directive?, current: Directive?, ghost arena: seq<Directive>, ghost trees: seq<Tree>)
      requires Listed(conftree, 0, arena, trees)
      requires current == Numbered(0, arena, Cur(0, Zip([], trees)))
      ensures Valid() && HeadSet() && z == Zip([], trees) && this.arena == arena && from == 0
    {
      from := 0;
      new;
      WholeRecords(trees);
      Move(current, null, conftree, arena, Zip([], trees));
    }

    ghost function At(i: int): Directive?
      reads this
    {
      Numbered(from, arena, i)
    }

    // The nodes are linked as the zipper says; `currParent` is the innermost open section
    // and `current` the last node of the present level.
    ghost predicate Valid()
      reads this, arena
    {
      && Distinct(arena) && Named(arena, Records(from, z))
      && Matches(arena, Wanted(from, arena, Records(from, z)))
      && current == At(Cur(from, z)) && currParent == At(Par(from, z.frames))
    }

    ghost predicate HeadSet()
      reads this
    {
      head == At(from)
    }

    // The first node has been made and not been recorded as the head yet.
    ghost predicate HeadDue()
      reads this
    {
      head == null && |arena| == 1
    }

    // ap_add_node, with *current and *parent in place: hang a new node behind `current`, or
    // as the first child of the open section, and step into it when it is a section.
    method AddNode(toadd: Directive, child: bool)
      requires Valid() && toadd !in arena
      requires toadd.next == toadd.firstChild == toadd.parent == null
      modifies this, arena, toadd
      ensures Valid() && arena == old(arena) + [toadd] && from == old(from) && head == old(head)
      ensures z == Grow(old(z), toadd.name, toadd.args, child)
      ensures old(HeadSet()) ==> HeadSet() || HeadDue()
    {
      NumberedSnoc(from, arena, toadd, from);
      ghost var grown := Grow(z, toadd.name, toadd.args, child);
      ghost var fields := HungFields(from, Wanted(from, arena, Records(from, z)), z, toadd);
      Grown(from, arena, z, toadd, child);
      Hang(toadd);
      MatchesSnoc(arena, fields, toadd);
      if child {
        Move(null, toadd, head, arena + [toadd], grown);
      } else {
        Move(toadd, currParent, head, arena + [toadd], grown);
      }
    }

    // Set the pointer pair and the head.
    method Move(current: Directive?, currParent: Directive?, head: Directive?, ghost arena: seq<Directive>,
        ghost z: Zip)
      requires Distinct(arena) && Named(arena, Records(from, z))
      requires Matches(arena, Wanted(from, arena, Records(from, z)))
      requires current == Numbered(from, arena, Cur(from, z))
      requires currParent == Numbered(from, arena, Par(from, z.frames))
      modifies this
      ensures Valid() && this.current == current && this.currParent == currParent
      ensures this.arena == arena && this.z == z && from == old(from) && this.head == head
    {
      this.current, this.currParent, this.head, this.arena, this.z := current, currParent, head, arena, z;
    }

    // The pointers of ap_add_node.
    method Hang(toadd: Directive)
      requires Valid() && toadd !in arena
      requires toadd.next == toadd.firstChild == toadd.parent == null
      modifies arena, toadd
      ensures unchanged(this) && toadd.parent == currParent && toadd.next == null && toadd.firstChild == null
      ensures Matches(arena, HungFields(from, Wanted(from, arena, Records(from, z)), z, toadd))
    {
      hide Layout, Spine, Wanted, Matches, Named, Distinct, HungFields;
      HangHere(toadd);
      if current != null || currParent != null {
        toadd.parent := currParent;
      }
    }

    // The existing node that leads to what comes next: `current`, or else the open section.
    method HangHere(n: Directive?)
      requires Valid()
      modifies arena
      ensures unchanged(this) && Matches(arena, HungFields(from, Wanted(from, arena, Records(from, z)), z, n))
      ensures current != null ==> current.next == n
    {
      hide Matches, Distinct, Wanted, Layout;
      ghost var fields := Wanted(from, arena, Records(from, z));
      CurInRange(from, z);
      if current == null {
        if currParent != null {
          SetChildOf(currParent, n, arena, Par(from, z.frames) - from, fields);
        }
      } else {
        SetNextOf(current, n, arena, Cur(from, z) - from, fields);
      }
    }

    // A closing line: step out of the innermost open section.
    method Close()
      requires Valid() && z.frames != []
      modifies this
      ensures Valid() && z == Rise(old(z)) && arena == old(arena) && from == old(from) && head == old(head)
    {
      ParentPointer(from, arena, z);
      RiseKeepsRecords(from, z);
      PointersOf(arena, Wanted(from, arena, Records(from, z)), Par(from, z.frames) - from);
      Move(currParent, currParent.parent, head, arena, Rise(z));
    }

    // Hang a separately built list of nodes at the present place and make them children of
    // the open section, as ap_build_config_sub does after a line that was executed on reading.
    method Splice(subTree: Directive?, ghost sub: seq<Directive>, ghost g: seq<Tree>, ghost at: nat)
      requires Valid() && at == from + |arena| && Listed(subTree, at, sub, g) && Apart(arena, sub)
      modifies this, arena, sub
      ensures Valid() && arena == old(arena) + sub && z == Add(old(z), g) && from == old(from)
      ensures old(HeadSet()) ==> HeadSet()
    {
      if subTree == null {
        HangingNothing(from, arena, z);
        HangHere(null);
        assert Add(z, g) == z && arena + sub == arena;
      } else {
        SpliceSome(subTree, sub, g, at);
      }
    }

    method SpliceSome(first: Directive, ghost sub: seq<Directive>, ghost g: seq<Tree>, ghost at: nat)
      requires Valid() && at == from + |arena| && Listed(first, at, sub, g) && Apart(arena, sub)
      modifies this, arena, sub
      ensures Valid() && arena == old(arena) + sub && z == Add(old(z), g) && from == old(from)
      ensures old(HeadSet()) ==> HeadSet()
    {
      var cur := HangList(first, sub, g, at);
      var newHead := if head != null then head else if current == null then first else current;
      Move(cur, currParent, newHead, arena + sub, Add(z, g));
    }

    method HangList(first: Directive, ghost sub: seq<Directive>, ghost g: seq<Tree>, ghost at: nat)
      returns (cur: Directive)
      requires Valid() && Apart(arena, sub) && at == from + |arena|
      requires |sub| == Sizes(g) && sub != [] && first == sub[0]
      requires Named(sub, Layout(g, at, NIL, NIL))
      requires Matches(sub, Wanted(at, sub, Layout(g, at, NIL, NIL)))
      modifies arena, sub
      ensures unchanged(this)
      ensures Distinct(arena + sub) && Named(arena + sub, Records(from, Add(z, g)))
      ensures Matches(arena + sub, Wanted(from, arena + sub, Records(from, Add(z, g))))
      ensures cur == Numbered(from, arena + sub, Cur(from, Add(z, g)))
      ensures currParent == Numbered(from, arena + sub, Par(from, Add(z, g).frames))
    {
      ghost var fields := Wanted(from, arena, Records(from, z));
      cur := HangAndAdopt(first, sub, g, at);
      MatchesAppend(arena, HungFields(from, fields, z, first), sub, Roots(sub, g, at, Sizes(g), currParent));
      SpliceReady(from, arena, z, sub, g, at, first, currParent);
    }

    method HangAndAdopt(first: Directive, ghost sub: seq<Directive>, ghost g: seq<Tree>, ghost at: nat)
      returns (cur: Directive)
      requires Valid() && Apart(arena, sub) && |sub| == Sizes(g) && sub != [] && first == sub[0]
      requires Matches(sub, Wanted(at, sub, Layout(g, at, NIL, NIL)))
      modifies arena, sub
      ensures unchanged(this) && Matches(arena, HungFields(from, Wanted(from, arena, Records(from, z)), z, first))
      ensures Matches(sub, Roots(sub, g, at, Sizes(g), currParent))
      ensures g != [] && LastRoot(g) < |sub| && cur == sub[LastRoot(g)]
    {
      CurInRange(from, z);
      HangHere(first);
      cur := AdoptAll(first, sub, g, at);
    }

    // All nodes of the list get their parent; returns the last of the list.
    method AdoptAll(first: Directive, ghost sub: seq<Directive>, ghost g: seq<Tree>, ghost at: nat)
      returns (cur: Directive)
      requires Distinct(sub) && |sub| == Sizes(g) && sub != [] && first == sub[0]
      requires Matches(sub, Wanted(at, sub, Layout(g, at, NIL, NIL)))
      requires current != null ==> current !in sub && current.next == first
      modifies sub
      ensures unchanged(this) && Matches(sub, Roots(sub, g, at, Sizes(g), currParent))
      ensures g != [] && LastRoot(g) < |sub| && cur == sub[LastRoot(g)]
    {
      ghost var recs := Layout(g, at, NIL, NIL);
      ghost var wanted := Wanted(at, sub, recs);
      assert Adopted(wanted, recs, 0, currParent) == wanted;
      if current == null {
        AdoptedStep(wanted, recs, g, 0, at, currParent);
        SetParent(first, currParent, sub, 0, wanted);
        cur := Adopt(first, sub, g, at, 1, currParent);
      } else {
        cur := Adopt(current, sub, g, at, 0, currParent);
      }
    }

    // The loop that walks to the end of the spliced list and sets the parents on its way.
    method Adopt(start: Directive, ghost sub: seq<Directive>, ghost g: seq<Tree>, ghost at: nat, ghost done: nat,
        p: Directive?)
      returns (cur: Directive)
      requires Distinct(sub) && |sub| == Sizes(g) && done <= 1 && g != [] && sub != []
      requires if done == 0 then start !in sub && start.next == sub[0] else start == sub[0]
      requires Matches(sub, Roots(sub, g, at, Sizes(g[..done]), p))
      modifies sub
      ensures Matches(sub, Roots(sub, g, at, Sizes(g), p))
      ensures LastRoot(g) < |sub| && cur == sub[LastRoot(g)]
    {
      ghost var k := done;
      cur := start;
      FirstRoots(start, sub, g, at, done, p);
      while cur.next != null
        invariant done <= k <= |g| && (k < |g| ==> Root(sub, g, k) != null)
        invariant cur == if k == 0 then start else Root(sub, g, k - 1)
        invariant cur.next == Root(sub, g, k)
        invariant Matches(sub, Roots(sub, g, at, Sizes(g[..k]), p))
        decreases |g| - k
      {
        cur := AdoptNext(cur, sub, g, at, k, p);
        k := k + 1;
      }
      assert g[..k] == g;
    }

    lemma FirstRoots(start: Directive, sub: seq<Directive>, g: seq<Tree>, at: nat, done: nat, p: Directive?)
      requires |sub| == Sizes(g) && done <= 1 && g != [] && sub != []
      requires if done == 0 then start.next == sub[0] else start == sub[0]
      requires Matches(sub, Roots(sub, g, at, Sizes(g[..done]), p))
      ensures done < |g| ==> Root(sub, g, done) != null
      ensures start.next == Root(sub, g, done) && (done == 1 ==> start == Root(sub, g, 0))
    {
      hide Matches, Layout, Roots;
      assert g[..0] == [];
      if done == 1 {
        PointersOf(sub, Roots(sub, g, at, Sizes(g[..done]), p), 0);
        NextRoot(g, 0, at, sub, p);
      } else {
        LayoutTree(g, 0, at);
      }
    }

    method AdoptNext(prev: Directive, ghost sub: seq<Directive>, ghost g: seq<Tree>, ghost at: nat, ghost k: nat,
        p: Directive?)
      returns (cur: Directive)
      requires Distinct(sub) && |sub| == Sizes(g) && k < |g|
      requires prev.next == Root(sub, g, k) != null
      requires Matches(sub, Roots(sub, g, at, Sizes(g[..k]), p))
      modifies sub
      ensures Matches(sub, Roots(sub, g, at, Sizes(g[..k + 1]), p))
      ensures cur == Root(sub, g, k) && cur.next == Root(sub, g, k + 1)
      ensures k + 1 < |g| ==> Root(sub, g, k + 1) != null
    {
      ghost var recs := Layout(g, at, NIL, NIL);
      AdoptedStep(Wanted(at, sub, recs), recs, g, k, at, p);
      NextRoot(g, k, at, sub, p);
      cur := prev.next;
      SetParent(cur, p, sub, Sizes(g[..k]), Roots(sub, g, at, Sizes(g[..k]), p));
    }
  }

  // The pointers of a spliced list of which the trees below `bound` have their parent.
  ghost function Roots(sub: seq<Directive>, g: seq<Tree>, at: nat, bound: nat, p: Directive?): seq<Fields> {
    var recs := Layout(g, at, NIL, NIL);
    Adopted(Wanted(at, sub, recs), recs, bound, p)
  }

  ghost predicate Apart(a: seq<Directive>, b: seq<Directive>) {
    Distinct(b) && forall i, j :: 0 <= i < |a| && 0 <= j < |b| ==> a[i] != b[j]
  }

  lemma ApartDistinct(a: seq<Directive>, b: seq<Directive>)
    requires Distinct(a) && Apart(a, b)
    ensures Distinct(a + b)
  {
  }

  lemma MatchesAppend(a: seq<Directive>, f: seq<Fields>, b: seq<Directive>, g: seq<Fields>)
    requires Matches(a, f) && Matches(b, g)
    ensures Matches(a + b, f + g)
  {
  }

  // One more tree of the list gets its parent.
  lemma AdoptedStep(fields: seq<Fields>, recs: seq<Rec>, g: seq<Tree>, k: nat, at: nat, p: Directive?)
    requires k < |g| && recs == Layout(g, at, NIL, NIL) && |fields| == |recs|
    ensures var i, done := Sizes(g[..k]), Adopted(fields, recs, Sizes(g[..k]), p);
            i < |fields| && Adopted(fields, recs, Sizes(g[..k + 1]), p) == done[i := done[i].(parent := p)]
  {
    LayoutTree(g, k, at);
  }

  // The node of the k-th tree.
  ghost function Root(sub: seq<Directive>, g: seq<Tree>, k: nat): Directive? {
    if k < |g| && Sizes(g[..k]) < |sub| then sub[Sizes(g[..k])] else null
  }

  // The next pointer of a root leads to the next root.
  lemma NextRoot(g: seq<Tree>, k: nat, at: nat, sub: seq<Directive>, p: Directive?)
    requires k < |g| && |sub| == Sizes(g)
    ensures Sizes(g[..k]) < |sub| && (k + 1 < |g| ==> Root(sub, g, k + 1) != null)
    ensures forall b :: Roots(sub, g, at, b, p)[Sizes(g[..k])].next == Root(sub, g, k + 1)
  {
    hide Layout;
    LayoutTree(g, k, at);
    if k + 1 < |g| {
      LayoutTree(g, k + 1, at);
    }
  }
}
