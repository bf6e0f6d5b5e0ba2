/**
  Building the tree in memory from the lines of a file.  Each method is proved against the
  function of the same purpose in Directives.
*/
module ConfigBuild {
  import opened Directives
  import opened TreeLayout
  import opened ConfigTree

  // ap_soak_end_container
  method SoakEndContainer(name: string, rd: Reader) returns (ok: bool)
    modifies rd
    ensures ok == Soak(name, old(rd.lines)).Some?
    ensures ok ==> rd.lines == Soak(name, old(rd.lines)).value
    decreases |rd.lines|
  {
    while true
      invariant |rd.lines| <= |old(rd.lines)|
      invariant Soak(name, rd.lines) == Soak(name, old(rd.lines))
      decreases |rd.lines|
    {
      var eof, line := rd.Getline();
      if eof {
        return false;
      }
      if line.Words? && line.word != "" && line.word[0] == '<' {
        if StartsClose(line.word) {
          return SameName(SoakedName(line.word), Tail(name));
        }
        var skipped := SoakEndContainer(SoakName(line), rd);
        if !skipped {
          return false;
        }
      }
    }
  }

  // Everything a cursor has built is a list, with open sections closed where they stand.
  lemma WholeList(c: Cursor)
    requires c.Valid() && c.HeadSet()
    ensures Listed(c.head, c.from, c.arena, Unwind(c.z))
  {
    var g := Unwind(c.z);
    UnwindKeepsRecords(c.from, c.z);
    assert Records(c.from, Zip([], g)) == Layout(g, c.from, NIL, NIL);
  }

  // The head of the tree is set after the first line that makes a node.
  method SetHead(c: Cursor)
    requires c.Valid() && (c.HeadSet() || c.HeadDue())
    modifies c`head
    ensures c.Valid() && c.HeadSet()
  {
    CurInRange(c.from, c.z);
    ParInRange(c.from, c.z);
    if c.head == null && c.currParent != null {
      c.head := c.currParent;
    }
    if c.head == null && c.current != null {
      c.head := c.current;
    }
  }

  // ap_build_config_sub
  method BuildConfigSub(c: Cursor, env: Env, line: Line, rd: Reader) returns (ok: bool)
    requires c.Valid() && c.HeadSet()
    modifies c, c.arena, rd
    ensures Effect(BuildSub(env, line, old(rd.lines), old(c.z)), ok, c.z, rd.lines)
    ensures ok ==> c.Valid() && (c.HeadSet() || c.HeadDue()) && c.from == old(c.from)
    ensures ok ==> old(c.arena) <= c.arena && forall i :: |old(c.arena)| <= i < |c.arena| ==> fresh(c.arena[i])
    decreases |rd.lines| + 1, 0
  {
    SubMeans(env, line, rd.lines, c.z);
    ok := Dispatch(c, env, Tok(line), line, rd, BuildSub(env, line, rd.lines, c.z));
  }

  // The effect of a line by its token.
  ghost function Meaning(env: Env, t: Token, line: Line, rest: seq<Line>, z: Zip): Outcome {
    match t
    case Nothing => Built(z, rest)
    case Plain(name, args) => Built(Grow(z, name, args, false), rest)
    case Open(name, args) =>
      if KindOf(name).None? then Built(Grow(z, name, args, true), rest)
      else Executed(env, KindOf(name).value, args, rest, z)
    case Close(word) =>
      if z.frames != [] && Closes(z.frames[|z.frames| - 1].name, line) then Built(Rise(z), rest) else Failed
  }

  lemma SubMeans(env: Env, line: Line, rest: seq<Line>, z: Zip)
    ensures BuildSub(env, line, rest, z) == Meaning(env, Tok(line), line, rest, z)
  {
  }

  method Dispatch(c: Cursor, env: Env, t: Token, line: Line, rd: Reader, ghost r: Outcome) returns (ok: bool)
    requires c.Valid() && c.HeadSet() && r == Meaning(env, t, line, rd.lines, c.z)
    modifies c, c.arena, rd
    ensures Effect(r, ok, c.z, rd.lines)
    ensures ok ==> c.Valid() && (c.HeadSet() || c.HeadDue()) && c.from == old(c.from)
    ensures ok ==> old(c.arena) <= c.arena && forall i :: |old(c.arena)| <= i < |c.arena| ==> fresh(c.arena[i])
    decreases |rd.lines|, 4
  {
    hide Cursor.Valid, BuildLoop, Soak, Unwind;
    match t
    case Nothing =>
      ok := true;
    case Plain(name, args) =>
      ok := AddLine(c, name, args, false, r, rd.lines);
    case Open(name, args) =>
      var kind := KindOf(name);
      if kind.None? {
        ok := AddLine(c, name, args, true, r, rd.lines);
      } else {
        ok := Conditional(c, env, kind.value, args, rd, r);
      }
    case Close(word) =>
      ok := CloseLine(c, line, r, rd.lines);
  }

  method CloseLine(c: Cursor, line: Line, ghost r: Outcome, ghost rest: seq<Line>) returns (ok: bool)
    requires c.Valid() && c.HeadSet()
    requires r == if c.z.frames != [] && Closes(c.z.frames[|c.z.frames| - 1].name, line)
                  then Built(Rise(c.z), rest) else Failed
    modifies c
    ensures Effect(r, ok, c.z, rest)
    ensures ok ==> c.Valid() && c.HeadSet() && c.from == old(c.from) && c.arena == old(c.arena)
  {
    OpenSection(c);
    if c.currParent == null || !Closes(c.currParent.name, line) {
      return false;
    }
    c.Close();
    ok := true;
  }

  // What a line has done is what the function says.
  ghost predicate Effect(r: Outcome, ok: bool, z: Zip, lines: seq<Line>) {
    ok == r.Built? && (ok ==> z == r.z && lines == r.rest)
  }

  // The effect of a line that is executed on reading.
  ghost function Executed(env: Env, kind: Kind, args: string, rest: seq<Line>, z: Zip): Outcome {
    match Judge(env, kind, args)
    case Bad => Failed
    case Holds =>
      (match BuildLoop(env, Some(kind), rest, TOP)
       case Failed => Failed
       case Built(inner, after) => Built(Add(z, Unwind(inner)), after))
    case Fails =>
      match Soak(KindName(kind), rest)
      case None => Failed
      case Some(after) => Built(z, after)
  }

  method AddLine(c: Cursor, name: string, args: string, child: bool, ghost r: Outcome, ghost rest: seq<Line>)
    returns (ok: bool)
    requires c.Valid() && c.HeadSet() && r == Built(Grow(c.z, name, args, child), rest)
    modifies c, c.arena
    ensures ok && Effect(r, ok, c.z, rest)
    ensures c.Valid() && (c.HeadSet() || c.HeadDue()) && c.from == old(c.from)
    ensures old(c.arena) <= c.arena && forall i :: |old(c.arena)| <= i < |c.arena| ==> fresh(c.arena[i])
  {
    hide Cursor.Valid, Cursor.HeadSet, Cursor.HeadDue;
    var node := new Directive(name, args);
    c.AddNode(node, child);
    ok := true;
  }

  // A line that is executed on reading: its nodes are spliced in.
  method Conditional(c: Cursor, env: Env, kind: Kind, args: string, rd: Reader, ghost r: Outcome) returns (ok: bool)
    requires c.Valid() && c.HeadSet() && r == Executed(env, kind, args, rd.lines, c.z)
    modifies c, c.arena, rd
    ensures Effect(r, ok, c.z, rd.lines)
    ensures ok ==> c.Valid() && c.HeadSet() && c.from == old(c.from)
    ensures ok ==> old(c.arena) <= c.arena && forall i :: |old(c.arena)| <= i < |c.arena| ==> fresh(c.arena[i])
    decreases |rd.lines|, 3
  {
    hide Cursor.Valid, BuildLoop, Soak, Unwind, Layout;
    ghost var at, g, sub := c.from + |c.arena|, [], [];
    var subTree;
    ok, subTree, sub, g := ExecuteNow(env, kind, args, rd, at);
    if ok {
      Unshared(c.arena, sub);
      c.Splice(subTree, sub, g, at);
    }
  }

  // start_ifdefine and start_ifmod
  method ExecuteNow(env: Env, kind: Kind, args: string, rd: Reader, ghost from: nat)
    returns (ok: bool, subTree: Directive?, ghost sub: seq<Directive>, ghost g: seq<Tree>)
    modifies rd
    ensures var verdict, lines := Judge(env, kind, args), old(rd.lines);
            if verdict == Holds then
              var r := BuildLoop(env, Some(kind), lines, TOP);
              ok == r.Built? && (ok ==> g == Unwind(r.z) && rd.lines == r.rest)
            else if verdict == Fails then
              var r := Soak(KindName(kind), lines);
              ok == r.Some? && (ok ==> g == [] && rd.lines == r.value)
            else !ok
    ensures ok ==> Listed(subTree, from, sub, g) && fresh(sub)
    decreases |rd.lines|, 2
  {
    var verdict := Judge(env, kind, args);
    ok, subTree, sub, g := false, null, [], [];
    if verdict == Holds {
      var c := new Cursor(from);
      ok := BuildContConfig(c, env, kind, rd);
      if ok {
        WholeList(c);
        subTree, sub, g := c.head, c.arena, Unwind(c.z);
      }
    } else if verdict == Fails {
      ok := SoakEndContainer(KindName(kind), rd);
    }
  }

  // ap_build_cont_config
  method BuildContConfig(c: Cursor, env: Env, kind: Kind, rd: Reader) returns (ok: bool)
    requires c.Valid() && c.HeadSet() && c.z == TOP && c.arena == []
    modifies c, rd
    ensures Effect(BuildLoop(env, Some(kind), old(rd.lines), TOP), ok, c.z, rd.lines)
    ensures ok ==> c.Valid() && c.HeadSet() && c.from == old(c.from) && fresh(c.arena)
    decreases |rd.lines|, 1
  {
    hide Cursor.Valid, BuildSub, EndsKind;
    while true
      invariant |rd.lines| <= |old(rd.lines)| && c.Valid() && c.HeadSet() && c.from == old(c.from) && fresh(c.arena)
      invariant BuildLoop(env, Some(kind), rd.lines, c.z) == BuildLoop(env, Some(kind), old(rd.lines), TOP)
      decreases |rd.lines|
    {
      var eof, line := rd.Getline();
      if eof {
        return true;
      }
      OpenSection(c);
      if EndsKind(line, kind) && c.currParent == null {
        return true;
      }
      ok := BuildConfigSub(c, env, line, rd);
      if !ok {
        return;
      }
      SetHead(c);
    }
  }

  lemma Unshared(a: seq<Directive>, b: seq<Directive>)
    requires Distinct(b) && forall i, j :: 0 <= i < |a| && 0 <= j < |b| ==> a[i] != b[j]
    ensures Apart(a, b)
  {
  }

  // The pointer to the innermost open section.
  lemma OpenSection(c: Cursor)
    requires c.Valid()
    ensures if c.z.frames == [] then c.currParent == null
            else c.currParent != null && c.currParent.name == c.z.frames[|c.z.frames| - 1].name
  {
    if c.z.frames != [] {
      ParentPointer(c.from, c.arena, c.z);
    }
  }

  // ----- the whole file

  // The node at the end of a list of directives.
  method LastNode(first: Directive, ghost arena: seq<Directive>, ghost fields: seq<Fields>, ghost trees: seq<Tree>)
    returns (cur: Directive)
    requires Matches(arena, fields) && trees != [] && first == Root(arena, trees, 0)
    requires RootLinks(arena, fields, trees)
    ensures cur == Root(arena, trees, |trees| - 1)
  {
    ghost var k := 0;
    cur := first;
    assert RootLink(arena, fields, trees, 0);
    while cur.next != null
      invariant k < |trees| && cur == Root(arena, trees, k) && cur.next == Root(arena, trees, k + 1)
      decreases |trees| - k
    {
      assert RootLink(arena, fields, trees, k + 1);
      cur := cur.next;
      k := k + 1;
    }
    assert k + 1 < |trees| ==> RootLink(arena, fields, trees, k + 1);
  }

  // The pointers of the k-th tree's node lead to the node of the next tree.
  ghost predicate RootLink(arena: seq<Directive>, fields: seq<Fields>, trees: seq<Tree>, k: nat) {
    k < |trees| ==>
      && Sizes(trees[..k]) < |arena| == |fields|
      && fields[Sizes(trees[..k])].next == Root(arena, trees, k + 1)
  }

  ghost predicate RootLinks(arena: seq<Directive>, fields: seq<Fields>, trees: seq<Tree>) {
    forall k: nat :: RootLink(arena, fields, trees, k)
  }

  lemma ListLinks(arena: seq<Directive>, trees: seq<Tree>)
    requires |arena| == Sizes(trees)
    ensures RootLinks(arena, Wanted(0, arena, Layout(trees, 0, NIL, NIL)), trees)
  {
    forall k: nat
      ensures RootLink(arena, Wanted(0, arena, Layout(trees, 0, NIL, NIL)), trees, k)
    {
      if k < |trees| {
        RootFields(arena, trees, k);
      }
    }
  }

  lemma FirstIsRoot(first: Directive, arena: seq<Directive>, trees: seq<Tree>)
    requires |arena| == Sizes(trees) && arena != [] && first == arena[0]
    ensures trees != [] && first == Root(arena, trees, 0)
  {
    assert trees[..0] == [];
  }

  lemma LastIsCurrent(arena: seq<Directive>, trees: seq<Tree>)
    requires trees != [] && Root(arena, trees, |trees| - 1) != null
    ensures Root(arena, trees, |trees| - 1) == Numbered(0, arena, Cur(0, Zip([], trees)))
  {
    assert Cur(0, Zip([], trees)) == LastRoot(trees) == Sizes(trees[..|trees| - 1]);
  }

  lemma RootFields(arena: seq<Directive>, trees: seq<Tree>, k: nat)
    requires |arena| == Sizes(trees) && k < |trees|
    ensures Sizes(trees[..k]) < |arena| && Root(arena, trees, k) == arena[Sizes(trees[..k])]
    ensures Wanted(0, arena, Layout(trees, 0, NIL, NIL))[Sizes(trees[..k])].next == Root(arena, trees, k + 1)
    ensures k + 1 < |trees| ==> Root(arena, trees, k + 1) != null
  {
    NextRoot(trees, k, 0, arena, null);
    assert Roots(arena, trees, 0, 0, null)[Sizes(trees[..k])].next == Root(arena, trees, k + 1);
  }

  // What ap_build_config returns: no error, the list of sections that were not closed, or
  // the error of a line.
  datatype Report = Complete | Unclosed(names: seq<string>) | Broken

  function OpenNames(frames: seq<Frame>): seq<string> {
    if frames == [] then [] else [frames[|frames| - 1].name] + OpenNames(frames[..|frames| - 1])
  }

  ghost function Verdict(r: Outcome): Report {
    match r
    case Failed => Broken
    case Built(z, _) => if z.frames == [] then Complete else Unclosed(OpenNames(z.frames))
  }

  // ap_build_config
  method BuildConfig(conftree: Directive?, env: Env, rd: Reader, ghost arena: seq<Directive>, ghost before: seq<Tree>)
    returns (report: Report, head: Directive?, ghost nodes: set<Directive>)
    requires Listed(conftree, 0, arena, before)
    modifies arena, rd
    ensures report == Verdict(BuildLoop(env, None, old(rd.lines), Zip([], before)))
    ensures report.Complete? <==> Build(env, old(rd.lines), before).Some?
    ensures report.Complete? ==> Mirrors(head, null, Build(env, old(rd.lines), before).value, nodes)
  {
    var current := conftree;
    if conftree != null {
      FirstIsRoot(conftree, arena, before);
      ListLinks(arena, before);
      current := LastNode(conftree, arena, Wanted(0, arena, Layout(before, 0, NIL, NIL)), before);
      LastIsCurrent(arena, before);
    }
    var c := new Cursor.Behind(conftree, current, arena, before);
    var ok := ReadAll(c, env, rd);
    if !ok {
      return Broken, c.head, {};
    }
    head, nodes := c.head, set n | n in c.arena;
    var names := OpenSections(c);
    if names != [] {
      return Unclosed(names), head, nodes;
    }
    report := Complete;
    Reflects(c);
  }

  method ReadAll(c: Cursor, env: Env, rd: Reader) returns (ok: bool)
    requires c.Valid() && c.HeadSet()
    modifies c, c.arena, rd
    ensures var r := BuildLoop(env, None, old(rd.lines), old(c.z)); ok == r.Built? && (ok ==> c.z == r.z)
    ensures ok ==> c.Valid() && c.HeadSet()
  {
    hide Cursor.Valid, BuildSub;
    while true
      invariant |rd.lines| <= |old(rd.lines)| && c.Valid() && c.HeadSet()
      invariant |old(c.arena)| <= |c.arena|
      invariant forall i :: 0 <= i < |old(c.arena)| ==> c.arena[i] == old(c.arena)[i]
      invariant forall i :: |old(c.arena)| <= i < |c.arena| ==> fresh(c.arena[i])
      invariant BuildLoop(env, None, rd.lines, c.z) == BuildLoop(env, None, old(rd.lines), old(c.z))
      decreases |rd.lines|
    {
      var eof, line := rd.Getline();
      if eof {
        return true;
      }
      ok := BuildConfigSub(c, env, line, rd);
      if !ok {
        return;
      }
      SetHead(c);
    }
  }

  // The loop over the sections that were not closed: the parent pointers from `currParent`
  // on are the stack of open sections.
  method OpenSections(c: Cursor) returns (names: seq<string>)
    requires c.Valid()
    ensures names == OpenNames(c.z.frames)
  {
    hide Layout, Spine, Matches, Distinct, Wanted;
    names := [];
    var section := c.currParent;
    ghost var z := c.z;
    while section != null
      invariant Records(c.from, z) == Records(c.from, c.z)
      invariant section == Numbered(c.from, c.arena, Par(c.from, z.frames))
      invariant names + OpenNames(z.frames) == OpenNames(c.z.frames)
      decreases |z.frames|
    {
      StepOut(c, z);
      names := names + [section.name];
      section := section.parent;
      z := Rise(z);
    }
    ParInRange(c.from, z);
  }

  lemma StepOut(c: Cursor, z: Zip)
    requires c.Valid() && Records(c.from, z) == Records(c.from, c.z)
    requires Numbered(c.from, c.arena, Par(c.from, z.frames)) != null
    ensures z.frames != [] && Records(c.from, Rise(z)) == Records(c.from, c.z)
    ensures var section := Numbered(c.from, c.arena, Par(c.from, z.frames));
            && section.name == z.frames[|z.frames| - 1].name
            && section.parent == Numbered(c.from, c.arena, Par(c.from, Rise(z).frames))
  {
    ParentPointer(c.from, c.arena, z);
    PointersOf(c.arena, Wanted(c.from, c.arena, Records(c.from, z)), Par(c.from, z.frames) - c.from);
    RiseKeepsRecords(c.from, z);
  }

  // ----- the links mirror the tree

  ghost predicate Held(from: nat, arena: seq<Directive>, lo: nat, recs: seq<Rec>)
    reads arena
  {
    && from <= lo && lo - from + |recs| <= |arena|
    && forall i :: 0 <= i < |recs| ==> Points(arena[lo - from + i], recs[i], from, arena)
  }

  ghost predicate Points(n: Directive, r: Rec, from: nat, arena: seq<Directive>)
    reads n
  {
    && n.name == r.name && n.args == r.args
    && n.parent == Numbered(from, arena, r.up)
    && n.next == Numbered(from, arena, r.next)
    && n.firstChild == Numbered(from, arena, r.child)
  }

  lemma HeldSplit(from: nat, arena: seq<Directive>, lo: nat, a: seq<Rec>, b: seq<Rec>)
    requires Held(from, arena, lo, a + b)
    ensures Held(from, arena, lo, a) && Held(from, arena, lo + |a|, b)
  {
    forall i | 0 <= i < |a|
      ensures Points(arena[lo - from + i], a[i], from, arena)
    {
      assert (a + b)[i] == a[i];
    }
    forall i | 0 <= i < |b|
      ensures Points(arena[lo + |a| - from + i], b[i], from, arena)
    {
      assert (a + b)[|a| + i] == b[i];
    }
  }

  lemma {:induction false} HeldMirrors(from: nat, arena: seq<Directive>, f: seq<Tree>, lo: nat, up: int)
    requires Held(from, arena, lo, Layout(f, lo, up, NIL))
    ensures Mirrors(if f == [] then null else Numbered(from, arena, lo), Numbered(from, arena, up), f,
        set n | n in arena)
  {
    if f != [] {
      var t, after := f[0], lo + Size(f[0]);
      var first := [Layout(f, lo, up, NIL)[0]];
      HeldSplit(from, arena, lo, first + Layout(t.kids, lo + 1, lo, NIL), Layout(f[1..], after, up, NIL));
      HeldSplit(from, arena, lo, first, Layout(t.kids, lo + 1, lo, NIL));
      HeldMirrors(from, arena, t.kids, lo + 1, lo);
      HeldMirrors(from, arena, f[1..], after, up);
    }
  }

  // A cursor with no open section: the linked nodes are the forest.
  lemma Reflects(c: Cursor)
    requires c.Valid() && c.HeadSet() && c.z.frames == []
    ensures Mirrors(c.head, null, c.z.here, set n | n in c.arena)
  {
    var recs := Layout(c.z.here, c.from, NIL, NIL);
    assert Records(c.from, c.z) == recs;
    AllHeld(c.from, c.arena, recs);
    HeldMirrors(c.from, c.arena, c.z.here, c.from, NIL);
  }

  lemma AllHeld(from: nat, arena: seq<Directive>, recs: seq<Rec>)
    requires Named(arena, recs) && Matches(arena, Wanted(from, arena, recs))
    ensures Held(from, arena, from, recs)
  {
    forall i | 0 <= i < |recs|
      ensures Points(arena[i], recs[i], from, arena)
    {
      PointersOf(arena, Wanted(from, arena, recs), i);
    }
  }
}
