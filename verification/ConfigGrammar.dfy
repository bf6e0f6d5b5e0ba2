/**
  What a configuration file means, stated as a grammar, and the laws of the reader: it
  accepts exactly the files the grammar derives, it reads printed trees back, and
  conditional sections are as if their markers, or all of their lines, were not there.
*/
module ConfigGrammar {
  import opened Directives

  // The lines derive the forest.  A section is an opening line, a body, and a closing line.
  // A conditional section that holds contributes its body.  One that fails contributes
  // nothing; its body is well nested, in the form the skipper understands.
  ghost predicate Derives(env: Env, lines: seq<Line>, f: seq<Tree>)
    decreases |lines|
  {
    if lines == [] then f == []
    else
      match Tok(lines[0])
      case Nothing => Derives(env, lines[1..], f)
      case Plain(name, args) => f != [] && f[0] == Node(name, args, []) && Derives(env, lines[1..], f[1..])
      case Close(_) => false
      case Open(name, args) =>
        exists k :: 1 <= k < |lines| && DerivesSection(env, name, args, lines, k, f)
  }

  // The section that starts at line 0 ends at line k.
  ghost predicate DerivesSection(env: Env, name: string, args: string, lines: seq<Line>, k: nat, f: seq<Tree>)
    requires 1 <= k < |lines|
    decreases |lines|, 0
  {
    match KindOf(name)
    case None =>
      && Closes(name, lines[k]) && f != [] && f[0].name == name && f[0].args == args
      && Derives(env, lines[1..k], f[0].kids) && Derives(env, lines[k + 1..], f[1..])
    case Some(kind) =>
      && EndsKind(lines[k], kind)
      && match Judge(env, kind, args)
         case Bad => false
         case Holds =>
           exists j :: 0 <= j <= |f| && Derives(env, lines[1..k], f[..j]) && Derives(env, lines[k + 1..], f[j..])
         case Fails =>
           Nested(lines[1..k]) && SoakSafe(lines[1..k]) && Derives(env, lines[k + 1..], f)
  }

  // Well nested, whatever the conditions in it say, and whether they can be judged at all.
  ghost predicate Nested(lines: seq<Line>)
    decreases |lines|
  {
    if lines == [] then true
    else
      match Tok(lines[0])
      case Close(_) => false
      case Open(name, _) => exists k :: 1 <= k < |lines| && NestedSection(name, lines, k)
      case _ => Nested(lines[1..])
  }

  ghost predicate NestedSection(name: string, lines: seq<Line>, k: nat)
    requires 1 <= k < |lines|
    decreases |lines|, 0
  {
    Closes(name, lines[k]) && Nested(lines[1..k]) && Nested(lines[k + 1..])
  }

  lemma {:induction false} DerivableIsNested(env: Env, lines: seq<Line>, f: seq<Tree>)
    requires Derives(env, lines, f)
    ensures Nested(lines)
    decreases |lines|
  {
    if lines != [] {
      match Tok(lines[0])
      case Nothing => DerivableIsNested(env, lines[1..], f);
      case Plain(_, _) => DerivableIsNested(env, lines[1..], f[1..]);
      case Open(name, args) =>
        var k :| 1 <= k < |lines| && DerivesSection(env, name, args, lines, k, f);
        SectionIsNested(env, name, args, lines, k, f);
    }
  }

  lemma {:induction false} SectionIsNested(env: Env, name: string, args: string, lines: seq<Line>, k: nat,
      f: seq<Tree>)
    requires 1 <= k < |lines| && DerivesSection(env, name, args, lines, k, f)
    ensures NestedSection(name, lines, k)
    decreases |lines|, 0
  {
    match KindOf(name)
    case None =>
      DerivableIsNested(env, lines[1..k], f[0].kids);
      DerivableIsNested(env, lines[k + 1..], f[1..]);
    case Some(kind) =>
      EndIsClose(name, kind, lines[k]);
      if Judge(env, kind, args) == Holds {
        var j :| 0 <= j <= |f| && Derives(env, lines[1..k], f[..j]) && Derives(env, lines[k + 1..], f[j..]);
        DerivableIsNested(env, lines[1..k], f[..j]);
        DerivableIsNested(env, lines[k + 1..], f[j..]);
      } else {
        DerivableIsNested(env, lines[k + 1..], f);
      }
  }

  // Opening lines with a '>' at the end of their first word have nothing after it.
  predicate SafeLine(line: Line) {
    Tok(line).Open? && EndsBracket(line.word) ==> line.args == ""
  }

  predicate SoakSafe(lines: seq<Line>) {
    forall k :: 0 <= k < |lines| ==> SafeLine(lines[k])
  }

  // ----- names

  lemma LowerSlice(s: string, i: nat, j: nat)
    requires i <= j <= |s|
    ensures Lower(s[i..j]) == Lower(s)[i..j]
  {
  }

  // The line that ends a conditional section also closes it for the skipper.
  lemma EndIsClose(name: string, kind: Kind, line: Line)
    requires KindOf(name) == Some(kind) && EndsKind(line, kind)
    ensures Closes(name, line)
  {
    hide Lower;
    var word := line.word[2..];
    CutBracket(word, KindKey(kind)[1..]);
    assert word[..|word| - 1] == line.word[2..|line.word| - 1];
    LowerSlice(name, 1, |name|);
    assert name[1..|name|] == Tail(name) && Lower(name)[1..|name|] == KindKey(kind)[1..];
  }

  lemma CutBracket(word: string, key: string)
    requires Lower(word) == key + ">"
    ensures word != "" && word[|word| - 1] == '>' && Lower(word[..|word| - 1]) == key
  {
    var n := |key|;
    assert |word| == n + 1 && Lower(word)[n] == '>' == LowerChar(word[n]);
    LowerSlice(word, 0, n);
    assert word[0..n] == word[..n] && (key + ">")[0..n] == key;
  }

  lemma KindNames(kind: Kind)
    ensures Lower(KindName(kind)) == KindKey(kind) && KindOf(KindName(kind)) == Some(kind)
  {
  }

  // ----- skipping

  // Over a well-nested body the skipper reaches what comes after it, or fails: exactly
  // when an opening line has something after the '>' of its first word.
  lemma {:induction false} SoakThrough(name: string, body: seq<Line>, tail: seq<Line>)
    requires Nested(body)
    ensures Soak(name, body + tail) == if SoakSafe(body) then Soak(name, tail) else None
    decreases |body|
  {
    if body == [] {
      assert body + tail == tail;
      return;
    }
    var rest := body[1..];
    assert (body + tail)[0] == body[0] && (body + tail)[1..] == rest + tail;
    SafeCons(body);
    match Tok(body[0])
    case Nothing => SoakThrough(name, rest, tail);
    case Plain(_, _) => SoakThrough(name, rest, tail);
    case Open(n, args) =>
      var k :| 1 <= k < |body| && NestedSection(n, body, k);
      SoakSection(name, body, k, n, tail);
      SoakThrough(name, body[k + 1..], tail);
      SafeSection(body, k);
  }

  lemma SafeCons(body: seq<Line>)
    requires body != []
    ensures SoakSafe(body) <==> SafeLine(body[0]) && SoakSafe(body[1..])
  {
    assert body == [body[0]] + body[1..];
  }

  lemma SafeSection(body: seq<Line>, k: nat)
    requires 1 <= k < |body| && SafeLine(body[k])
    ensures SoakSafe(body) <==> SafeLine(body[0]) && SoakSafe(body[1..k]) && SoakSafe(body[k + 1..])
  {
    assert body == [body[0]] + body[1..k] + [body[k]] + body[k + 1..];
  }

  lemma SoakSection(name: string, body: seq<Line>, k: nat, n: string, tail: seq<Line>)
    requires 1 <= k < |body| && Tok(body[0]).Open? && Tok(body[0]).name == n
    requires NestedSection(n, body, k)
    ensures Soak(name, body + tail) ==
            if SafeLine(body[0]) && SoakSafe(body[1..k]) then Soak(name, body[k + 1..] + tail) else None
    decreases k, 0
  {
    hide Nested, SoakSafe;
    var nm := SoakName(body[0]);
    var inner, behind := body[1..k], body[k..] + tail;
    SplitLines(body, k, tail);
    SoakThrough(nm, inner, behind);
    SoakEnd(body[0], n, behind);
  }

  // The line that closes the section ends the skipping of it, if its name was read alike.
  lemma SoakEnd(opening: Line, n: string, lines: seq<Line>)
    requires Tok(opening).Open? && Tok(opening).name == n && lines != [] && Closes(n, lines[0])
    ensures Soak(SoakName(opening), lines) == if SafeLine(opening) then Some(lines[1..]) else None
  {
    if !SafeLine(opening) {
      assert |Tail(SoakName(opening))| == |Tail(n)| + 1;
    }
  }

  // ----- reading

  // Reading a derivable body adds its trees at the present place, in either loop and at
  // any nesting depth.
  lemma {:induction false} Absorb(env: Env, until: Option<Kind>, body: seq<Line>, f: seq<Tree>, tail: seq<Line>, z: Zip)
    requires Derives(env, body, f)
    ensures BuildLoop(env, until, body + tail, z) == BuildLoop(env, until, tail, Add(z, f))
    decreases |body|
  {
    if body == [] {
      assert body + tail == tail && z.here + f == z.here;
      return;
    }
    var rest := body[1..];
    assert (body + tail)[0] == body[0] && (body + tail)[1..] == rest + tail;
    match Tok(body[0])
    case Nothing => Absorb(env, until, rest, f, tail, z);
    case Plain(name, args) =>
      Absorb(env, until, rest, f[1..], tail, Add(z, [f[0]]));
      AddTwice(z, [f[0]], f[1..]);
      assert f == [f[0]] + f[1..];
    case Open(n, args) =>
      var k :| 1 <= k < |body| && DerivesSection(env, n, args, body, k, f);
      if KindOf(n) == None {
        AbsorbSection(env, until, n, args, body, k, f, tail, z);
      } else {
        AbsorbConditional(env, until, n, args, body, k, f, tail, z);
      }
  }

  lemma AddTwice(z: Zip, a: seq<Tree>, b: seq<Tree>)
    ensures Add(Add(z, a), b) == Add(z, a + b)
  {
    assert (z.here + a) + b == z.here + (a + b);
  }

  lemma StepOpen(env: Env, until: Option<Kind>, lines: seq<Line>, z: Zip, n: string, args: string)
    requires lines != [] && Tok(lines[0]) == Open(n, args) && KindOf(n) == None
    ensures BuildLoop(env, until, lines, z)
        == BuildLoop(env, until, lines[1..], Zip(z.frames + [Frame(n, args, z.here)], []))
  {
  }

  lemma StepClose(env: Env, until: Option<Kind>, lines: seq<Line>, z: Zip)
    requires lines != [] && z.frames != [] && Closes(z.frames[|z.frames| - 1].name, lines[0])
    ensures BuildLoop(env, until, lines, z) == BuildLoop(env, until, lines[1..], Rise(z))
  {
  }

  lemma StepHolds(env: Env, until: Option<Kind>, lines: seq<Line>, z: Zip, n: string, args: string, kind: Kind,
      f: seq<Tree>, after: seq<Line>)
    requires lines != [] && Tok(lines[0]) == Open(n, args) && KindOf(n) == Some(kind)
    requires Judge(env, kind, args) == Holds
    requires BuildLoop(env, Some(kind), lines[1..], TOP) == Built(Zip([], f), after)
    ensures BuildLoop(env, until, lines, z) == BuildLoop(env, until, after, Add(z, f))
  {
  }

  lemma StepFails(env: Env, until: Option<Kind>, lines: seq<Line>, z: Zip, n: string, args: string, kind: Kind,
      after: seq<Line>)
    requires lines != [] && Tok(lines[0]) == Open(n, args) && KindOf(n) == Some(kind)
    requires Judge(env, kind, args) == Fails
    requires Soak(KindName(kind), lines[1..]) == Some(after)
    ensures BuildLoop(env, until, lines, z) == BuildLoop(env, until, after, z)
  {
  }

  lemma AbsorbSection(env: Env, until: Option<Kind>, n: string, args: string, body: seq<Line>, k: nat, f: seq<Tree>,
      tail: seq<Line>, z: Zip)
    requires 1 <= k < |body| && DerivesSection(env, n, args, body, k, f)
    requires Tok(body[0]) == Open(n, args) && KindOf(n) == None
    ensures BuildLoop(env, until, body + tail, z) == BuildLoop(env, until, tail, Add(z, f))
    decreases |body|, 0
  {
    hide BuildLoop, BuildSub;
    var inner, behind := body[1..k], body[k..] + tail;
    var z1 := Zip(z.frames + [Frame(n, args, z.here)], []);
    var z2 := Add(z1, f[0].kids);
    assert z2.here == f[0].kids && z2.frames[..|z.frames|] == z.frames;
    SplitLines(body, k, tail);
    StepOpen(env, until, body + tail, z, n, args);
    Absorb(env, until, inner, f[0].kids, behind, z1);
    StepClose(env, until, behind, z2);
    AddTwice(z, [f[0]], f[1..]);
    assert f == [f[0]] + f[1..];
    Absorb(env, until, body[k + 1..], f[1..], tail, Add(z, [f[0]]));
  }

  // A line, an inner part, a line, and what follows.
  lemma SplitLines(body: seq<Line>, k: nat, tail: seq<Line>)
    requires 1 <= k < |body|
    ensures (body + tail)[0] == body[0]
    ensures (body + tail)[1..] == body[1..k] + (body[k..] + tail)
    ensures (body[k..] + tail)[0] == body[k]
    ensures (body[k..] + tail)[1..] == body[k + 1..] + tail
  {
  }

  lemma {:induction false} AbsorbConditional(env: Env, until: Option<Kind>, n: string, args: string, body: seq<Line>,
      k: nat, f: seq<Tree>, tail: seq<Line>, z: Zip)
    requires 1 <= k < |body| && DerivesSection(env, n, args, body, k, f)
    requires Tok(body[0]) == Open(n, args) && KindOf(n).Some?
    ensures BuildLoop(env, until, body + tail, z) == BuildLoop(env, until, tail, Add(z, f))
    decreases |body|, 0
  {
    hide Derives, BuildLoop, BuildSub, Soak, Nested, Tok, Lower;
    var kind := KindOf(n).value;
    var inner, behind := body[1..k], body[k..] + tail;
    SplitLines(body, k, tail);
    if Judge(env, kind, args) == Holds {
      var j :| 0 <= j <= |f| && Derives(env, inner, f[..j]) && Derives(env, body[k + 1..], f[j..]);
      Absorb(env, Some(kind), inner, f[..j], behind, TOP);
      EndOfConditional(env, kind, behind, f[..j]);
      StepHolds(env, until, body + tail, z, n, args, kind, f[..j], body[k + 1..] + tail);
      AddTwice(z, f[..j], f[j..]);
      assert f == f[..j] + f[j..];
      Absorb(env, until, body[k + 1..], f[j..], tail, Add(z, f[..j]));
    } else {
      SoakThrough(KindName(kind), inner, behind);
      SkipsItsEnd(kind, behind);
      StepFails(env, until, body + tail, z, n, args, kind, body[k + 1..] + tail);
      Absorb(env, until, body[k + 1..], f, tail, z);
    }
  }

  lemma EndOfConditional(env: Env, kind: Kind, lines: seq<Line>, f: seq<Tree>)
    requires lines != [] && EndsKind(lines[0], kind)
    ensures BuildLoop(env, Some(kind), lines, Add(TOP, f)) == Built(Zip([], f), lines[1..])
  {
    assert [] + f == f;
  }

  lemma SkipsItsEnd(kind: Kind, lines: seq<Line>)
    requires lines != [] && EndsKind(lines[0], kind)
    ensures Soak(KindName(kind), lines) == Some(lines[1..])
  {
    KindNames(kind);
    EndIsClose(KindName(kind), kind, lines[0]);
  }

  // ----- the reader is a parser

  // Whatever the grammar derives is read, and the trees are the derived ones.
  lemma ReaderReads(env: Env, lines: seq<Line>, f: seq<Tree>, before: seq<Tree>)
    requires Derives(env, lines, f)
    ensures Build(env, lines, before) == Some(before + f)
  {
    Absorb(env, None, lines, f, [], Zip([], before));
    assert lines + [] == lines;
  }

  // A file has at most one derivation.
  lemma Unambiguous(env: Env, lines: seq<Line>, f: seq<Tree>, g: seq<Tree>)
    requires Derives(env, lines, f) && Derives(env, lines, g)
    ensures f == g
  {
    ReaderReads(env, lines, f, []);
    ReaderReads(env, lines, g, []);
    assert [] + f == f && [] + g == g;
  }

  predicate NoConditionals(lines: seq<Line>) {
    forall k :: 0 <= k < |lines| && Tok(lines[k]).Open? ==> KindOf(Tok(lines[k]).name) == None
  }

  // A successful reading splits into what derives trees here and the line that closes the
  // present section, or the end of the file.
  lemma {:induction false} Decompose(env: Env, lines: seq<Line>, z: Zip) returns (k: nat, f: seq<Tree>)
    requires NoConditionals(lines)
    requires BuildLoop(env, None, lines, z).Built? && BuildLoop(env, None, lines, z).z.frames == []
    ensures k <= |lines| && Derives(env, lines[..k], f)
    ensures BuildLoop(env, None, lines, z) == BuildLoop(env, None, lines[k..], Add(z, f))
    ensures if z.frames == [] then k == |lines|
            else k < |lines| && Closes(z.frames[|z.frames| - 1].name, lines[k])
    decreases |lines|
  {
    hide BuildLoop, BuildSub, Derives, DerivesSection;
    if lines == [] || Tok(lines[0]).Close? {
      DecomposeStop(env, lines, z);
      return 0, [];
    }
    var rest := lines[1..];
    assert NoConditionals(rest);
    match Tok(lines[0])
    case Nothing =>
      StepNode(env, lines, z);
      AddNothing(z, []);
      k, f := Decompose(env, rest, z);
      AddNothing(z, f);
      DerivesNode(env, lines, k, f);
      k := k + 1;
      assert lines[k..] == rest[k - 1..];
    case Plain(name, args) =>
      var node := Node(name, args, []);
      StepNode(env, lines, z);
      k, f := Decompose(env, rest, Add(z, [node]));
      AddTwice(z, [node], f);
      DerivesNode(env, lines, k, f);
      k, f := k + 1, [node] + f;
      assert lines[k..] == rest[k - 1..];
    case Open(n, args) =>
      k, f := DecomposeSection(env, lines, z, n, args);
  }

  lemma AddNothing(z: Zip, f: seq<Tree>)
    ensures Add(z, []) == z && [] + f == f
  {
  }

  lemma DecomposeStop(env: Env, lines: seq<Line>, z: Zip)
    requires lines == [] || Tok(lines[0]).Close?
    requires BuildLoop(env, None, lines, z).Built? && BuildLoop(env, None, lines, z).z.frames == []
    ensures Derives(env, [], []) && Derives(env, lines[..0], [])
    ensures BuildLoop(env, None, lines, z) == BuildLoop(env, None, lines[0..], Add(z, []))
    ensures if z.frames == [] then lines == [] else lines != [] && Closes(z.frames[|z.frames| - 1].name, lines[0])
  {
    assert Add(z, []) == z && lines[0..] == lines && lines[..0] == [];
  }

  // A line that is a blank or a directive.
  lemma StepNode(env: Env, lines: seq<Line>, z: Zip)
    requires lines != [] && (Tok(lines[0]).Nothing? || Tok(lines[0]).Plain?)
    ensures BuildLoop(env, None, lines, z) == BuildLoop(env, None, lines[1..], Add(z, NodeOf(lines[0])))
  {
    assert Add(z, []) == z;
  }

  function NodeOf(line: Line): seq<Tree> {
    match Tok(line)
    case Plain(name, args) => [Node(name, args, [])]
    case _ => []
  }

  lemma DerivesNode(env: Env, lines: seq<Line>, k: nat, f: seq<Tree>)
    requires lines != [] && (Tok(lines[0]).Nothing? || Tok(lines[0]).Plain?)
    requires k < |lines| && Derives(env, lines[1..][..k], f)
    ensures Derives(env, lines[..k + 1], NodeOf(lines[0]) + f)
  {
    assert lines[..k + 1][1..] == lines[1..][..k];
    assert (NodeOf(lines[0]) + f)[|NodeOf(lines[0])|..] == f;
    assert [] + f == f;
  }

  lemma DecomposeSection(env: Env, lines: seq<Line>, z: Zip, n: string, args: string) returns (k: nat, f: seq<Tree>)
    requires lines != [] && Tok(lines[0]) == Open(n, args) && NoConditionals(lines)
    requires BuildLoop(env, None, lines, z).Built? && BuildLoop(env, None, lines, z).z.frames == []
    ensures k <= |lines| && Derives(env, lines[..k], f)
    ensures BuildLoop(env, None, lines, z) == BuildLoop(env, None, lines[k..], Add(z, f))
    ensures if z.frames == [] then k == |lines|
            else k < |lines| && Closes(z.frames[|z.frames| - 1].name, lines[k])
    decreases |lines|, 1
  {
    hide Derives, DerivesSection, BuildLoop, BuildSub, Closes;
    var rest, z1 := lines[1..], Zip(z.frames + [Frame(n, args, z.here)], []);
    assert NoConditionals(rest);
    StepOpen(env, None, lines, z, n, args);
    var i, kids := Decompose(env, rest, z1);
    CloseSection(env, rest[i..], z, n, args, kids);
    assert rest[i..][1..] == lines[i + 2..];
    k, f := DecomposeRest(env, lines, z, n, args, i + 1, kids);
  }

  lemma DecomposeRest(env: Env, lines: seq<Line>, z: Zip, n: string, args: string, c: nat, kids: seq<Tree>)
    returns (k: nat, f: seq<Tree>)
    requires 1 <= c < |lines| && Tok(lines[0]) == Open(n, args) && KindOf(n) == None && Closes(n, lines[c])
    requires NoConditionals(lines) && Derives(env, lines[1..][..c - 1], kids)
    requires var r := BuildLoop(env, None, lines[c + 1..], Add(z, [Node(n, args, kids)])); r.Built? && r.z.frames == []
    ensures k <= |lines| && Derives(env, lines[..k], f)
    ensures BuildLoop(env, None, lines[c + 1..], Add(z, [Node(n, args, kids)]))
        == BuildLoop(env, None, lines[k..], Add(z, f))
    ensures if z.frames == [] then k == |lines|
            else k < |lines| && Closes(z.frames[|z.frames| - 1].name, lines[k])
    decreases |lines|, 0
  {
    hide Derives, DerivesSection, BuildLoop, BuildSub, Closes;
    var node, after := Node(n, args, kids), lines[c + 1..];
    assert NoConditionals(after);
    var j, g := Decompose(env, after, Add(z, [node]));
    AddTwice(z, [node], g);
    k, f := c + 1 + j, [node] + g;
    assert lines[k..] == after[j..];
    SectionDerives(env, lines, n, args, c, kids, j, g);
  }

  lemma CloseSection(env: Env, lines: seq<Line>, z: Zip, n: string, args: string, kids: seq<Tree>)
    requires lines != [] && Closes(n, lines[0])
    ensures BuildLoop(env, None, lines, Add(Zip(z.frames + [Frame(n, args, z.here)], []), kids))
         == BuildLoop(env, None, lines[1..], Add(z, [Node(n, args, kids)]))
  {
    var z2 := Add(Zip(z.frames + [Frame(n, args, z.here)], []), kids);
    assert z2.here == kids && z2.frames[..|z.frames|] == z.frames;
    StepClose(env, None, lines, z2);
  }

  // A section followed by more.
  lemma SectionDerives(env: Env, lines: seq<Line>, n: string, args: string, c: nat, kids: seq<Tree>, j: nat,
      g: seq<Tree>)
    requires 1 <= c && c + 1 + j <= |lines|
    requires Tok(lines[0]) == Open(n, args) && KindOf(n) == None && Closes(n, lines[c])
    requires Derives(env, lines[1..][..c - 1], kids) && Derives(env, lines[c + 1..][..j], g)
    ensures Derives(env, lines[..c + 1 + j], [Node(n, args, kids)] + g)
  {
    var all, f := lines[..c + 1 + j], [Node(n, args, kids)] + g;
    assert all[1..c] == lines[1..][..c - 1] && all[c + 1..] == lines[c + 1..][..j];
    assert f[1..] == g;
    assert DerivesSection(env, n, args, all, c, f);
  }

  ghost predicate Derivable(env: Env, lines: seq<Line>) {
    exists f :: Derives(env, lines, f)
  }

  // Without conditional sections the reader accepts exactly the derivable files, and
  // returns exactly the derived trees behind those that were there.
  lemma ReaderIsParser(env: Env, lines: seq<Line>, before: seq<Tree>)
    requires NoConditionals(lines)
    ensures Build(env, lines, before).Some? <==> Derivable(env, lines)
    ensures forall f :: Build(env, lines, before) == Some(before + f) <==> Derives(env, lines, f)
  {
    if Build(env, lines, before).Some? {
      var g := Derivation(env, lines, before);
      assert Derivable(env, lines);
    } else if Derivable(env, lines) {
      var f :| Derives(env, lines, f);
      ReaderReads(env, lines, f, before);
    }
    forall f
      ensures Build(env, lines, before) == Some(before + f) <==> Derives(env, lines, f)
    {
      if Derives(env, lines, f) {
        ReaderReads(env, lines, f, before);
      }
      if Build(env, lines, before) == Some(before + f) {
        var g := Derivation(env, lines, before);
        CancelLeft(before, f, g);
      }
    }
  }

  lemma CancelLeft(before: seq<Tree>, f: seq<Tree>, g: seq<Tree>)
    requires before + f == before + g
    ensures f == g
  {
    assert (before + f)[|before|..] == f && (before + g)[|before|..] == g;
  }

  lemma Derivation(env: Env, lines: seq<Line>, before: seq<Tree>) returns (f: seq<Tree>)
    requires NoConditionals(lines) && Build(env, lines, before).Some?
    ensures Derives(env, lines, f) && Build(env, lines, before) == Some(before + f)
  {
    var k;
    k, f := Decompose(env, lines, Zip([], before));
    assert lines[..k] == lines;
    ReaderReads(env, lines, f, before);
  }

  // ----- printing

  function Print(f: seq<Tree>): seq<Line> {
    if f == [] then [] else PrintNode(f[0]) + Print(f[1..])
  }

  function PrintNode(t: Tree): seq<Line> {
    if t.name != "" && t.name[0] == '<' then
      [Words(t.name, t.args)] + Print(t.kids) + [Words("</" + Tail(t.name) + ">", "")]
    else
      [Words(t.name, t.args)]
  }

  // Directives have no children; sections have arguments, and are not conditional.  No '>'
  // ends a name, except behind a '/' in second place.
  predicate Printable(f: seq<Tree>) {
    forall t <- f :: PrintableNode(t)
  }

  predicate PrintableNode(t: Tree) {
    t.name != ""
    && var slash := |t.name| >= 2 && t.name[1] == '/';
       if t.name[0] != '<' then (t.name[|t.name| - 1] != '>' || slash) && t.kids == []
       else
         && t.name[|t.name| - 1] != '>' && !slash && t.args != ""
         && Lower(t.name) != "<ifdefine" && Lower(t.name) != "<ifmodule"
         && forall k <- t.kids :: PrintableNode(k)
  }

  lemma PrintableLine(t: Tree)
    requires PrintableNode(t)
    ensures if t.name[0] != '<' then Tok(Words(t.name, t.args)) == Plain(t.name, t.args)
            else Tok(Words(t.name, t.args)) == Open(t.name, t.args) && KindOf(t.name) == None
  {
  }

  lemma {:induction false} PrintDerives(env: Env, f: seq<Tree>)
    requires Printable(f)
    ensures Derives(env, Print(f), f)
  {
    if f != [] {
      var t, rest := f[0], Print(f[1..]);
      assert t in f;
      PrintableLine(t);
      PrintDerives(env, f[1..]);
      if t.name != "" && t.name[0] == '<' {
        PrintDerives(env, t.kids);
        PrintSection(env, t, Print(t.kids), rest, f[1..]);
      } else {
        assert (PrintNode(t) + rest)[1..] == rest;
      }
      assert [t] + f[1..] == f;
    }
  }

  lemma PrintSection(env: Env, t: Tree, inner: seq<Line>, rest: seq<Line>, g: seq<Tree>)
    requires Tok(Words(t.name, t.args)) == Open(t.name, t.args) && KindOf(t.name) == None
    requires Derives(env, inner, t.kids) && Derives(env, rest, g)
    ensures Derives(env, [Words(t.name, t.args)] + inner + [Words("</" + Tail(t.name) + ">", "")] + rest, [t] + g)
  {
    var c, closing := |inner| + 1, Words("</" + Tail(t.name) + ">", "");
    var lines := [Words(t.name, t.args)] + inner + [closing] + rest;
    CloserCloses(t.name);
    SectionParts(Words(t.name, t.args), inner, closing, rest);
    SectionDerives(env, lines, t.name, t.args, c, t.kids, |rest|, g);
    assert Node(t.name, t.args, t.kids) == t;
  }

  lemma SectionParts(opening: Line, inner: seq<Line>, closing: Line, rest: seq<Line>)
    ensures var lines, c := [opening] + inner + [closing] + rest, |inner| + 1;
            && lines[0] == opening && lines[1..][..c - 1] == inner && lines[c] == closing
            && lines[c + 1..][..|rest|] == rest && lines[..c + 1 + |rest|] == lines
  {
    Markers(opening, inner, closing, rest);
    assert ([closing] + rest)[1..] == rest == rest[..|rest|];
  }

  lemma CloserCloses(name: string)
    ensures Closes(name, Words("</" + Tail(name) + ">", ""))
  {
    var word := "</" + Tail(name) + ">";
    assert word[2..|word| - 1] == Tail(name);
  }

  // Reading the printed form of a tree gives the tree back.
  lemma PrintThenRead(env: Env, f: seq<Tree>)
    requires Printable(f)
    ensures Build(env, Print(f), []) == Some(f)
  {
    PrintDerives(env, f);
    ReaderReads(env, Print(f), f, []);
    assert [] + f == f;
  }

  // ----- conditional sections

  // Where a well-nested section ends.
  ghost function EndOf(name: string, lines: seq<Line>): (k: nat)
    requires exists k :: 1 <= k < |lines| && NestedSection(name, lines, k)
    ensures 1 <= k < |lines| && NestedSection(name, lines, k)
  {
    var k :| 1 <= k < |lines| && NestedSection(name, lines, k);
    k
  }

  lemma HasEnd(lines: seq<Line>)
    requires Nested(lines) && lines != [] && Tok(lines[0]).Open?
    ensures exists k :: 1 <= k < |lines| && NestedSection(Tok(lines[0]).name, lines, k)
  {
    var k :| 1 <= k < |lines| && NestedSection(Tok(lines[0]).name, lines, k);
  }

  // What a well-nested body contributes wherever it stands, or None if it cannot be read.
  ghost function Meaning(env: Env, body: seq<Line>): Option<seq<Tree>>
    requires Nested(body)
    decreases |body|
  {
    hide Tok, SoakSafe, Closes, KindOf, Judge;
    if body == [] then Some([])
    else
      match Tok(body[0])
      case Nothing => Meaning(env, body[1..])
      case Plain(name, args) => Both(Some([Node(name, args, [])]), Meaning(env, body[1..]))
      case Open(name, args) =>
        HasEnd(body);
        var k := EndOf(name, body);
        Both(SectionMeaning(env, name, args, body[1..k], body[k], Meaning(env, body[1..k])),
             Meaning(env, body[k + 1..]))
  }

  function Both(a: Option<seq<Tree>>, b: Option<seq<Tree>>): Option<seq<Tree>> {
    if a.Some? && b.Some? then Some(a.value + b.value) else None
  }

  function SectionMeaning(env: Env, name: string, args: string, inner: seq<Line>, end: Line,
      kids: Option<seq<Tree>>): Option<seq<Tree>>
  {
    match KindOf(name)
    case None => if kids.Some? then Some([Node(name, args, kids.value)]) else None
    case Some(kind) =>
      match Judge(env, kind, args)
      case Bad => None
      case Holds => if EndsKind(end, kind) then kids else None
      case Fails => if SoakSafe(inner) then Some([]) else None
  }

  // Reading goes on behind with what it contributes, or fails.
  ghost predicate GoesOn(env: Env, until: Option<Kind>, lines: seq<Line>, r: Option<seq<Tree>>, tail: seq<Line>, z: Zip)
  {
    BuildLoop(env, until, lines, z) == if r.Some? then BuildLoop(env, until, tail, Add(z, r.value)) else Failed
  }

  lemma {:induction false} AbsorbNested(env: Env, until: Option<Kind>, body: seq<Line>, tail: seq<Line>, z: Zip)
    requires Nested(body)
    ensures GoesOn(env, until, body + tail, Meaning(env, body), tail, z)
    decreases |body|
  {
    if body == [] {
      assert body + tail == tail && z.here + [] == z.here;
      return;
    }
    var rest := body[1..];
    assert (body + tail)[0] == body[0] && (body + tail)[1..] == rest + tail;
    match Tok(body[0])
    case Nothing => AbsorbNested(env, until, rest, tail, z);
    case Plain(name, args) =>
      var node := [Node(name, args, [])];
      AbsorbNested(env, until, rest, tail, Add(z, node));
      AddOption(z, node, Meaning(env, rest));
    case Open(n, args) =>
      AbsorbNestedSection(env, until, body, tail, z, n, args);
  }

  lemma AddOption(z: Zip, a: seq<Tree>, b: Option<seq<Tree>>)
    ensures b.Some? ==> Add(Add(z, a), b.value) == Add(z, a + b.value)
  {
    if b.Some? {
      AddTwice(z, a, b.value);
    }
  }

  lemma AbsorbNestedSection(env: Env, until: Option<Kind>, body: seq<Line>, tail: seq<Line>, z: Zip, n: string,
      args: string)
    requires body != [] && Nested(body) && Tok(body[0]) == Open(n, args)
    ensures GoesOn(env, until, body + tail, Meaning(env, body), tail, z)
    decreases |body|, 0
  {
    hide BuildLoop, BuildSub, Soak, Tok, Lower, Add, Closes, EndsKind;
    var k := EndOf(n, body);
    var inner, behind, after := body[1..k], body[k..] + tail, body[k + 1..] + tail;
    var kids, more := Meaning(env, inner), Meaning(env, body[k + 1..]);
    var here := SectionMeaning(env, n, args, inner, body[k], kids);
    SplitLines(body, k, tail);
    if KindOf(n) == None {
      var z1 := Zip(z.frames + [Frame(n, args, z.here)], []);
      AbsorbNested(env, until, inner, behind, z1);
      StepOpen(env, until, body + tail, z, n, args);
      if kids.Some? {
        OneSection(env, until, z, n, args, kids.value, behind);
      }
    } else {
      var kind := KindOf(n).value;
      AbsorbNested(env, Some(kind), inner, behind, TOP);
      SectionStep(env, until, body, k, tail, z, n, args, kind, kids);
    }
    if here.Some? {
      AbsorbNested(env, until, body[k + 1..], tail, Add(z, here.value));
      AddOption(z, here.value, more);
    }
  }

  // An ordinary section has been read up to its closing line.
  lemma OneSection(env: Env, until: Option<Kind>, z: Zip, n: string, args: string, kids: seq<Tree>, lines: seq<Line>)
    requires lines != [] && Closes(n, lines[0])
    ensures BuildLoop(env, until, lines, Add(Zip(z.frames + [Frame(n, args, z.here)], []), kids))
         == BuildLoop(env, until, lines[1..], Add(z, [Node(n, args, kids)]))
  {
    hide BuildLoop, Closes;
    var z2 := Add(Zip(z.frames + [Frame(n, args, z.here)], []), kids);
    assert z2.here == kids && z2.frames[..|z.frames|] == z.frames;
    StepClose(env, until, lines, z2);
  }

  // A conditional section whose body has been read, or is skipped.
  lemma SectionStep(env: Env, until: Option<Kind>, body: seq<Line>, k: nat, tail: seq<Line>, z: Zip, n: string,
      args: string, kind: Kind, kids: Option<seq<Tree>>)
    requires 1 <= k < |body| && NestedSection(n, body, k)
    requires Tok(body[0]) == Open(n, args) && KindOf(n) == Some(kind)
    requires GoesOn(env, Some(kind), body[1..k] + (body[k..] + tail), kids, body[k..] + tail, TOP)
    ensures var here := SectionMeaning(env, n, args, body[1..k], body[k], kids);
            GoesOn(env, until, body + tail, here, body[k + 1..] + tail, z)
  {
    hide Nested, BuildLoop, Soak, SoakSafe, Tok, Lower, Closes, EndsKind;
    var inner, behind, after := body[1..k], body[k..] + tail, body[k + 1..] + tail;
    SplitLines(body, k, tail);
    match Judge(env, kind, args)
    case Bad => StepError(env, until, body + tail, z, n, args, kind);
    case Holds =>
      if kids.None? {
        InnerError(env, until, body + tail, z, n, args, kind);
      } else if EndsKind(body[k], kind) {
        EndOfConditional(env, kind, behind, kids.value);
        StepHolds(env, until, body + tail, z, n, args, kind, kids.value, after);
      } else {
        NoSuchEnd(env, kind, n, behind, kids.value);
        InnerError(env, until, body + tail, z, n, args, kind);
      }
    case Fails =>
      SoakThrough(KindName(kind), inner, behind);
      if SoakSafe(inner) {
        SoakStops(n, kind, behind);
        StepFails(env, until, body + tail, z, n, args, kind, after);
        assert z.here + [] == z.here;
      } else {
        StepError(env, until, body + tail, z, n, args, kind);
      }
  }

  lemma InnerError(env: Env, until: Option<Kind>, lines: seq<Line>, z: Zip, n: string, args: string, kind: Kind)
    requires lines != [] && Tok(lines[0]) == Open(n, args) && KindOf(n) == Some(kind)
    requires Judge(env, kind, args) == Holds && BuildLoop(env, Some(kind), lines[1..], TOP) == Failed
    ensures BuildLoop(env, until, lines, z) == Failed
  {
  }

  // A closing line with more than its word on it does not end what is being read.
  lemma NoSuchEnd(env: Env, kind: Kind, n: string, lines: seq<Line>, f: seq<Tree>)
    requires lines != [] && Closes(n, lines[0]) && !EndsKind(lines[0], kind)
    ensures BuildLoop(env, Some(kind), lines, Add(TOP, f)) == Failed
  {
  }

  // But it ends what is being skipped.
  lemma SoakStops(n: string, kind: Kind, lines: seq<Line>)
    requires KindOf(n) == Some(kind) && lines != [] && Closes(n, lines[0])
    ensures Soak(KindName(kind), lines) == Some(lines[1..])
  {
    hide Lower;
    KindNames(kind);
    LowerSlice(n, 1, |n|);
    LowerSlice(KindName(kind), 1, |KindName(kind)|);
    assert n[1..|n|] == Tail(n) && KindName(kind)[1..|KindName(kind)|] == Tail(KindName(kind));
  }

  // At any place of a file a conditional section that holds is as good as its body alone,
  // also if the body cannot be read: then both are errors.
  lemma TrueConditional(env: Env, until: Option<Kind>, start: Line, end: Line, n: string, args: string, kind: Kind,
      body: seq<Line>, tail: seq<Line>, z: Zip)
    requires Tok(start) == Open(n, args) && KindOf(n) == Some(kind) && EndsKind(end, kind)
    requires Nested(body) && Judge(env, kind, args) == Holds
    ensures BuildLoop(env, until, [start] + body + [end] + tail, z) == BuildLoop(env, until, body + tail, z)
  {
    hide Nested, Meaning, BuildLoop, Soak, Tok, Lower;
    var lines, behind, f := [start] + body + [end] + tail, [end] + tail, Meaning(env, body);
    Markers(start, body, end, tail);
    AbsorbNested(env, Some(kind), body, behind, TOP);
    AbsorbNested(env, until, body, tail, z);
    if f.Some? {
      EndOfConditional(env, kind, behind, f.value);
      StepHolds(env, until, lines, z, n, args, kind, f.value, tail);
    } else {
      InnerError(env, until, lines, z, n, args, kind);
    }
  }

  // One that fails is as good as nothing at all, whatever conditions its body contains,
  // unless the body is one the skipper trips over: then it is an error.
  lemma {:induction false} FalseConditional(env: Env, until: Option<Kind>, start: Line, end: Line, n: string,
      args: string, kind: Kind, body: seq<Line>, tail: seq<Line>, z: Zip)
    requires Tok(start) == Open(n, args) && KindOf(n) == Some(kind) && EndsKind(end, kind)
    requires Nested(body) && Judge(env, kind, args) == Fails
    ensures BuildLoop(env, until, [start] + body + [end] + tail, z) ==
            if SoakSafe(body) then BuildLoop(env, until, tail, z) else Failed
  {
    hide Nested, BuildLoop, Soak, SoakSafe, Tok, Lower;
    var lines, behind := [start] + body + [end] + tail, [end] + tail;
    Markers(start, body, end, tail);
    SoakThrough(KindName(kind), body, behind);
    if SoakSafe(body) {
      SkipsItsEnd(kind, behind);
      StepFails(env, until, lines, z, n, args, kind, tail);
    } else {
      StepError(env, until, lines, z, n, args, kind);
    }
  }

  lemma Markers(start: Line, body: seq<Line>, end: Line, tail: seq<Line>)
    ensures ([start] + body + [end] + tail)[0] == start
    ensures ([start] + body + [end] + tail)[1..] == body + ([end] + tail)
    ensures ([end] + tail)[0] == end && ([end] + tail)[1..] == tail
  {
  }

  lemma StepError(env: Env, until: Option<Kind>, lines: seq<Line>, z: Zip, n: string, args: string, kind: Kind)
    requires lines != [] && Tok(lines[0]) == Open(n, args) && KindOf(n) == Some(kind)
    requires Judge(env, kind, args) == Bad
             || (Judge(env, kind, args) == Fails && Soak(KindName(kind), lines[1..]) == None)
    ensures BuildLoop(env, until, lines, z) == Failed
  {
  }

  // When the closing line is missing, the branches disagree: a conditional section that
  // holds is still as good as its body, and ends with the file; one that fails is an error.
  lemma UnclosedConditional(env: Env, until: Option<Kind>, start: Line, n: string, args: string, kind: Kind,
      body: seq<Line>, z: Zip)
    requires Tok(start) == Open(n, args) && KindOf(n) == Some(kind) && Nested(body)
    ensures Judge(env, kind, args) == Holds ==>
              BuildLoop(env, until, [start] + body, z) == BuildLoop(env, until, body, z)
    ensures forall f :: Judge(env, kind, args) == Holds && Derives(env, body, f) ==>
              BuildLoop(env, until, [start] + body, z) == Built(Add(z, f), [])
    ensures Judge(env, kind, args) == Fails ==> BuildLoop(env, until, [start] + body, z) == Failed
  {
    hide Nested, Derives, Meaning, BuildLoop, Soak, Tok, Lower;
    var lines, f := [start] + body, Meaning(env, body);
    assert lines[1..] == body && body + [] == body;
    if Judge(env, kind, args) == Holds {
      AbsorbNested(env, Some(kind), body, [], TOP);
      AbsorbNested(env, until, body, [], z);
      if f.Some? {
        EndOfFile(env, Some(kind), Add(TOP, f.value));
        EndOfFile(env, until, Add(z, f.value));
        assert [] + f.value == f.value;
        StepHolds(env, until, lines, z, n, args, kind, f.value, []);
      } else {
        InnerError(env, until, lines, z, n, args, kind);
      }
      forall g | Derives(env, body, g)
        ensures BuildLoop(env, until, body, z) == Built(Add(z, g), [])
      {
        Absorb(env, until, body, g, [], z);
        EndOfFile(env, until, Add(z, g));
      }
    } else if Judge(env, kind, args) == Fails {
      SoakThrough(KindName(kind), body, []);
      SoakEndsNowhere(KindName(kind));
      StepError(env, until, lines, z, n, args, kind);
    }
  }

  lemma EndOfFile(env: Env, until: Option<Kind>, z: Zip)
    ensures BuildLoop(env, until, [], z) == Built(z, [])
  {
  }

  lemma SoakEndsNowhere(name: string)
    ensures Soak(name, []) == None
  {
  }

  // A section whose first word ends in '>' although arguments follow reads well, but
  // cannot be skipped.
  lemma SkipperTrips(env: Env)
    ensures var body := [Words("<A>", "x"), Words("</A>", "")];
            Derives(env, body, [Node("<A", "x", [])]) && Nested(body) && !SoakSafe(body)
  {
    var body, f := [Words("<A>", "x"), Words("</A>", "")], [Node("<A", "x", [])];
    assert Tok(body[0]) == Open("<A", "x");
    assert body[1].word[2..3] == "A" && Tail("<A") == "A";
    assert body[1..1] == [] && body[2..] == [] && f[1..] == [];
    assert DerivesSection(env, "<A", "x", body, 1, f);
    DerivableIsNested(env, body, f);
    assert !SafeLine(body[0]);
  }
}
