/**
  What the lines of a configuration file become and which conditional sections count, by the
  characters of the lines, without naming the functions that decide it.
*/
module ReaderLaws {
  import opened Directives
  import opened ConfigGrammar

  // ----- names without regard to case

  const UPPER := "ABCDEFGHIJKLMNOPQRSTUVWXYZ"
  const LOWER := "abcdefghijklmnopqrstuvwxyz"

  // The same character, or the two cases of a letter.
  ghost predicate SameLetter(a: char, b: char) {
    a == b || exists k :: 0 <= k < |UPPER| && k < |LOWER| && {a, b} == {UPPER[k], LOWER[k]}
  }

  lemma Alphabet(k: nat)
    requires k < 26
    ensures |UPPER| == |LOWER| == 26 && UPPER[k] == ('A' as int + k) as char && LOWER[k] == ('a' as int + k) as char
  {
  }

  lemma SameLetterIs(a: char, b: char)
    ensures LowerChar(a) == LowerChar(b) <==> SameLetter(a, b)
  {
    if LowerChar(a) == LowerChar(b) && a != b {
      var k := LowerChar(a) as int - 'a' as int;
      Alphabet(k);
      assert {a, b} == {UPPER[k], LOWER[k]};
    }
    forall k | 0 <= k < |UPPER| && k < |LOWER| && {a, b} == {UPPER[k], LOWER[k]}
      ensures LowerChar(a) == LowerChar(b)
    {
      Alphabet(k);
      assert a in {UPPER[k], LOWER[k]} && b in {UPPER[k], LOWER[k]};
    }
  }

  lemma SameNameIs(a: string, b: string)
    ensures SameName(a, b) <==> |a| == |b| && forall i :: 0 <= i < |a| ==> SameLetter(a[i], b[i])
  {
    if |a| == |b| {
      forall i | 0 <= i < |a|
        ensures Lower(a)[i] == Lower(b)[i] <==> SameLetter(a[i], b[i])
      {
        SameLetterIs(a[i], b[i]);
      }
    }
  }

  // ----- one line

  // A comment, an empty line, and a line without a word leave everything as it is.
  lemma EmptyLine(env: Env, line: Line, rest: seq<Line>, z: Zip)
    requires line.Blank? || line.word == ""
    ensures BuildSub(env, line, rest, z) == Built(z, rest)
  {
  }

  // A word that does not begin with '<' becomes a directive with everything behind it as its
  // arguments.  A '>' at its end is dropped, except after a '/' in second place.
  lemma PlainLine(env: Env, w: string, args: string, rest: seq<Line>, z: Zip)
    requires w != "" && w[0] != '<'
    ensures BuildSub(env, Words(w, args), rest, z)
         == var cut := w[|w| - 1] == '>' && !(|w| >= 2 && w[1] == '/');
            Built(Zip(z.frames, z.here + [Node(if cut then w[..|w| - 1] else w, args, [])]), rest)
  {
  }

  // "<name args" and "<name> args" open a section; without arguments these are ">".
  lemma SectionLine(env: Env, name: string, args: string, rest: seq<Line>, z: Zip)
    requires name != "" && name[0] == '<' && !(|name| >= 2 && name[1] == '/') && name[|name| - 1] != '>'
    requires Lower(name) != "<ifdefine" && Lower(name) != "<ifmodule"
    ensures var r := Built(Zip(z.frames + [Frame(name, if args == "" then ">" else args, z.here)], []), rest);
            BuildSub(env, Words(name, args), rest, z) == r && BuildSub(env, Words(name + ">", args), rest, z) == r
  {
    assert (name + ">")[..|name|] == name;
    assert !StartsClose(name + ">");
  }

  // "</name>" closes the innermost open section if that has this name in any case; then the
  // section becomes a directive with what was read since it was opened.
  lemma ClosingLine(env: Env, name: string, args: string, rest: seq<Line>, z: Zip, frames: seq<Frame>, f: Frame)
    requires z.frames == frames + [f] && f.name != ""
    ensures BuildSub(env, Words("</" + name + ">", args), rest, z)
         == if SameName("<" + name, "<" + f.name[1..])
            then Built(Zip(frames, f.left + [Node(f.name, f.args, z.here)]), rest) else Failed
  {
    var word := "</" + name + ">";
    assert word[2..|word| - 1] == name;
    assert z.frames[..|z.frames| - 1] == frames;
    SameTail(name, f.name[1..]);
  }

  lemma SameTail(a: string, b: string)
    ensures SameName("<" + a, "<" + b) <==> SameName(a, b)
  {
    var x, y := "<" + a, "<" + b;
    LowerSlice(x, 1, |x|);
    LowerSlice(y, 1, |y|);
    assert x[1..|x|] == a && y[1..|y|] == b;
    assert Lower(x) == [LowerChar('<')] + Lower(a) && Lower(y) == [LowerChar('<')] + Lower(b);
  }

  // A closing line with no section open, or without its '>', is an error.
  lemma BadClosingLine(env: Env, w: string, args: string, rest: seq<Line>, z: Zip)
    requires |w| >= 2 && w[0] == '<' && w[1] == '/'
    requires z.frames == [] || w[|w| - 1] != '>'
    ensures BuildSub(env, Words(w, args), rest, z) == Failed
  {
  }

  // ----- conditional sections

  predicate NoBlank(s: string) {
    ' ' !in s && '\t' !in s
  }

  // The opening word of a conditional section in any case, with or without its '>'.
  ghost predicate Opens(word: string, key: string) {
    Lower(word) == key || Lower(word) == key + ">"
  }

  lemma {:induction false} LastBracketIs(name: string, junk: string)
    requires '>' !in junk
    ensures LastBracket(name + ">" + junk) == Some(|name|)
    decreases |junk|
  {
    var s := name + ">" + junk;
    if junk != "" {
      var n := |junk| - 1;
      assert junk[n] in junk && s[|s| - 1] == junk[n];
      assert Chop(s) == name + ">" + junk[..n];
      LastBracketIs(name, junk[..n]);
    }
  }

  lemma {:induction false} NoBracket(s: string)
    requires '>' !in s
    ensures LastBracket(s) == None
  {
    if s != "" {
      NoBracket(Chop(s));
    }
  }

  // What an argument without blanks says: the name is what stands before its last '>'.
  lemma JudgeIs(env: Env, kind: Kind, name: string, junk: string)
    requires '>' !in junk && NoBlank(name) && NoBlank(junk)
    ensures var known := if kind == IfDefine then env.defines else env.modules;
            Judge(env, kind, name + ">" + junk) ==
            if name == "" || name == "!" then Bad
            else if name[0] == '!' then (if name[1..] in known then Fails else Holds)
            else (if name in known then Holds else Fails)
  {
    hide LastBracket;
    var s := name + ">" + junk;
    LastBracketIs(name, junk);
    assert s[..|name|] == name;
    assert !HasBlank(s) by {
      forall k | 0 <= k < |s|
        ensures s[k] != ' ' && s[k] != '\t'
      {
        assert s[k] in name || s[k] == '>' || s[k] in junk;
      }
    }
    assert name == "!" <==> name != "" && name[0] == '!' && name[1..] == "";
  }

  lemma JudgeBad(env: Env, kind: Kind, args: string)
    requires !NoBlank(args) || '>' !in args
    ensures Judge(env, kind, args) == Bad
  {
    if NoBlank(args) {
      NoBracket(args);
    }
  }

  // The opening line of a conditional section.
  lemma OpensKind(word: string, args: string, key: string)
    requires key == "<ifdefine" || key == "<ifmodule"
    requires Opens(word, key)
    ensures Tok(Words(word, args)).Open?
    ensures var t := Tok(Words(word, args));
            t.args == (if args == "" then ">" else args)
            && KindOf(t.name) == Some(if key == "<ifdefine" then IfDefine else IfModule)
  {
    assert word[0] == '<' && word[1] != '/' by {
      assert LowerChar(word[0]) == Lower(word)[0] == '<';
      assert LowerChar(word[1]) == Lower(word)[1] == 'i';
    }
    var n := |word| - 1;
    assert Lower(word)[n] == LowerChar(word[n]);
    if Lower(word) == key {
      assert word[n] != '>';
    } else {
      assert word[n] == '>';
      LowerSlice(word, 0, n);
      assert word[0..n] == Chop(word) && (key + ">")[0..n] == key;
    }
  }

  // The line that ends a conditional section has nothing else on it.
  lemma EndsOnly(end: Line, kind: Kind)
    requires EndsKind(end, kind)
    ensures end.Words? && end.args == ""
    ensures Lower(end.word) == if kind == IfDefine then "</ifdefine>" else "</ifmodule>"
  {
    hide Lower;
    KeysEnd(kind);
    WholeWord(end.word, KindKey(kind)[1..] + ">");
  }

  // A closing word and what follows its first two characters.
  lemma WholeWord(w: string, key: string)
    ensures StartsClose(w) && Lower(w[2..]) == key <==> Lower(w) == "</" + key
  {
    if |w| >= 2 {
      LowerSlice(w, 2, |w|);
      assert w[2..|w|] == w[2..] && Lower(w)[2..|w|] == Lower(w)[2..];
      assert Lower(w) == [LowerChar(w[0]), LowerChar(w[1])] + Lower(w[2..]);
      FrontAndRest([LowerChar(w[0]), LowerChar(w[1])], Lower(w[2..]), "</", key);
    }
  }

  lemma FrontAndRest(a: string, b: string, c: string, d: string)
    requires |a| == |c|
    ensures a + b == c + d <==> a == c && b == d
  {
    assert (a + b)[..|a|] == a && (c + d)[..|a|] == c && (a + b)[|a|..] == b && (c + d)[|a|..] == d;
  }

  lemma EndsIt(end: Line, kind: Kind)
    requires end.Words? && end.args == ""
    requires Lower(end.word) == if kind == IfDefine then "</ifdefine>" else "</ifmodule>"
    ensures EndsKind(end, kind)
  {
    hide Lower;
    KeysEnd(kind);
    WholeWord(end.word, KindKey(kind)[1..] + ">");
  }

  lemma KeysEnd(kind: Kind)
    ensures "</" + (KindKey(kind)[1..] + ">") == if kind == IfDefine then "</ifdefine>" else "</ifmodule>"
  {
    assert "<ifdefine"[1..] + ">" == "ifdefine>" && "<ifmodule"[1..] + ">" == "ifmodule>";
    assert "</" + "ifdefine>" == "</ifdefine>" && "</" + "ifmodule>" == "</ifmodule>";
  }

  // A body that does not count is skipped, if that is safe.
  ghost function Skipping(env: Env, until: Option<Kind>, body: seq<Line>, tail: seq<Line>, z: Zip): Outcome {
    if SoakSafe(body) then BuildLoop(env, until, tail, z) else Failed
  }

  lemma {:induction false} Conditional(env: Env, until: Option<Kind>, kind: Kind, word: string, name: string,
      junk: string, body: seq<Line>, end: Line, tail: seq<Line>, z: Zip)
    requires Opens(word, if kind == IfDefine then "<ifdefine" else "<ifmodule")
    requires '>' !in junk && NoBlank(name) && NoBlank(junk)
    requires end.Words? && end.args == ""
    requires Lower(end.word) == if kind == IfDefine then "</ifdefine>" else "</ifmodule>"
    requires Nested(body)
    ensures var known := if kind == IfDefine then env.defines else env.modules;
            BuildLoop(env, until, [Words(word, name + ">" + junk)] + body + [end] + tail, z) ==
            if name == "" || name == "!" then Failed
            else if (name[0] == '!' && name[1..] !in known) || (name[0] != '!' && name in known)
            then BuildLoop(env, until, body + tail, z)
            else Skipping(env, until, body, tail, z)
  {
    hide Nested, BuildLoop, SoakSafe, Tok, Lower, Judge, EndsKind, Opens, KindOf;
    var start := Words(word, name + ">" + junk);
    var args := name + ">" + junk;
    assert args != "";
    OpensKind(word, args, if kind == IfDefine then "<ifdefine" else "<ifmodule");
    var n := Tok(start).name;
    EndsIt(end, kind);
    JudgeIs(env, kind, name, junk);
    if name == "" || name == "!" {
      Markers(start, body, end, tail);
      StepError(env, until, [start] + body + [end] + tail, z, n, args, kind);
    } else if Judge(env, kind, args) == Holds {
      TrueConditional(env, until, start, end, n, args, kind, body, tail, z);
    } else {
      FalseConditional(env, until, start, end, n, args, kind, body, tail, z);
    }
  }

  // <IfDefine name> ... </IfDefine> counts exactly if the name is defined, and with a '!'
  // before the name exactly if it is not.
  lemma {:induction false} IfDefineLaw(env: Env, until: Option<Kind>, name: string, body: seq<Line>, tail: seq<Line>,
      z: Zip)
    requires name != "" && name[0] != '!' && NoBlank(name) && Nested(body)
    ensures BuildLoop(env, until, [Words("<IfDefine", name + ">")] + body + [Words("</IfDefine>", "")] + tail, z)
         == if name in env.defines then BuildLoop(env, until, body + tail, z) else Skipping(env, until, body, tail, z)
    ensures BuildLoop(env, until, [Words("<IfDefine", "!" + name + ">")] + body + [Words("</IfDefine>", "")] + tail, z)
         == if name !in env.defines then BuildLoop(env, until, body + tail, z) else Skipping(env, until, body, tail, z)
  {
    hide BuildLoop, Skipping, Nested;
    var end := Words("</IfDefine>", "");
    assert Lower("<IfDefine") == "<ifdefine" && Lower(end.word) == "</ifdefine>";
    assert name + ">" + "" == name + ">" && "!" + name + ">" + "" == "!" + name + ">" && ("!" + name)[1..] == name;
    Conditional(env, until, IfDefine, "<IfDefine", name, "", body, end, tail, z);
    Conditional(env, until, IfDefine, "<IfDefine", "!" + name, "", body, end, tail, z);
  }

  lemma {:induction false} IfModuleLaw(env: Env, until: Option<Kind>, name: string, body: seq<Line>, tail: seq<Line>,
      z: Zip)
    requires name != "" && name[0] != '!' && NoBlank(name) && Nested(body)
    ensures BuildLoop(env, until, [Words("<IfModule", name + ">")] + body + [Words("</IfModule>", "")] + tail, z)
         == if name in env.modules then BuildLoop(env, until, body + tail, z) else Skipping(env, until, body, tail, z)
    ensures BuildLoop(env, until, [Words("<IfModule", "!" + name + ">")] + body + [Words("</IfModule>", "")] + tail, z)
         == if name !in env.modules then BuildLoop(env, until, body + tail, z) else Skipping(env, until, body, tail, z)
  {
    hide BuildLoop, Skipping, Nested;
    var end := Words("</IfModule>", "");
    assert Lower("<IfModule") == "<ifmodule" && Lower(end.word) == "</ifmodule>";
    assert name + ">" + "" == name + ">" && "!" + name + ">" + "" == "!" + name + ">" && ("!" + name)[1..] == name;
    Conditional(env, until, IfModule, "<IfModule", name, "", body, end, tail, z);
    Conditional(env, until, IfModule, "<IfModule", "!" + name, "", body, end, tail, z);
  }

  // An argument without '>', with a blank in it, or with no name before its last '>' is an error.
  lemma {:induction false} BadConditional(env: Env, until: Option<Kind>, word: string, args: string, junk: string,
      lines: seq<Line>, z: Zip)
    requires Opens(word, "<ifdefine") || Opens(word, "<ifmodule")
    requires || args == "" || !NoBlank(args) || '>' !in args
             || ('>' !in junk && (args == ">" + junk || args == "!>" + junk))
    ensures BuildLoop(env, until, [Words(word, args)] + lines, z) == Failed
  {
    hide BuildLoop, Tok, Lower, Judge, KindOf;
    var key := if Opens(word, "<ifdefine") then "<ifdefine" else "<ifmodule";
    var kind := if key == "<ifdefine" then IfDefine else IfModule;
    hide Opens;
    OpensKind(word, args, key);
    var t, all := Tok(Words(word, args)), [Words(word, args)] + lines;
    assert Judge(env, kind, t.args) == Bad by {
      if !NoBlank(t.args) || '>' !in t.args {
        JudgeBad(env, kind, t.args);
      } else if args == "" {
        JudgeIs(env, kind, "", "");
        assert "" + ">" + "" == ">";
      } else {
        var name := if args == ">" + junk then "" else "!";
        assert args == name + ">" + junk;
        assert forall k :: 0 <= k < |junk| ==> junk[k] == args[k + |name| + 1];
        JudgeIs(env, kind, name, junk);
      }
    }
    StepError(env, until, all, z, t.name, t.args, kind);
  }

  // ----- skipping

  // The skipper stops behind the first closing line that no section of the body is closed by,
  // whatever stands behind its word and whatever its last character is; if it has another
  // name, that is an error, and so is the end of the file.
  lemma SkipStops(kind: Kind, body: seq<Line>, word: string, args: string, tail: seq<Line>)
    requires Nested(body) && |word| >= 2 && word[0] == '<' && word[1] == '/'
    ensures Soak(KindName(kind), body + ([Words(word, args)] + tail)) ==
            if SoakSafe(body) && |word| > 2
               && Lower(word[2..|word| - 1]) == (if kind == IfDefine then "ifdefine" else "ifmodule")
            then Some(tail) else None
    ensures Soak(KindName(kind), body) == None
  {
    hide Nested, SoakSafe, Lower;
    var lines := [Words(word, args)] + tail;
    SoakThrough(KindName(kind), body, lines);
    SoakThrough(KindName(kind), body, []);
    assert body + [] == body && lines[1..] == tail;
    KindNames(kind);
    var name := KindName(kind);
    LowerSlice(name, 1, |name|);
    assert name[1..|name|] == Tail(name) && "<ifdefine"[1..] == "ifdefine" && "<ifmodule"[1..] == "ifmodule";
    NoName();
  }

  lemma NoName()
    ensures Lower("") == ""
  {
    assert |Lower("")| == 0;
  }

  // ----- the end of the file

  // A section that is still open when the file ends inside a conditional section that holds is
  // closed there without a word.
  lemma OpenAtTheEnd(env: Env, until: Option<Kind>, start: Line, n: string, args: string, kind: Kind, body: seq<Line>,
      f: seq<Tree>, name: string, sargs: string, inner: seq<Line>, kids: seq<Tree>, z: Zip)
    requires Tok(start) == Open(n, args) && KindOf(n) == Some(kind) && Judge(env, kind, args) == Holds
    requires name != "" && name[0] == '<' && !(|name| >= 2 && name[1] == '/') && name[|name| - 1] != '>'
    requires Lower(name) != "<ifdefine" && Lower(name) != "<ifmodule" && sargs != ""
    requires Derives(env, body, f) && Derives(env, inner, kids)
    ensures BuildLoop(env, until, [start] + (body + ([Words(name, sargs)] + inner)), z)
         == Built(Add(z, f + [Node(name, sargs, kids)]), [])
  {
    hide Derives, Tok, Judge, Lower, BuildLoop;
    var opening := Words(name, sargs);
    var behind := [opening] + inner;
    Absorb(env, Some(kind), body, f, behind, TOP);
    StepSection(env, Some(kind), opening, inner, Add(TOP, f), name, sargs);
    var z1 := Zip([Frame(name, sargs, f)], []);
    assert inner + [] == inner && [] + f == f && TOP.frames + [Frame(name, sargs, f)] == [Frame(name, sargs, f)];
    Absorb(env, Some(kind), inner, kids, [], z1);
    EndOfFile(env, Some(kind), Add(z1, kids));
    assert [] + kids == kids;
    assert ([start] + (body + behind))[1..] == body + behind;
    ClosesAll(name, sargs, f, kids);
    StepHoldsOpen(env, until, [start] + (body + behind), z, n, args, kind, Add(z1, kids));
    EndOfFile(env, until, Add(z, f + [Node(name, sargs, kids)]));
  }

  lemma StepSection(env: Env, until: Option<Kind>, opening: Line, inner: seq<Line>, z: Zip, name: string, sargs: string)
    requires opening == Words(name, sargs) && sargs != ""
    requires name != "" && name[0] == '<' && !(|name| >= 2 && name[1] == '/') && name[|name| - 1] != '>'
    requires Lower(name) != "<ifdefine" && Lower(name) != "<ifmodule"
    ensures BuildLoop(env, until, [opening] + inner, z)
         == BuildLoop(env, until, inner, Zip(z.frames + [Frame(name, sargs, z.here)], []))
  {
    var lines := [opening] + inner;
    assert Tok(lines[0]) == Open(name, sargs) && KindOf(name) == None;
    StepOpen(env, until, lines, z, name, sargs);
    assert lines[1..] == inner;
  }

  lemma ClosesAll(name: string, args: string, left: seq<Tree>, kids: seq<Tree>)
    ensures Unwind(Zip([Frame(name, args, left)], kids)) == left + [Node(name, args, kids)]
  {
    var z := Zip([Frame(name, args, left)], kids);
    assert Rise(z) == Zip([], left + [Node(name, args, kids)]);
    assert Unwind(Rise(z)) == Rise(z).here;
  }

  lemma StepHoldsOpen(env: Env, until: Option<Kind>, lines: seq<Line>, z: Zip, n: string, args: string, kind: Kind,
      inner: Zip)
    requires lines != [] && Tok(lines[0]) == Open(n, args) && KindOf(n) == Some(kind)
    requires Judge(env, kind, args) == Holds && BuildLoop(env, Some(kind), lines[1..], TOP) == Built(inner, [])
    ensures BuildLoop(env, until, lines, z) == BuildLoop(env, until, [], Add(z, Unwind(inner)))
  {
    hide Judge, Unwind;
  }
}
