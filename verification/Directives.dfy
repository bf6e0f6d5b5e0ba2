/**
  Configuration files as lines, the trees they stand for, and the reader that turns one
  into the other: ap_build_config, ap_build_config_sub, ap_build_cont_config and
  ap_soak_end_container, as functions.  Lines are already split into a first word and the
  rest, which is what ap_getword_conf delivers.
*/
module Directives {

  datatype Option<T> = None | Some(value: T)

  // A comment or an empty line is Blank.
  datatype Line = Blank | Words(word: string, args: string)

  datatype Tree = Node(name: string, args: string, kids: seq<Tree>)

  // ----- words

  function LowerChar(c: char): char {
    if 'A' <= c <= 'Z' then (c as int + 32) as char else c
  }

  function Lower(s: string): (r: string)
    ensures |r| == |s|
  {
    seq(|s|, i requires 0 <= i < |s| => LowerChar(s[i]))
  }

  // strcasecmp(a, b) == 0
  predicate SameName(a: string, b: string) {
    Lower(a) == Lower(b)
  }

  predicate StartsClose(word: string) {
    |word| >= 2 && word[0] == '<' && word[1] == '/'
  }

  predicate SlashSecond(word: string) {
    |word| >= 2 && word[1] == '/'
  }

  predicate EndsBracket(word: string) {
    word != "" && word[|word| - 1] == '>'
  }

  function Chop(s: string): string {
    if s == "" then "" else s[..|s| - 1]
  }

  // What a line is to ap_build_config_sub.
  datatype Token = Nothing | Plain(name: string, args: string) | Open(name: string, args: string) | Close(word: string)

  function Tok(line: Line): Token {
    if line.Blank? || line.word == "" then Nothing
    else if StartsClose(line.word) then Close(line.word)
    else
      var name := if !SlashSecond(line.word) && EndsBracket(line.word) then Chop(line.word) else line.word;
      if name != "" && name[0] == '<' then Open(name, if line.args == "" then ">" else line.args)
      else Plain(name, line.args)
  }

  // The closing line of a section: it has its '>' and the name of the section.
  predicate Closes(name: string, line: Line) {
    && Tok(line).Close?
    && EndsBracket(line.word)
    && SameName(line.word[2..|line.word| - 1], Tail(name))
  }

  function Tail(name: string): string {
    if name == "" then "" else name[1..]
  }

  // ----- conditional sections

  datatype Kind = IfDefine | IfModule

  function KindName(kind: Kind): string {
    if kind == IfDefine then "<IfDefine" else "<IfModule"
  }

  // The name in lower case, as it is compared.
  function KindKey(kind: Kind): string {
    if kind == IfDefine then "<ifdefine" else "<ifmodule"
  }

  function KindOf(name: string): Option<Kind> {
    var key := Lower(name);
    if key == "<ifdefine" then Some(IfDefine) else if key == "<ifmodule" then Some(IfModule) else None
  }

  // What conditions are judged by: -D parameters and known modules.
  datatype Env = Env(defines: set<string>, modules: set<string>)

  datatype Verdict = Holds | Fails | Bad

  predicate HasBlank(s: string) {
    exists k :: 0 <= k < |s| && (s[k] == ' ' || s[k] == '\t')
  }

  // strrchr(s, '>')
  function LastBracket(s: string): (r: Option<nat>)
    ensures r.Some? ==> r.value < |s| && s[r.value] == '>'
  {
    if s == "" then None
    else if s[|s| - 1] == '>' then Some(|s| - 1)
    else LastBracket(Chop(s))
  }

  // start_ifdefine and start_ifmod, up to the decision; the directive takes one word.
  function Judge(env: Env, kind: Kind, args: string): Verdict {
    if args == "" || HasBlank(args) || LastBracket(args).None? then Bad
    else
      var arg := args[..LastBracket(args).value];
      var negated := arg != "" && arg[0] == '!';
      var subject := if negated then arg[1..] else arg;
      if subject == "" then Bad
      else
        var found := if kind == IfDefine then subject in env.defines else subject in env.modules;
        if found != negated then Holds else Fails
  }

  // The line at which ap_build_cont_config stops: the whole line, not just its first word.
  predicate EndsKind(line: Line, kind: Kind) {
    line.Words? && line.args == "" && StartsClose(line.word) && Lower(line.word[2..]) == KindKey(kind)[1..] + ">"
  }

  // ----- the reader

  // The sections that are open, outermost first, each with what lies to its left.
  datatype Frame = Frame(name: string, args: string, left: seq<Tree>)
  datatype Zip = Zip(frames: seq<Frame>, here: seq<Tree>)

  const TOP := Zip([], [])

  function Rise(z: Zip): Zip
    requires z.frames != []
  {
    var f := z.frames[|z.frames| - 1];
    Zip(z.frames[..|z.frames| - 1], f.left + [Node(f.name, f.args, z.here)])
  }

  // The tree as it would be if every open section ended here.
  function Unwind(z: Zip): seq<Tree>
    decreases |z.frames|
  {
    if z.frames == [] then z.here else Unwind(Rise(z))
  }

  function Add(z: Zip, trees: seq<Tree>): Zip {
    z.(here := z.here + trees)
  }

  datatype Outcome = Built(z: Zip, rest: seq<Line>) | Failed

  // ap_soak_end_container: skip to the end of the container, whatever is in it.
  function Soak(name: string, lines: seq<Line>): (r: Option<seq<Line>>)
    ensures r.Some? ==> |r.value| < |lines|
    decreases |lines|
  {
    if lines == [] then None
    else
      var line, rest := lines[0], lines[1..];
      if line.Blank? || line.word == "" || line.word[0] != '<' then Soak(name, rest)
      else if StartsClose(line.word) then
        if SameName(SoakedName(line.word), Tail(name)) then Some(rest) else None
      else
        match Soak(SoakName(line), rest)
        case None => None
        case Some(after) => Soak(name, after)
  }

  // The name in a closing line, by dropping its last character whatever it is.
  function SoakedName(word: string): string
    requires StartsClose(word)
  {
    if |word| > 2 then word[2..|word| - 1] else ""
  }

  // The name of a container that is skipped inside another one.
  function SoakName(line: Line): string
    requires line.Words?
  {
    if line.args == "" && EndsBracket(line.word) then Chop(line.word) else line.word
  }

  // ap_build_config_sub on one line; `rest` is what the reader still has.
  function BuildSub(env: Env, line: Line, rest: seq<Line>, z: Zip): (r: Outcome)
    ensures r.Built? ==> |r.rest| <= |rest|
    decreases |rest| + 1, 0
  {
    match Tok(line)
    case Nothing => Built(z, rest)
    case Plain(name, args) => Built(Add(z, [Node(name, args, [])]), rest)
    case Open(name, args) =>
      (match KindOf(name)
       case None => Built(Zip(z.frames + [Frame(name, args, z.here)], []), rest)
       case Some(kind) =>
         match Judge(env, kind, args)
         case Bad => Failed
         case Holds =>
           (match BuildLoop(env, Some(kind), rest, TOP)
            case Failed => Failed
            case Built(inner, after) => Built(Add(z, Unwind(inner)), after))
         case Fails =>
           match Soak(KindName(kind), rest)
           case None => Failed
           case Some(after) => Built(z, after))
    case Close(word) =>
      if z.frames == [] || !Closes(z.frames[|z.frames| - 1].name, line) then Failed
      else Built(Rise(z), rest)
  }

  // The loops of ap_build_cont_config (until the end of a conditional section, or the end
  // of the file) and of ap_build_config (until the end of the file).
  function BuildLoop(env: Env, until: Option<Kind>, lines: seq<Line>, z: Zip): (r: Outcome)
    ensures r.Built? ==> |r.rest| <= |lines|
    decreases |lines|, 1
  {
    if lines == [] then Built(z, [])
    else if until.Some? && EndsKind(lines[0], until.value) && z.frames == [] then Built(z, lines[1..])
    else
      match BuildSub(env, lines[0], lines[1..], z)
      case Failed => Failed
      case Built(z', rest) => BuildLoop(env, until, rest, z')
  }

  // ap_build_config on top of a tree that is already there.
  function Build(env: Env, lines: seq<Line>, before: seq<Tree>): Option<seq<Tree>> {
    match BuildLoop(env, None, lines, Zip([], before))
    case Failed => None
    case Built(z, _) => if z.frames == [] then Some(z.here) else None
  }
}
