/**
  Executing the configuration tree: ap_walk_config, ap_walk_config_sub and the handlers of
  the sections.  The handlers set, walk and restore the fields of cmd_parms; the functions
  below hand the same settings down by value, so that what a directive sees is what its
  enclosing sections say.
*/
module ConfigWalk {
  import opened Directives
  import opened TreeLayout
  import opened ConfigTree

  // The bits of an override or req_override.
  datatype Right =
    OrLimit | OrOptions | OrFileInfo | OrAuthCfg | OrIndexes | OrUnset | AccessConf | RsrcConf | ExecOnRead

  const OR_ALL: set<Right> := {OrLimit, OrOptions, OrFileInfo, OrAuthCfg, OrIndexes}

  datatype Server = MainServer | Virtual(id: nat)

  // A vector of per-directory configurations: the defaults of a server, or one made for a section.
  datatype Context = NoContext | Defaults(server: Server) | Conf(id: nat)

  // The method mask of <Limit>; Anywhere is -1.
  datatype Limited = Anywhere | Only(methods: set<nat>) | AllBut(methods: set<nat>)

  // The settings a directive is executed under.
  datatype Scope = Scope(path: Option<string>, override: set<Right>, server: Server, context: Context, limited: Limited)

  // What the function of a command does; the flags are the command's cmd_data.
  datatype Act =
    | Simple
    | Directory(matching: bool)
    | Location(matching: bool)
    | Files(matching: bool)
    | Limit(except: bool)
    | VirtualHost

  datatype Command = Command(mod: string, req: set<Right>, act: Act)

  // The path of a section, and whether there are words left after it.
  datatype Target = Target(path: string, extra: bool)

  // The command hash, and what is left open here: the functions of plain commands, paths
  // and their regular expressions, method names, addresses of virtual hosts.
  datatype Table = Table(handlers: map<string, seq<Command>>,
                         accepts: (string, string, string, Scope) -> bool,
                         target: (Act, string) -> Option<Target>,
                         methods: (bool, string) -> Option<set<nat>>,
                         address: string -> bool)

  datatype Section = Section(act: Act, name: string, args: string, zone: Zone, id: nat)

  // What a walk does: a plain command is run, or the configuration of a section is added to
  // the server or, for <Files>, to the configuration around it.
  datatype Entry = Ran(mod: string, name: string, args: string, scope: Scope, within: seq<Section>)
                 | Added(section: Section, path: string, scope: Scope, within: seq<Section>)

  datatype World = World(log: seq<Entry>, confs: nat, hosts: nat)

  const START: Scope := Scope(None, {RsrcConf} + OR_ALL - {OrAuthCfg, OrLimit}, MainServer, NoContext, Anywhere)

  // ----- ap_check_cmd_context

  // The NOT_IN_ bits.
  datatype Places = Places(virtualHost: bool, limit: bool, directory: bool, location: bool, files: bool)

  const NOT_IN_LIMIT := Places(false, true, false, false, false)
  const GLOBAL_ONLY := Places(true, true, true, true, true)

  // The kinds of sections find_parent is asked for, by name.
  datatype Zone = DirectoryZone | LocationZone | FilesZone | NoZone

  function ZoneOf(name: string): Zone {
    var key := Lower(name);
    if key == "<directory" || key == "<directorymatch" then DirectoryZone
    else if key == "<location" || key == "<locationmatch" then LocationZone
    else if key == "<files" || key == "<filesmatch" then FilesZone
    else NoZone
  }

  // `within` lists the enclosing sections, innermost first.
  predicate Inside(within: seq<Section>, zone: Zone) {
    exists i :: 0 <= i < |within| && within[i].zone == zone
  }

  predicate Allowed(forbidden: Places, within: seq<Section>, s: Scope) {
    && (forbidden.virtualHost ==> s.server == MainServer)
    && (forbidden.limit ==> s.limited == Anywhere)
    && (forbidden.directory && forbidden.location && forbidden.files ==> s.path == None)
    && (forbidden.directory ==> !Inside(within, DirectoryZone))
    && (forbidden.location ==> !Inside(within, LocationZone))
    && (forbidden.files ==> !Inside(within, FilesZone))
  }

  // Where a section may not occur.
  function Forbidden(act: Act): Places {
    match act
    case Simple => Places(false, false, false, false, false)
    case Directory(_) => Places(false, true, true, true, true)
    case Location(_) => Places(false, true, true, true, true)
    case Files(_) => Places(false, true, false, true, false)
    case Limit(_) => NOT_IN_LIMIT
    case VirtualHost => GLOBAL_ONLY
  }

  // ----- what a walk means

  // The argument of a section, without its '>'.
  function Argument(args: string): string
  {
    match LastBracket(args)
    case None => ""
    case Some(k) => args[..k]
  }

  // The settings inside a section, or None when the section is an error.
  function Rescope(t: Table, sec: Section, s: Scope): Option<Scope> {
    var arg := Argument(sec.args);
    if arg == "" then None
    else
      match sec.act
      case Simple => None
      case Directory(_) =>
        (match t.target(sec.act, arg)
         case None => None
         case Some(target) => Some(s.(path := Some(target.path), override := OR_ALL + {AccessConf},
             context := Conf(sec.id))))
      case Location(_) =>
        (match t.target(sec.act, arg)
         case None => None
         case Some(target) => Some(s.(path := Some(target.path), override := OR_ALL + {AccessConf},
             context := Conf(sec.id))))
      case Files(_) =>
        (match t.target(sec.act, arg)
         case None => None
         case Some(target) =>
           Some(s.(path := Some(target.path), override := if s.path == None then OR_ALL + {AccessConf} else s.override,
                   context := Conf(sec.id))))
      case Limit(except) =>
        (match t.methods(except, arg)
         case None => None
         case Some(ms) => Some(s.(limited := if except then AllBut(ms) else Only(ms))))
      case VirtualHost =>
        if t.address(arg) then Some(s.(server := Virtual(sec.id), context := Defaults(Virtual(sec.id)))) else None
  }

  predicate OwnConf(act: Act) {
    act.Directory? || act.Location? || act.Files?
  }

  // The section a command makes, numbered by what it creates.
  function SectionOf(act: Act, node: Tree, w: World): Section {
    Section(act, node.name, node.args, ZoneOf(node.name), if act == VirtualHost then w.hosts else w.confs)
  }

  function Created(act: Act, w: World): World {
    if OwnConf(act) then w.(confs := w.confs + 1) else if act == VirtualHost then w.(hosts := w.hosts + 1) else w
  }

  // After the content of a section.
  function Finish(t: Table, sec: Section, s: Scope, within: seq<Section>, w: World): Option<World> {
    if OwnConf(sec.act) then
      match t.target(sec.act, Argument(sec.args))
      case None => None
      case Some(target) =>
        if target.extra then None else Some(w.(log := w.log + [Added(sec, target.path, s, within)]))
    else Some(w)
  }

  function WalkAll(t: Table, f: seq<Tree>, within: seq<Section>, s: Scope, w: World): Option<World>
    decreases Sizes(f), 3, 0
  {
    if f == [] then Some(w)
    else
      match WalkOne(t, f[0], within, s, w)
      case None => None
      case Some(w') => WalkAll(t, f[1..], within, s, w')
  }

  function WalkOne(t: Table, node: Tree, within: seq<Section>, s: Scope, w: World): Option<World>
    decreases Size(node), 2, 0
  {
    if Lower(node.name) !in t.handlers then None
    else Invoke(t, t.handlers[Lower(node.name)], node, within, s, w)
  }

  function Invoke(t: Table, cmds: seq<Command>, node: Tree, within: seq<Section>, s: Scope, w: World): Option<World>
    decreases Size(node), 1, |cmds|
  {
    if cmds == [] then Some(w)
    else
      match Run(t, cmds[0], node, within, s, w)
      case None => None
      case Some(w') => Invoke(t, cmds[1..], node, within, s, w')
  }

  function Run(t: Table, cmd: Command, node: Tree, within: seq<Section>, s: Scope, w: World): Option<World>
    decreases Size(node), 0, 0
  {
    if ExecOnRead in cmd.req then Some(w)
    else if s.override !! cmd.req then None
    else if cmd.act == Simple then
      if t.accepts(cmd.mod, node.name, node.args, s)
      then Some(w.(log := w.log + [Ran(cmd.mod, node.name, node.args, s, within)])) else None
    else if !Allowed(Forbidden(cmd.act), within, s) then None
    else
      var sec := SectionOf(cmd.act, node, w);
      match Rescope(t, sec, s)
      case None => None
      case Some(inner) =>
        match WalkAll(t, node.kids, [sec] + within, inner, Created(cmd.act, w))
        case None => None
        case Some(w') => Finish(t, sec, s, within, w')
  }

  // A function that walks the content of its section runs last: afterwards cmd->directive
  // is a directive of the content.
  predicate SectionsLast(t: Table) {
    forall name, i :: name in t.handlers && 0 <= i < |t.handlers[name]| - 1 ==> t.handlers[name][i].act == Simple
  }

  // ----- cmd_parms

  // The chain of parents from p on.
  ghost predicate Above(p: Directive?, within: seq<Section>, nodes: set<Directive>)
    reads nodes
  {
    if within == [] then p == null
    else
      && p != null && p in nodes && p.name == within[0].name && ZoneOf(p.name) == within[0].zone
      && Above(p.parent, within[1..], nodes)
  }

  // The directive is this tree, and its parents are these sections.
  ghost predicate Linked(cur: Directive, node: Tree, within: seq<Section>, nodes: set<Directive>)
    reads nodes, cur
  {
    && cur in nodes && cur.name == node.name && cur.args == node.args
    && Mirrors(cur.firstChild, cur, node.kids, nodes) && Above(cur.parent, within, nodes)
  }

  class CmdParms {
    const t: Table
    var path: Option<string>
    var override: set<Right>
    var server: Server
    var context: Context
    var limited: Limited
    var directive: Directive?
    var confs: nat                // vectors made by ap_create_per_dir_config
    var hosts: nat                // servers made by ap_init_virtual_host
    ghost var log: seq<Entry>

    // The settings of ap_process_config_tree.
    constructor (t: Table)
      ensures this.t == t && S() == START && W() == World([], 0, 0)
    {
      this.t := t;
      path, server, context, limited, directive := None, MainServer, NoContext, Anywhere, null;
      override := {RsrcConf} + OR_ALL - {OrAuthCfg, OrLimit};
      confs, hosts, log := 0, 0, [];
    }

    ghost function S(): Scope
      reads this
    {
      Scope(path, override, server, context, limited)
    }

    ghost function W(): World
      reads this
    {
      World(log, confs, hosts)
    }

    // find_parent
    method FindParent(dirp: Directive, zone: Zone, ghost within: seq<Section>, ghost nodes: set<Directive>)
      returns (found: Directive?)
      requires Above(dirp.parent, within, nodes)
      ensures found != null <==> Inside(within, zone)
    {
      var d: Directive := dirp;
      ghost var k := 0;
      while d.parent != null
        invariant k <= |within| && Above(d.parent, within[k..], nodes)
        invariant forall i :: 0 <= i < k ==> within[i].zone != zone
        decreases |within| - k
      {
        d := d.parent;
        if ZoneOf(d.name) == zone {
          assert within[k..][0] == within[k];
          return d;
        }
        assert within[k..][1..] == within[k + 1..];
        k := k + 1;
      }
      found := null;
    }

    // ap_check_cmd_context
    method CheckContext(forbidden: Places, ghost within: seq<Section>, ghost nodes: set<Directive>) returns (ok: bool)
      requires directive != null && Above(directive.parent, within, nodes)
      ensures ok == Allowed(forbidden, within, S())
    {
      if forbidden.virtualHost && server.Virtual? {
        return false;
      }
      if forbidden.limit && limited != Anywhere {
        return false;
      }
      if forbidden.directory && forbidden.location && forbidden.files && path != None {
        return false;
      }
      if forbidden.directory {
        var found := FindParent(directive, DirectoryZone, within, nodes);
        if found != null {
          return false;
        }
      }
      if forbidden.location {
        var found := FindParent(directive, LocationZone, within, nodes);
        if found != null {
          return false;
        }
      }
      if forbidden.files {
        var found := FindParent(directive, FilesZone, within, nodes);
        if found != null {
          return false;
        }
      }
      ok := true;
    }

    // ap_walk_config
    method WalkConfig(current: Directive?, section: Context, ghost f: seq<Tree>, ghost p: Directive?,
        ghost within: seq<Section>, ghost nodes: set<Directive>)
      returns (ok: bool)
      requires SectionsLast(t) && Mirrors(current, p, f, nodes) && Above(p, within, nodes)
      modifies this
      ensures WalkAll(t, f, within, old(S()).(context := section), old(W())) == if ok then Some(W()) else None
      ensures ok ==> S() == old(S())
      ensures server == old(server) && context == old(context) && limited == old(limited)
      decreases Sizes(f), 3, 0
    {
      var oldConfig := context;
      context := section;
      var cur := current;
      ghost var rest := f;
      while cur != null
        invariant Mirrors(cur, p, rest, nodes) && Sizes(rest) <= Sizes(f)
        invariant S() == old(S()).(context := section)
        invariant WalkAll(t, rest, within, S(), W()) == WalkAll(t, f, within, old(S()).(context := section), old(W()))
        decreases Sizes(rest)
      {
        directive := cur;
        ok := WalkSub(cur, rest[0], within, nodes);
        if !ok {
          context := oldConfig;
          return;
        }
        cur := cur.next;
        rest := rest[1..];
      }
      context := oldConfig;
      ok := true;
    }

    // ap_walk_config_sub
    method WalkSub(cur: Directive, ghost node: Tree, ghost within: seq<Section>, ghost nodes: set<Directive>)
      returns (ok: bool)
      requires SectionsLast(t) && directive == cur && Linked(cur, node, within, nodes)
      modifies this
      ensures WalkOne(t, node, within, old(S()), old(W())) == if ok then Some(W()) else None
      ensures ok ==> S() == old(S())
      ensures server == old(server) && context == old(context) && limited == old(limited)
      decreases Size(node), 2, 0
    {
      var dir := Lower(cur.name);
      if dir !in t.handlers {
        return false;
      }
      var ml := t.handlers[dir];
      var i := 0;
      while i < |ml|
        invariant i <= |ml| && (i < |ml| ==> directive == cur)
        invariant S() == old(S())
        invariant Invoke(t, ml[i..], node, within, S(), W()) == WalkOne(t, node, within, old(S()), old(W()))
      {
        assert ml[i..][0] == ml[i] && ml[i..][1..] == ml[i + 1..];
        ok := InvokeCmd(ml[i], cur, node, within, nodes);
        if !ok {
          return;
        }
        i := i + 1;
      }
      ok := true;
    }

    // invoke_cmd
    method InvokeCmd(cmd: Command, cur: Directive, ghost node: Tree, ghost within: seq<Section>,
        ghost nodes: set<Directive>)
      returns (ok: bool)
      requires SectionsLast(t) && directive == cur && Linked(cur, node, within, nodes)
      modifies this
      ensures Run(t, cmd, node, within, old(S()), old(W())) == if ok then Some(W()) else None
      ensures ok ==> S() == old(S())
      ensures server == old(server) && context == old(context) && limited == old(limited)
      ensures cmd.act == Simple ==> directive == cur
      decreases Size(node), 1, 0
    {
      if ExecOnRead in cmd.req {
        return true;
      }
      if override !! cmd.req {
        return false;
      }
      match cmd.act
      case Simple =>
        ok := t.accepts(cmd.mod, cur.name, cur.args, Scope(path, override, server, context, limited));
        if ok {
          log := log + [Ran(cmd.mod, cur.name, cur.args, S(), within)];
        }
      case Limit(_) => ok := LimitSection(cmd, cur, node, within, nodes);
      case VirtualHost => ok := VirtualHostSection(cmd, cur, node, within, nodes);
      case _ => ok := PathSection(cmd, cur, node, within, nodes);
    }

    // dirsection, urlsection and filesection: they differ in where they may occur, in how
    // the path is read, and in when the override is replaced.
    method PathSection(cmd: Command, cur: Directive, ghost node: Tree, ghost within: seq<Section>,
        ghost nodes: set<Directive>)
      returns (ok: bool)
      requires SectionsLast(t) && directive == cur && Linked(cur, node, within, nodes)
      requires OwnConf(cmd.act) && ExecOnRead !in cmd.req && !(override !! cmd.req)
      modifies this
      ensures Run(t, cmd, node, within, old(S()), old(W())) == if ok then Some(W()) else None
      ensures ok ==> S() == old(S())
      ensures server == old(server) && context == old(context) && limited == old(limited)
      decreases Size(node), 0, 1
    {
      hide WalkAll, Lower, Allowed, Mirrors, Above, ZoneOf;
      var oldOverrides, oldPath := override, path;
      ghost var sec := SectionOf(cmd.act, node, W());
      var conf := Conf(confs);
      ok := CheckContext(Forbidden(cmd.act), within, nodes);
      if !ok {
        return;
      }
      confs := confs + 1;
      var arg := Argument(cur.args);
      if arg == "" {
        return false;
      }
      var target := t.target(cmd.act, arg);
      if target == None {
        return false;
      }
      path := Some(target.value.path);
      if cmd.act.Files? {
        if oldPath == None {
          override := OR_ALL + {AccessConf};
        }
      } else {
        override := OR_ALL + {AccessConf};
      }
      ok := WalkContent(cur, conf, node, sec, within, nodes);
      if !ok {
        return;
      }
      if target.value.extra {
        return false;
      }
      log := log + [Added(sec, path.value, old(S()), within)];
      path := oldPath;
      override := oldOverrides;
    }

    // What is inside a section.
    method WalkContent(cur: Directive, section: Context, ghost node: Tree, ghost sec: Section,
        ghost within: seq<Section>, ghost nodes: set<Directive>)
      returns (ok: bool)
      requires SectionsLast(t) && Linked(cur, node, within, nodes)
      requires sec.name == node.name && sec.zone == ZoneOf(node.name)
      modifies this
      ensures WalkAll(t, node.kids, [sec] + within, old(S()).(context := section), old(W()))
           == if ok then Some(W()) else None
      ensures ok ==> S() == old(S())
      ensures server == old(server) && context == old(context) && limited == old(limited)
      decreases Size(node), 0, 0
    {
      ok := WalkConfig(cur.firstChild, section, node.kids, cur, [sec] + within, nodes);
    }

    // ap_limit_section
    method LimitSection(cmd: Command, cur: Directive, ghost node: Tree, ghost within: seq<Section>,
        ghost nodes: set<Directive>)
      returns (ok: bool)
      requires SectionsLast(t) && directive == cur && Linked(cur, node, within, nodes)
      requires cmd.act.Limit? && ExecOnRead !in cmd.req && !(override !! cmd.req)
      modifies this
      ensures Run(t, cmd, node, within, old(S()), old(W())) == if ok then Some(W()) else None
      ensures ok ==> S() == old(S())
      ensures server == old(server) && context == old(context) && limited == old(limited)
      decreases Size(node), 0, 1
    {
      ghost var sec := SectionOf(cmd.act, node, W());
      ok := CheckContext(NOT_IN_LIMIT, within, nodes);
      if !ok {
        return;
      }
      var arg := Argument(cur.args);
      if arg == "" {
        return false;
      }
      var methods := t.methods(cmd.act.except, arg);
      if methods == None {
        return false;
      }
      limited := if cmd.act.except then AllBut(methods.value) else Only(methods.value);
      ok := WalkContent(cur, context, node, sec, within, nodes);
      limited := Anywhere;
    }

    // virtualhost_section
    method VirtualHostSection(cmd: Command, cur: Directive, ghost node: Tree, ghost within: seq<Section>,
        ghost nodes: set<Directive>)
      returns (ok: bool)
      requires SectionsLast(t) && directive == cur && Linked(cur, node, within, nodes)
      requires cmd.act == VirtualHost && ExecOnRead !in cmd.req && !(override !! cmd.req)
      modifies this
      ensures Run(t, cmd, node, within, old(S()), old(W())) == if ok then Some(W()) else None
      ensures ok ==> S() == old(S())
      ensures server == old(server) && context == old(context) && limited == old(limited)
      decreases Size(node), 0, 1
    {
      var mainServer := server;
      ghost var sec := SectionOf(cmd.act, node, W());
      ok := CheckContext(GLOBAL_ONLY, within, nodes);
      if !ok {
        return;
      }
      var arg := Argument(cur.args);
      if arg == "" || mainServer.Virtual? || !t.address(arg) {
        return false;
      }
      var s := Virtual(hosts);
      hosts := hosts + 1;
      server := s;
      ok := WalkContent(cur, Defaults(s), node, sec, within, nodes);
      server := mainServer;
    }
  }

  // ----- what the settings are

  // The settings inside a chain of sections.
  function ScopeIn(t: Table, within: seq<Section>, outer: Scope): Option<Scope> {
    if within == [] then Some(outer)
    else
      match ScopeIn(t, within[1..], outer)
      case None => None
      case Some(s) => Rescope(t, within[0], s)
  }

  ghost predicate Lexical(t: Table, outer: Scope, e: Entry) {
    ScopeIn(t, e.within, outer) == Some(e.scope)
  }

  ghost predicate GrowsLexically(t: Table, outer: Scope, w: World, r: Option<World>) {
    r.Some? ==>
      && w.log <= r.value.log
      && forall i :: |w.log| <= i < |r.value.log| ==> Lexical(t, outer, r.value.log[i])
  }

  // Whatever was done before it, a directive runs under the settings of its own sections.
  lemma {:induction false} WalkIsLexical(t: Table, f: seq<Tree>, within: seq<Section>, s: Scope, w: World, outer: Scope)
    requires ScopeIn(t, within, outer) == Some(s)
    ensures GrowsLexically(t, outer, w, WalkAll(t, f, within, s, w))
    decreases Sizes(f), 3, 0
  {
    if f != [] && WalkOne(t, f[0], within, s, w).Some? {
      OneIsLexical(t, f[0], within, s, w, outer);
      WalkIsLexical(t, f[1..], within, s, WalkOne(t, f[0], within, s, w).value, outer);
    }
  }

  lemma {:induction false} OneIsLexical(t: Table, node: Tree, within: seq<Section>, s: Scope, w: World, outer: Scope)
    requires ScopeIn(t, within, outer) == Some(s)
    ensures GrowsLexically(t, outer, w, WalkOne(t, node, within, s, w))
    decreases Size(node), 2, 0
  {
    if Lower(node.name) in t.handlers {
      CommandsAreLexical(t, t.handlers[Lower(node.name)], node, within, s, w, outer);
    }
  }

  lemma {:induction false} CommandsAreLexical(t: Table, cmds: seq<Command>, node: Tree, within: seq<Section>,
      s: Scope, w: World, outer: Scope)
    requires ScopeIn(t, within, outer) == Some(s)
    ensures GrowsLexically(t, outer, w, Invoke(t, cmds, node, within, s, w))
    decreases Size(node), 1, |cmds|
  {
    if cmds != [] && Run(t, cmds[0], node, within, s, w).Some? {
      RunIsLexical(t, cmds[0], node, within, s, w, outer);
      CommandsAreLexical(t, cmds[1..], node, within, s, Run(t, cmds[0], node, within, s, w).value, outer);
    }
  }

  lemma {:induction false} RunIsLexical(t: Table, cmd: Command, node: Tree, within: seq<Section>, s: Scope, w: World,
      outer: Scope)
    requires ScopeIn(t, within, outer) == Some(s)
    ensures GrowsLexically(t, outer, w, Run(t, cmd, node, within, s, w))
    decreases Size(node), 0, 0
  {
    var sec := SectionOf(cmd.act, node, w);
    if cmd.act != Simple && Rescope(t, sec, s).Some? {
      var inner := Rescope(t, sec, s).value;
      assert ([sec] + within)[1..] == within;
      WalkIsLexical(t, node.kids, [sec] + within, inner, Created(cmd.act, w), outer);
    }
  }

  // ----- in which order

  datatype Step = Do(mod: string, name: string, args: string) | Attach(name: string, args: string)

  function Steps(log: seq<Entry>): seq<Step> {
    if log == [] then [] else Steps(log[..|log| - 1]) + [StepOf(log[|log| - 1])]
  }

  function StepOf(e: Entry): Step {
    match e
    case Ran(mod, name, args, _, _) => Do(mod, name, args)
    case Added(sec, _, _, _) => Attach(sec.name, sec.args)
  }

  // The steps of a forest from its text alone: the directives of a section before the
  // section itself is attached, everything else in the order of the lines.
  function Script(t: Table, f: seq<Tree>): seq<Step>
    decreases Sizes(f), 2, 0
  {
    if f == [] then []
    else
      var key := Lower(f[0].name);
      assert Size(f[0]) > Sizes(f[0].kids);
      (if key in t.handlers then ScriptOf(t, t.handlers[key], f[0]) else []) + Script(t, f[1..])
  }

  function ScriptOf(t: Table, cmds: seq<Command>, node: Tree): seq<Step>
    decreases Size(node), 1, |cmds|
  {
    if cmds == [] then []
    else
      var cmd := cmds[0];
      StepsOf(t, cmd, node) + ScriptOf(t, cmds[1..], node)
  }

  function StepsOf(t: Table, cmd: Command, node: Tree): seq<Step>
    decreases Size(node), 0, 0
  {
    if ExecOnRead in cmd.req then []
    else if cmd.act == Simple then [Do(cmd.mod, node.name, node.args)]
    else Script(t, node.kids) + if OwnConf(cmd.act) then [Attach(node.name, node.args)] else []
  }

  lemma StepsAppend(log: seq<Entry>, e: Entry)
    ensures Steps(log + [e]) == Steps(log) + [StepOf(e)]
  {
    assert (log + [e])[..|log|] == log;
  }

  lemma {:induction false} WalkInOrder(t: Table, f: seq<Tree>, within: seq<Section>, s: Scope, w: World)
    ensures var r := WalkAll(t, f, within, s, w); r.Some? ==> Steps(r.value.log) == Steps(w.log) + Script(t, f)
    decreases Sizes(f), 3, 0
  {
    if f == [] {
      assert Steps(w.log) + [] == Steps(w.log);
    } else if WalkOne(t, f[0], within, s, w).Some? {
      CommandsInOrder(t, t.handlers[Lower(f[0].name)], f[0], within, s, w);
      WalkInOrder(t, f[1..], within, s, WalkOne(t, f[0], within, s, w).value);
    }
  }

  lemma {:induction false} CommandsInOrder(t: Table, cmds: seq<Command>, node: Tree, within: seq<Section>, s: Scope,
      w: World)
    ensures var r := Invoke(t, cmds, node, within, s, w);
            r.Some? ==> Steps(r.value.log) == Steps(w.log) + ScriptOf(t, cmds, node)
    decreases Size(node), 1, |cmds|
  {
    if cmds == [] {
      assert Steps(w.log) + [] == Steps(w.log);
    } else if Run(t, cmds[0], node, within, s, w).Some? {
      RunInOrder(t, cmds[0], node, within, s, w);
      CommandsInOrder(t, cmds[1..], node, within, s, Run(t, cmds[0], node, within, s, w).value);
      Regroup(Steps(w.log), StepsOf(t, cmds[0], node), ScriptOf(t, cmds[1..], node));
    }
  }

  lemma Regroup(a: seq<Step>, b: seq<Step>, c: seq<Step>)
    ensures (a + b) + c == a + (b + c)
  {
  }

  lemma {:induction false} RunInOrder(t: Table, cmd: Command, node: Tree, within: seq<Section>, s: Scope, w: World)
    ensures var r := Run(t, cmd, node, within, s, w);
            r.Some? ==> Steps(r.value.log) == Steps(w.log) + StepsOf(t, cmd, node)
    decreases Size(node), 0, 0
  {
    if Run(t, cmd, node, within, s, w).Some? {
      if ExecOnRead in cmd.req {
        assert Steps(w.log) + [] == Steps(w.log);
      } else if cmd.act == Simple {
        StepsAppend(w.log, Ran(cmd.mod, node.name, node.args, s, within));
      } else {
        var sec := SectionOf(cmd.act, node, w);
        var inner := Rescope(t, sec, s).value;
        WalkInOrder(t, node.kids, [sec] + within, inner, Created(cmd.act, w));
        var w' := WalkAll(t, node.kids, [sec] + within, inner, Created(cmd.act, w)).value;
        Regroup(Steps(w.log), Script(t, node.kids), [Attach(node.name, node.args)]);
        if OwnConf(cmd.act) {
          StepsAppend(w'.log, Added(sec, t.target(cmd.act, Argument(node.args)).value.path, s, within));
        }
      }
    }
  }

  // ----- where sections may occur

  // The settings a walk of the server's configuration starts with.
  ghost predicate Outermost(s: Scope) {
    s.path == None && s.limited == Anywhere && s.server == MainServer
  }

  // Each section goes by a name of its kind.
  ghost predicate WellNamed(within: seq<Section>) {
    forall i :: 0 <= i < |within| ==>
      var sec := within[i];
      && (sec.zone == DirectoryZone <==> sec.act.Directory?)
      && (sec.zone == LocationZone <==> sec.act.Location?)
      && (sec.zone == FilesZone <==> sec.act.Files?)
  }

  // The rules of nesting, without settings.
  ghost predicate MayOpen(act: Act, within: seq<Section>) {
    match act
    case Simple => true
    case Directory(_) => forall i :: 0 <= i < |within| ==> within[i].act == VirtualHost
    case Location(_) => forall i :: 0 <= i < |within| ==> within[i].act == VirtualHost
    case Files(_) => forall i :: 0 <= i < |within| ==> !within[i].act.Limit? && !within[i].act.Location?
    case Limit(_) => forall i :: 0 <= i < |within| ==> !within[i].act.Limit?
    case VirtualHost => within == []
  }

  lemma {:induction false} SettingsShowSections(t: Table, within: seq<Section>, outer: Scope)
    requires Outermost(outer) && ScopeIn(t, within, outer).Some?
    ensures var s := ScopeIn(t, within, outer).value;
            && (s.path == None <==> (forall i :: 0 <= i < |within| ==> !OwnConf(within[i].act)))
            && (s.limited == Anywhere <==> (forall i :: 0 <= i < |within| ==> !within[i].act.Limit?))
            && (s.server == MainServer <==> (forall i :: 0 <= i < |within| ==> within[i].act != VirtualHost))
            && (forall i :: 0 <= i < |within| ==> within[i].act != Simple)
  {
    if within != [] {
      SettingsShowSections(t, within[1..], outer);
      FirstOfSections(within);
    }
  }

  lemma FirstOfSections(within: seq<Section>)
    requires within != []
    ensures forall i :: 0 < i < |within| ==> within[i] == within[1..][i - 1]
    ensures forall i :: 0 <= i < |within| - 1 ==> within[1..][i] == within[i + 1]
  {
  }

  // What ap_check_cmd_context reads off the settings and the parents is exactly the rules
  // of nesting.
  lemma {:induction false} ContextCheckIsNesting(t: Table, act: Act, within: seq<Section>, outer: Scope)
    requires Outermost(outer) && ScopeIn(t, within, outer).Some? && WellNamed(within)
    ensures Allowed(Forbidden(act), within, ScopeIn(t, within, outer).value) <==> MayOpen(act, within)
  {
    SettingsShowSections(t, within, outer);
  }
}
