/**
  When executing a configuration succeeds and what it does then, stated over the places of the
  text: each directive with the sections around it.  The rights a place grants are read off
  these sections, without following the walk.
*/
module WalkLaws {
  import opened Directives
  import opened TreeLayout
  import opened ConfigWalk
  import opened ReaderLaws

  // ----- the settings of a place

  datatype Trait = Own | Placed | Hosting | Limiting

  predicate Has(act: Act, what: Trait) {
    match what
    case Own => act.Directory? || act.Location? || act.Files?
    case Placed => act.Directory? || act.Location? || act.Files? || act.VirtualHost?
    case Hosting => act.VirtualHost?
    case Limiting => act.Limit?
  }

  // The innermost enclosing section of a kind.
  function Innermost(within: seq<Section>, what: Trait): Option<Section> {
    if within == [] then None
    else if Has(within[0].act, what) then Some(within[0])
    else Innermost(within[1..], what)
  }

  // A section can be read: it has an argument, and its path, methods or addresses make sense.
  predicate Readable(t: Table, act: Act, args: string) {
    var arg := Argument(args);
    arg != ""
    && match act
       case Simple => false
       case Limit(except) => t.methods(except, arg).Some?
       case VirtualHost => t.address(arg)
       case _ => t.target(act, arg).Some?
  }

  // Directives between <Directory>, <Location> or <Files> have all the rights of a per-directory
  // configuration, others those of the place where the walk began.
  function Rights(within: seq<Section>, outer: Scope): set<Right> {
    if exists i :: 0 <= i < |within| && Grants(within[i].act, outer) then
      {OrLimit, OrOptions, OrFileInfo, OrAuthCfg, OrIndexes, AccessConf}
    else outer.override
  }

  predicate Grants(act: Act, outer: Scope) {
    act.Directory? || act.Location? || (act.Files? && outer.path == None)
  }

  // Each setting comes from the innermost section that says something about it.
  ghost predicate SettingsOf(t: Table, within: seq<Section>, outer: Scope, s: Scope) {
    && s.override == Rights(within, outer)
    && s.path == (match Innermost(within, Own)
                  case None => outer.path
                  case Some(sec) =>
                    var target := t.target(sec.act, Argument(sec.args));
                    if target.Some? then Some(target.value.path) else None)
    && s.server == (match Innermost(within, Hosting) case None => outer.server case Some(sec) => Virtual(sec.id))
    && s.context == (match Innermost(within, Placed)
                     case None => outer.context
                     case Some(sec) => if sec.act.VirtualHost? then Defaults(Virtual(sec.id)) else Conf(sec.id))
    && s.limited == (match Innermost(within, Limiting)
                     case None => outer.limited
                     case Some(sec) =>
                       var methods := t.methods(sec.act == Limit(true), Argument(sec.args));
                       if methods == None then Anywhere
                       else if sec.act == Limit(true) then AllBut(methods.value)
                       else Only(methods.value))
  }

  lemma RightsOf(within: seq<Section>, outer: Scope)
    requires within != []
    ensures Rights(within, outer)
         == if Grants(within[0].act, outer) then OR_ALL + {AccessConf} else Rights(within[1..], outer)
  {
    var rest := within[1..];
    if Grants(within[0].act, outer) {
      assert Grants(within[0].act, outer);
    } else {
      assert forall i :: 0 <= i < |rest| ==> rest[i] == within[i + 1];
      if exists i :: 0 <= i < |within| && Grants(within[i].act, outer) {
        var i :| 0 <= i < |within| && Grants(within[i].act, outer);
        assert Grants(rest[i - 1].act, outer);
      }
    }
  }

  lemma InnermostIs(within: seq<Section>, what: Trait)
    requires within != []
    ensures Innermost(within, what)
         == if Has(within[0].act, what) then Some(within[0]) else Innermost(within[1..], what)
  {
  }

  // Stepping into a section.
  lemma RescopeIs(t: Table, within: seq<Section>, outer: Scope, s: Scope)
    requires within != [] && SettingsOf(t, within[1..], outer, s)
    requires outer.path == None && s.path != None ==> s.override == OR_ALL + {AccessConf}
    requires outer.path != None ==> s.path != None
    ensures var r := Rescope(t, within[0], s);
            && (r.Some? <==> Readable(t, within[0].act, within[0].args))
            && (r.Some? ==> SettingsOf(t, within, outer, r.value))
            && (r.Some? && outer.path == None && r.value.path != None ==> r.value.override == OR_ALL + {AccessConf})
            && (r.Some? && outer.path != None ==> r.value.path != None)
  {
    hide Argument, Rights, Innermost;
    RightsOf(within, outer);
    InnermostIs(within, Own);
    InnermostIs(within, Placed);
    InnermostIs(within, Hosting);
    InnermostIs(within, Limiting);
  }

  // The settings inside a chain of sections exist if all of them can be read.
  lemma {:induction false} ScopeInIs(t: Table, within: seq<Section>, outer: Scope)
    ensures var r := ScopeIn(t, within, outer);
            && (r.Some? <==> forall i :: 0 <= i < |within| ==> Readable(t, within[i].act, within[i].args))
            && (r.Some? ==> SettingsOf(t, within, outer, r.value))
            && (r.Some? && outer.path == None && r.value.path != None ==> r.value.override == OR_ALL + {AccessConf})
            && (r.Some? && outer.path != None ==> r.value.path != None)
  {
    if within != [] {
      hide SettingsOf, Readable, Rescope;
      ScopeInIs(t, within[1..], outer);
      assert forall i :: 0 < i < |within| ==> within[i] == within[1..][i - 1];
      assert forall i :: 0 <= i < |within| - 1 ==> within[1..][i] == within[i + 1];
      if ScopeIn(t, within[1..], outer).Some? {
        RescopeIs(t, within, outer, ScopeIn(t, within[1..], outer).value);
      }
    }
  }

  // ----- the places of a text

  // A directive is met with one of its commands, or with none if nothing is known by its name;
  // a section is left.
  datatype Event = Meet(node: Tree, cmd: Option<Command>, within: seq<Section>)
                 | Leave(section: Section, within: seq<Section>)

  // The events of a text, and how many configurations and servers its sections have made.
  datatype Tour = Tour(events: seq<Event>, confs: nat, hosts: nat)

  function Then(a: Tour, b: Tour): Tour {
    Tour(a.events + b.events, b.confs, b.hosts)
  }

  function NumberedSection(act: Act, node: Tree, confs: nat, hosts: nat): Section {
    Section(act, node.name, node.args, ZoneOf(node.name), if act.VirtualHost? then hosts else confs)
  }

  // Directives in the order of the lines, each command on its own, sections with what is in them.
  function TourAll(t: Table, f: seq<Tree>, within: seq<Section>, confs: nat, hosts: nat): Tour
    decreases Sizes(f), 2, 0
  {
    if f == [] then Tour([], confs, hosts)
    else
      assert Size(f[0]) > Sizes(f[0].kids);
      var key := Lower(f[0].name);
      var first := if key in t.handlers then TourOne(t, t.handlers[key], f[0], within, confs, hosts)
                   else Tour([Meet(f[0], None, within)], confs, hosts);
      Then(first, TourAll(t, f[1..], within, first.confs, first.hosts))
  }

  function TourOne(t: Table, cmds: seq<Command>, node: Tree, within: seq<Section>, confs: nat, hosts: nat): Tour
    decreases Size(node), 1, |cmds|
  {
    if cmds == [] then Tour([], confs, hosts)
    else
      var first := TourCommand(t, cmds[0], node, within, confs, hosts);
      Then(first, TourOne(t, cmds[1..], node, within, first.confs, first.hosts))
  }

  // A command that is executed on reading is passed over.  A section for a path has its own
  // configuration, and a virtual host its own server.
  function TourCommand(t: Table, cmd: Command, node: Tree, within: seq<Section>, confs: nat, hosts: nat): Tour
    decreases Size(node), 0, 0
  {
    if ExecOnRead in cmd.req then Tour([], confs, hosts)
    else if cmd.act == Simple then Tour([Meet(node, Some(cmd), within)], confs, hosts)
    else
      var sec := NumberedSection(cmd.act, node, confs, hosts);
      var confs1 := if Has(cmd.act, Own) then confs + 1 else confs;
      var hosts1 := if cmd.act.VirtualHost? then hosts + 1 else hosts;
      var inside := TourAll(t, node.kids, [sec] + within, confs1, hosts1);
      Tour([Meet(node, Some(cmd), within)] + inside.events + [Leave(sec, within)], inside.confs, inside.hosts)
  }

  // ----- what a place allows

  // The directive is known, one of its rights is granted, and its own function is content.
  ghost predicate Passes(t: Table, outer: Scope, e: Event) {
    match e
    case Meet(node, None, _) => false
    case Meet(node, Some(cmd), within) =>
      var r := ScopeIn(t, within, outer);
      && r.Some? && (exists right :: right in cmd.req && right in Rights(within, outer))
      && if cmd.act == Simple then t.accepts(cmd.mod, node.name, node.args, r.value)
         else Allowed(Forbidden(cmd.act), within, r.value) && Readable(t, cmd.act, node.args)
    case Leave(sec, _) =>
      Has(sec.act, Own) ==> t.target(sec.act, Argument(sec.args)).Some?
                            && !t.target(sec.act, Argument(sec.args)).value.extra
  }

  ghost predicate AllPass(t: Table, outer: Scope, events: seq<Event>) {
    forall i :: 0 <= i < |events| ==> Passes(t, outer, events[i])
  }

  // What is logged at a place.
  function LoggedAt(t: Table, outer: Scope, e: Event): seq<Entry> {
    match e
    case Meet(node, Some(cmd), within) =>
      if cmd.act == Simple && ScopeIn(t, within, outer).Some? then
        [Ran(cmd.mod, node.name, node.args, ScopeIn(t, within, outer).value, within)]
      else []
    case Meet(_, None, _) => []
    case Leave(sec, within) =>
      var target := t.target(sec.act, Argument(sec.args));
      if Has(sec.act, Own) && target.Some? && ScopeIn(t, within, outer).Some? then
        [Added(sec, target.value.path, ScopeIn(t, within, outer).value, within)]
      else []
  }

  function Logged(t: Table, outer: Scope, events: seq<Event>): seq<Entry> {
    if events == [] then [] else LoggedAt(t, outer, events[0]) + Logged(t, outer, events[1..])
  }

  lemma {:induction false} LoggedAppend(t: Table, outer: Scope, a: seq<Event>, b: seq<Event>)
    ensures Logged(t, outer, a + b) == Logged(t, outer, a) + Logged(t, outer, b)
  {
    hide LoggedAt;
    if a == [] {
      assert a + b == b;
    } else {
      LoggedAppend(t, outer, a[1..], b);
      assert (a + b)[0] == a[0] && (a + b)[1..] == a[1..] + b;
    }
  }

  // A walk succeeds exactly if all places of its text allow what stands there, and then it
  // does exactly what these places say.
  ghost predicate Tells(t: Table, outer: Scope, w: World, r: Option<World>, tour: Tour) {
    && (r.Some? <==> AllPass(t, outer, tour.events))
    && (r.Some? ==> r.value == World(w.log + Logged(t, outer, tour.events), tour.confs, tour.hosts))
  }

  lemma TellsThen(t: Table, outer: Scope, w: World, w1: World, r: Option<World>, a: Tour, b: Tour)
    requires Tells(t, outer, w, Some(w1), a) && Tells(t, outer, w1, r, b)
    ensures Tells(t, outer, w, r, Then(a, b))
  {
    hide Passes, Logged;
    LoggedAppend(t, outer, a.events, b.events);
    var all := a.events + b.events;
    assert forall i :: 0 <= i < |b.events| ==> b.events[i] == all[|a.events| + i];
    assert forall i :: 0 <= i < |a.events| ==> a.events[i] == all[i];
    if r.Some? {
      assert (w.log + Logged(t, outer, a.events)) + Logged(t, outer, b.events)
          == w.log + (Logged(t, outer, a.events) + Logged(t, outer, b.events));
    }
  }

  // If the first part is refused, so is the whole.
  lemma TellsNot(t: Table, outer: Scope, w: World, a: Tour, b: Tour)
    requires Tells(t, outer, w, None, a)
    ensures Tells(t, outer, w, None, Then(a, b))
  {
    hide Passes;
    var i :| 0 <= i < |a.events| && !Passes(t, outer, a.events[i]);
    assert (a.events + b.events)[i] == a.events[i];
  }

  lemma TellsNothing(t: Table, outer: Scope, w: World)
    ensures Tells(t, outer, w, Some(w), Tour([], w.confs, w.hosts))
  {
    assert w.log + [] == w.log;
  }

  lemma {:induction false} WalkTells(t: Table, f: seq<Tree>, within: seq<Section>, s: Scope, w: World, outer: Scope)
    requires ScopeIn(t, within, outer) == Some(s)
    ensures Tells(t, outer, w, WalkAll(t, f, within, s, w), TourAll(t, f, within, w.confs, w.hosts))
    decreases Sizes(f), 3, 0
  {
    hide Tells, Then, ScopeIn, Lower;
    TellsNothing(t, outer, w);
    if f != [] {
      var key := Lower(f[0].name);
      var r := WalkOne(t, f[0], within, s, w);
      if key in t.handlers {
        var first := TourOne(t, t.handlers[key], f[0], within, w.confs, w.hosts);
        CommandsTell(t, t.handlers[key], f[0], within, s, w, outer);
        var rest := TourAll(t, f[1..], within, first.confs, first.hosts);
        if r.Some? {
          TellsCounts(t, outer, w, r.value, first);
          WalkTells(t, f[1..], within, s, r.value, outer);
          TellsThen(t, outer, w, r.value, WalkAll(t, f[1..], within, s, r.value), first, rest);
        } else {
          TellsNot(t, outer, w, first, rest);
        }
      } else {
        UnknownTells(t, outer, w, f[0], within);
        TellsNot(t, outer, w, Tour([Meet(f[0], None, within)], w.confs, w.hosts),
                 TourAll(t, f[1..], within, w.confs, w.hosts));
      }
    }
  }

  lemma TellsCounts(t: Table, outer: Scope, w: World, w1: World, a: Tour)
    requires Tells(t, outer, w, Some(w1), a)
    ensures w1.confs == a.confs && w1.hosts == a.hosts
  {
  }

  lemma UnknownTells(t: Table, outer: Scope, w: World, node: Tree, within: seq<Section>)
    ensures Tells(t, outer, w, None, Tour([Meet(node, None, within)], w.confs, w.hosts))
  {
    assert !Passes(t, outer, [Meet(node, None, within)][0]);
  }

  lemma {:induction false} CommandsTell(t: Table, cmds: seq<Command>, node: Tree, within: seq<Section>, s: Scope,
      w: World, outer: Scope)
    requires ScopeIn(t, within, outer) == Some(s)
    ensures Tells(t, outer, w, Invoke(t, cmds, node, within, s, w), TourOne(t, cmds, node, within, w.confs, w.hosts))
    decreases Size(node), 1, |cmds|
  {
    hide Tells, Then, ScopeIn, Run, TourCommand;
    TellsNothing(t, outer, w);
    if cmds != [] {
      var r, first := Run(t, cmds[0], node, within, s, w), TourCommand(t, cmds[0], node, within, w.confs, w.hosts);
      CommandTells(t, cmds[0], node, within, s, w, outer);
      var rest := TourOne(t, cmds[1..], node, within, first.confs, first.hosts);
      if r.Some? {
        TellsCounts(t, outer, w, r.value, first);
        CommandsTell(t, cmds[1..], node, within, s, r.value, outer);
        TellsThen(t, outer, w, r.value, Invoke(t, cmds[1..], node, within, s, r.value), first, rest);
      } else {
        TellsNot(t, outer, w, first, rest);
      }
    }
  }

  lemma {:induction false} CommandTells(t: Table, cmd: Command, node: Tree, within: seq<Section>, s: Scope, w: World,
      outer: Scope)
    requires ScopeIn(t, within, outer) == Some(s)
    ensures Tells(t, outer, w, Run(t, cmd, node, within, s, w), TourCommand(t, cmd, node, within, w.confs, w.hosts))
    decreases Size(node), 0, 0
  {
    if ExecOnRead in cmd.req {
      TellsNothing(t, outer, w);
    } else if cmd.act == Simple {
      SimpleTells(t, cmd, node, within, s, w, outer);
    } else {
      hide Tells, Then, ScopeIn, WalkAll, TourAll, Passes, Allowed, Argument;
      var sec, w1 := SectionOf(cmd.act, node, w), Created(cmd.act, w);
      var meet := Tour([Meet(node, Some(cmd), within)], w1.confs, w1.hosts);
      var inside := TourAll(t, node.kids, [sec] + within, w1.confs, w1.hosts);
      var leave := Tour([Leave(sec, within)], inside.confs, inside.hosts);
      SectionTour(t, cmd, node, within, w, sec, meet, inside, leave);
      if MayEnter(t, cmd, sec, within, s) {
        MeetTells(t, cmd, node, within, s, w, outer);
        var inner := Rescope(t, sec, s).value;
        Inner(t, sec, within, outer, s);
        WalkTells(t, node.kids, [sec] + within, inner, w1, outer);
        var r := WalkAll(t, node.kids, [sec] + within, inner, w1);
        TellsThen(t, outer, w, w1, r, meet, inside);
        if r.Some? {
          TellsCounts(t, outer, w1, r.value, inside);
          LeaveTells(t, sec, within, s, r.value, outer);
          TellsThen(t, outer, w, r.value, Finish(t, sec, s, within, r.value), Then(meet, inside), leave);
        } else {
          TellsNot(t, outer, w, Then(meet, inside), leave);
        }
      } else {
        MeetTells(t, cmd, node, within, s, w, outer);
        TellsNot(t, outer, w, meet, inside);
        TellsNot(t, outer, w, Then(meet, inside), leave);
      }
    }
  }

  ghost predicate MayEnter(t: Table, cmd: Command, sec: Section, within: seq<Section>, s: Scope) {
    !(s.override !! cmd.req) && Allowed(Forbidden(cmd.act), within, s) && Rescope(t, sec, s).Some?
  }

  lemma Inner(t: Table, sec: Section, within: seq<Section>, outer: Scope, s: Scope)
    requires ScopeIn(t, within, outer) == Some(s)
    ensures ScopeIn(t, [sec] + within, outer) == Rescope(t, sec, s)
  {
    hide Rescope;
    assert ([sec] + within)[1..] == within;
  }

  lemma SectionTour(t: Table, cmd: Command, node: Tree, within: seq<Section>, w: World, sec: Section, meet: Tour,
      inside: Tour, leave: Tour)
    requires ExecOnRead !in cmd.req && cmd.act != Simple && sec == SectionOf(cmd.act, node, w)
    requires var w1 := Created(cmd.act, w);
             && meet == Tour([Meet(node, Some(cmd), within)], w1.confs, w1.hosts)
             && inside == TourAll(t, node.kids, [sec] + within, w1.confs, w1.hosts)
             && leave == Tour([Leave(sec, within)], inside.confs, inside.hosts)
    ensures TourCommand(t, cmd, node, within, w.confs, w.hosts) == Then(Then(meet, inside), leave)
  {
    hide TourAll;
  }

  lemma SimpleTells(t: Table, cmd: Command, node: Tree, within: seq<Section>, s: Scope, w: World, outer: Scope)
    requires ScopeIn(t, within, outer) == Some(s) && cmd.act == Simple && ExecOnRead !in cmd.req
    ensures Tells(t, outer, w, Run(t, cmd, node, within, s, w), TourCommand(t, cmd, node, within, w.confs, w.hosts))
  {
    hide ScopeIn, Rights, SettingsOf;
    var e := Meet(node, Some(cmd), within);
    GrantedRights(t, cmd, within, s, outer);
    assert [e][0] == e && [e][1..] == [];
    assert AllPass(t, outer, [e]) <==> Passes(t, outer, e);
    assert Logged(t, outer, [e]) == LoggedAt(t, outer, e) + [] == LoggedAt(t, outer, e);
  }

  lemma GrantedRights(t: Table, cmd: Command, within: seq<Section>, s: Scope, outer: Scope)
    requires ScopeIn(t, within, outer) == Some(s)
    ensures !(s.override !! cmd.req) <==> exists right :: right in cmd.req && right in Rights(within, outer)
  {
    hide Rights, ScopeIn;
    ScopeInIs(t, within, outer);
    assert s.override == Rights(within, outer);
  }

  lemma MeetTells(t: Table, cmd: Command, node: Tree, within: seq<Section>, s: Scope, w: World, outer: Scope)
    requires ScopeIn(t, within, outer) == Some(s) && cmd.act != Simple
    ensures var w1 := Created(cmd.act, w);
            var r := if MayEnter(t, cmd, SectionOf(cmd.act, node, w), within, s) then Some(w1) else None;
            Tells(t, outer, w, r, Tour([Meet(node, Some(cmd), within)], w1.confs, w1.hosts))
  {
    hide ScopeIn, Rights, SettingsOf, Allowed, Rescope, Readable;
    var e, sec := Meet(node, Some(cmd), within), SectionOf(cmd.act, node, w);
    GrantedRights(t, cmd, within, s, outer);
    EnterIs(t, sec, within, outer, s);
    assert [e][0] == e && [e][1..] == [];
    assert AllPass(t, outer, [e]) <==> Passes(t, outer, e);
    assert Logged(t, outer, [e]) == [] && w.log + [] == w.log;
  }

  lemma EnterIs(t: Table, sec: Section, within: seq<Section>, outer: Scope, s: Scope)
    requires ScopeIn(t, within, outer) == Some(s)
    ensures Rescope(t, sec, s).Some? <==> Readable(t, sec.act, sec.args)
  {
    hide SettingsOf, ScopeIn, Rescope, Readable;
    ScopeInIs(t, within, outer);
    assert ([sec] + within)[1..] == within;
    RescopeIs(t, [sec] + within, outer, s);
  }

  lemma LeaveTells(t: Table, sec: Section, within: seq<Section>, s: Scope, w: World, outer: Scope)
    requires ScopeIn(t, within, outer) == Some(s)
    ensures Tells(t, outer, w, Finish(t, sec, s, within, w), Tour([Leave(sec, within)], w.confs, w.hosts))
  {
    hide ScopeIn, Argument;
    var e := Leave(sec, within);
    assert [e][0] == e && [e][1..] == [];
    assert AllPass(t, outer, [e]) <==> Passes(t, outer, e);
    assert Logged(t, outer, [e]) == LoggedAt(t, outer, e) + [] == LoggedAt(t, outer, e);
    assert w.log + [] == w.log;
  }

  // ----- what was run had the right to

  // The commands a tour meets are those known by the name of the directive, and none that is
  // executed on reading.
  ghost predicate Knows(t: Table, e: Event) {
    e.Meet? && e.cmd.Some? ==>
      var key := Lower(e.node.name);
      key in t.handlers && e.cmd.value in t.handlers[key] && ExecOnRead !in e.cmd.value.req
  }

  ghost predicate AllKnow(t: Table, events: seq<Event>) {
    forall i :: 0 <= i < |events| ==> Knows(t, events[i])
  }

  lemma KnowThen(t: Table, a: seq<Event>, b: seq<Event>)
    requires AllKnow(t, a) && AllKnow(t, b)
    ensures AllKnow(t, a + b)
  {
  }

  lemma {:induction false} TourKnows(t: Table, f: seq<Tree>, within: seq<Section>, confs: nat, hosts: nat)
    ensures AllKnow(t, TourAll(t, f, within, confs, hosts).events)
    decreases Sizes(f), 2, 0
  {
    hide Lower;
    if f != [] {
      assert Size(f[0]) > Sizes(f[0].kids);
      var key := Lower(f[0].name);
      var first := if key in t.handlers then TourOne(t, t.handlers[key], f[0], within, confs, hosts)
                   else Tour([Meet(f[0], None, within)], confs, hosts);
      if key in t.handlers {
        CommandsKnown(t, t.handlers[key], f[0], within, confs, hosts);
      }
      TourKnows(t, f[1..], within, first.confs, first.hosts);
      KnowThen(t, first.events, TourAll(t, f[1..], within, first.confs, first.hosts).events);
    }
  }

  lemma {:induction false} CommandsKnown(t: Table, cmds: seq<Command>, node: Tree, within: seq<Section>, confs: nat,
      hosts: nat)
    requires Lower(node.name) in t.handlers && forall cmd :: cmd in cmds ==> cmd in t.handlers[Lower(node.name)]
    ensures AllKnow(t, TourOne(t, cmds, node, within, confs, hosts).events)
    decreases Size(node), 1, |cmds|
  {
    hide Lower;
    if cmds != [] {
      var cmd := cmds[0];
      var first := TourCommand(t, cmd, node, within, confs, hosts);
      if cmd.act != Simple && ExecOnRead !in cmd.req {
        var sec := NumberedSection(cmd.act, node, confs, hosts);
        var confs1 := if Has(cmd.act, Own) then confs + 1 else confs;
        var hosts1 := if cmd.act.VirtualHost? then hosts + 1 else hosts;
        var inside := TourAll(t, node.kids, [sec] + within, confs1, hosts1);
        assert Size(node) > Sizes(node.kids);
        TourKnows(t, node.kids, [sec] + within, confs1, hosts1);
        KnowThen(t, [Meet(node, Some(cmd), within)], inside.events);
        KnowThen(t, [Meet(node, Some(cmd), within)] + inside.events, [Leave(sec, within)]);
      }
      CommandsKnown(t, cmds[1..], node, within, first.confs, first.hosts);
      KnowThen(t, first.events, TourOne(t, cmds[1..], node, within, first.confs, first.hosts).events);
    }
  }

  // An entry of the log that says a plain command was run was right to do so.
  ghost predicate Rightful(t: Table, outer: Scope, e: Entry) {
    e.Ran? ==>
      && Lower(e.name) in t.handlers && ScopeIn(t, e.within, outer) == Some(e.scope)
      && e.scope.override == Rights(e.within, outer)
      && t.accepts(e.mod, e.name, e.args, e.scope)
      && exists cmd :: cmd in t.handlers[Lower(e.name)] && cmd.mod == e.mod && cmd.act == Simple
                       && ExecOnRead !in cmd.req && !(cmd.req !! e.scope.override)
  }

  lemma {:induction false} LoggedIsRightful(t: Table, outer: Scope, events: seq<Event>)
    requires AllPass(t, outer, events) && AllKnow(t, events)
    ensures forall i :: 0 <= i < |Logged(t, outer, events)| ==> Rightful(t, outer, Logged(t, outer, events)[i])
  {
    hide Passes, Knows, Rightful, LoggedAt;
    if events != [] {
      LoggedIsRightful(t, outer, events[1..]);
      OneIsRightful(t, outer, events[0]);
    }
  }

  lemma OneIsRightful(t: Table, outer: Scope, e: Event)
    requires Passes(t, outer, e) && Knows(t, e)
    ensures forall i :: 0 <= i < |LoggedAt(t, outer, e)| ==> Rightful(t, outer, LoggedAt(t, outer, e)[i])
  {
    hide ScopeIn, Lower, Rights;
    if e.Meet? && e.cmd.value.act == Simple {
      var r, cmd := ScopeIn(t, e.within, outer), e.cmd.value;
      ScopeInIs(t, e.within, outer);
      GrantedRights(t, cmd, e.within, r.value, outer);
      assert LoggedAt(t, outer, e) == [Ran(cmd.mod, e.node.name, e.node.args, r.value, e.within)];
      assert Rightful(t, outer, Ran(cmd.mod, e.node.name, e.node.args, r.value, e.within));
    }
  }

  // No plain command is run without a right its place grants.
  lemma RanIsRightful(t: Table, f: seq<Tree>, within: seq<Section>, s: Scope, w: World, outer: Scope)
    requires ScopeIn(t, within, outer) == Some(s)
    ensures var r := WalkAll(t, f, within, s, w);
            r.Some? ==>
              && w.log <= r.value.log
              && forall i :: |w.log| <= i < |r.value.log| ==> Rightful(t, outer, r.value.log[i])
  {
    hide WalkAll, TourAll, ScopeIn, AllPass, AllKnow, Rightful, Logged;
    var tour := TourAll(t, f, within, w.confs, w.hosts);
    WalkTells(t, f, within, s, w, outer);
    TourKnows(t, f, within, w.confs, w.hosts);
    if WalkAll(t, f, within, s, w).Some? {
      LoggedIsRightful(t, outer, tour.events);
    }
  }

  // ----- the rules of nesting, by name

  // The sections for paths go by their names, in any case.
  ghost predicate Proper(t: Table) {
    forall key, cmd :: key in t.handlers && cmd in t.handlers[key] && cmd.act != Simple ==>
      && (cmd.act.Directory? <==> key == "<directory" || key == "<directorymatch")
      && (cmd.act.Location? <==> key == "<location" || key == "<locationmatch")
      && (cmd.act.Files? <==> key == "<files" || key == "<filesmatch")
  }

  ghost predicate WellPlaced(e: Event) {
    e.Meet? ==> WellNamed(e.within)
  }

  ghost predicate AllWellPlaced(events: seq<Event>) {
    forall i :: 0 <= i < |events| ==> WellPlaced(events[i])
  }

  lemma PlacedThen(a: seq<Event>, b: seq<Event>)
    requires AllWellPlaced(a) && AllWellPlaced(b)
    ensures AllWellPlaced(a + b)
  {
  }

  lemma EnterNamed(t: Table, cmd: Command, key: string, sec: Section, within: seq<Section>)
    requires Proper(t) && WellNamed(within) && key in t.handlers && cmd in t.handlers[key] && cmd.act != Simple
    requires sec.act == cmd.act && Lower(sec.name) == key && sec.zone == ZoneOf(sec.name)
    ensures WellNamed([sec] + within)
  {
    hide Lower;
    assert forall i :: 0 < i < |[sec] + within| ==> ([sec] + within)[i] == within[i - 1];
  }

  lemma {:induction false} TourPlaced(t: Table, f: seq<Tree>, within: seq<Section>, confs: nat, hosts: nat)
    requires Proper(t) && WellNamed(within)
    ensures AllWellPlaced(TourAll(t, f, within, confs, hosts).events)
    decreases Sizes(f), 2, 0
  {
    hide Lower, Proper, WellNamed;
    if f != [] {
      assert Size(f[0]) > Sizes(f[0].kids);
      var key := Lower(f[0].name);
      var first := if key in t.handlers then TourOne(t, t.handlers[key], f[0], within, confs, hosts)
                   else Tour([Meet(f[0], None, within)], confs, hosts);
      if key in t.handlers {
        CommandsPlaced(t, t.handlers[key], f[0], within, confs, hosts);
      }
      TourPlaced(t, f[1..], within, first.confs, first.hosts);
      PlacedThen(first.events, TourAll(t, f[1..], within, first.confs, first.hosts).events);
    }
  }

  lemma {:induction false} CommandsPlaced(t: Table, cmds: seq<Command>, node: Tree, within: seq<Section>, confs: nat,
      hosts: nat)
    requires Proper(t) && WellNamed(within)
    requires Lower(node.name) in t.handlers && forall cmd :: cmd in cmds ==> cmd in t.handlers[Lower(node.name)]
    ensures AllWellPlaced(TourOne(t, cmds, node, within, confs, hosts).events)
    decreases Size(node), 1, |cmds|
  {
    hide Lower, Proper, WellNamed, ZoneOf;
    if cmds != [] {
      var cmd := cmds[0];
      var first := TourCommand(t, cmd, node, within, confs, hosts);
      if cmd.act != Simple && ExecOnRead !in cmd.req {
        var sec := NumberedSection(cmd.act, node, confs, hosts);
        var confs1 := if Has(cmd.act, Own) then confs + 1 else confs;
        var hosts1 := if cmd.act.VirtualHost? then hosts + 1 else hosts;
        var inside := TourAll(t, node.kids, [sec] + within, confs1, hosts1);
        EnterNamed(t, cmd, Lower(node.name), sec, within);
        assert Size(node) > Sizes(node.kids);
        TourPlaced(t, node.kids, [sec] + within, confs1, hosts1);
        PlacedThen([Meet(node, Some(cmd), within)], inside.events);
        PlacedThen([Meet(node, Some(cmd), within)] + inside.events, [Leave(sec, within)]);
      }
      CommandsPlaced(t, cmds[1..], node, within, first.confs, first.hosts);
      PlacedThen(first.events, TourOne(t, cmds[1..], node, within, first.confs, first.hosts).events);
    }
  }

  // What a place allows, by the sections around it alone.
  ghost predicate Admits(t: Table, outer: Scope, e: Event) {
    match e
    case Meet(node, None, _) => false
    case Meet(node, Some(cmd), within) =>
      && (forall i :: 0 <= i < |within| ==> Readable(t, within[i].act, within[i].args))
      && (exists right :: right in cmd.req && right in Rights(within, outer))
      && if cmd.act == Simple then
           exists s :: SettingsOf(t, within, outer, s) && t.accepts(cmd.mod, node.name, node.args, s)
         else MayOpen(cmd.act, within) && Readable(t, cmd.act, node.args)
    case Leave(sec, _) => Passes(t, outer, e)
  }

  lemma AdmitsIs(t: Table, outer: Scope, e: Event)
    requires Outermost(outer) && WellPlaced(e)
    ensures Admits(t, outer, e) <==> Passes(t, outer, e)
  {
    hide ScopeIn, Rights, SettingsOf, Allowed, MayOpen, Readable, WellNamed;
    if e.Meet? && e.cmd.Some? {
      ScopeInIs(t, e.within, outer);
      if ScopeIn(t, e.within, outer).Some? {
        var s := ScopeIn(t, e.within, outer).value;
        ContextCheckIsNesting(t, e.cmd.value.act, e.within, outer);
        forall s' | SettingsOf(t, e.within, outer, s')
          ensures s' == s
        {
          OneSetting(t, e.within, outer, s, s');
        }
      }
    }
  }

  lemma OneSetting(t: Table, within: seq<Section>, outer: Scope, s: Scope, s': Scope)
    requires SettingsOf(t, within, outer, s) && SettingsOf(t, within, outer, s')
    ensures s == s'
  {
    hide Rights, Argument, Innermost;
  }

  // ----- at the beginning

  // Outside of sections for paths a file of the server has these rights.
  lemma TopRights(within: seq<Section>)
    ensures Rights(within, START) ==
            if exists i :: 0 <= i < |within| && Has(within[i].act, Own)
            then {OrLimit, OrOptions, OrFileInfo, OrAuthCfg, OrIndexes, AccessConf}
            else {RsrcConf, OrOptions, OrFileInfo, OrIndexes}
  {
    assert START.path == None && START.override == {RsrcConf, OrOptions, OrFileInfo, OrIndexes};
    assert forall i :: 0 <= i < |within| ==> (Grants(within[i].act, START) <==> Has(within[i].act, Own));
  }

  // The argument of a section is what stands before its last '>'.
  lemma ArgumentIs(arg: string, junk: string)
    requires '>' !in junk
    ensures Argument(arg + ">" + junk) == arg && Argument(junk) == ""
  {
    LastBracketIs(arg, junk);
    NoBracket(junk);
    assert (arg + ">" + junk)[..|arg|] == arg;
  }
}
