/**
  From the lines of a configuration file to what the server has been told: the tree is
  built in memory, and then executed.
*/
module ServerConfig {
  import opened Directives
  import opened TreeLayout
  import opened ConfigGrammar
  import opened ConfigTree
  import opened ConfigBuild
  import opened ConfigWalk
  import opened WalkLaws

  // What executing a whole tree does; None is a startup error.
  function Execute(t: Table, f: seq<Tree>): Option<World> {
    WalkAll(t, f, [], START.(context := Defaults(MainServer)), World([], 0, 0))
  }

  const BEGIN: Scope := START.(context := Defaults(MainServer))

  // The places of the text, from the start of the server on.
  function Places(t: Table, f: seq<Tree>): Tour {
    TourAll(t, f, [], 0, 0)
  }

  // A tree is executed exactly if each place of it allows what stands there, and what is done
  // is what the places say, each plain command with a right that its sections grant.
  lemma ExecuteIs(t: Table, f: seq<Tree>)
    ensures var r, tour := Execute(t, f), Places(t, f);
            && (r.Some? <==> AllPass(t, BEGIN, tour.events))
            && (Proper(t) ==> (r.Some? <==> forall i :: 0 <= i < |tour.events| ==> Admits(t, BEGIN, tour.events[i])))
            && (r.Some? ==> r.value == World(Logged(t, BEGIN, tour.events), tour.confs, tour.hosts)
                            && forall e :: e in r.value.log ==> Rightful(t, BEGIN, e))
  {
    hide WalkAll, TourAll, Passes, Admits, Logged, Rightful, Proper, WellPlaced;
    if Proper(t) {
      TourPlaced(t, f, [], 0, 0);
      forall i | 0 <= i < |Places(t, f).events|
        ensures Admits(t, BEGIN, Places(t, f).events[i]) <==> Passes(t, BEGIN, Places(t, f).events[i])
      {
        AdmitsIs(t, BEGIN, Places(t, f).events[i]);
      }
    }
    WalkTells(t, f, [], BEGIN, World([], 0, 0), BEGIN);
    RanIsRightful(t, f, [], BEGIN, World([], 0, 0), BEGIN);
    assert [] + Logged(t, BEGIN, Places(t, f).events) == Logged(t, BEGIN, Places(t, f).events);
  }

  // ap_build_config followed by ap_process_config_tree.
  method LoadConfig(env: Env, t: Table, lines: seq<Line>) returns (ok: bool, parms: CmdParms)
    requires SectionsLast(t)
    ensures fresh(parms)
    ensures var f := Build(env, lines, []);
            if f.Some? then Execute(t, f.value) == if ok then Some(parms.W()) else None else !ok
    ensures var f := Build(env, lines, []);
            && (ok <==> f.Some? && AllPass(t, BEGIN, Places(t, f.value).events))
            && (ok ==> parms.log == Logged(t, BEGIN, Places(t, f.value).events)
                       && forall e :: e in parms.log ==> Rightful(t, BEGIN, e))
    ensures ok ==> parms.S() == START
  {
    hide WalkAll, TourAll, AllPass, Logged, Rightful;
    parms := new CmdParms(t);
    var rd := new Reader(lines);
    var none: seq<Tree> := [];
    assert Listed(null, 0, [], none) by {
      assert Layout(none, 0, NIL, NIL) == [];
    }
    var report, head;
    ghost var nodes;
    report, head, nodes := BuildConfig(null, env, rd, [], none);
    if !report.Complete? {
      return false, parms;
    }
    ExecuteIs(t, Build(env, lines, []).value);
    ok := parms.WalkConfig(head, Defaults(MainServer), Build(env, lines, []).value, null, [], nodes);
  }

  // The printed form of a tree is executed like the tree.
  method LoadPrinted(env: Env, t: Table, f: seq<Tree>) returns (ok: bool, parms: CmdParms)
    requires SectionsLast(t) && Printable(f)
    ensures fresh(parms) && Execute(t, f) == if ok then Some(parms.W()) else None
  {
    PrintThenRead(env, f);
    ok, parms := LoadConfig(env, t, Print(f));
  }
}
