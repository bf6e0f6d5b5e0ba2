/**
  The two ways a command is found: the hash of all commands, filled by ap_add_module_commands,
  and the linear search ap_find_command_in_modules over the list of modules.
*/
module Commands {
  import opened Directives

  const MODULE_MAGIC_NUMBER_MAJOR := 20051115
  const DYNAMIC_MODULE_LIMIT := 128

  // One command_rec; `slot` tells the entries of a module's table apart.
  datatype Cmd = Cmd(name: string, slot: nat)

  class Module {
    const name: string
    const version: int
    const cmds: seq<Cmd>
    var next: Module?
    var moduleIndex: int

    constructor (name: string, version: int, cmds: seq<Cmd>)
      ensures this.name == name && this.version == version && this.cmds == cmds
      ensures next == null && moduleIndex == -1
    {
      this.name, this.version, this.cmds := name, version, cmds;
      next, moduleIndex := null, -1;
    }
  }

  // ap_mod_list
  datatype Entry = Entry(m: Module, cmd: Cmd)

  // ----- what both searches look at

  // The commands of a table with this name, in their order.
  function Named(cmds: seq<Cmd>, key: string): (r: seq<Cmd>)
    ensures |r| <= |cmds|
  {
    if cmds == [] then []
    else if Lower(cmds[0].name) == key then [cmds[0]] + Named(cmds[1..], key)
    else Named(cmds[1..], key)
  }

  // The entries of a module, the last of its commands first.
  function Entries(m: Module, cmds: seq<Cmd>, key: string): seq<Entry> {
    if cmds == [] then []
    else
      var rest := Entries(m, cmds[1..], key);
      if Lower(cmds[0].name) == key then rest + [Entry(m, cmds[0])] else rest
  }

  // The entries of all modules, the newest module first.
  function AllEntries(mods: seq<Module>, key: string): seq<Entry> {
    if mods == [] then [] else Entries(mods[0], mods[0].cmds, key) + AllEntries(mods[1..], key)
  }

  // What the linear search finds.
  function FoundIn(mods: seq<Module>, key: string): Option<Entry> {
    if mods == [] then None
    else if Named(mods[0].cmds, key) != [] then Some(Entry(mods[0], Named(mods[0].cmds, key)[0]))
    else FoundIn(mods[1..], key)
  }

  function Lookup(hash: map<string, seq<Entry>>, key: string): seq<Entry> {
    if key in hash then hash[key] else []
  }

  // The search from the i-th module on.
  lemma FoundAt(mods: seq<Module>, i: nat, key: string)
    requires i < |mods|
    ensures var named := Named(mods[i].cmds, key);
            FoundIn(mods[i..], key) ==
            if named != [] then Some(Entry(mods[i], named[0])) else FoundIn(mods[i + 1..], key)
  {
    assert mods[i..][1..] == mods[i + 1..];
  }

  lemma FoundNowhere(key: string)
    ensures FoundIn([], key) == None
  {
  }

  // The command at place i is the first one with this name, in any case.
  predicate FirstOf(cmds: seq<Cmd>, name: string, i: nat) {
    i < |cmds| && SameName(name, cmds[i].name) && forall j :: 0 <= j < i ==> !SameName(name, cmds[j].name)
  }

  predicate Without(cmds: seq<Cmd>, name: string) {
    forall j :: 0 <= j < |cmds| ==> !SameName(name, cmds[j].name)
  }

  // ap_find_command
  method FindCommand(name: string, cmds: seq<Cmd>) returns (found: Option<Cmd>)
    ensures found == if Named(cmds, Lower(name)) == [] then None else Some(Named(cmds, Lower(name))[0])
    ensures if found.Some? then exists i: nat :: FirstOf(cmds, name, i) && found.value == cmds[i]
            else Without(cmds, name)
  {
    var i := 0;
    while i < |cmds|
      invariant i <= |cmds| && Named(cmds[i..], Lower(name)) == Named(cmds, Lower(name))
      invariant forall j :: 0 <= j < i ==> !SameName(name, cmds[j].name)
    {
      assert cmds[i..][1..] == cmds[i + 1..];
      if SameName(name, cmds[i].name) {
        assert FirstOf(cmds, name, i);
        return Some(cmds[i]);
      }
      i := i + 1;
    }
    found := None;
  }

  class Registry {
    var top: Module?                           // ap_top_module
    var hash: map<string, seq<Entry>>          // ap_config_hash
    var totalModules: nat
    var dynamicModules: nat
    ghost var mods: seq<Module>                // the linked modules, the newest first

    constructor ()
      ensures Linked() && Complete() && mods == [] && totalModules == dynamicModules == 0
    {
      top, hash, totalModules, dynamicModules, mods := null, map[], 0, 0, [];
    }

    ghost function At(i: int): Module?
      reads `mods
    {
      if 0 <= i < |mods| then mods[i] else null
    }

    ghost predicate Linked()
      reads `top, `mods, mods`next
    {
      && (forall i, j :: 0 <= i < j < |mods| ==> mods[i] != mods[j])
      && top == At(0)
      && (forall i :: 0 <= i < |mods| ==> mods[i].next == At(i + 1))
    }

    // The hash holds the commands of all linked modules.
    ghost predicate Complete()
      reads `hash, `mods
    {
      && (forall key :: Lookup(hash, key) == AllEntries(mods, key))
      && (forall key :: key in hash ==> hash[key] != [])
    }

    // ap_add_module_commands
    method AddModuleCommands(m: Module)
      requires forall key :: key in hash ==> hash[key] != []
      modifies this`hash
      ensures forall key :: Lookup(hash, key) == Entries(m, m.cmds, key) + Lookup(old(hash), key)
      ensures forall key :: key in hash ==> hash[key] != []
    {
      var i := 0;
      while i < |m.cmds|
        invariant i <= |m.cmds|
        invariant forall key :: key in hash ==> hash[key] != []
        invariant forall key ::
                    Entries(m, m.cmds[i..], key) + Lookup(hash, key) == Entries(m, m.cmds, key) + Lookup(old(hash), key)
      {
        var cmd := m.cmds[i];
        var dir := Lower(cmd.name);
        ghost var before := hash;
        hash := hash[dir := [Entry(m, cmd)] + if dir in hash then hash[dir] else []];
        forall key
          ensures Entries(m, m.cmds[i + 1..], key) + Lookup(hash, key)
              == Entries(m, m.cmds[i..], key) + Lookup(before, key)
        {
          assert m.cmds[i..][1..] == m.cmds[i + 1..];
          if key == dir {
            Regroup(Entries(m, m.cmds[i + 1..], key), Entry(m, cmd), Lookup(before, key));
          }
        }
        i := i + 1;
      }
    }

    // The list has become a ring, entered at what was its last module.
    ghost predicate Circular()
      reads `top, `mods, mods`next
    {
      && mods != [] && top == At(|mods| - 1) && mods[|mods| - 1].next == At(0)
      && forall i :: 0 <= i < |mods| - 1 ==> mods[i].next == mods[i + 1]
    }

    // ap_add_module.  When the limit is reached the module stays linked, but its commands are
    // not known.  A module may be added again, which enters its commands once more; but the
    // last module of the list passes for one that is not linked.
    method AddModule(m: Module) returns (ok: bool)
      requires Linked() && Complete()
      modifies this, m
      ensures ok <==> m.version == MODULE_MAGIC_NUMBER_MAJOR
                      && (old(m.moduleIndex) == -1 ==> old(dynamicModules) < DYNAMIC_MODULE_LIMIT)
      ensures if ok then forall key :: Lookup(hash, key) == Entries(m, m.cmds, key) + Lookup(old(hash), key)
              else hash == old(hash)
      ensures var looksNew := m.version == MODULE_MAGIC_NUMBER_MAJOR && old(m.next) == null;
              && mods == (if looksNew && m !in old(mods) then [m] + old(mods) else old(mods))
              && (if looksNew && m in old(mods) then Circular() else Linked())
      ensures ok && old(m.next) == null && m !in old(mods) ==> Complete()
      ensures var numbered := m.version == MODULE_MAGIC_NUMBER_MAJOR && old(m.moduleIndex) == -1;
              && m.moduleIndex == (if numbered then old(totalModules) else old(m.moduleIndex))
              && totalModules == old(totalModules) + if numbered then 1 else 0
    {
      hide Linked, Circular, Entries;
      if m.version != MODULE_MAGIC_NUMBER_MAJOR {
        return false;
      }
      if m.next == null {
        Link(m);
      }
      if m.moduleIndex == -1 {
        m.moduleIndex := totalModules;
        totalModules := totalModules + 1;
        dynamicModules := dynamicModules + 1;
        if dynamicModules > DYNAMIC_MODULE_LIMIT {
          return false;
        }
      }
      AddModuleCommands(m);
      assert m !in old(mods) && old(m.next) == null ==> mods[1..] == old(mods);
      ok := true;
    }

    // The module becomes the first of the list.
    method Link(m: Module)
      requires Linked() && m.next == null
      modifies this`top, this`mods, m`next
      ensures mods == if m in old(mods) then old(mods) else [m] + old(mods)
      ensures if m in old(mods) then Circular() else Linked()
    {
      ghost var was := mods;
      if m in mods {
        assert m == mods[|mods| - 1];
      } else {
        mods := [m] + mods;
      }
      m.next := top;
      top := m;
      assert m !in was ==> forall i :: 0 < i < |mods| ==> mods[i] == was[i - 1];
    }

    // ap_find_command_in_modules
    method FindCommandInModules(name: string, start: Module?, ghost k: nat) returns (found: Option<Entry>)
      requires Linked() && k <= |mods| && start == At(k)
      ensures found == FoundIn(mods[k..], Lower(name))
      ensures if found.Some? then exists i: nat, j: nat ::
                && k <= i < |mods| && FirstOf(mods[i].cmds, name, j) && found.value == Entry(mods[i], mods[i].cmds[j])
                && forall i' :: k <= i' < i ==> Without(mods[i'].cmds, name)
              else forall i :: k <= i < |mods| ==> Without(mods[i].cmds, name)
    {
      hide FoundIn, Named, Lower, FirstOf, Without, SameName;
      var modp := start;
      ghost var i := k;
      FoundNowhere(Lower(name));
      while modp != null
        invariant k <= i <= |mods| && modp == At(i)
        invariant FoundIn(mods[i..], Lower(name)) == FoundIn(mods[k..], Lower(name))
        invariant forall i' :: k <= i' < i ==> Without(mods[i'].cmds, name)
        decreases |mods| - i
      {
        FoundAt(mods, i, Lower(name));
        var cmd := FindCommand(name, modp.cmds);
        if cmd.Some? {
          return Some(Entry(modp, cmd.value));
        }
        modp := modp.next;
        i := i + 1;
      }
      assert mods[i..] == [];
      found := None;
    }
  }

  lemma Regroup(a: seq<Entry>, e: Entry, b: seq<Entry>)
    ensures a + ([e] + b) == (a + [e]) + b
  {
  }

  // ----- the two searches agree

  // A module's entries are its commands of that name, backwards.
  lemma {:induction false} EntriesBackwards(m: Module, cmds: seq<Cmd>, key: string)
    ensures |Entries(m, cmds, key)| == |Named(cmds, key)|
    ensures forall i :: 0 <= i < |Named(cmds, key)| ==>
              Entries(m, cmds, key)[|Named(cmds, key)| - 1 - i] == Entry(m, Named(cmds, key)[i])
  {
    hide Entries, Named, Lower;
    if cmds == [] {
      NoEntries(m, key);
    } else {
      EntriesBackwards(m, cmds[1..], key);
      EntriesHead(m, cmds, key);
      OneBackwards(m, Entries(m, cmds[1..], key), Named(cmds[1..], key), cmds[0]);
    }
  }

  lemma NoEntries(m: Module, key: string)
    ensures Entries(m, [], key) == [] && Named([], key) == []
  {
  }

  lemma EntriesHead(m: Module, cmds: seq<Cmd>, key: string)
    requires cmds != []
    ensures var es, ns := Entries(m, cmds[1..], key), Named(cmds[1..], key);
            && Entries(m, cmds, key) == (if Lower(cmds[0].name) == key then es + [Entry(m, cmds[0])] else es)
            && Named(cmds, key) == (if Lower(cmds[0].name) == key then [cmds[0]] + ns else ns)
  {
  }

  lemma OneBackwards(m: Module, es: seq<Entry>, ns: seq<Cmd>, cmd: Cmd)
    requires |es| == |ns| && forall i :: 0 <= i < |ns| ==> es[|ns| - 1 - i] == Entry(m, ns[i])
    ensures var es', ns' := es + [Entry(m, cmd)], [cmd] + ns;
            forall i :: 0 <= i < |ns'| ==> es'[|ns'| - 1 - i] == Entry(m, ns'[i])
  {
  }

  lemma {:induction false} EntriesOfModule(m: Module, cmds: seq<Cmd>, key: string)
    ensures forall i :: 0 <= i < |Entries(m, cmds, key)| ==> Entries(m, cmds, key)[i].m == m
  {
    if cmds != [] {
      EntriesOfModule(m, cmds[1..], key);
    }
  }

  // The linear search fails exactly when the hash has no entry.  Otherwise both name the
  // same module; its entries come first in the hash, and the command found is the last of
  // them.
  lemma {:induction false} SearchesAgree(mods: seq<Module>, key: string)
    ensures FoundIn(mods, key).None? <==> AllEntries(mods, key) == []
    ensures FoundIn(mods, key).Some? ==>
              var e, all := FoundIn(mods, key).value, AllEntries(mods, key);
              var n := |Named(e.m.cmds, key)|;
              && e.m in mods && 0 < n <= |all|
              && (forall i :: 0 <= i < n ==> all[i].m == e.m)
              && all[n - 1] == e
  {
    if mods != [] {
      var own, rest := Entries(mods[0], mods[0].cmds, key), AllEntries(mods[1..], key);
      EntriesOfModule(mods[0], mods[0].cmds, key);
      EntriesBackwards(mods[0], mods[0].cmds, key);
      if Named(mods[0].cmds, key) == [] {
        assert own + rest == rest;
        SearchesAgree(mods[1..], key);
      } else {
        assert forall i :: 0 <= i < |own| ==> (own + rest)[i] == own[i];
      }
    }
  }

  // The first entry of the hash is the command found exactly when the module has no other
  // command of that name.
  lemma SameCommandIff(mods: seq<Module>, key: string)
    requires FoundIn(mods, key).Some?
    requires forall m :: m in mods ==> forall i, j :: 0 <= i < j < |m.cmds| ==> m.cmds[i] != m.cmds[j]
    ensures AllEntries(mods, key) != []
    ensures AllEntries(mods, key)[0] == FoundIn(mods, key).value <==> |Named(FoundIn(mods, key).value.m.cmds, key)| == 1
  {
    SearchesAgree(mods, key);
    var e := FoundIn(mods, key).value;
    HeadIsLast(mods, key);
    NamedDistinct(e.m.cmds, key);
  }

  lemma {:induction false} HeadIsLast(mods: seq<Module>, key: string)
    requires FoundIn(mods, key).Some?
    ensures var e := FoundIn(mods, key).value;
            var named := Named(e.m.cmds, key);
            && named != [] && e.cmd == named[0] && AllEntries(mods, key) != []
            && AllEntries(mods, key)[0] == Entry(e.m, named[|named| - 1])
  {
    EntriesBackwards(mods[0], mods[0].cmds, key);
    if Named(mods[0].cmds, key) == [] {
      HeadIsLast(mods[1..], key);
    }
  }

  lemma {:induction false} NamedDistinct(cmds: seq<Cmd>, key: string)
    requires forall i, j :: 0 <= i < j < |cmds| ==> cmds[i] != cmds[j]
    ensures forall c :: c in Named(cmds, key) ==> c in cmds
    ensures forall i, j :: 0 <= i < j < |Named(cmds, key)| ==> Named(cmds, key)[i] != Named(cmds, key)[j]
  {
    if cmds != [] {
      NamedDistinct(cmds[1..], key);
      assert cmds[0] !in cmds[1..];
    }
  }
}
