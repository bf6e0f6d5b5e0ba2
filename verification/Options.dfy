/**
  The Options directive: set_options edits the option bits of one section, and
  merge_core_dir_configs lays the bits of a section over those of the sections around it.
*/
module Options {
  import opened Directives

  // The bits of allow_options_t.
  datatype Bit = Indexes | Includes | SymLinks | ExecCgi | Unset | IncWithExec | SymOwner | Multi
  type Mask = set<Bit>

  const OPT_ALL: Mask := {Indexes, Includes, IncWithExec, SymLinks, ExecCgi}

  // opts, opts_add and opts_remove of a core_dir_config.
  datatype Opts = Opts(opts: Mask, add: Mask, remove: Mask)

  // A section without Options.
  const FRESH := Opts({Unset}, {}, {})

  // ----- set_options

  datatype Sign = Plus | Minus | Bare

  function SignOf(word: string): Sign {
    if word != "" && word[0] == '+' then Plus else if word != "" && word[0] == '-' then Minus else Bare
  }

  function NameOf(word: string): string {
    if SignOf(word) == Bare then word else word[1..]
  }

  function BitsOf(name: string): (r: Option<Mask>)
    ensures r.Some? ==> Unset !in r.value
  {
    var key := Lower(name);
    if key == "indexes" then Some({Indexes})
    else if key == "includes" then Some({Includes, IncWithExec})
    else if key == "includesnoexec" then Some({Includes})
    else if key == "followsymlinks" then Some({SymLinks})
    else if key == "symlinksifownermatch" then Some({SymOwner})
    else if key == "execcgi" then Some({ExecCgi})
    else if key == "multiviews" then Some({Multi})
    else if key == "runscripts" then Some({Multi, ExecCgi})
    else if key == "none" then Some({})
    else if key == "all" then Some(OPT_ALL)
    else None
  }

  // A word with its bits.  The first bare word of a directive drops what was there.
  function Edit(o: Opts, sign: Sign, bits: Mask, first: bool): Opts {
    match sign
    case Minus => Opts(o.opts - bits, o.add - bits, o.remove + bits)
    case Plus => Opts(o.opts + bits, o.add + bits, o.remove - bits)
    case Bare => o.(opts := (if first then {} else o.opts) + bits)
  }

  predicate Legal(word: string, allowed: Mask) {
    BitsOf(NameOf(word)).Some? && BitsOf(NameOf(word)).value <= allowed
  }

  // One directive on the bits of its section.
  function Directive(o: Opts, words: seq<string>, first: bool, allowed: Mask): Option<Opts>
    decreases |words|
  {
    if words == [] then Some(o)
    else if !Legal(words[0], allowed) then None
    else
      var sign := SignOf(words[0]);
      Directive(Edit(o, sign, BitsOf(NameOf(words[0])).value, first), words[1..], first && sign != Bare, allowed)
  }

  // ----- the words, bit by bit

  // The bits of a name, in any case.
  ghost predicate Names(name: string, b: Bit) {
    var key := Lower(name);
    match b
    case Indexes => key == "indexes" || key == "all"
    case Includes => key == "includes" || key == "includesnoexec" || key == "all"
    case IncWithExec => key == "includes" || key == "all"
    case SymLinks => key == "followsymlinks" || key == "all"
    case SymOwner => key == "symlinksifownermatch"
    case ExecCgi => key == "execcgi" || key == "runscripts" || key == "all"
    case Multi => key == "multiviews" || key == "runscripts"
    case Unset => false
  }

  ghost predicate Known(name: string) {
    Lower(name) == "none" || exists b: Bit :: Names(name, b)
  }

  ghost predicate Signed(word: string, sign: char) {
    word != "" && word[0] == sign
  }

  ghost predicate Unsigned(word: string) {
    !Signed(word, '+') && !Signed(word, '-')
  }

  ghost predicate Adds(word: string, b: Bit) {
    Signed(word, '+') && Names(word[1..], b)
  }

  ghost predicate Drops(word: string, b: Bit) {
    Signed(word, '-') && Names(word[1..], b)
  }

  ghost predicate Sets(word: string, b: Bit) {
    Unsigned(word) && Names(word, b)
  }

  ghost predicate Permitted(word: string, allowed: Mask) {
    var name := if Unsigned(word) then word else word[1..];
    Known(name) && forall b: Bit :: Names(name, b) ==> b in allowed
  }

  // The first bare word, at which everything is dropped.
  ghost predicate Restarts(words: seq<string>, j: nat)
    requires j < |words|
  {
    Unsigned(words[j]) && forall i :: 0 <= i < j ==> !Unsigned(words[i])
  }

  // From this word on the bit is not taken away again.
  ghost predicate Stays(words: seq<string>, first: bool, from: nat, b: Bit) {
    forall j :: from <= j < |words| ==> !Drops(words[j], b) && !(first && Restarts(words, j))
  }

  ghost predicate TurnsOn(words: seq<string>, first: bool, k: nat, b: Bit) {
    k < |words| && (Adds(words[k], b) || Sets(words[k], b)) && Stays(words, first, k + 1, b)
  }

  // The state of a bit after a directive.
  ghost predicate On(o: Opts, words: seq<string>, first: bool, b: Bit) {
    (b in o.opts && Stays(words, first, 0, b)) || exists k: nat :: TurnsOn(words, first, k, b)
  }

  // The last signed word that names the bit is a plus; or none does, and it was there.
  ghost predicate Added(had: bool, words: seq<string>, b: Bit) {
    || (had && forall j :: 0 <= j < |words| ==> !Drops(words[j], b))
    || exists k :: 0 <= k < |words| && Adds(words[k], b) && forall j :: k < j < |words| ==> !Drops(words[j], b)
  }

  ghost predicate Removed(had: bool, words: seq<string>, b: Bit) {
    || (had && forall j :: 0 <= j < |words| ==> !Adds(words[j], b))
    || exists k :: 0 <= k < |words| && Drops(words[k], b) && forall j :: k < j < |words| ==> !Adds(words[j], b)
  }

  lemma NamesBits(name: string, b: Bit)
    ensures BitsOf(name).Some? <==> Known(name)
    ensures BitsOf(name).Some? ==> (b in BitsOf(name).value <==> Names(name, b))
  {
    var key := Lower(name);
    if BitsOf(name).Some? && key != "none" {
      var c :| c in BitsOf(name).value;
      assert Names(name, c);
    }
  }

  lemma LegalIs(word: string, allowed: Mask)
    ensures Legal(word, allowed) <==> Permitted(word, allowed)
  {
    hide BitsOf, Names, Known;
    var name := NameOf(word);
    assert name == if Unsigned(word) then word else word[1..];
    forall b: Bit
      ensures BitsOf(name).Some? ==> (b in BitsOf(name).value <==> Names(name, b))
    {
      NamesBits(name, b);
    }
    NamesBits(name, Unset);
  }

  // One word.
  lemma EditByBit(o: Opts, word: string, first: bool, b: Bit)
    requires BitsOf(NameOf(word)).Some?
    ensures var r := Edit(o, SignOf(word), BitsOf(NameOf(word)).value, first);
            && (b in r.opts <==> Adds(word, b) || Sets(word, b)
                                 || (b in o.opts && !Drops(word, b) && !(first && Unsigned(word))))
            && (b in r.add <==> Adds(word, b) || (b in o.add && !Drops(word, b)))
            && (b in r.remove <==> Drops(word, b) || (b in o.remove && !Adds(word, b)))
            && (SignOf(word) == Bare <==> Unsigned(word))
  {
    hide BitsOf, Names;
    NamesBits(NameOf(word), b);
  }

  // The words after the first one.
  lemma StaysBehind(words: seq<string>, first: bool, from: nat, b: Bit)
    requires words != []
    ensures Stays(words[1..], first && !Unsigned(words[0]), from, b) <==> Stays(words, first, from + 1, b)
  {
    hide Drops, Unsigned;
    var rest, first' := words[1..], first && !Unsigned(words[0]);
    forall j | 0 <= j < |rest|
      ensures rest[j] == words[j + 1] && ((first' && Restarts(rest, j)) <==> (first && Restarts(words, j + 1)))
    {
      assert forall i :: 0 <= i < j ==> rest[i] == words[i + 1];
      if first && Restarts(words, j + 1) {
        assert !Unsigned(words[0]);
        assert forall i :: 0 <= i < j ==> !Unsigned(rest[i]);
      }
      if first' && Restarts(rest, j) {
        forall i | 0 <= i < j + 1
          ensures !Unsigned(words[i])
        {
          assert i > 0 ==> words[i] == rest[i - 1];
        }
      }
    }
    if Stays(rest, first', from, b) {
      forall j | from + 1 <= j < |words|
        ensures !Drops(words[j], b) && !(first && Restarts(words, j))
      {
        assert words[j] == rest[j - 1];
      }
    }
  }

  lemma OnBehind(o: Opts, o': Opts, words: seq<string>, first: bool, b: Bit)
    requires words != []
    requires b in o'.opts <==> Adds(words[0], b) || Sets(words[0], b)
                               || (b in o.opts && !Drops(words[0], b) && !(first && Unsigned(words[0])))
    ensures On(o', words[1..], first && !Unsigned(words[0]), b) <==> On(o, words, first, b)
  {
    hide Drops, Unsigned, Adds, Sets, Restarts, Stays;
    var rest, first' := words[1..], first && !Unsigned(words[0]);
    StaysBehind(words, first, 0, b);
    StaysFront(words, first, b);
    forall k: nat
      ensures TurnsOn(rest, first', k, b) <==> TurnsOn(words, first, k + 1, b)
    {
      StaysBehind(words, first, k + 1, b);
      assert k < |rest| ==> rest[k] == words[k + 1];
    }
    if On(o, words, first, b) && !(b in o.opts && Stays(words, first, 0, b)) {
      var k: nat :| TurnsOn(words, first, k, b);
      if k > 0 {
        assert TurnsOn(rest, first', k - 1, b);
      }
    }
    if On(o', rest, first', b) {
      if b in o'.opts && Stays(rest, first', 0, b) {
        if Adds(words[0], b) || Sets(words[0], b) {
          assert TurnsOn(words, first, 0, b);
        }
      } else {
        var k: nat :| TurnsOn(rest, first', k, b);
        assert TurnsOn(words, first, k + 1, b);
      }
    }
  }

  lemma StaysFront(words: seq<string>, first: bool, b: Bit)
    requires words != []
    ensures Stays(words, first, 0, b) <==>
              Stays(words, first, 1, b) && !Drops(words[0], b) && !(first && Unsigned(words[0]))
  {
    assert Restarts(words, 0) <==> Unsigned(words[0]);
  }

  // What a directive does to a bit is decided by the last word that says something about it;
  // the first bare word says of all bits that they are off.
  lemma {:induction false} DirectiveByBit(o: Opts, words: seq<string>, first: bool, allowed: Mask, b: Bit)
    ensures var r := Directive(o, words, first, allowed);
            && (r.Some? <==> forall k :: 0 <= k < |words| ==> Permitted(words[k], allowed))
            && (r.Some? ==> (b in r.value.opts <==> On(o, words, first, b)))
            && (r.Some? ==> (b in r.value.add <==> Added(b in o.add, words, b)))
            && (r.Some? ==> (b in r.value.remove <==> Removed(b in o.remove, words, b)))
    decreases |words|
  {
    hide On, Added, Removed, Permitted, Legal, Edit, SignOf, NameOf, BitsOf, Unsigned, Adds, Drops, Sets;
    if words == [] {
      NoWords(o, first, b);
    } else {
      var word, rest := words[0], words[1..];
      LegalIs(word, allowed);
      assert forall k :: 0 < k < |words| ==> words[k] == rest[k - 1];
      assert forall k :: 0 <= k < |rest| ==> rest[k] == words[k + 1];
      if Legal(word, allowed) {
        LegalHasBits(word, allowed);
        var o' := Edit(o, SignOf(word), BitsOf(NameOf(word)).value, first);
        EditByBit(o, word, first, b);
        DirectiveByBit(o', rest, first && SignOf(word) != Bare, allowed, b);
        OnBehind(o, o', words, first, b);
        AddedBehind(b in o.add, words, b);
        RemovedBehind(b in o.remove, words, b);
      }
    }
  }

  // A single bare word gives exactly its bits.
  lemma OneBareWord(o: Opts, word: string, allowed: Mask)
    requires Unsigned(word)
    ensures var r := Directive(o, [word], true, allowed);
            && (r.Some? <==> Permitted(word, allowed))
            && (r.Some? ==> (forall b: Bit :: b in r.value.opts <==> Names(word, b))
                            && r.value.add == o.add && r.value.remove == o.remove)
  {
    hide Permitted, Names, Directive, Unsigned, Added, Removed, On;
    assert [word][0] == word && forall k :: 0 <= k < |[word]| ==> [word][k] == word;
    forall b: Bit
      ensures var r := Directive(o, [word], true, allowed);
              && (r.Some? <==> Permitted(word, allowed))
              && (r.Some? ==> (b in r.value.opts <==> Names(word, b)) && (b in r.value.add <==> b in o.add)
                              && (b in r.value.remove <==> b in o.remove))
    {
      DirectiveByBit(o, [word], true, allowed, b);
      OneWord(o, word, b);
    }
    DirectiveByBit(o, [word], true, allowed, Unset);
  }

  lemma OneWord(o: Opts, word: string, b: Bit)
    requires Unsigned(word)
    ensures On(o, [word], true, b) <==> Names(word, b)
    ensures Added(b in o.add, [word], b) <==> b in o.add
    ensures Removed(b in o.remove, [word], b) <==> b in o.remove
  {
    hide Names;
    assert Restarts([word], 0);
    assert TurnsOn([word], true, 0, b) <==> Sets(word, b);
  }

  lemma LegalHasBits(word: string, allowed: Mask)
    requires Legal(word, allowed)
    ensures BitsOf(NameOf(word)).Some?
  {
  }

  lemma NoWords(o: Opts, first: bool, b: Bit)
    ensures On(o, [], first, b) <==> b in o.opts
    ensures Added(b in o.add, [], b) <==> b in o.add
    ensures Removed(b in o.remove, [], b) <==> b in o.remove
  {
  }

  lemma AddedBehind(had: bool, words: seq<string>, b: Bit)
    requires words != []
    ensures Added(Adds(words[0], b) || (had && !Drops(words[0], b)), words[1..], b) <==> Added(had, words, b)
  {
    hide Adds, Drops;
    SplitFirst(words);
    NotBoth(words[0], b);
  }

  lemma RemovedBehind(had: bool, words: seq<string>, b: Bit)
    requires words != []
    ensures Removed(Drops(words[0], b) || (had && !Adds(words[0], b)), words[1..], b) <==> Removed(had, words, b)
  {
    hide Adds, Drops;
    SplitFirst(words);
    NotBoth(words[0], b);
  }

  lemma SplitFirst(words: seq<string>)
    requires words != []
    ensures forall k :: 0 < k < |words| ==> words[k] == words[1..][k - 1]
    ensures forall k :: 0 <= k < |words[1..]| ==> words[1..][k] == words[k + 1]
  {
  }

  lemma NotBoth(word: string, b: Bit)
    ensures !(Adds(word, b) && Drops(word, b))
  {
  }

  // ----- merge_core_dir_configs

  function Merge(base: Opts, over: Opts): Opts {
    if Unset in over.opts then
      var add := (base.add - over.remove) + over.add;
      var remove := (base.remove - over.add) + over.remove;
      var opts := (base.opts - remove) + add;
      Opts(if Noexec(base, over) then opts - {IncWithExec} else opts, add, remove)
    else over
  }

  // Includes with exec outside, Includes without exec inside.
  predicate Noexec(base: Opts, over: Opts) {
    Includes in base.opts && IncWithExec in base.opts && Includes in over.opts && IncWithExec !in over.opts
  }

  // ----- in place

  class CoreDirConfig {
    var opts: Mask
    var optsAdd: Mask
    var optsRemove: Mask

    // create_core_dir_config
    constructor (dir: bool)
      ensures Bits() == if dir then FRESH else Opts({Unset} + OPT_ALL, {}, {})
    {
      opts := if dir then {Unset} else {Unset} + OPT_ALL;
      optsAdd, optsRemove := {}, {};
    }

    ghost function Bits(): Opts
      reads this
    {
      Opts(opts, optsAdd, optsRemove)
    }

    // set_options
    method SetOptions(words: seq<string>, overrideOpts: Mask) returns (ok: bool)
      modifies this
      ensures ok == Directive(old(Bits()), words, true, overrideOpts).Some?
      ensures ok ==> Bits() == Directive(old(Bits()), words, true, overrideOpts).value
      ensures ok <==> forall k :: 0 <= k < |words| ==> Permitted(words[k], overrideOpts)
      ensures ok ==> forall b: Bit ::
                && (b in opts <==> On(old(Bits()), words, true, b))
                && (b in optsAdd <==> Added(b in old(optsAdd), words, b))
                && (b in optsRemove <==> Removed(b in old(optsRemove), words, b))
    {
      hide BitsOf, SignOf, NameOf, Permitted, On, Added, Removed;
      forall b: Bit
        ensures var r := Directive(Bits(), words, true, overrideOpts);
                && (r.Some? <==> forall k :: 0 <= k < |words| ==> Permitted(words[k], overrideOpts))
                && (r.Some? ==> (b in r.value.opts <==> On(Bits(), words, true, b)))
                && (r.Some? ==> (b in r.value.add <==> Added(b in optsAdd, words, b)))
                && (r.Some? ==> (b in r.value.remove <==> Removed(b in optsRemove, words, b)))
      {
        DirectiveByBit(Bits(), words, true, overrideOpts, b);
      }
      DirectiveByBit(Bits(), words, true, overrideOpts, Unset);
      var first, k := true, 0;
      while k < |words|
        invariant k <= |words|
        invariant Directive(Bits(), words[k..], first, overrideOpts)
            == Directive(old(Bits()), words, true, overrideOpts)
      {
        var word := words[k];
        assert words[k..][0] == word && words[k..][1..] == words[k + 1..];
        var action := SignOf(word);
        if action == Bare && first {
          opts := {};
          first := false;
        }
        var opt := BitsOf(NameOf(word));
        if opt == None || !(opt.value <= overrideOpts) {
          return false;
        }
        if action == Minus {
          optsRemove := optsRemove + opt.value;
          optsAdd := optsAdd - opt.value;
          opts := opts - opt.value;
        } else if action == Plus {
          optsAdd := optsAdd + opt.value;
          optsRemove := optsRemove - opt.value;
          opts := opts + opt.value;
        } else {
          opts := opts + opt.value;
        }
        k := k + 1;
      }
      ok := true;
    }
  }

  // merge_core_dir_configs: a copy of the base, changed field by field.
  method MergeCoreDirConfigs(base: CoreDirConfig, over: CoreDirConfig) returns (conf: CoreDirConfig)
    ensures fresh(conf) && conf.Bits() == Merge(base.Bits(), over.Bits())
  {
    conf := new CoreDirConfig(true);
    conf.opts, conf.optsAdd, conf.optsRemove := base.opts, base.optsAdd, base.optsRemove;
    if Unset in over.opts {
      conf.optsAdd := (conf.optsAdd - over.optsRemove) + over.optsAdd;
      conf.optsRemove := (conf.optsRemove - over.optsAdd) + over.optsRemove;
      conf.opts := (conf.opts - conf.optsRemove) + conf.optsAdd;
      if Includes in base.opts && IncWithExec in base.opts && Includes in over.opts && IncWithExec !in over.opts {
        conf.opts := conf.opts - {IncWithExec};
      }
    } else {
      conf.opts := over.opts;
      conf.optsAdd := over.optsAdd;
      conf.optsRemove := over.optsRemove;
    }
  }

  // ----- what is kept

  // No option is both added and removed, and OPT_UNSET is neither.
  predicate Apart(o: Opts) {
    o.add !! o.remove && Unset !in o.add && Unset !in o.remove
  }

  lemma EditKeepsApart(o: Opts, sign: Sign, bits: Mask, first: bool)
    requires Apart(o) && Unset !in bits
    ensures Apart(Edit(o, sign, bits, first))
  {
  }

  lemma {:induction false} DirectiveKeepsApart(o: Opts, words: seq<string>, first: bool, allowed: Mask)
    requires Apart(o)
    ensures var r := Directive(o, words, first, allowed); r.Some? ==> Apart(r.value)
    decreases |words|
  {
    if words != [] && Legal(words[0], allowed) {
      var sign, bits := SignOf(words[0]), BitsOf(NameOf(words[0])).value;
      EditKeepsApart(o, sign, bits, first);
      DirectiveKeepsApart(Edit(o, sign, bits, first), words[1..], first && sign != Bare, allowed);
    }
  }

  lemma MergeKeepsApart(base: Opts, over: Opts)
    requires Apart(base) && Apart(over)
    ensures Apart(Merge(base, over))
  {
  }

  // ----- merging in any grouping

  // The same on all bits but IncWithExec.
  predicate Alike(x: Mask, y: Mask) {
    x + {IncWithExec} == y + {IncWithExec}
  }

  predicate AlikeOpts(x: Opts, y: Opts) {
    Alike(x.opts, y.opts) && Alike(x.add, y.add) && Alike(x.remove, y.remove)
  }

  lemma MergeAssociative(x: Opts, y: Opts, z: Opts)
    requires Apart(y) && Apart(z)
    ensures AlikeOpts(Merge(Merge(x, y), z), Merge(x, Merge(y, z)))
  {
  }

  lemma MergeCongruent(x: Opts, x': Opts, y: Opts, y': Opts)
    requires AlikeOpts(x, x') && AlikeOpts(y, y')
    ensures AlikeOpts(Merge(x, y), Merge(x', y'))
  {
  }

  datatype Grouping = Leaf(o: Opts) | Both(left: Grouping, right: Grouping)

  function Leaves(g: Grouping): (r: seq<Opts>)
    ensures r != []
  {
    match g
    case Leaf(o) => [o]
    case Both(left, right) => Leaves(left) + Leaves(right)
  }

  function Value(g: Grouping): Opts {
    match g
    case Leaf(o) => o
    case Both(left, right) => Merge(Value(left), Value(right))
  }

  // Merging a chain of sections from the outside in.
  function Chain(base: Opts, sections: seq<Opts>): Opts
    decreases |sections|
  {
    if sections == [] then base else Chain(Merge(base, sections[0]), sections[1..])
  }

  lemma {:induction false} ChainAppend(base: Opts, a: seq<Opts>, b: seq<Opts>)
    ensures Chain(base, a + b) == Chain(Chain(base, a), b)
    decreases |a|
  {
    if a == [] {
      assert a + b == b;
    } else {
      assert (a + b)[0] == a[0] && (a + b)[1..] == a[1..] + b;
      ChainAppend(Merge(base, a[0]), a[1..], b);
    }
  }

  lemma {:induction false} ChainCongruent(x: Opts, y: Opts, sections: seq<Opts>)
    requires AlikeOpts(x, y)
    ensures AlikeOpts(Chain(x, sections), Chain(y, sections))
    decreases |sections|
  {
    if sections != [] {
      MergeCongruent(x, y, sections[0], sections[0]);
      ChainCongruent(Merge(x, sections[0]), Merge(y, sections[0]), sections[1..]);
    }
  }

  // However the merges of a chain are grouped, the bits are those of merging from the
  // outside in.
  predicate AllApart(g: Grouping) {
    forall o :: o in Leaves(g) ==> Apart(o)
  }

  lemma {:induction false} ValueApart(g: Grouping)
    requires AllApart(g)
    ensures Apart(Value(g))
  {
    if g.Both? {
      ValueApart(g.left);
      ValueApart(g.right);
      MergeKeepsApart(Value(g.left), Value(g.right));
    }
  }

  lemma {:induction false} GroupingIsChain(base: Opts, g: Grouping)
    requires AllApart(g)
    ensures AlikeOpts(Merge(base, Value(g)), Chain(base, Leaves(g)))
    decreases g
  {
    match g
    case Leaf(o) =>
      assert Chain(base, [o]) == Merge(base, o);
    case Both(left, right) =>
      var l, r := Value(left), Value(right);
      ValueApart(left);
      ValueApart(right);
      MergeAssociative(base, l, r);
      GroupingIsChain(base, left);
      MergeCongruent(Merge(base, l), Chain(base, Leaves(left)), r, r);
      GroupingIsChain(Chain(base, Leaves(left)), right);
      ChainAppend(base, Leaves(left), Leaves(right));
  }

  // ----- the remaining bit

  // What a section without a bare word can say about exec.
  predicate Silent(y: Opts) {
    IncWithExec !in y.add && IncWithExec !in y.remove
  }

  predicate WithoutExec(y: Opts) {
    Includes in y.add && Silent(y)
  }

  // Two sections of which one enables includes without exec.
  predicate Clash(y: Opts, z: Opts) {
    && Unset in y.opts && Unset in z.opts
    && (|| (WithoutExec(y) && Silent(z))
        || (WithoutExec(z) && (Silent(y) || (Includes in y.add && IncWithExec in y.add))))
  }

  // What set_options makes of a section without Options.
  predicate Made(o: Opts) {
    && Apart(o)
    && (Unset in o.opts ==> o.opts == {Unset} + o.add)
    && (IncWithExec in o.add + o.remove ==> Includes in o.add + o.remove)
  }

  lemma {:induction false} DirectiveKeepsMade(o: Opts, words: seq<string>, first: bool, allowed: Mask)
    requires Made(o) && (!first ==> Unset !in o.opts)
    ensures var r := Directive(o, words, first, allowed); r.Some? ==> Made(r.value)
    decreases |words|
  {
    if words != [] && Legal(words[0], allowed) {
      var sign, bits := SignOf(words[0]), BitsOf(NameOf(words[0])).value;
      EditKeepsApart(o, sign, bits, first);
      assert IncWithExec in bits ==> Includes in bits;
      assert Made(Edit(o, sign, bits, first));
      DirectiveKeepsMade(Edit(o, sign, bits, first), words[1..], first && sign != Bare, allowed);
    }
  }

  // On OPT_INC_WITH_EXEC the grouping matters exactly for such sections, since
  // the merge takes the bit out of opts and leaves it in opts_add.
  lemma ExecAssociativeIff(y: Opts, z: Opts)
    requires Made(y) && Made(z)
    ensures (forall x: Opts :: Made(x) ==> Merge(Merge(x, y), z) == Merge(x, Merge(y, z))) <==> !Clash(y, z)
    ensures !Clash(y, z) ==> forall x: Opts :: Apart(x) ==> Merge(Merge(x, y), z) == Merge(x, Merge(y, z))
  {
    if Clash(y, z) {
      var x := Witness(y, z);
      ExecDiffers(y, z);
    } else {
      forall x: Opts | Apart(x)
        ensures Merge(Merge(x, y), z) == Merge(x, Merge(y, z))
      {
        MergeAssociative(x, y, z);
        ExecAgrees(x, y, z);
      }
    }
  }

  // Surroundings in which it shows.
  function Witness(y: Opts, z: Opts): (x: Opts)
    ensures Made(x)
  {
    var both := {Includes, IncWithExec};
    if WithoutExec(y) && WithoutExec(z) then Opts({Unset} + both, both, {})
    else if Silent(y) && Silent(z) && (Includes in y.remove || Includes in z.remove) then Opts(both, {}, {})
    else if WithoutExec(y) then Opts(both, both, {})
    else if Silent(y) then Opts({}, both, {})
    else FRESH
  }

  lemma ExecDiffers(y: Opts, z: Opts)
    requires Made(y) && Made(z) && Clash(y, z)
    ensures var x := Witness(y, z);
            IncWithExec in Merge(Merge(x, y), z).opts <==> IncWithExec !in Merge(x, Merge(y, z)).opts
  {
  }

  lemma ExecAgrees(x: Opts, y: Opts, z: Opts)
    requires Apart(x) && Made(y) && Made(z) && !Clash(y, z)
    ensures IncWithExec in Merge(Merge(x, y), z).opts <==> IncWithExec in Merge(x, Merge(y, z)).opts
    ensures IncWithExec in Merge(Merge(x, y), z).add <==> IncWithExec in Merge(x, Merge(y, z)).add
    ensures IncWithExec in Merge(Merge(x, y), z).remove <==> IncWithExec in Merge(x, Merge(y, z)).remove
  {
    if Unset in z.opts && Unset in y.opts {
      var l, r := Merge(x, y), Merge(y, z);
      assert Unset in r.opts;
      assert Includes in y.opts <==> Includes in y.add;
      assert IncWithExec in y.opts <==> IncWithExec in y.add;
      assert Includes in z.opts <==> Includes in z.add;
      assert IncWithExec in z.opts <==> IncWithExec in z.add;
      assert Noexec(y, z) ==> IncWithExec in z.remove;
      if IncWithExec in z.remove || IncWithExec in z.add {
        assert IncWithExec in Merge(l, z).opts <==> IncWithExec in Merge(x, r).opts;
      } else if IncWithExec in y.remove || IncWithExec in y.add {
        assert IncWithExec in r.opts <==> IncWithExec in y.add;
        assert IncWithExec in Merge(l, z).opts <==> IncWithExec in Merge(x, r).opts;
      }
    }
  }

  // ----- replaying the directives

  // The bits in force after a word, when all sections are read as one.
  function Replayed(bits: Mask, words: seq<string>, first: bool): Mask
    decreases |words|
  {
    if words == [] then bits
    else
      var sign, opt := SignOf(words[0]), BitsOf(NameOf(words[0]));
      var more := if opt == None then {} else opt.value;
      var next := match sign case Plus => bits + more case Minus => bits - more
                             case Bare => (if first then {} else bits) + more;
      Replayed(next, words[1..], first && sign != Bare)
  }

  // The Options directives of a section.
  type Section = seq<seq<string>>

  function StateOf(o: Opts, section: Section, allowed: Mask): Option<Opts>
    decreases |section|
  {
    if section == [] then Some(o)
    else
      match Directive(o, section[0], true, allowed)
      case None => None
      case Some(o') => StateOf(o', section[1..], allowed)
  }

  function ReplaySection(bits: Mask, section: Section): Mask
    decreases |section|
  {
    if section == [] then bits else ReplaySection(Replayed(bits, section[0], true), section[1..])
  }

  function Replay(bits: Mask, sections: seq<Section>): Mask
    decreases |sections|
  {
    if sections == [] then bits else Replay(ReplaySection(bits, sections[0]), sections[1..])
  }

  // What the state of a section says about the bits around it.
  function Overlay(bits: Mask, o: Opts): Mask {
    if Unset in o.opts then (bits - o.remove) + o.add else o.opts
  }

  lemma {:induction false} DirectiveOverlays(bits: Mask, o: Opts, words: seq<string>, first: bool, allowed: Mask)
    requires Made(o) && (!first ==> Unset !in o.opts)
    ensures var r := Directive(o, words, first, allowed);
            r.Some? ==> Replayed(Overlay(bits, o), words, first) == Overlay(bits, r.value)
    decreases |words|
  {
    if words != [] && Legal(words[0], allowed) {
      var sign, more := SignOf(words[0]), BitsOf(NameOf(words[0])).value;
      var next := Edit(o, sign, more, first);
      DirectiveKeepsMade(o, [words[0]], first, allowed);
      assert Directive(o, [words[0]], first, allowed) == Some(next);
      assert match sign case Plus => Overlay(bits, o) + more == Overlay(bits, next)
                        case Minus => Overlay(bits, o) - more == Overlay(bits, next)
                        case Bare => (if first then {} else Overlay(bits, o)) + more == Overlay(bits, next);
      DirectiveOverlays(bits, next, words[1..], first && sign != Bare, allowed);
    }
  }

  lemma {:induction false} SectionOverlays(bits: Mask, o: Opts, section: Section, allowed: Mask)
    requires Made(o)
    ensures var r := StateOf(o, section, allowed);
            r.Some? ==> Made(r.value) && ReplaySection(Overlay(bits, o), section) == Overlay(bits, r.value)
    decreases |section|
  {
    if section != [] && Directive(o, section[0], true, allowed).Some? {
      DirectiveKeepsMade(o, section[0], true, allowed);
      DirectiveOverlays(bits, o, section[0], true, allowed);
      SectionOverlays(bits, Directive(o, section[0], true, allowed).value, section[1..], allowed);
    }
  }

  // The bits agree with what opts_add and opts_remove will do to them again in a merge.
  predicate Settled(o: Opts) {
    forall b :: b != IncWithExec ==> (b in o.add ==> b in o.opts) && (b in o.remove ==> b !in o.opts)
  }

  lemma MergeOverlays(base: Opts, o: Opts, bits: Mask)
    requires Made(o) && Settled(o) && Apart(base) && Settled(base) && Alike(base.opts, bits)
    ensures Alike(Merge(base, o).opts, Overlay(bits, o)) && Settled(Merge(base, o))
  {
  }

  function States(sections: seq<Section>, allowed: Mask): (r: seq<Opts>)
    requires forall s :: s in sections ==> StateOf(FRESH, s, allowed).Some?
    ensures |r| == |sections|
  {
    seq(|sections|, i requires 0 <= i < |sections| => StateOf(FRESH, sections[i], allowed).value)
  }

  // Merging a chain of sections gives the bits that replaying all their directives in
  // order gives, as long as every section is settled.
  lemma {:induction false} ChainIsReplay(base: Opts, bits: Mask, sections: seq<Section>, allowed: Mask)
    requires Apart(base) && Settled(base) && Alike(base.opts, bits)
    requires forall s :: s in sections ==> StateOf(FRESH, s, allowed).Some? && Settled(StateOf(FRESH, s, allowed).value)
    ensures Alike(Chain(base, States(sections, allowed)).opts, Replay(bits, sections))
    decreases |sections|
  {
    if sections != [] {
      var s, rest := sections[0], sections[1..];
      var o := StateOf(FRESH, s, allowed).value;
      SectionOverlays(bits, FRESH, s, allowed);
      assert Overlay(bits, FRESH) == bits;
      MergeOverlays(base, o, bits);
      MergeKeepsApart(base, o);
      assert States(sections, allowed)[1..] == States(rest, allowed);
      ChainIsReplay(Merge(base, o), Overlay(bits, o), rest, allowed);
    }
  }

  // A section that is not settled disagrees as soon as a section without Options follows.
  lemma UnsettledShows(base: Opts, bits: Mask, s: Section, allowed: Mask)
    requires StateOf(FRESH, s, allowed).Some? && !Settled(StateOf(FRESH, s, allowed).value)
    ensures !Alike(Chain(base, [StateOf(FRESH, s, allowed).value, FRESH]).opts, Replay(bits, [s, []]))
  {
    var o := StateOf(FRESH, s, allowed).value;
    SectionOverlays(bits, FRESH, s, allowed);
    assert Overlay(bits, FRESH) == bits;
    assert Unset !in o.opts;
    var none: Section := [];
    ChainAppend(base, [o], [FRESH]);
    assert [o] + [FRESH] == [o, FRESH];
    assert Chain(base, [o]) == Merge(base, o) && Chain(o, [FRESH]) == Merge(o, FRESH);
    assert [s, none][1..] == [none];
    assert Replay(ReplaySection(bits, s), [none]) == ReplaySection(bits, s);
    var b :| b != IncWithExec && !((b in o.add ==> b in o.opts) && (b in o.remove ==> b !in o.opts));
    assert b in Merge(o, FRESH).opts <==> b !in o.opts;
  }

  // Sections whose words are all bare or all signed are settled.
  predicate Unmixed(section: Section) {
    || (forall i, k :: 0 <= i < |section| && 0 <= k < |section[i]| ==> SignOf(section[i][k]) == Bare)
    || (forall i, k :: 0 <= i < |section| && 0 <= k < |section[i]| ==> SignOf(section[i][k]) != Bare)
  }

  // All words so far were bare, or all were signed.
  predicate Uniform(o: Opts, bare: bool) {
    Apart(o) && if bare then o.add == o.remove == {} else o.opts == {Unset} + o.add
  }

  lemma {:induction false} DirectiveUniform(o: Opts, words: seq<string>, first: bool, bare: bool, allowed: Mask)
    requires Uniform(o, bare) && forall k :: 0 <= k < |words| ==> (SignOf(words[k]) == Bare <==> bare)
    ensures var r := Directive(o, words, first, allowed); r.Some? ==> Uniform(r.value, bare)
    decreases |words|
  {
    if words != [] && Legal(words[0], allowed) {
      var sign, bits := SignOf(words[0]), BitsOf(NameOf(words[0])).value;
      var next := Edit(o, sign, bits, first);
      EditKeepsApart(o, sign, bits, first);
      assert Uniform(next, bare);
      DirectiveUniform(next, words[1..], first && sign != Bare, bare, allowed);
    }
  }

  lemma {:induction false} SectionUniform(o: Opts, section: Section, bare: bool, allowed: Mask)
    requires Uniform(o, bare)
    requires forall i, k :: 0 <= i < |section| && 0 <= k < |section[i]| ==> (SignOf(section[i][k]) == Bare <==> bare)
    ensures var r := StateOf(o, section, allowed); r.Some? ==> Uniform(r.value, bare)
    decreases |section|
  {
    if section != [] && Directive(o, section[0], true, allowed).Some? {
      DirectiveUniform(o, section[0], true, bare, allowed);
      SectionUniform(Directive(o, section[0], true, allowed).value, section[1..], bare, allowed);
    }
  }

  lemma UnmixedSettles(section: Section, allowed: Mask)
    requires Unmixed(section) && StateOf(FRESH, section, allowed).Some?
    ensures Settled(StateOf(FRESH, section, allowed).value)
  {
    var bare := forall i, k :: 0 <= i < |section| && 0 <= k < |section[i]| ==> SignOf(section[i][k]) == Bare;
    SectionUniform(FRESH, section, bare, allowed);
  }
}
