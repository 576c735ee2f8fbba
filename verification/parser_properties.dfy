/**
 * Properties of the two-tier assembly: which entries reach which parser, in
 * what order, under which name, plus three worked scenarios.
 */
module ParserProperties {
  import opened Wrappers
  import opened Definitions
  import opened ArgParse
  import opened Parser

  /** No two entries share a name. */
  predicate DistinctNames(es: seq<Entry>)
  {
    forall i, j :: 0 <= i < j < |es| ==> es[i].name != es[j].name
  }

  /** An entry is registered on a scope exactly when it is exposed and meant for that scope. */
  lemma {:induction false} ScopeEntriesMembership(es: seq<Entry>, sc: Scope, e: Entry)
    ensures e in ScopeEntries(es, sc) <==> e in es && e.cliParameters.Some? && AppliesTo(e, sc)
  {
    if es != [] {
      var init, last := es[..|es| - 1], es[|es| - 1];
      assert es == init + [last];
      ScopeEntriesMembership(init, sc, e);
    }
  }

  /** The registered arguments are the projections of the registered entries, one for one. */
  lemma {:induction false} ScopeArgumentsProjectEntries(es: seq<Entry>, sc: Scope)
    ensures |ScopeArguments(es, sc)| == |ScopeEntries(es, sc)|
    ensures forall i :: 0 <= i < |ScopeArguments(es, sc)| ==>
      [ScopeArguments(es, sc)[i]] == Register(ScopeEntries(es, sc)[i])
  {
    if es != [] {
      ScopeArgumentsProjectEntries(es[..|es| - 1], sc);
    }
  }

  /** Registration follows entry order: the arguments of a concatenation are concatenated. */
  lemma {:induction false} ScopeArgumentsAppend(es1: seq<Entry>, es2: seq<Entry>, sc: Scope)
    ensures ScopeArguments(es1 + es2, sc) == ScopeArguments(es1, sc) + ScopeArguments(es2, sc)
  {
    if es2 == [] {
      assert es1 + es2 == es1;
    } else {
      var init := es2[..|es2| - 1];
      assert (es1 + es2)[..|es1 + es2| - 1] == es1 + init;
      ScopeArgumentsAppend(es1, init, sc);
    }
  }

  /** An entry for all subcommands lands on the base parser and never on a subcommand's own parser. */
  lemma {:induction false} AllEntriesOnlyOnBase(es: seq<Entry>, e: Entry, n: string)
    requires e.subcommands.All?
    ensures e in ScopeEntries(es, Base) <==> e in es && e.cliParameters.Some?
    ensures e !in ScopeEntries(es, Sub(n))
  {
    ScopeEntriesMembership(es, Base, e);
    ScopeEntriesMembership(es, Sub(n), e);
  }

  /** An entry with an explicit list lands on exactly the subcommands it names, never on the base. */
  lemma {:induction false} ListedEntriesOnlyOnNamedSubcommands(es: seq<Entry>, e: Entry, n: string)
    requires e.subcommands.Only?
    ensures e !in ScopeEntries(es, Base)
    ensures e in ScopeEntries(es, Sub(n)) <==>
      e in es && e.cliParameters.Some? && n in e.subcommands.names
  {
    ScopeEntriesMembership(es, Base, e);
    ScopeEntriesMembership(es, Sub(n), e);
  }

  /** An entry without command-line parameters is registered on no parser at all. */
  lemma {:induction false} UnexposedNeverRegistered(es: seq<Entry>, sc: Scope, e: Entry)
    requires e.cliParameters.None?
    ensures Register(e) == []
    ensures e !in ScopeEntries(es, sc)
  {
    ScopeEntriesMembership(es, sc, e);
  }

  /** The argument registered for an entry is bound to that entry's name and to no other. */
  lemma RegisteredBindsOwnName(e: Entry, n: string)
    requires e.cliParameters.Some?
    ensures BindsTo(Register(e)[0], n) <==> n == e.name
  {
  }

  /** Registering keeps names distinct: a scope's entries come from the entries, in order. */
  lemma {:induction false} ScopeNamesDistinct(es: seq<Entry>, sc: Scope)
    requires DistinctNames(es)
    ensures DistinctNames(ScopeEntries(es, sc))
  {
    if es != [] {
      var init, last := es[..|es| - 1], es[|es| - 1];
      ScopeNamesDistinct(init, sc);
      var r := ScopeEntries(init, sc);
      forall i | 0 <= i < |r| ensures r[i].name != last.name {
        ScopeEntriesMembership(init, sc, r[i]);
        var k :| 0 <= k < |init| && init[k] == r[i];
        assert es[k] == r[i];
      }
    }
  }

  /**
   * With distinct entry names, every entry registered on a scope yields exactly
   * one argument there bound to its name.
   */
  lemma ScopeBindingUnique(es: seq<Entry>, sc: Scope, e: Entry)
    requires DistinctNames(es)
    requires e in es && e.cliParameters.Some? && AppliesTo(e, sc)
    ensures exists j :: 0 <= j < |ScopeArguments(es, sc)| && BindsTo(ScopeArguments(es, sc)[j], e.name)
    ensures forall j, k :: 0 <= j < k < |ScopeArguments(es, sc)| ==>
      !(BindsTo(ScopeArguments(es, sc)[j], e.name) && BindsTo(ScopeArguments(es, sc)[k], e.name))
  {
    var args, ents := ScopeArguments(es, sc), ScopeEntries(es, sc);
    ScopeArgumentsProjectEntries(es, sc);
    ScopeNamesDistinct(es, sc);
    ScopeEntriesMembership(es, sc, e);
    var j :| 0 <= j < |ents| && ents[j] == e;
    RegisteredBindsOwnName(e, e.name);
    assert BindsTo(args[j], e.name);
    forall j, k | 0 <= j < k < |args|
      ensures !(BindsTo(args[j], e.name) && BindsTo(args[k], e.name))
    {
      RegisteredBindsOwnName(ents[j], e.name);
      RegisteredBindsOwnName(ents[k], e.name);
    }
  }

  // Worked scenarios.

  const Verbose := Entry("verbose", "verbose", "Increase verbosity", None,
    Some(CliParameters(Some("-v"), None, false, None, None)), All, false)
  const App := Entry("app", "app", "Subcommands", None, None, All, true)
  const Target := Entry("target", "target", "The target", None,
    Some(CliParameters(None, None, true, None, None)), Only(["run"]), false)

  /** A flag for all subcommands lands on the base parser under both spellings; "run" adds nothing. */
  lemma VerboseScenario()
    ensures ScopeArguments([Verbose, App], Base) == [Argument(["-v", "--verbose"],
      map["help" := Text("Increase verbosity"), "default" := Suppress, "metavar" := Text(""),
          "dest" := Text("verbose"), "nargs" := NoneValue])]
    ensures ScopeArguments([Verbose, App], Sub("run")) == []
    ensures SubcommandSelector([Verbose, App]) == Success(App)
  {
    assert [Verbose, App][..1] == [Verbose];
    assert [Verbose][..0] == [];
    assert "--" + Verbose.nameDashed == "--verbose";
    var g := GenerateArgument(Verbose);
    assert g.short == Some("-v") && g.long == Some("--verbose");
    assert g.kwargs == map["help" := Text("Increase verbosity"), "default" := Suppress,
      "metavar" := Text(""), "dest" := Text("verbose"), "nargs" := NoneValue];
  }

  /** Two selecting entries are the "multiple" error, whatever else is configured. */
  lemma DuplicateSelectorScenario()
    ensures SubcommandSelector([App, Verbose, App]) == Failure(MultipleSubparserEntries)
  {
    assert [App, Verbose, App][0].subcommandValue && [App, Verbose, App][2].subcommandValue;
  }

  /** A positional entry listed for "run" lands on "run" alone, by name, with nargs "?". */
  lemma TargetScenario()
    ensures ScopeArguments([App, Target], Sub("run")) == [Argument(["target"],
      map["help" := Text("The target"), "default" := Suppress, "metavar" := Text(""),
          "nargs" := NargsValue(Symbol("?"))])]
    ensures ScopeArguments([App, Target], Sub("build")) == []
    ensures ScopeArguments([App, Target], Base) == []
  {
    assert [App, Target][..1] == [App];
    assert [App][..0] == [];
  }
}
