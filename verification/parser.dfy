/**
 * The parser builder: it projects each configuration entry onto an argument,
 * registers the entries that apply to every subcommand on a shared base parser,
 * checks that exactly one entry selects the subcommand, and gives every
 * subcommand a parser that inherits the base and adds its own entries.
 */
module Parser {
  import opened Wrappers
  import opened Definitions
  import opened ArgParse

  /** The two configuration errors the builder raises. */
  datatype ConfigurationError = NoSubparserEntry | MultipleSubparserEntries
  {
    function Message(): string
    {
      match this
      case NoSubparserEntry => "No entry with subparser value defined"
      case MultipleSubparserEntries => "Multiple entries with subparser value defined"
    }
  }

  /** The triple produced for one entry: short spelling, long spelling, keyword options. */
  datatype Projection = Projection(short: Option<string>, long: Option<string>, kwargs: map<string, KwValue>)

  /** Where an argument is registered: the shared base parser or one subcommand's parser. */
  datatype Scope = Base | Sub(name: string)

  /** Whether an entry is meant for a scope, by its `subcommands` field alone. */
  predicate AppliesTo(e: Entry, sc: Scope)
  {
    match sc
    case Base => e.subcommands.All?
    case Sub(n) => e.subcommands.Only? && n in e.subcommands.names
  }

  /** The argument an entry is bound to once parsed: its bare name, or its `dest`. */
  predicate BindsTo(a: Argument, name: string)
  {
    a.flags == [name] || ("dest" in a.kwargs && a.kwargs["dest"] == Text(name))
  }

  /** Projects one exposed entry onto short spelling, long spelling and keyword options. */
  function GenerateArgument(e: Entry): (r: Projection)
    requires e.cliParameters.Some?
    // help text: the description, with the rendered default appended unless there is none
    ensures "help" in r.kwargs
    ensures e.default.None? ==> r.kwargs["help"] == Text(e.shortDescription)
    ensures e.default.Some? ==>
      r.kwargs["help"] == Text(e.shortDescription + " (default: " + e.default.value + ")")
    // the parser's own default is always suppressed, and the metavar is empty
    ensures "default" in r.kwargs && r.kwargs["default"] == Suppress
    ensures "metavar" in r.kwargs && r.kwargs["metavar"] == Text("")
    // the short spelling is passed through unchanged
    ensures r.short == e.cliParameters.value.short
    // a positional entry: no long spelling, no dest, nargs "?" unless configured
    ensures e.cliParameters.value.positional ==>
      && r.long.None?
      && "dest" !in r.kwargs
      && "nargs" in r.kwargs
      && r.kwargs["nargs"] == (if e.cliParameters.value.nargs.None? then NargsValue(Symbol("?"))
                               else NargsValue(e.cliParameters.value.nargs.value))
    // a non-positional entry: a non-empty long spelling, dest = name, and a
    // nargs key (holding None) only when nargs is not configured
    ensures !e.cliParameters.value.positional ==>
      && Truthy(r.long)
      && (Truthy(e.cliParameters.value.longOverride) ==> r.long == e.cliParameters.value.longOverride)
      && (!Truthy(e.cliParameters.value.longOverride) ==> r.long == Some("--" + e.nameDashed))
      && "dest" in r.kwargs && r.kwargs["dest"] == Text(e.name)
      && ("nargs" in r.kwargs <==> e.cliParameters.value.nargs.None?)
      && ("nargs" in r.kwargs ==> r.kwargs["nargs"] == NoneValue)
    // the action is passed exactly when configured
    ensures "action" in r.kwargs <==> e.cliParameters.value.action.Some?
    ensures "action" in r.kwargs ==> r.kwargs["action"] == Text(e.cliParameters.value.action.value)
    // no other keyword is ever produced
    ensures r.kwargs.Keys <= {"help", "default", "metavar", "nargs", "dest", "action"}
  {
    var cli := e.cliParameters.value;
    var help := if e.default.Some? then e.shortDescription + " (default: " + e.default.value + ")"
                else e.shortDescription;
    var common := map["help" := Text(help), "default" := Suppress, "metavar" := Text("")];
    var long := if cli.positional then None
                else if Truthy(cli.longOverride) then cli.longOverride
                else Some("--" + e.nameDashed);
    var shaped :=
      if cli.positional then
        common["nargs" := if cli.nargs.None? then NargsValue(Symbol("?")) else NargsValue(cli.nargs.value)]
      else if cli.nargs.None? then
        common["dest" := Text(e.name)]["nargs" := NoneValue]
      else
        common["dest" := Text(e.name)];
    var kwargs := if cli.action.Some? then shaped["action" := Text(cli.action.value)] else shaped;
    Projection(cli.short, long, kwargs)
  }

  /**
   * What registering an entry appends to a parser: nothing for an entry without
   * command-line parameters, else one argument, under its bare name unless both
   * spellings are truthy.
   */
  function Register(e: Entry): (r: seq<Argument>)
    ensures r == [] <==> e.cliParameters.None?
    ensures |r| <= 1
    ensures r != [] ==> r[0].kwargs == GenerateArgument(e).kwargs
    // both spellings are used exactly when both are truthy
    ensures r != [] ==>
      var g := GenerateArgument(e);
      && (Truthy(g.short) && Truthy(g.long) ==> r[0].flags == [g.short.value, g.long.value])
      && (|r[0].flags| == 2 <==> Truthy(g.short) && Truthy(g.long))
    // a positional entry never gets a flag spelling
    ensures r != [] && e.cliParameters.value.positional ==> r[0].flags == [e.name]
    // a non-positional entry falls back to its bare name exactly when its short spelling is falsy
    ensures r != [] && !e.cliParameters.value.positional ==>
      (r[0].flags == [e.name] <==> !Truthy(e.cliParameters.value.short))
    // whichever form is used, the argument is bound to the entry's name
    ensures r != [] ==> BindsTo(r[0], e.name)
  {
    if e.cliParameters.None? then []
    else
      var g := GenerateArgument(e);
      if !(Truthy(g.short) && Truthy(g.long)) then [Argument([e.name], g.kwargs)]
      else [Argument([g.short.value, g.long.value], g.kwargs)]
  }

  /** The entries registered on a scope, in entry order. */
  function ScopeEntries(es: seq<Entry>, sc: Scope): (r: seq<Entry>)
    ensures |r| <= |es|
    ensures forall k :: 0 <= k < |r| ==> r[k].cliParameters.Some? && AppliesTo(r[k], sc)
  {
    if es == [] then []
    else
      var last := es[|es| - 1];
      ScopeEntries(es[..|es| - 1], sc)
        + (if AppliesTo(last, sc) && last.cliParameters.Some? then [last] else [])
  }

  /** The arguments registered on a scope by walking the entries in order. */
  function ScopeArguments(es: seq<Entry>, sc: Scope): (r: seq<Argument>)
    ensures |r| <= |es|
  {
    if es == [] then []
    else
      var last := es[|es| - 1];
      ScopeArguments(es[..|es| - 1], sc) + (if AppliesTo(last, sc) then Register(last) else [])
  }

  /** The entries that select the subcommand, in entry order. */
  function Selectors(es: seq<Entry>): (r: seq<Entry>)
    ensures forall k :: 0 <= k < |r| ==> r[k].subcommandValue
    ensures |r| <= |es|
  {
    if es == [] then []
    else (if es[0].subcommandValue then [es[0]] else []) + Selectors(es[1..])
  }

  /** Some entry selects the subcommand. */
  predicate AnySelector(es: seq<Entry>)
  {
    exists i :: 0 <= i < |es| && es[i].subcommandValue
  }

  /** Two different entries select the subcommand. */
  predicate SeveralSelectors(es: seq<Entry>)
  {
    exists i, j :: 0 <= i < j < |es| && es[i].subcommandValue && es[j].subcommandValue
  }

  /** Entry `i` is the one and only entry that selects the subcommand. */
  predicate SoleSelector(es: seq<Entry>, i: int)
  {
    && 0 <= i < |es| && es[i].subcommandValue
    && forall j :: 0 <= j < |es| && j != i ==> !es[j].subcommandValue
  }

  /** The filter keeps something exactly when some entry selects the subcommand. */
  lemma {:induction false} SelectorsAny(es: seq<Entry>)
    ensures |Selectors(es)| > 0 <==> AnySelector(es)
  {
    if es != [] {
      var t := es[1..];
      SelectorsAny(t);
      if AnySelector(t) {
        var j :| 0 <= j < |t| && t[j].subcommandValue;
        assert es[j + 1].subcommandValue;
      }
      if AnySelector(es) && !es[0].subcommandValue {
        var j :| 0 <= j < |es| && es[j].subcommandValue;
        assert t[j - 1].subcommandValue;
      }
    }
  }

  /** Several selecting entries exactly when the filter keeps two or more. */
  lemma SelectorsSeveral(es: seq<Entry>)
    ensures |Selectors(es)| >= 2 <==> SeveralSelectors(es)
  {
    if |Selectors(es)| >= 2 {
      SeveralFromSelectors(es);
    }
    if SeveralSelectors(es) {
      SelectorsFromSeveral(es);
    }
  }

  /** Two kept entries come from two selecting entries. */
  lemma {:induction false} SeveralFromSelectors(es: seq<Entry>)
    requires |Selectors(es)| >= 2
    ensures SeveralSelectors(es)
  {
    var t := es[1..];
    if es[0].subcommandValue {
      SelectorsAny(t);
      var j :| 0 <= j < |t| && t[j].subcommandValue;
      assert es[0].subcommandValue && es[j + 1].subcommandValue;
    } else {
      SeveralFromSelectors(t);
      var i, j :| 0 <= i < j < |t| && t[i].subcommandValue && t[j].subcommandValue;
      assert es[i + 1].subcommandValue && es[j + 1].subcommandValue;
    }
  }

  /** Two selecting entries are both kept. */
  lemma {:induction false} SelectorsFromSeveral(es: seq<Entry>)
    requires SeveralSelectors(es)
    ensures |Selectors(es)| >= 2
  {
    var t := es[1..];
    var i, j :| 0 <= i < j < |es| && es[i].subcommandValue && es[j].subcommandValue;
    if es[0].subcommandValue {
      assert t[j - 1].subcommandValue;
      SelectorsAny(t);
    } else {
      assert t[i - 1].subcommandValue && t[j - 1].subcommandValue;
      SelectorsFromSeveral(t);
    }
  }

  /** When the filter keeps exactly one entry, that entry is the sole selector. */
  lemma {:induction false} SelectorsOne(es: seq<Entry>)
    requires |Selectors(es)| == 1
    ensures exists i :: SoleSelector(es, i) && es[i] == Selectors(es)[0]
  {
    var t := es[1..];
    if es[0].subcommandValue {
      SelectorsAny(t);
      forall j | 0 < j < |es| ensures !es[j].subcommandValue {
        assert es[j] == t[j - 1];
      }
      assert SoleSelector(es, 0);
    } else {
      SelectorsOne(t);
      var i :| SoleSelector(t, i) && t[i] == Selectors(t)[0];
      forall j | 0 <= j < |es| && j != i + 1 ensures !es[j].subcommandValue {
        if j > 0 { assert es[j] == t[j - 1]; }
      }
      assert SoleSelector(es, i + 1);
    }
  }

  /**
   * The selector check of `_add_subparsers`: no selecting entry and several
   * selecting entries are two distinct errors; otherwise the one selecting entry.
   */
  function SubcommandSelector(es: seq<Entry>): (r: Result<Entry, ConfigurationError>)
    ensures r == Failure(NoSubparserEntry) <==> !AnySelector(es)
    ensures r == Failure(MultipleSubparserEntries) <==> SeveralSelectors(es)
    ensures r.Success? ==> exists i :: SoleSelector(es, i) && es[i] == r.value
  {
    SelectorsAny(es);
    SelectorsSeveral(es);
    var s := Selectors(es);
    if |s| == 1 then SelectorsOne(es); Success(s[0]) else
    if |s| == 0 then Failure(NoSubparserEntry)
    else Failure(MultipleSubparserEntries)
  }

  /** A subcommand's parser record as `_configure_subparsers` leaves it. */
  ghost predicate SubparserBuilt(rec: SubParser, sc: Subcommand, base: ArgumentParser, es: seq<Entry>)
    reads rec.parser
  {
    && rec.name == sc.name
    && rec.help == sc.description
    && rec.description == sc.name + ": " + sc.description
    && rec.parser.parents == [base] && rec.parser.addHelp
    && rec.parser.arguments == ScopeArguments(es, Sub(sc.name))
  }

  class Parser {
    const config: ApplicationConfiguration
    var baseParser: ArgumentParser
    var parser: ArgumentParser?
    var subparsers: SubParsersAction?

    /** The objects the finished parser consists of. */
    ghost function Repr(): set<object>
      reads this, subparsers
    {
      var top: set<object> := if parser == null then {} else {parser};
      var group: set<object> := if subparsers == null then {} else {subparsers};
      var children: set<object> :=
        if subparsers == null then {} else set rec | rec in subparsers.choices :: rec.parser;
      {this, baseParser} + top + group + children
    }

    /** The base parser holds exactly the entries that apply to all subcommands. */
    ghost predicate BaseConfigured()
      reads this, baseParser
    {
      && baseParser.parents == [] && !baseParser.addHelp
      && baseParser.arguments == ScopeArguments(config.entries, Base)
    }

    /** The top-level parser inherits the base and holds the group titled and bound by the selector. */
    ghost predicate GroupAttached()
      reads this, parser, subparsers
    {
      && parser != null && subparsers != null
      && parser.parents == [baseParser] && parser.addHelp
      && parser.arguments == [] && parser.subparsers == subparsers
      && SubcommandSelector(config.entries).Success?
      && subparsers.title == SubcommandSelector(config.entries).value.shortDescription
      && subparsers.dest == SubcommandSelector(config.entries).value.name
    }

    /**
     * Each declared subcommand, in order, has its own parser, distinct from every
     * other parser, inheriting the base and holding exactly the entries that name it.
     */
    ghost predicate SubcommandsConfigured()
      reads Repr()
    {
      && subparsers != null
      && |subparsers.choices| == |config.subcommands|
      && (forall i :: 0 <= i < |config.subcommands| ==>
            SubparserBuilt(subparsers.choices[i], config.subcommands[i], baseParser, config.entries))
      && (forall i :: 0 <= i < |subparsers.choices| ==>
            subparsers.choices[i].parser != baseParser && subparsers.choices[i].parser != parser)
      && (forall i, j :: 0 <= i < j < |subparsers.choices| ==>
            subparsers.choices[i].parser != subparsers.choices[j].parser)
    }

    /** The finished two-tier schema. */
    ghost predicate Assembled()
      reads Repr()
    {
      BaseConfigured() && GroupAttached() && SubcommandsConfigured()
    }

    /** The part of construction that cannot fail: the base parser, then the top-level parser. */
    constructor (config: ApplicationConfiguration)
      ensures this.config == config
      ensures fresh(baseParser) && baseParser.parents == [] && !baseParser.addHelp
      ensures baseParser.arguments == ScopeArguments(config.entries, Base)
      ensures parser != null && fresh(parser) && parser != baseParser
      ensures parser.parents == [baseParser] && parser.addHelp
      ensures parser.arguments == [] && parser.subparsers == null
      ensures subparsers == null
    {
      this.config := config;
      baseParser := new ArgumentParser([], false);
      parser := null;
      subparsers := null;
      new;
      ConfigureBase();
      parser := new ArgumentParser([baseParser], true);
    }

    /**
     * Builds the whole parser, or raises one of the two configuration errors
     * (and then no parser is produced).
     */
    static method Build(config: ApplicationConfiguration) returns (r: Result<Parser, ConfigurationError>)
      ensures r.Failure? <==> SubcommandSelector(config.entries).Failure?
      ensures r.Failure? ==> r.error == SubcommandSelector(config.entries).error
      ensures r.Success? ==> fresh(r.value) && r.value.config == config && r.value.Assembled()
      ensures r.Success? ==>
        && fresh(r.value.baseParser) && fresh(r.value.parser) && fresh(r.value.subparsers)
        && r.value.subparsers != null
        && forall i :: 0 <= i < |r.value.subparsers.choices| ==> fresh(r.value.subparsers.choices[i].parser)
    {
      var p := new Parser(config);
      var group := p.AddSubparsers();
      if group.Failure? {
        return Failure(group.error);
      }
      p.subparsers := group.value;
      assert p.BaseConfigured() && p.GroupAttached();
      p.ConfigureSubparsers();
      assert p.BaseConfigured() && p.GroupAttached();
      assert p.SubcommandsConfigured();
      return Success(p);
    }

    /** Registers one entry on `target`, appending what `Register` describes. */
    method AddParser(target: ArgumentParser, entry: Entry)
      modifies target`arguments
      ensures target.arguments == old(target.arguments) + Register(entry)
    {
      if entry.cliParameters.Some? {
        var g := GenerateArgument(entry);
        if !(Truthy(g.short) && Truthy(g.long)) {
          target.AddArgument(Argument([entry.name], g.kwargs));
        } else {
          target.AddArgument(Argument([g.short.value, g.long.value], g.kwargs));
        }
      }
    }

    /** Checks the selecting entry and, only if there is exactly one, adds the subcommand group. */
    method AddSubparsers() returns (r: Result<SubParsersAction, ConfigurationError>)
      requires parser != null
      modifies parser`subparsers
      ensures SubcommandSelector(config.entries).Failure? ==>
        r == Failure(SubcommandSelector(config.entries).error) && unchanged(parser)
      ensures SubcommandSelector(config.entries).Success? ==>
        && r.Success? && fresh(r.value) && parser.subparsers == r.value
        && r.value.title == SubcommandSelector(config.entries).value.shortDescription
        && r.value.dest == SubcommandSelector(config.entries).value.name
        && r.value.choices == []
    {
      var selecting := Selectors(config.entries);
      if |selecting| == 0 {
        return Failure(NoSubparserEntry);
      }
      if |selecting| > 1 {
        return Failure(MultipleSubparserEntries);
      }
      var entry := selecting[0];
      var group := parser.AddSubparsers(entry.shortDescription, entry.name);
      return Success(group);
    }

    /** Registers every entry that applies to all subcommands on the base parser. */
    method ConfigureBase()
      modifies baseParser`arguments
      ensures baseParser.arguments == old(baseParser.arguments) + ScopeArguments(config.entries, Base)
    {
      for i := 0 to |config.entries|
        invariant baseParser.arguments
          == old(baseParser.arguments) + ScopeArguments(config.entries[..i], Base)
      {
        var entry := config.entries[i];
        assert config.entries[..i + 1][..i] == config.entries[..i];
        if entry.subcommands.All? {
          AddParser(baseParser, entry);
        }
      }
      assert config.entries[..|config.entries|] == config.entries;
    }

    /**
     * Adds one parser per declared subcommand, in order, each inheriting the
     * base parser and holding the entries whose list names that subcommand.
     */
    method ConfigureSubparsers()
      requires subparsers != null
      modifies subparsers`choices
      ensures |subparsers.choices| == |old(subparsers.choices)| + |config.subcommands|
      ensures subparsers.choices[..|old(subparsers.choices)|] == old(subparsers.choices)
      ensures forall i :: 0 <= i < |config.subcommands| ==>
        var rec := subparsers.choices[|old(subparsers.choices)| + i];
        fresh(rec.parser) && SubparserBuilt(rec, config.subcommands[i], baseParser, config.entries)
      ensures forall i, j :: |old(subparsers.choices)| <= i < j < |subparsers.choices| ==>
        subparsers.choices[i].parser != subparsers.choices[j].parser
    {
      ghost var k := |subparsers.choices|;
      for n := 0 to |config.subcommands|
        invariant |subparsers.choices| == k + n
        invariant subparsers.choices[..k] == old(subparsers.choices)
        invariant forall i :: 0 <= i < n ==>
          var rec := subparsers.choices[k + i];
          fresh(rec.parser) && SubparserBuilt(rec, config.subcommands[i], baseParser, config.entries)
        invariant forall i, j :: k <= i < j < |subparsers.choices| ==>
          subparsers.choices[i].parser != subparsers.choices[j].parser
      {
        var subcommand := config.subcommands[n];
        var p := subparsers.AddParser(subcommand.name, subcommand.description,
                                      subcommand.name + ": " + subcommand.description, [baseParser]);
        AddSubcommandEntries(p, subcommand.name);
      }
    }

    /** Registers on `target` every entry whose explicit list names the subcommand `name`. */
    method AddSubcommandEntries(target: ArgumentParser, name: string)
      modifies target`arguments
      ensures target.arguments == old(target.arguments) + ScopeArguments(config.entries, Sub(name))
    {
      for i := 0 to |config.entries|
        invariant target.arguments
          == old(target.arguments) + ScopeArguments(config.entries[..i], Sub(name))
      {
        var entry := config.entries[i];
        assert config.entries[..i + 1][..i] == config.entries[..i];
        if entry.subcommands.Only? && name in entry.subcommands.names {
          AddParser(target, entry);
        }
      }
      assert config.entries[..|config.entries|] == config.entries;
    }
  }
}
