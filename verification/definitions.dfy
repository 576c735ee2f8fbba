/**
 * The configuration model the parser builder reads: entries, their command-line
 * parameters, and the declared subcommands. These are inputs; the loading and
 * validation of them happen elsewhere and are not modelled.
 */
module Definitions {
  import opened Wrappers

  /** Which subcommands an entry applies to: every one, or an explicit list. */
  datatype Subset = All | Only(names: seq<string>)

  /** An argparse `nargs` value: a count, or one of the symbols "?", "*", "+", ... */
  datatype Nargs = Count(n: nat) | Symbol(symbol: string)

  /** The command-line side of an entry. */
  datatype CliParameters = CliParameters(
    short: Option<string>,
    longOverride: Option<string>,
    positional: bool,
    nargs: Option<Nargs>,
    action: Option<string>)

  /**
   * One configuration entry. `default` is `None` for the "no default" sentinel,
   * otherwise the default already rendered as text; `cliParameters` is `None`
   * when the entry is not exposed on the command line.
   */
  datatype Entry = Entry(
    name: string,
    nameDashed: string,
    shortDescription: string,
    default: Option<string>,
    cliParameters: Option<CliParameters>,
    subcommands: Subset,
    subcommandValue: bool)

  datatype Subcommand = Subcommand(name: string, description: string)

  datatype ApplicationConfiguration = ApplicationConfiguration(
    entries: seq<Entry>,
    subcommands: seq<Subcommand>)

  /** Python truthiness of an optional string: present and non-empty. */
  predicate Truthy(s: Option<string>)
  {
    s.Some? && s.value != ""
  }
}
