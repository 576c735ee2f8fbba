# ansible-navigator command-line parser builder, modelled in Dafny

This project models the `Parser` class of ansible-navigator's configuration
subsystem (`ansible_navigator/configuration_subsystem/parser.py`). The class
turns a declarative application configuration into a two-level command-line
schema. The configuration is a list of entries plus a list of subcommands.

- Every entry that applies to all subcommands is registered on a shared base
  parser.
- Exactly one entry must be the subcommand selector. Its short description
  titles the subcommand group, and its name is the destination the chosen
  subcommand is stored under.
- Every subcommand gets its own parser. That parser inherits the base parser
  and adds the entries whose subcommand list names it.

Files:

- `wrappers.dfy`: `Option` and `Result`.
- `definitions.dfy`: the input datatypes `Entry`, `CliParameters`, `Subset`
  (`All` or an explicit list), `Subcommand` and `ApplicationConfiguration`, and
  `Truthy`, which is Python truthiness of an optional string.
  - The "no default" sentinel is `None`.
  - A real default is already rendered as text.
- `argparse.dfy`: an abstract view of the argument-parsing library.
  - Registering an argument appends an `Argument` record (flags plus keyword
    options).
  - Inheriting a parent parser is a reference to the parent object.
  - `add_subparsers` and `add_parser` create fresh objects and record them.
- `parser.dfy`: the builder itself.
  - The argument projection `GenerateArgument` and the registration choice
    `Register` are pure functions.
  - The scope filters `ScopeEntries` and `ScopeArguments` are functions too.
  - So are the selector check `Selectors` and `SubcommandSelector`.
  - The class `Parser` has the loops of the source. Its constructor and
    `Build` follow the construction order of `__init__`: configure the base
    parser, create the top-level parser, validate the selector and add the
    group, then configure the subcommand parsers.
  - A Dafny constructor cannot raise, so the part of `__init__` that can raise
    is the static method `Build`. It returns `Failure` where the source raises
    `ValueError`.
- `parser_properties.dfy`: lemmas on which entries reach which parser, in what
  order and under which name, plus three worked scenarios.

Behaviour of the code worth noting, which the model keeps:

- **nargs of a non-positional entry.** Lines 50-51 add `nargs=None` when nargs
  is not configured, and drop a configured value. `GenerateArgument` does the
  same.
- **Registration test.** Line 61 (`not all((short, long))`) uses the bare name
  when either spelling is falsy, not only when both are. `Register` does the
  same. So a non-positional entry without a short spelling is registered under
  its bare name, together with `dest`.
- **Positional entries with a short spelling.** The code does not reject a
  positional entry that also sets a short spelling. Its short spelling is then
  ignored, because the long spelling is `None` and so the bare name is used.
  The model leaves this unchecked, as the code does.
- **The "?" default of a positional entry.** Lines 44 and 46 both store the
  plain value, so an unconfigured nargs and a configured "?" give the same
  keyword options. The model writes both as the symbol "?".

## Model

| member | source | states |
|---|---|---|
| `Parser.GenerateArgument` | ansible_navigator/configuration_subsystem/parser.py:31-56 | help is the short description, with " (default: D)" appended exactly when there is a default; `default` is always SUPPRESS and `metavar` is always ""; the short spelling is passed through; a positional entry has no long spelling, no `dest`, and nargs "?" unless configured (otherwise the configured value); a non-positional entry has a non-empty long spelling (the override when it is truthy, else "--" + dashed name), `dest` = name, and a `nargs` key (None) only when nargs is unconfigured; `action` is present exactly when configured; no other keyword is produced |
| `Parser.Register` | ansible_navigator/configuration_subsystem/parser.py:58-64 | nothing is registered exactly when the entry has no CLI parameters, otherwise exactly one argument with the projected options; both spellings are used exactly when both are truthy; a positional entry always uses its bare name; a non-positional entry uses its bare name exactly when its short spelling is falsy; the argument is always bound to the entry's name |
| `Parser.ScopeEntries` | ansible_navigator/configuration_subsystem/parser.py:77-92 | the entries a scope (the base parser, or one subcommand's parser) registers, filtered in entry order: each kept entry has CLI parameters and is meant for that scope |
| `Parser.ScopeArguments` | ansible_navigator/configuration_subsystem/parser.py:77-92 | the arguments a scope receives by walking the entries in order: at most one per entry |
| `Parser.Selectors` | ansible_navigator/configuration_subsystem/parser.py:67-69 | the filter keeps only entries whose subcommand_value is true |
| `Parser.SelectorsAny` | ansible_navigator/configuration_subsystem/parser.py:67-70 | the filter is non-empty exactly when some entry selects the subcommand |
| `Parser.SelectorsSeveral` | ansible_navigator/configuration_subsystem/parser.py:67-73 | the filter keeps two or more exactly when two different entries select the subcommand |
| `Parser.SeveralFromSelectors` | ansible_navigator/configuration_subsystem/parser.py:67-73 | two kept entries come from two different selecting entries |
| `Parser.SelectorsFromSeveral` | ansible_navigator/configuration_subsystem/parser.py:67-73 | two different selecting entries are both kept by the filter |
| `Parser.SelectorsOne` | ansible_navigator/configuration_subsystem/parser.py:67-74 | when the filter keeps one entry, that entry is the only one that selects the subcommand |
| `Parser.SubcommandSelector` | ansible_navigator/configuration_subsystem/parser.py:66-74 | "no entry" error exactly when no entry selects the subcommand; "multiple entries" error exactly when two do; otherwise success with the sole selecting entry |
| `Parser.Parser.constructor` | ansible_navigator/configuration_subsystem/parser.py:23-27 | the base parser is created without help and configured with exactly the all-subcommand arguments; after that, the top-level parser is created with help, inherits the base, holds no arguments and has no subcommand group yet |
| `Parser.Parser.Build` | ansible_navigator/configuration_subsystem/parser.py:23-29 | construction fails exactly when the selector check fails, and with its error; otherwise it yields a fresh, fully assembled parser: the base holds the all-subcommand arguments; the group is titled and bound by the selector; each subcommand in order has a distinct fresh parser, with the help option, help = description, description = "name: description", the base as its only parent, and exactly the entries that name it; every object of the result (the parser object, base, top-level parser, group and child parsers) is freshly allocated |
| `Parser.Parser.AddParser` | ansible_navigator/configuration_subsystem/parser.py:58-64 | the target parser's arguments become the old arguments followed by what `Register` yields for the entry |
| `Parser.Parser.AddSubparsers` | ansible_navigator/configuration_subsystem/parser.py:66-75 | on a selector error, returns that error and leaves the top-level parser unchanged; otherwise creates one fresh empty group with title = selector's short description and dest = selector's name, and attaches it to the top-level parser |
| `Parser.Parser.ConfigureBase` | ansible_navigator/configuration_subsystem/parser.py:77-80 | the base parser's arguments grow by exactly the arguments of the all-subcommand entries, in entry order |
| `Parser.Parser.ConfigureSubparsers` | ansible_navigator/configuration_subsystem/parser.py:82-92 | appends one record per declared subcommand, in order, and keeps the earlier records; each has a fresh, distinct parser with the help option that inherits the base and holds exactly the list-scoped entries naming that subcommand |
| `Parser.Parser.AddSubcommandEntries` | ansible_navigator/configuration_subsystem/parser.py:90-92 | the subcommand parser's arguments grow by exactly the arguments of the entries whose explicit list names that subcommand, in entry order |
| `ParserProperties.ScopeEntriesMembership` | ansible_navigator/configuration_subsystem/parser.py:77-92 | an entry is registered on a scope exactly when it is among the entries, has CLI parameters and is meant for that scope |
| `ParserProperties.ScopeArgumentsProjectEntries` | ansible_navigator/configuration_subsystem/parser.py:58-64 | a scope's arguments are, one for one, the registrations of its entries |
| `ParserProperties.ScopeArgumentsAppend` | ansible_navigator/configuration_subsystem/parser.py:78-80 | registration follows entry order: the arguments of concatenated entry lists are the concatenated arguments |
| `ParserProperties.AllEntriesOnlyOnBase` | ansible_navigator/configuration_subsystem/parser.py:77-80 | an entry for all subcommands is on the base parser exactly when it has CLI parameters, and is never re-registered on a subcommand's parser |
| `ParserProperties.ListedEntriesOnlyOnNamedSubcommands` | ansible_navigator/configuration_subsystem/parser.py:90-92 | an entry with an explicit list is never on the base parser, and is on a subcommand's parser exactly when it has CLI parameters and its list names that subcommand |
| `ParserProperties.UnexposedNeverRegistered` | ansible_navigator/configuration_subsystem/parser.py:58-59 | an entry without CLI parameters registers nothing and is on no parser |
| `ParserProperties.RegisteredBindsOwnName` | ansible_navigator/configuration_subsystem/parser.py:41-64 | the argument registered for an entry is bound to the entry's name and to no other name |
| `ParserProperties.ScopeNamesDistinct` | ansible_navigator/configuration_subsystem/parser.py:77-92 | if entry names are distinct, so are the names of the entries on any one scope |
| `ParserProperties.ScopeBindingUnique` | ansible_navigator/configuration_subsystem/parser.py:77-92 | if entry names are distinct, every entry registered on a scope gives exactly one argument there bound to its name |
| `ParserProperties.VerboseScenario` | ansible_navigator/configuration_subsystem/parser.py:77-80 | an all-subcommand flag with short "-v" is registered on the base parser as ("-v", "--verbose") with dest "verbose" and nargs None; the "run" parser adds nothing; the selector is found |
| `ParserProperties.DuplicateSelectorScenario` | ansible_navigator/configuration_subsystem/parser.py:72-73 | two selecting entries give the "multiple entries" error |
| `ParserProperties.TargetScenario` | ansible_navigator/configuration_subsystem/parser.py:90-92 | a positional entry listed for "run" is registered on "run" alone, under its bare name, with nargs the symbol "?"; neither the base nor another subcommand gets it |

## Left out

- Argument-library internals are abstracted away. This covers the real
  argument parser and subparser action classes, the copying of parent actions
  on `parents=`, the help action added by `add_help`, argv parsing and its
  errors.
  - Inheritance is modelled as a reference to the base parser object.
  - `add_help` is modelled as a flag.
- The library may reject a registered combination, for example `dest` given
  together with a bare positional name. That check happens inside the library,
  and the builder itself does not perform it.
- The definitions module and the utility module are not part of this model.
  They cover how entries, `Subset`, `Sentinel` and the configuration are
  loaded and validated. Their values are input datatypes here. `name_dashed`
  is taken as given, not derived from `name`.
- Python's `str()` of an arbitrary default inside the help f-string is not
  modelled. The default is already-rendered text.
- `nargs` and `action` values are kept as plain data. An action given as a
  class rather than a string is outside the model.
- Subcommand dispatch after parsing, and what the application does with the
  returned parser object, are not modelled.
- The error is a `ConfigurationError` datatype carrying the source's two
  messages, not a Python `ValueError`. The partially built objects that
  Python discards when `__init__` raises are not returned by `Build`.
