/**
 * An abstract view of the argument-parsing library the builder drives.
 * Registering an argument appends a record; inheriting from a parent parser is a
 * reference to the parent object. Parsing argv is not modelled.
 */
module ArgParse {
  import opened Definitions

  /** A keyword-argument value passed to `add_argument`. */
  datatype KwValue = Text(text: string) | Suppress | NoneValue | NargsValue(nargs: Nargs)

  /** One `add_argument(*flags, **kwargs)` call. */
  datatype Argument = Argument(flags: seq<string>, kwargs: map<string, KwValue>)

  /** One `add_parser` call on a subparser group, and the parser it created. */
  datatype SubParser = SubParser(name: string, help: string, description: string, parser: ArgumentParser)

  class ArgumentParser {
    const parents: seq<ArgumentParser>
    const addHelp: bool
    var arguments: seq<Argument>
    var subparsers: SubParsersAction?

    constructor (parents: seq<ArgumentParser>, addHelp: bool)
      ensures this.parents == parents && this.addHelp == addHelp
      ensures arguments == [] && subparsers == null
    {
      this.parents := parents;
      this.addHelp := addHelp;
      arguments := [];
      subparsers := null;
    }

    method AddArgument(a: Argument)
      modifies this`arguments
      ensures arguments == old(arguments) + [a]
    {
      arguments := arguments + [a];
    }

    method AddSubparsers(title: string, dest: string) returns (g: SubParsersAction)
      modifies this`subparsers
      ensures fresh(g) && g.title == title && g.dest == dest && g.choices == []
      ensures subparsers == g
    {
      g := new SubParsersAction(title, dest);
      subparsers := g;
    }
  }

  class SubParsersAction {
    const title: string
    const dest: string
    var choices: seq<SubParser>

    constructor (title: string, dest: string)
      ensures this.title == title && this.dest == dest && choices == []
    {
      this.title := title;
      this.dest := dest;
      choices := [];
    }

    /** Creates a fresh parser (with the default help option) and records it as a choice. */
    method AddParser(name: string, help: string, description: string, parents: seq<ArgumentParser>)
      returns (p: ArgumentParser)
      modifies this`choices
      ensures fresh(p) && p.parents == parents && p.addHelp
      ensures p.arguments == [] && p.subparsers == null
      ensures choices == old(choices) + [SubParser(name, help, description, p)]
    {
      p := new ArgumentParser(parents, true);
      choices := choices + [SubParser(name, help, description, p)];
    }
  }
}
