/**
  The flag value behind --excluded-namespaces and --excluded-namespace-prefixes: a list of names
  set from, and printed as, a comma-separated text.
 */
module Options {
  import opened Text
  import Engine

  class NameListFlag {
    var names: seq<string>

    constructor (names: seq<string>)
      ensures this.names == names
    {
      this.names := names;
    }

    function Print(): string
      reads this
    {
      Join(names, ",")
    }

    /** Setting replaces the list; whatever was set prints as a text that sets the same list. */
    method Set(v: string)
      modifies this
      ensures names == CommaNames(v)
      ensures CommaNames(Print()) == names
    {
      names := Engine.ParseCommaList(v);
      CommaNormalForm(v);
    }
  }
}
