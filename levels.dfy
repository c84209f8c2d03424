/**
 * Severity levels: the six named values, the plain and the coloured name tables, and
 * `String2Level`, which maps a name back to its level (log.go, lines 22-67).
 */
module Levels {
  import opened Options

  /** How critical a message is; Go's `uint8`, so every value 0..255 is a level. */
  newtype Level = x: int | 0 <= x < 256

  const Trace: Level := 0
  const Debug: Level := 10
  const Info: Level := 20
  const Warning: Level := 30
  const Error: Level := 40
  const Fatal: Level := 50

  /** `levelStrings`: the verbose name of each named level. */
  const LevelStrings: map<Level, string> :=
    map[Trace := "TRACE", Debug := "DEBUG", Info := "INFO",
        Warning := "WARN", Error := "ERROR", Fatal := "FATAL"]

  /** The terminal attributes `AnsiEscape` is called with; their escape codes live outside this model. */
  datatype Attribute = Off | Bold | Magenta | Yellow | Red

  /** One argument of the variadic `AnsiEscape`: an attribute or a piece of text. */
  datatype EscapeArg = Attr(attribute: Attribute) | Text(text: string)

  /** `AnsiEscape` itself is not part of this model: every function that needs it takes it as a parameter. */
  type AnsiEscape = seq<EscapeArg> -> string

  /** `levelCStrings`: the coloured name table, built from the plain one with `AnsiEscape`. */
  function LevelCStrings(ansi: AnsiEscape): (m: map<Level, string>)
    ensures m.Keys == LevelStrings.Keys
  {
    map[Trace := LevelStrings[Trace],
        Debug := LevelStrings[Debug],
        Info := ansi([Attr(Magenta), Text(LevelStrings[Info]), Attr(Off)]),
        Warning := ansi([Attr(Yellow), Text(LevelStrings[Warning]), Attr(Off)]),
        Error := ansi([Attr(Red), Text(LevelStrings[Error]), Attr(Off)]),
        Fatal := ansi([Attr(Red), Attr(Bold), Text(LevelStrings[Fatal]), Attr(Off)])]
  }

  /**
   * The colouring policy as a reference table: the attributes each named level is
   * highlighted with (none for Trace and Debug; Fatal alone is bold).
   */
  function Highlight(l: Level): seq<Attribute>
  {
    if l == Info then [Magenta]
    else if l == Warning then [Yellow]
    else if l == Error then [Red]
    else if l == Fatal then [Red, Bold]
    else []
  }

  function Attrs(attributes: seq<Attribute>): (r: seq<EscapeArg>)
    ensures |r| == |attributes| && forall i :: 0 <= i < |attributes| ==> r[i] == Attr(attributes[i])
  {
    if attributes == [] then [] else [Attr(attributes[0])] + Attrs(attributes[1..])
  }

  /**
   * The coloured table agrees with the colouring policy: a named level without highlight
   * keeps its plain name, every other one is its plain name wrapped by `AnsiEscape` between
   * its attributes and `Off`, and only Fatal is bold.
   */
  lemma ColoredNamesFollowHighlight(ansi: AnsiEscape, l: Level)
    requires l in LevelStrings
    ensures l in LevelCStrings(ansi)
    ensures Highlight(l) == [] <==> l == Trace || l == Debug
    ensures Bold in Highlight(l) <==> l == Fatal
    ensures LevelCStrings(ansi)[l] ==
              if Highlight(l) == [] then LevelStrings[l]
              else ansi(Attrs(Highlight(l)) + [Text(LevelStrings[l]), Attr(Off)])
  {
    var h := Highlight(l);
    if h != [] {
      assert Attrs(h) + [Text(LevelStrings[l]), Attr(Off)] ==
             if l == Fatal then [Attr(Red), Attr(Bold), Text(LevelStrings[l]), Attr(Off)]
             else [Attr(h[0]), Text(LevelStrings[l]), Attr(Off)];
    }
  }

  /** No two named levels share a name. */
  lemma NamesUnique(a: Level, b: Level)
    requires a in LevelStrings && b in LevelStrings && LevelStrings[a] == LevelStrings[b]
    ensures a == b
  {
  }

  /**
   * The `range` loop over `levelStrings`, visiting the levels in `order` (Go leaves the
   * iteration order of a map unspecified): the first visited level named `name`.
   */
  function FindName(order: seq<Level>, name: string): (r: Option<Level>)
    requires forall l :: l in order ==> l in LevelStrings
    ensures r.Some? ==> r.value in order && LevelStrings[r.value] == name
    ensures r.None? ==> forall l :: l in order ==> LevelStrings[l] != name
  {
    if order == [] then None
    else if LevelStrings[order[0]] == name then Some(order[0])
    else FindName(order[1..], name)
  }

  /** The named levels in ascending order: one iteration order of `levelStrings`. */
  const TableOrder: seq<Level> := [Trace, Debug, Info, Warning, Error, Fatal]

  lemma TableOrderCoversTable()
    ensures forall l :: l in TableOrder <==> l in LevelStrings
  {
  }

  /**
   * The lookup does not depend on the iteration order: every order that visits exactly the
   * named levels finds the same level, because names are unique.
   */
  lemma {:induction false} IterationOrderIrrelevant(order: seq<Level>, name: string)
    requires forall l :: l in order <==> l in LevelStrings
    ensures FindName(order, name) == FindName(TableOrder, name)
  {
    TableOrderCoversTable();
    var r1, r2 := FindName(order, name), FindName(TableOrder, name);
    if r1.Some? {
      assert r1.value in TableOrder;
    }
    if r2.Some? {
      assert r2.value in order;
    }
    if r1.Some? && r2.Some? {
      NamesUnique(r1.value, r2.value);
    }
  }

  /** The `(Level, error)` pair `String2Level` returns; `err` is `None` for Go's `nil`. */
  datatype ParseResult = ParseResult(level: Level, err: Option<string>)

  /**
   * `String2Level`: the level whose name is exactly `name`; for the empty string or any
   * other unknown name, Debug together with an error.
   */
  function String2Level(name: string): (r: ParseResult)
    ensures r.err.None? <==> name in LevelStrings.Values
    ensures r.err.None? ==> r.level in LevelStrings && LevelStrings[r.level] == name
    ensures r.err.Some? ==> r.level == Debug
    ensures name == "" ==> r.err == Some("level is empty")
    ensures name != "" && r.err.Some? ==> r.err == Some("Wrong log level " + name)
  {
    TableOrderCoversTable();
    if name == "" then
      ParseResult(Debug, Some("level is empty"))
    else
      match FindName(TableOrder, name)
      case Some(l) => ParseResult(l, None)
      case None =>
        FindNameComplete(name);
        ParseResult(Debug, Some("Wrong log level " + name))
  }

  /** Searching the whole table finds a level exactly when the name is in the table. */
  lemma FindNameComplete(name: string)
    ensures FindName(TableOrder, name).Some? <==> name in LevelStrings.Values
  {
    TableOrderCoversTable();
    if name in LevelStrings.Values {
      var l :| l in LevelStrings && LevelStrings[l] == name;
      assert l in TableOrder;
    }
  }

  /** Every name in the table parses back to its own level, without error. */
  lemma {:induction false} String2LevelOfName(l: Level)
    requires l in LevelStrings
    ensures String2Level(LevelStrings[l]) == ParseResult(l, None)
  {
    var r := String2Level(LevelStrings[l]);
    NamesUnique(l, r.level);
  }

  /** "ERROR" parses to Error; the empty string and an unknown name give Debug and an error. */
  lemma String2LevelExamples()
    ensures String2Level("ERROR") == ParseResult(Error, None)
    ensures String2Level("") == ParseResult(Debug, Some("level is empty"))
    ensures String2Level("NOSUCHLEVEL") == ParseResult(Debug, Some("Wrong log level NOSUCHLEVEL"))
  {
    String2LevelOfName(Error);
    assert "NOSUCHLEVEL" !in LevelStrings.Values;
    assert "Wrong log level " + "NOSUCHLEVEL" == "Wrong log level NOSUCHLEVEL";
  }

}
