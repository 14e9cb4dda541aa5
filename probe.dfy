/**
 * The C "probe" translation unit that `FunctionRenames::expand` writes to
 * `expand_macros.c`: the includes content, three helper macros, then one
 * `RENAMED(_name, name)` invocation per logged macro name.
 */
module Probe {
  import opened RustStr

  /**
   * The helper macros: a two-level stringification (so the argument is macro-expanded
   * before `#` applies) and the marker macro that emits `"RUST_RENAMED" "from" "to"`.
   */
  function DefineLines(): seq<string> {
    [ "#define STRINGIFY(x) #x",
      "#define TOSTRING(x) STRINGIFY(x)",
      "#define RENAMED(from, to) " + MarkerTag + " TOSTRING(from) TOSTRING(to)" ]
  }

  /** The string literal token the marker macro puts in front of every pair. */
  const MarkerTag: string := "\"RUST_RENAMED\""

  /** The `format!` template before the loop: includes, a line break, the helper macros. */
  function Header(includes: string): string {
    includes + "\n" + Unlines(DefineLines())
  }

  /**
   * The invocation for one name; the underscore keeps the first argument from being
   * expanded, the second argument is the macro itself and is expanded.
   */
  function Call(name: string): string {
    "RENAMED(_" + name + ", " + name + ")"
  }

  /** One invocation line per logged name, in log order. */
  function CallLines(names: seq<string>): seq<string> {
    seq(|names|, k requires 0 <= k < |names| => Call(names[k]))
  }

  /** Logging more names appends their invocation lines, in order, after the others. */
  lemma CallLinesAppend(a: seq<string>, b: seq<string>)
    ensures CallLines(a + b) == CallLines(a) + CallLines(b)
  {
  }

  lemma CallLinesSnoc(names: seq<string>, i: nat)
    requires i < |names|
    ensures Unlines(CallLines(names[..i + 1])) == Unlines(CallLines(names[..i])) + (Call(names[i]) + "\n")
  {
    assert CallLines(names[..i + 1]) == CallLines(names[..i]) + [Call(names[i])];
    UnlinesSnoc(CallLines(names[..i]), Call(names[i]));
  }

  /** The whole probe text for a name log. */
  function ProbeText(includes: string, names: seq<string>): (r: string)
    ensures |includes| < |r| && r[..|includes| + 1] == includes + "\n"
  {
    Header(includes) + Unlines(CallLines(names))
  }

  /** The template-building loop of `expand` (the `format!` and the `push_str` per name). */
  method BuildProbe(includes: string, names: seq<string>) returns (template: string)
    ensures template == ProbeText(includes, names)
  {
    template := Header(includes);
    var i := 0;
    while i < |names|
      invariant 0 <= i <= |names|
      invariant template == Header(includes) + Unlines(CallLines(names[..i]))
    {
      CallLinesSnoc(names, i);
      template := template + (Call(names[i]) + "\n");
      i := i + 1;
    }
    assert names[..i] == names;
  }

  /**
   * Read line by line, the probe is the lines of the includes content, the three helper
   * macros, and then exactly one invocation per logged name, in log order (names
   * without line breaks, as C macro names are).
   */
  lemma ProbeLines(includes: string, names: seq<string>)
    requires forall k :: 0 <= k < |names| ==> '\n' !in names[k]
    ensures Lines(ProbeText(includes, names))
         == Lines(includes + "\n") + DefineLines() + CallLines(names)
  {
    var head := includes + "\n";
    var defs := DefineLines();
    var calls := CallLines(names);
    var body := Unlines(defs + calls);
    UnlinesAppend(defs, calls);
    assert ProbeText(includes, names) == head + body;
    PlainBody(names);
    LinesOfUnlines(defs + calls);
    LinesAppend(head, body);
    Assoc(Lines(head), defs, calls);
  }

  /** No helper-macro line and no invocation line is changed by `lines()`. */
  lemma PlainBody(names: seq<string>)
    requires forall k :: 0 <= k < |names| ==> '\n' !in names[k]
    ensures forall k :: 0 <= k < |DefineLines() + CallLines(names)| ==> PlainLine((DefineLines() + CallLines(names))[k])
  {
    DefinesPlain();
    var calls := CallLines(names);
    forall k | 0 <= k < |calls| ensures PlainLine(calls[k]) {
      CallPlain(names[k]);
    }
  }

  lemma DefinesPlain()
    ensures forall k :: 0 <= k < |DefineLines()| ==> PlainLine(DefineLines()[k])
  {
    var defs := DefineLines();
    assert PlainLine("#define STRINGIFY(x) #x");
    assert PlainLine("#define TOSTRING(x) STRINGIFY(x)");
    assert PlainLine(defs[2]) by {
      assert '\n' !in "#define RENAMED(from, to) " + MarkerTag;
      assert '\n' !in " TOSTRING(from) TOSTRING(to)";
    }
  }

  lemma CallPlain(name: string)
    requires '\n' !in name
    ensures PlainLine(Call(name))
  {
    var c := Call(name);
    assert c[|c| - 1] == ')';
    assert c == "RENAMED(_" + (name + (", " + (name + ")")));
  }
}
