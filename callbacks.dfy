/**
 * `FunctionRenames`, the bindgen parse callback that records prefixed macro names,
 * expands them once through the C preprocessor into a rename table, and answers
 * bindgen's name and link-name queries from that table.
 *
 * File system and compiler access are the four functions of a `Host`; every call
 * the expansion pass makes on it is reported as an `Effect`, in order.
 */
module Callbacks {
  import opened Wrappers
  import opened RustStr
  import opened BiMaps
  import opened Probe
  import opened Markers

  /** bindgen's reply to `will_parse_macro`. */
  datatype MacroParsingBehavior = Default | Ignore

  /** bindgen's item kinds, as far as the overrides distinguish them. */
  datatype ItemKind = Function | Other

  /** The item bindgen asks about. */
  datatype ItemInfo = ItemInfo(name: string, kind: ItemKind)

  /** What `cc::Build::try_expand` followed by `str::from_utf8` can give back. */
  datatype ExpandOutput = ExpandError | InvalidUtf8 | Expanded(text: string)

  /** The outside world of the expansion pass. */
  datatype Host = Host(
    readFile: string -> Option<string>,            // fs::read_to_string
    writeFile: (string, string) -> bool,           // File::create + write_all
    expandMacros: (string, seq<string>) -> ExpandOutput, // preprocess the probe with these include dirs
    removeFile: string -> bool)                    // fs::remove_file

  /** One call the expansion pass makes on its host. */
  datatype Effect =
    | ReadFile(path: string)
    | WriteFile(path: string, contents: string)
    | ExpandMacros(path: string, includeDirs: seq<string>)
    | RemoveFile(path: string)

  /** What one expansion pass returns and which host calls it made. */
  datatype Run = Run(result: Outcome<BiMap>, effects: seq<Effect>)

  const ProbeFileName: string := "expand_macros.c"

  /** `Path::join` of a relative file name onto a directory, with `/` as separator. */
  function JoinPath(dir: string, file: string): (r: string)
    ensures |dir| + |file| <= |r| <= |dir| + |file| + 1
    ensures r[..|dir|] == dir && r[|r| - |file|..] == file
    ensures dir != [] ==> r[|r| - |file| - 1] == '/'
  {
    if dir == [] || dir[|dir| - 1] == '/' then dir + file else dir + "/" + file
  }

  /**
   * The closure given to `get_or_init`: nothing to do for an empty log; otherwise
   * read the includes, write the probe, preprocess it, build the table from the
   * output lines, and remove the probe. Each failure is fatal.
   */
  function ExpansionRun(host: Host, outDir: string, includes: string, includeDirs: seq<string>,
                        names: seq<string>): (r: Run)
    ensures r.effects == [] <==> names == []
    ensures |r.effects| <= 4
    ensures r.effects != [] ==> r.effects[0] == ReadFile(includes)
  {
    if names == [] then Run(Ok(Empty()), [])
    else
      var expandMe := JoinPath(outDir, ProbeFileName);
      match host.readFile(includes)
      case None => Run(Fatal(ReadIncludesFailed), [ReadFile(includes)])
      case Some(inc) =>
        var template := ProbeText(inc, names);
        var written := [ReadFile(includes), WriteFile(expandMe, template)];
        if !host.writeFile(expandMe, template) then Run(Fatal(WriteProbeFailed), written)
        else
          var expanded := written + [ExpandMacros(expandMe, includeDirs)];
          match host.expandMacros(template, includeDirs)
          case ExpandError => Run(Fatal(ExpandMacrosFailed), expanded)
          case InvalidUtf8 => Run(Fatal(OutputNotUtf8), expanded)
          case Expanded(text) =>
            match Table(Lines(text))
            case Fatal(f) => Run(Fatal(f), expanded)
            case Ok(remaps) =>
              var removed := expanded + [RemoveFile(expandMe)];
              if host.removeFile(expandMe) then Run(Ok(remaps), removed)
              else Run(Fatal(RemoveProbeFailed), removed)
  }

  /** A successful pass yields a rename table, whatever the host did. */
  lemma RunIsRenameTable(host: Host, outDir: string, includes: string, includeDirs: seq<string>,
                         names: seq<string>)
    ensures ExpansionRun(host, outDir, includes, includeDirs, names).result.Ok? ==>
              IsRenameTable(ExpansionRun(host, outDir, includes, includeDirs, names).result.value)
  {
    if names != [] && host.readFile(includes).Some? {
      var template := ProbeText(host.readFile(includes).value, names);
      match host.expandMacros(template, includeDirs)
      case Expanded(text) => TableIsRenameTable(Lines(text));
      case _ =>
    }
  }

  /** `generated_name_override` once the table is known: expanded name to visible name. */
  function NameOverride(t: BiMap, item: ItemInfo): (r: Option<string>)
    requires t.Valid()
    ensures r.Some? ==> item.kind == Function && t.Has(r.value, item.name)
    ensures r.None? ==> item.kind != Function || forall a :: !t.Has(a, item.name)
  {
    match item.kind
    case Function => t.GetByRight(item.name)
    case Other => None
  }

  /** `generated_link_name_override` once the table is known: visible name to expanded name. */
  function LinkNameOverride(t: BiMap, item: ItemInfo): (r: Option<string>)
    requires t.Valid()
    ensures r.Some? ==> item.kind == Function && t.Has(item.name, r.value)
    ensures r.None? ==> item.kind != Function || forall b :: !t.Has(item.name, b)
  {
    match item.kind
    case Function => t.GetByLeft(item.name)
    case Other => None
  }

  /** The two overrides invert each other on every pair of the table, in both directions. */
  lemma OverridesInvert(t: BiMap, visible: string, expanded: string)
    requires t.Valid()
    ensures NameOverride(t, ItemInfo(expanded, Function)) == Some(visible)
        <==> LinkNameOverride(t, ItemInfo(visible, Function)) == Some(expanded)
    ensures t.Has(visible, expanded) ==> NameOverride(t, ItemInfo(expanded, Function)) == Some(visible)
  {
    if LinkNameOverride(t, ItemInfo(visible, Function)) == Some(expanded) {
      assert t.Has(visible, expanded);
      assert t.right[expanded] == visible;
    }
  }

  /** With no logged name the pass builds nothing, runs nothing and yields an empty table. */
  lemma EmptyLogNoProbe(host: Host, outDir: string, includes: string, includeDirs: seq<string>)
    ensures ExpansionRun(host, outDir, includes, includeDirs, []).effects == []
    ensures ExpansionRun(host, outDir, includes, includeDirs, []).result.Ok?
    ensures forall a, b :: !ExpansionRun(host, outDir, includes, includeDirs, []).result.value.Has(a, b)
  {
  }

  /**
   * A successful pass over a non-empty log read the includes, wrote the probe text
   * built from them and the log, preprocessed it, and removed it again. Removal of
   * the probe is attempted exactly on the success path and on the fatal path of the
   * removal itself.
   */
  lemma RunEffects(host: Host, outDir: string, includes: string, includeDirs: seq<string>,
                   names: seq<string>)
    requires names != []
    ensures var run := ExpansionRun(host, outDir, includes, includeDirs, names);
            var expandMe := JoinPath(outDir, ProbeFileName);
            && (run.result.Ok? ==>
                  && host.readFile(includes).Some?
                  && run.effects == [ ReadFile(includes),
                                      WriteFile(expandMe, ProbeText(host.readFile(includes).value, names)),
                                      ExpandMacros(expandMe, includeDirs),
                                      RemoveFile(expandMe) ])
            && (RemoveFile(expandMe) in run.effects <==> run.result.Ok? || run.result == Fatal(RemoveProbeFailed))
  {
    var run := ExpansionRun(host, outDir, includes, includeDirs, names);
    var expandMe := JoinPath(outDir, ProbeFileName);
    if host.readFile(includes).Some? {
      var template := ProbeText(host.readFile(includes).value, names);
      if host.writeFile(expandMe, template) {
        var written := [ReadFile(includes), WriteFile(expandMe, template), ExpandMacros(expandMe, includeDirs)];
        assert RemoveFile(expandMe) !in written;
        match host.expandMacros(template, includeDirs)
        case Expanded(text) =>
          if Table(Lines(text)).Ok? {
            assert RemoveFile(expandMe) in written + [RemoveFile(expandMe)];
          }
        case _ =>
      }
    }
  }

  /**
   * End to end: when the host cooperates and the preprocessor's output has the marker
   * line of a real rename `(n, e)` with no earlier line claiming `n` or `e` and no
   * malformed marker line, the pass succeeds, and the link-name override maps `n` to
   * `e` while the name override maps `e` back to `n`.
   */
  lemma RunRoundTrip(host: Host, outDir: string, includes: string, includeDirs: seq<string>,
                     names: seq<string>, text: string, k: nat, n: string, e: string)
    requires names != [] && host.readFile(includes).Some?
    requires host.writeFile(JoinPath(outDir, ProbeFileName), ProbeText(host.readFile(includes).value, names))
    requires host.expandMacros(ProbeText(host.readFile(includes).value, names), includeDirs) == Expanded(text)
    requires host.removeFile(JoinPath(outDir, ProbeFileName))
    requires forall j :: 0 <= j < |Lines(text)| ==> !ParseMarker(Lines(text)[j]).Malformed?
    requires '"' !in n && ' ' !in n && '"' !in e && n != e && e != []
    requires k < |Lines(text)| && Lines(text)[k] == MarkerLine(n, e)
    requires forall j :: 0 <= j < k ==> !ClashesAt(ParseMarker, Lines(text), j, n, e)
    ensures ExpansionRun(host, outDir, includes, includeDirs, names).result.Ok?
    ensures var t := ExpansionRun(host, outDir, includes, includeDirs, names).result.value;
            && LinkNameOverride(t, ItemInfo(n, Function)) == Some(e)
            && NameOverride(t, ItemInfo(e, Function)) == Some(n)
  {
    var lines := Lines(text);
    ScanFatal(ParseMarker, Empty(), lines);
    MarkerLineInTable(lines, k, n, e);
    var t := Table(lines).value;
    OverridesInvert(t, n, e);
  }

  /**
   * Two logged macros with one expansion (`#define cuA cuX`, `#define cuB cuX`): the
   * name logged first keeps both overrides, the name logged second gets no link-name
   * override, because its pair is overwritten when the earlier marker line is scanned.
   */
  lemma SharedExpansionLaterLoses(n1: string, n2: string, e: string)
    requires '"' !in n1 && ' ' !in n1 && '"' !in n2 && ' ' !in n2 && '"' !in e
    requires n1 != n2 && n1 != e && n2 != e && e != []
    ensures Table([MarkerLine(n1, e), MarkerLine(n2, e)]).Ok?
    ensures var t := Table([MarkerLine(n1, e), MarkerLine(n2, e)]).value;
            && LinkNameOverride(t, ItemInfo(n1, Function)) == Some(e)
            && NameOverride(t, ItemInfo(e, Function)) == Some(n1)
            && LinkNameOverride(t, ItemInfo(n2, Function)) == None
  {
    var lines := [MarkerLine(n1, e), MarkerLine(n2, e)];
    MarkerRoundTrip(n1, e);
    MarkerRoundTrip(n2, e);
    ScanSharedExpansion(lines, n1, n2, e);
    OverridesInvert(Table(lines).value, n1, e);
  }

  class FunctionRenames {
    const funcPrefix: string
    const outDir: string
    const includes: string
    const includeDirs: seq<string>
    /** The `RefCell<Vec<String>>` of recorded macro names. */
    var macroNames: seq<string>
    /** The `OnceLock` holding the rename table once it is computed. */
    var funcRemaps: Option<BiMap>

    /** Only prefixed names are logged, and a computed table is a rename table. */
    ghost predicate Valid()
      reads this
    {
      && (forall k :: 0 <= k < |macroNames| ==> StartsWith(macroNames[k], funcPrefix))
      && (funcRemaps.Some? ==> IsRenameTable(funcRemaps.value))
    }

    /** What the next `expand` returns and does: the cached table, or a fresh pass. */
    function NextRun(host: Host): Run
      reads this
    {
      match funcRemaps
      case Some(t) => Run(Ok(t), [])
      case None => ExpansionRun(host, outDir, includes, includeDirs, macroNames)
    }

    /** `FunctionRenames::new`: empty log, table not yet computed. */
    constructor (funcPrefix: string, outDir: string, includes: string, includeDirs: seq<string>)
      ensures Valid()
      ensures this.funcPrefix == funcPrefix && this.outDir == outDir
      ensures this.includes == includes && this.includeDirs == includeDirs
      ensures macroNames == [] && funcRemaps == None
    {
      this.funcPrefix := funcPrefix;
      this.outDir := outDir;
      this.includes := includes;
      this.includeDirs := includeDirs;
      macroNames := [];
      funcRemaps := None;
    }

    /** `record_macro`: append the name, duplicates included. */
    method RecordMacro(name: string)
      modifies this`macroNames
      ensures macroNames == old(macroNames) + [name]
    {
      macroNames := macroNames + [name];
    }

    /** `will_parse_macro`: log the name iff it has the prefix; always `Default`. */
    method WillParseMacro(name: string) returns (b: MacroParsingBehavior)
      requires Valid()
      modifies this`macroNames
      ensures Valid()
      ensures b == Default
      ensures macroNames == if StartsWith(name, funcPrefix) then old(macroNames) + [name] else old(macroNames)
    {
      if StartsWith(name, funcPrefix) {
        RecordMacro(name);
      }
      b := Default;
    }

    /** The body of the `get_or_init` closure; changes nothing in this object. */
    method ComputeRemaps(host: Host) returns (r: Outcome<BiMap>, effects: seq<Effect>)
      ensures Run(r, effects) == ExpansionRun(host, outDir, includes, includeDirs, macroNames)
    {
      if macroNames == [] {
        return Ok(Empty()), [];
      }
      var expandMe := JoinPath(outDir, ProbeFileName);
      effects := [ReadFile(includes)];
      var inc := host.readFile(includes);
      if inc.None? {
        return Fatal(ReadIncludesFailed), effects;
      }
      var template := BuildProbe(inc.value, macroNames);
      effects := effects + [WriteFile(expandMe, template)];
      if !host.writeFile(expandMe, template) {
        return Fatal(WriteProbeFailed), effects;
      }
      effects := effects + [ExpandMacros(expandMe, includeDirs)];
      var expanded := host.expandMacros(template, includeDirs);
      match expanded {
        case ExpandError =>
          return Fatal(ExpandMacrosFailed), effects;
        case InvalidUtf8 =>
          return Fatal(OutputNotUtf8), effects;
        case Expanded(text) =>
          var remaps := BuildTable(Lines(text));
          if remaps.Fatal? {
            return remaps, effects;
          }
          effects := effects + [RemoveFile(expandMe)];
          if !host.removeFile(expandMe) {
            return Fatal(RemoveProbeFailed), effects;
          }
          return remaps, effects;
      }
    }

    /**
     * `expand`: the first successful call computes and stores the table; every later
     * call returns the stored table and touches nothing, however the log has grown.
     * A fatal pass leaves the cell empty.
     */
    method Expand(host: Host) returns (r: Outcome<BiMap>, effects: seq<Effect>)
      requires Valid()
      modifies this`funcRemaps
      ensures Valid()
      ensures Run(r, effects) == old(NextRun(host))
      ensures old(funcRemaps).Some? ==> funcRemaps == old(funcRemaps)
      ensures old(funcRemaps).None? ==> funcRemaps == if r.Ok? then Some(r.value) else None
    {
      if funcRemaps.Some? {
        return Ok(funcRemaps.value), [];
      }
      r, effects := ComputeRemaps(host);
      if r.Ok? {
        RunIsRenameTable(host, outDir, includes, includeDirs, macroNames);
        funcRemaps := Some(r.value);
      }
    }

    /** `generated_name_override`: expand (once), then look the expanded name up. */
    method GeneratedNameOverride(host: Host, item: ItemInfo) returns (r: Outcome<Option<string>>, effects: seq<Effect>)
      requires Valid()
      modifies this`funcRemaps
      ensures Valid()
      ensures effects == old(NextRun(host)).effects
      ensures r.Ok? <==> old(NextRun(host)).result.Ok?
      ensures r.Ok? ==>
                funcRemaps == Some(old(NextRun(host)).result.value) && r.value == NameOverride(funcRemaps.value, item)
      ensures r.Fatal? ==> funcRemaps == None
    {
      var remaps;
      remaps, effects := Expand(host);
      match remaps {
        case Fatal(f) => r := Fatal(f);
        case Ok(t) =>
          match item.kind {
            case Function => r := Ok(t.GetByRight(item.name));
            case Other => r := Ok(None);
          }
      }
    }

    /** `generated_link_name_override`: expand (once), then look the visible name up. */
    method GeneratedLinkNameOverride(host: Host, item: ItemInfo) returns (r: Outcome<Option<string>>, effects: seq<Effect>)
      requires Valid()
      modifies this`funcRemaps
      ensures Valid()
      ensures effects == old(NextRun(host)).effects
      ensures r.Ok? <==> old(NextRun(host)).result.Ok?
      ensures r.Ok? ==>
                funcRemaps == Some(old(NextRun(host)).result.value) && r.value == LinkNameOverride(funcRemaps.value, item)
      ensures r.Fatal? ==> funcRemaps == None
    {
      var remaps;
      remaps, effects := Expand(host);
      match remaps {
        case Fatal(f) => r := Fatal(f);
        case Ok(t) =>
          match item.kind {
            case Function => r := Ok(t.GetByLeft(item.name));
            case Other => r := Ok(None);
          }
      }
    }
  }

  /** A host whose preprocessor prints the marker line of `cuLaunch -> cuLaunchKernel_v2`. */
  function CuHost(): Host {
    Host(
      path => Some("#include <cuda.h>\n"),
      (path, contents) => true,
      (probe, dirs) => Expanded(MarkerLine("cuLaunch", "cuLaunchKernel_v2") + "\n"),
      path => true)
  }

  lemma CuLaunchRun()
    ensures var run := ExpansionRun(CuHost(), "out", "wrapper.h", ["include"], ["cuLaunch"]);
            && run.result.Ok? && |run.effects| == 4
            && LinkNameOverride(run.result.value, ItemInfo("cuLaunch", Function)) == Some("cuLaunchKernel_v2")
            && NameOverride(run.result.value, ItemInfo("cuLaunchKernel_v2", Function)) == Some("cuLaunch")
  {
    var host := CuHost();
    var names := ["cuLaunch"];
    var marker := MarkerLine("cuLaunch", "cuLaunchKernel_v2");
    var text := marker + "\n";
    CuLaunchLines();
    var inc := host.readFile("wrapper.h").value;
    assert host.expandMacros(ProbeText(inc, names), ["include"]) == Expanded(text);
    RunRoundTrip(host, "out", "wrapper.h", ["include"], names, text, 0, "cuLaunch", "cuLaunchKernel_v2");
    RunEffects(host, "out", "wrapper.h", ["include"], names);
  }

  /** The preprocessor output of `CuHost` is the one marker line, and it parses to the rename. */
  lemma CuLaunchLines()
    ensures Lines(MarkerLine("cuLaunch", "cuLaunchKernel_v2") + "\n") == [MarkerLine("cuLaunch", "cuLaunchKernel_v2")]
    ensures ParseMarker(MarkerLine("cuLaunch", "cuLaunchKernel_v2")) == Entry("cuLaunch", "cuLaunchKernel_v2")
  {
    var marker := MarkerLine("cuLaunch", "cuLaunchKernel_v2");
    MarkerLinePlain("cuLaunch", "cuLaunchKernel_v2");
    LinesCons(marker, []);
    assert marker + "\n" + [] == marker + "\n";
    MarkerRoundTrip("cuLaunch", "cuLaunchKernel_v2");
  }

  /**
   * A client in the shape bindgen drives it: prefix `cu`, one header macro
   * `#define cuLaunch cuLaunchKernel_v2` and one unrelated macro. The second query
   * finds the table already computed and makes no host call.
   */
  method CuLaunchScenario()
  {
    var host := CuHost();
    var fr := new FunctionRenames("cu", "out", "wrapper.h", ["include"]);
    assert "cuLaunch"[..2] == "cu";
    var b := fr.WillParseMacro("cuLaunch");
    assert "CUDA_VERSION"[..2][1] == 'U';
    b := fr.WillParseMacro("CUDA_VERSION");
    assert fr.macroNames == ["cuLaunch"];

    CuLaunchRun();
    var link, effects := fr.GeneratedLinkNameOverride(host, ItemInfo("cuLaunch", Function));
    assert link == Ok(Some("cuLaunchKernel_v2"));
    assert |effects| == 4;

    var name, effects' := fr.GeneratedNameOverride(host, ItemInfo("cuLaunchKernel_v2", Function));
    assert name == Ok(Some("cuLaunch"));
    assert effects' == [];
  }
}
