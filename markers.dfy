/**
 * Reading the preprocessed probe back: which output lines are marker lines, how a
 * marker line becomes a (visible name, expanded name) pair, and how the pairs fill
 * the rename table when the lines are scanned from the last to the first.
 */
module Markers {
  import opened Wrappers
  import opened RustStr
  import opened BiMaps
  import Probe

  /** A line contributes only if it starts with the marker literal and one space. */
  const MarkerPrefix: string := Probe.MarkerTag + " "

  /** What one output line contributes. */
  datatype LineParse =
    | Ignored                                   // not a marker line, or filtered out
    | Entry(visible: string, expanded: string)  // a rename to insert
    | Malformed                                 // `l[1..]` would panic

  /**
   * The parse chain of one line: strip the marker prefix, remove every `"`, split at
   * the first space, drop the first byte of the left part, and keep the pair only if
   * its sides differ and the right side is non-empty.
   */
  function ParseMarker(line: string): (p: LineParse)
    ensures !StartsWith(line, MarkerPrefix) ==> p == Ignored
    ensures p.Malformed? <==>
              && StartsWith(line, MarkerPrefix)
              && var s := RemoveChar(line[|MarkerPrefix|..], '"');
                 ' ' in s && (s[0] == ' ' || s[0] as int >= 0x80)
    ensures p.Entry? ==> p.visible != p.expanded && p.expanded != []
    ensures p.Entry? ==> '"' !in p.visible && '"' !in p.expanded
  {
    match StripPrefix(line, MarkerPrefix)
    case None => Ignored
    case Some(rest) =>
      match SplitOnce(RemoveChar(rest, '"'), ' ')
      case None => Ignored
      case Some((l, r)) =>
        match DropFirstByte(l)
        case None => Malformed
        case Some(name) =>
          if name != r && r != [] then Entry(name, r) else Ignored
  }

  /**
   * A marker line whose remainder starts with a space has an empty left token, so
   * `l[1..]` panics on it.
   */
  lemma EmptyTokenMalformed(rest: string)
    ensures ParseMarker(MarkerPrefix + " " + rest) == Malformed
  {
    var line := MarkerPrefix + " " + rest;
    assert line[|MarkerPrefix|..] == " " + rest;
    RemoveCharAppend(" ", rest, '"');
    assert RemoveChar(" ", '"') == " ";
  }

  /**
   * What a pair-yielding line looks like: after the marker prefix and with its quotes
   * removed, it is one ASCII non-space character, the visible name (which has no
   * space), one space, and the expanded name.
   */
  lemma ParseMarkerEntry(line: string)
    ensures var p := ParseMarker(line);
            p.Entry? ==>
              && StartsWith(line, MarkerPrefix)
              && ' ' !in p.visible
              && var s := RemoveChar(line[|MarkerPrefix|..], '"');
                 && s != [] && s[0] as int < 0x80 && s[0] != ' '
                 && s == [s[0]] + p.visible + " " + p.expanded
  {
    var p := ParseMarker(line);
    if p.Entry? {
      var s := RemoveChar(line[|MarkerPrefix|..], '"');
      assert StripPrefix(line, MarkerPrefix) == Some(line[|MarkerPrefix|..]);
      var (l, r) := SplitOnce(s, ' ').value;
      var name := DropFirstByte(l).value;
      assert l == [l[0]] + name;
      assert s == l + [' '] + r;
      assert s[0] == l[0];
      assert ' ' !in name by {
        forall i | 0 <= i < |name| ensures name[i] != ' ' {
          assert name[i] == l[i + 1];
        }
      }
      assert s == [s[0]] + p.visible + " " + p.expanded;
    }
  }

  /**
   * The converse: a marker line whose unquoted remainder is an ASCII non-space
   * character, a name without spaces, a space and an expansion yields exactly that
   * pair, unless the pair is not a rename.
   */
  lemma ParseMarkerSplit(line: string, c: char, v: string, e: string)
    requires StartsWith(line, MarkerPrefix)
    requires c as int < 0x80 && c != ' ' && ' ' !in v
    requires RemoveChar(line[|MarkerPrefix|..], '"') == [c] + v + " " + e
    ensures ParseMarker(line) == if v != e && e != [] then Entry(v, e) else Ignored
  {
    assert StripPrefix(line, MarkerPrefix) == Some(line[|MarkerPrefix|..]);
    assert ' ' !in [c] + v;
    SplitAtSpace([c] + v, e);
    assert DropFirstByte([c] + v) == Some(v);
  }

  /**
   * The line the preprocessor prints for `RENAMED(_n, n)` when the macro `n` expands
   * to `e`: the marker literal, then `"_n"`, then `"e"`.
   */
  function MarkerLine(n: string, e: string): string {
    MarkerPrefix + ("\"_" + n + "\"") + " " + ("\"" + e + "\"")
  }

  /**
   * A marker line for a visible name without quotes or spaces and an expansion
   * without quotes parses back to exactly that pair, unless the pair is not a rename.
   */
  lemma MarkerRoundTrip(n: string, e: string)
    requires '"' !in n && ' ' !in n && '"' !in e
    ensures ParseMarker(MarkerLine(n, e)) == if n != e && e != [] then Entry(n, e) else Ignored
  {
    var line := MarkerLine(n, e);
    var rest := ("\"_" + n + "\"") + (" " + ("\"" + e + "\""));
    assert line == MarkerPrefix + rest;
    assert StripPrefix(line, MarkerPrefix) == Some(rest) by {
      assert line[..|MarkerPrefix|] == MarkerPrefix;
      assert line[|MarkerPrefix|..] == rest;
    }
    var l := "_" + n;
    Unquote(n, e);
    SplitAtSpace(l, e);
    assert DropFirstByte(l) == Some(n);
  }

  /** A marker line has no line break inside and does not end with `\r`. */
  lemma MarkerLinePlain(n: string, e: string)
    requires '\n' !in n && '\n' !in e
    ensures PlainLine(MarkerLine(n, e))
  {
    var line := MarkerLine(n, e);
    assert line[|line| - 1] == '"';
  }

  /** Removing the quotes from `"_n" "e"` leaves `_n e`. */
  lemma Unquote(n: string, e: string)
    requires '"' !in n && '"' !in e
    ensures RemoveChar(("\"_" + n + "\"") + (" " + ("\"" + e + "\"")), '"') == "_" + n + " " + e
  {
    RemoveCharAppend("\"_" + n + "\"", " " + ("\"" + e + "\""), '"');
    UnquoteLeft(n);
    UnquoteRight(e);
  }

  lemma UnquoteLeft(n: string)
    requires '"' !in n
    ensures RemoveChar("\"_" + n + "\"", '"') == "_" + n
  {
    RemoveCharAppend("\"_" + n, "\"", '"');
    RemoveCharAppend("\"_", n, '"');
    assert RemoveChar("\"_", '"') == "_";
    assert RemoveChar("\"", '"') == [];
  }

  lemma UnquoteRight(e: string)
    requires '"' !in e
    ensures RemoveChar(" " + ("\"" + e + "\""), '"') == " " + e
  {
    RemoveCharAppend(" ", "\"" + e + "\"", '"');
    RemoveCharAppend("\"" + e, "\"", '"');
    RemoveCharAppend("\"", e, '"');
    assert RemoveChar("\"", '"') == [];
    assert RemoveChar(" ", '"') == " ";
  }

  /** `l e` splits at its first space into `l` and `e` when `l` has no space. */
  lemma SplitAtSpace(l: string, e: string)
    requires ' ' !in l
    ensures SplitOnce(l + " " + e, ' ') == Some((l, e))
  {
    var s := l + " " + e;
    var i := IndexOf(s, ' ');
    assert s[|l|] == ' ';
    assert forall j :: 0 <= j < |l| ==> s[j] == l[j];
    assert i == |l|;
    assert s[..i] == l && s[i + 1..] == e;
  }

  /** A rename table as the pass builds it: a bijection whose pairs are real renames. */
  ghost predicate IsRenameTable(t: BiMap) {
    t.Valid() && forall a, b :: t.Has(a, b) ==> a != b && b != []
  }

  /**
   * The effect of one line on the table being built (the body of the loop). The scan
   * is stated for any line parser `parse`; the pass itself uses `ParseMarker`.
   */
  function Step(parse: string -> LineParse, m: BiMap, line: string): (r: Outcome<BiMap>)
    requires m.Valid()
    ensures r.Ok? ==> r.value.Valid()
    ensures r.Fatal? <==> parse(line).Malformed?
    ensures r.Fatal? ==> r.failure == MalformedMarker(line)
  {
    match parse(line)
    case Ignored => Ok(m)
    case Entry(l, r) => Ok(m.Insert(l, r))
    case Malformed => Fatal(MalformedMarker(line))
  }

  /** `for line in expanded.lines().rev()`: the last line is applied first. */
  function Scan(parse: string -> LineParse, m: BiMap, lines: seq<string>): (r: Outcome<BiMap>)
    requires m.Valid()
    ensures r.Ok? ==> r.value.Valid()
    ensures r.Fatal? ==> r.failure.MalformedMarker? && r.failure.line in lines && parse(r.failure.line).Malformed?
    decreases |lines|
  {
    if lines == [] then Ok(m)
    else
      match Step(parse, m, lines[|lines| - 1])
      case Fatal(f) => Fatal(f)
      case Ok(m') => Scan(parse, m', lines[..|lines| - 1])
  }

  /** The table the pass builds from the preprocessor's output lines. */
  function Table(lines: seq<string>): (r: Outcome<BiMap>)
    ensures r.Ok? ==> r.value.Valid()
    ensures r.Fatal? ==> r.failure.MalformedMarker? && r.failure.line in lines && ParseMarker(r.failure.line).Malformed?
  {
    Scan(ParseMarker, Empty(), lines)
  }

  /** The parsing loop of `expand`, over the lines in reverse order. */
  method BuildTable(lines: seq<string>) returns (r: Outcome<BiMap>)
    ensures r == Table(lines)
  {
    var remaps := Empty();
    var i := |lines|;
    assert lines[..i] == lines;
    while i > 0
      invariant 0 <= i <= |lines|
      invariant remaps.Valid()
      invariant Scan(ParseMarker, remaps, lines[..i]) == Table(lines)
      decreases i
    {
      var line := lines[i - 1];
      assert lines[..i][..i - 1] == lines[..i - 1];
      match ParseMarker(line) {
        case Malformed =>
          return Fatal(MalformedMarker(line));
        case Ignored =>
        case Entry(original, expanded) =>
          remaps := remaps.Insert(original, expanded);
      }
      i := i - 1;
    }
    assert lines[..0] == [];
    return Ok(remaps);
  }

  /** Pairs produced by `parse` are renames: distinct sides, non-empty right side. */
  ghost predicate ParsesRenames(parse: string -> LineParse) {
    forall line :: parse(line).Entry? ==> parse(line).visible != parse(line).expanded && parse(line).expanded != []
  }

  /** Every table the scan can produce from a rename table is a rename table. */
  lemma {:induction false} ScanKeepsRenameTable(parse: string -> LineParse, m: BiMap, lines: seq<string>)
    requires ParsesRenames(parse) && IsRenameTable(m)
    ensures Scan(parse, m, lines).Ok? ==> IsRenameTable(Scan(parse, m, lines).value)
    decreases |lines|
  {
    if lines != [] {
      var s := Step(parse, m, lines[|lines| - 1]);
      if s.Ok? {
        assert IsRenameTable(s.value);
        ScanKeepsRenameTable(parse, s.value, lines[..|lines| - 1]);
      }
    }
  }

  /** Whatever the output lines, a table the pass builds is a rename table. */
  lemma TableIsRenameTable(lines: seq<string>)
    ensures Table(lines).Ok? ==> IsRenameTable(Table(lines).value)
  {
    ScanKeepsRenameTable(ParseMarker, Empty(), lines);
  }

  /** The line `k` of `lines` parses to the pair `(a, b)`. */
  ghost predicate ParsedAt(parse: string -> LineParse, lines: seq<string>, k: int, a: string, b: string) {
    0 <= k < |lines| && parse(lines[k]) == Entry(a, b)
  }

  /** The line `k` of `lines` yields a pair that shares a side with `(a, b)`. */
  predicate ClashesAt(parse: string -> LineParse, lines: seq<string>, k: int, a: string, b: string)
    requires 0 <= k < |lines|
  {
    var p := parse(lines[k]);
    p.Entry? && (p.visible == a || p.expanded == b)
  }

  /** The scan panics exactly when some output line is malformed. */
  lemma {:induction false} ScanFatal(parse: string -> LineParse, m: BiMap, lines: seq<string>)
    requires m.Valid()
    ensures Scan(parse, m, lines).Fatal? <==> exists k :: 0 <= k < |lines| && parse(lines[k]).Malformed?
    decreases |lines|
  {
    if lines != [] {
      var n := |lines| - 1;
      var init := lines[..n];
      var s := Step(parse, m, lines[n]);
      if s.Ok? {
        ScanFatal(parse, s.value, init);
        if exists k :: 0 <= k < |lines| && parse(lines[k]).Malformed? {
          var k :| 0 <= k < |lines| && parse(lines[k]).Malformed?;
          assert k < n && init[k] == lines[k];
        }
        if exists k :: 0 <= k < n && parse(init[k]).Malformed? {
          var k :| 0 <= k < n && parse(init[k]).Malformed?;
          assert init[k] == lines[k];
        }
      }
    }
  }

  /**
   * Line `k` yields `(a, b)` and no earlier line yields a pair sharing a side with
   * it: the line whose pair the reverse scan inserts last.
   */
  ghost predicate WinsAt(parse: string -> LineParse, lines: seq<string>, k: int, a: string, b: string) {
    ParsedAt(parse, lines, k, a, b) && forall j :: 0 <= j < k ==> !ClashesAt(parse, lines, j, a, b)
  }

  /**
   * Every pair of the result comes from the earliest line that clashes with it, or
   * was already there and no line clashes with it.
   */
  lemma {:induction false} ScanSound(parse: string -> LineParse, m: BiMap, lines: seq<string>, a: string, b: string)
    requires m.Valid() && Scan(parse, m, lines).Ok? && Scan(parse, m, lines).value.Has(a, b)
    ensures || (exists k :: WinsAt(parse, lines, k, a, b))
            || (m.Has(a, b) && forall j :: 0 <= j < |lines| ==> !ClashesAt(parse, lines, j, a, b))
    decreases |lines|
  {
    if lines != [] {
      var n := |lines| - 1;
      var init := lines[..n];
      var s := Step(parse, m, lines[n]);
      ScanSound(parse, s.value, init, a, b);
      if exists k :: WinsAt(parse, init, k, a, b) {
        var k :| WinsAt(parse, init, k, a, b);
        forall j | 0 <= j < k ensures !ClashesAt(parse, lines, j, a, b) {
          assert init[j] == lines[j];
          assert !ClashesAt(parse, init, j, a, b);
        }
        assert WinsAt(parse, lines, k, a, b);
      } else {
        forall j | 0 <= j < n ensures !ClashesAt(parse, lines, j, a, b) {
          assert init[j] == lines[j];
          assert !ClashesAt(parse, init, j, a, b);
        }
        match parse(lines[n])
        case Ignored =>
        case Entry(x, y) =>
          if x == a && y == b {
            assert WinsAt(parse, lines, n, a, b);
          }
        case Malformed =>
      }
    }
  }

  /**
   * A pair is in the table the pass builds exactly when some output line yields it and
   * no earlier line yields a pair sharing one of its sides: the earliest line wins.
   */
  lemma TableSound(lines: seq<string>, a: string, b: string)
    requires Table(lines).Ok?
    ensures Table(lines).value.Has(a, b) <==> exists k :: WinsAt(ParseMarker, lines, k, a, b)
  {
    if Table(lines).value.Has(a, b) {
      ScanSound(ParseMarker, Empty(), lines, a, b);
    }
    if exists k :: WinsAt(ParseMarker, lines, k, a, b) {
      var k :| WinsAt(ParseMarker, lines, k, a, b);
      ScanEntry(ParseMarker, Empty(), lines, k, a, b);
    }
  }

  /** A pair survives the scan of lines none of which yields a pair sharing one of its sides. */
  lemma {:induction false} ScanPreserves(parse: string -> LineParse, m: BiMap, lines: seq<string>, a: string, b: string)
    requires m.Valid() && m.Has(a, b)
    requires forall k :: 0 <= k < |lines| ==> !ClashesAt(parse, lines, k, a, b)
    ensures Scan(parse, m, lines).Ok? ==> Scan(parse, m, lines).value.Has(a, b)
    decreases |lines|
  {
    if lines != [] {
      var n := |lines| - 1;
      var init := lines[..n];
      assert !ClashesAt(parse, lines, n, a, b);
      var s := Step(parse, m, lines[n]);
      if s.Ok? {
        assert s.value.Has(a, b);
        forall k | 0 <= k < n ensures !ClashesAt(parse, init, k, a, b) {
          assert init[k] == lines[k];
          assert !ClashesAt(parse, lines, k, a, b);
        }
        ScanPreserves(parse, s.value, init, a, b);
      }
    }
  }

  /**
   * The pair parsed from line `k` is in the result when no earlier line (scanned
   * later) yields a pair sharing one of its sides: the earliest line wins.
   */
  lemma {:induction false} ScanEntry(parse: string -> LineParse, m: BiMap, lines: seq<string>, k: nat, a: string, b: string)
    requires m.Valid() && ParsedAt(parse, lines, k, a, b)
    requires forall j :: 0 <= j < k ==> !ClashesAt(parse, lines, j, a, b)
    ensures Scan(parse, m, lines).Ok? ==> Scan(parse, m, lines).value.Has(a, b)
    decreases |lines|
  {
    var n := |lines| - 1;
    var init := lines[..n];
    forall j | 0 <= j < n && j < k ensures !ClashesAt(parse, init, j, a, b) {
      assert init[j] == lines[j];
      assert !ClashesAt(parse, lines, j, a, b);
    }
    var s := Step(parse, m, lines[n]);
    if s.Ok? {
      if k == n {
        ScanPreserves(parse, s.value, init, a, b);
      } else {
        ScanEntry(parse, s.value, init, k, a, b);
      }
    }
  }

  /**
   * The round trip invocation line -> marker line -> table entry: a marker line for
   * a real rename `(n, e)` puts `(n, e)` in the table unless an earlier line
   * claims `n` or `e`.
   */
  lemma MarkerLineInTable(lines: seq<string>, k: nat, n: string, e: string)
    requires '"' !in n && ' ' !in n && '"' !in e && n != e && e != []
    requires k < |lines| && lines[k] == MarkerLine(n, e)
    requires forall j :: 0 <= j < k ==> !ClashesAt(ParseMarker, lines, j, n, e)
    ensures Table(lines).Ok? ==> Table(lines).value.Has(n, e)
  {
    MarkerRoundTrip(n, e);
    ScanEntry(ParseMarker, Empty(), lines, k, n, e);
  }

  /** Scanning `a + b` is scanning `b`, then `a` from where `b` left off. */
  lemma {:induction false} ScanAppend(parse: string -> LineParse, m: BiMap, a: seq<string>, b: seq<string>)
    requires m.Valid()
    ensures Scan(parse, m, a + b)
         == match Scan(parse, m, b) case Ok(m') => Scan(parse, m', a) case Fatal(f) => Fatal(f)
    decreases |b|
  {
    if b == [] {
      assert a + b == a;
    } else {
      var n := |b| - 1;
      assert (a + b)[|a + b| - 1] == b[n];
      assert (a + b)[..|a + b| - 1] == a + b[..n];
      var s := Step(parse, m, b[n]);
      if s.Ok? {
        ScanAppend(parse, s.value, a, b[..n]);
      }
    }
  }

  /**
   * A line that contributes nothing (any line that is not a marker line, and the
   * marker line of a macro that expands to itself or to nothing) can be added
   * anywhere without changing the table.
   */
  lemma TableIgnoresLine(lines: seq<string>, k: nat, other: string)
    requires k <= |lines| && ParseMarker(other) == Ignored
    ensures Table(lines[..k] + [other] + lines[k..]) == Table(lines)
  {
    ScanIgnoresLine(ParseMarker, Empty(), lines, k, other);
  }

  lemma ScanIgnoresLine(parse: string -> LineParse, m: BiMap, lines: seq<string>, k: nat, other: string)
    requires m.Valid() && k <= |lines| && parse(other) == Ignored
    ensures Scan(parse, m, lines[..k] + [other] + lines[k..]) == Scan(parse, m, lines)
  {
    var pre, post := lines[..k], lines[k..];
    assert lines == pre + post;
    ScanAppend(parse, m, pre + [other], post);
    ScanAppend(parse, m, pre, post);
    match Scan(parse, m, post)
    case Ok(m0) =>
      ScanAppend(parse, m0, pre, [other]);
      assert [other][..0] == [];
    case Fatal(_) =>
  }

  /** A line repeated right after itself yields the same table as the line once. */
  lemma TableRepeatedLine(lines: seq<string>, k: nat)
    requires k < |lines|
    ensures Table(lines[..k + 1] + lines[k..]) == Table(lines)
  {
    var m := Empty();
    var x := lines[k];
    assert lines[..k + 1] + lines[k..] == (lines[..k] + [x, x]) + lines[k + 1..];
    assert lines == (lines[..k] + [x]) + lines[k + 1..];
    ScanAppend(ParseMarker, m, lines[..k] + [x, x], lines[k + 1..]);
    ScanAppend(ParseMarker, m, lines[..k] + [x], lines[k + 1..]);
    match Scan(ParseMarker, m, lines[k + 1..])
    case Ok(m') =>
      ScanAppend(ParseMarker, m', lines[..k], [x, x]);
      ScanAppend(ParseMarker, m', lines[..k], [x]);
      RepeatedStep(m', x);
    case Fatal(_) =>
  }

  lemma RepeatedStep(m: BiMap, x: string)
    requires m.Valid()
    ensures Scan(ParseMarker, m, [x, x]) == Scan(ParseMarker, m, [x])
  {
    var s := Step(ParseMarker, m, x);
    assert [x, x][..1] == [x];
    assert [x][..0] == [];
    if s.Ok? {
      assert Scan(ParseMarker, m, [x, x]) == Scan(ParseMarker, s.value, [x]);
      match ParseMarker(x)
      case Entry(l, r) =>
        InsertIdempotent(m, l, r);
      case Ignored =>
      case Malformed =>
    }
  }

  /**
   * Scanning the same lines from two bimaps that agree except on pairs sharing a side
   * with `(v, e)`: both panic on the same line, or both succeed and still agree so.
   */
  lemma {:induction false} ScanAgree(parse: string -> LineParse, m1: BiMap, m2: BiMap, lines: seq<string>,
                                     v: string, e: string)
    requires m1.Valid() && m2.Valid() && AgreeExcept(m1, m2, v, e)
    ensures Scan(parse, m1, lines).Fatal? ==> Scan(parse, m1, lines) == Scan(parse, m2, lines)
    ensures Scan(parse, m1, lines).Ok? ==>
              Scan(parse, m2, lines).Ok? && AgreeExcept(Scan(parse, m1, lines).value, Scan(parse, m2, lines).value, v, e)
    decreases |lines|
  {
    if lines != [] {
      var n := |lines| - 1;
      match parse(lines[n])
      case Entry(a, b) =>
        InsertKeepsAgreement(m1, m2, a, b, v, e);
        ScanAgree(parse, m1.Insert(a, b), m2.Insert(a, b), lines[..n], v, e);
      case Ignored =>
        ScanAgree(parse, m1, m2, lines[..n], v, e);
      case Malformed =>
    }
  }

  /**
   * When line `i` of `pre` yields `(v, e)`, having inserted `(v, e)` before scanning
   * `pre` makes no difference: the line inserts it again, which overwrites whatever
   * the first insert changed.
   */
  lemma ScanReinsert(parse: string -> LineParse, m: BiMap, pre: seq<string>, i: nat)
    requires m.Valid() && i < |pre| && parse(pre[i]).Entry?
    ensures Scan(parse, m.Insert(parse(pre[i]).visible, parse(pre[i]).expanded), pre) == Scan(parse, m, pre)
  {
    var l := pre[i];
    var v, e := parse(l).visible, parse(l).expanded;
    var m1 := m.Insert(v, e);
    var head, tail := pre[..i], pre[i + 1..];
    assert pre == (head + [l]) + tail;
    ScanAppend(parse, m1, head + [l], tail);
    ScanAppend(parse, m, head + [l], tail);
    ScanAgree(parse, m1, m, tail, v, e);
    match Scan(parse, m, tail)
    case Ok(t2) =>
      var t1 := Scan(parse, m1, tail).value;
      ScanAppend(parse, t1, head, [l]);
      ScanAppend(parse, t2, head, [l]);
      assert [l][..0] == [];
      InsertAbsorbs(t1, t2, v, e);
    case Fatal(_) =>
  }

  /**
   * A line that does not panic, repeated anywhere after its first occurrence, leaves
   * the outcome of the scan unchanged: the earlier copy is applied last.
   */
  lemma ScanDuplicate(parse: string -> LineParse, m: BiMap, lines: seq<string>, i: nat, j: nat)
    requires m.Valid() && i < j <= |lines| && !parse(lines[i]).Malformed?
    ensures Scan(parse, m, lines[..j] + [lines[i]] + lines[j..]) == Scan(parse, m, lines)
  {
    var pre, post, l := lines[..j], lines[j..], lines[i];
    assert lines == pre + post;
    ScanAppend(parse, m, pre + [l], post);
    ScanAppend(parse, m, pre, post);
    match Scan(parse, m, post)
    case Ok(m0) =>
      ScanAppend(parse, m0, pre, [l]);
      assert [l][..0] == [];
      assert pre[i] == l;
      if parse(l).Entry? {
        ScanReinsert(parse, m0, pre, i);
      }
    case Fatal(_) =>
  }

  /**
   * Logging a name twice: the copy of a non-malformed output line placed anywhere
   * after the original yields the same table (or the same panic) as the line once.
   */
  lemma TableDuplicateLine(lines: seq<string>, i: nat, j: nat)
    requires i < j <= |lines| && !ParseMarker(lines[i]).Malformed?
    ensures Table(lines[..j] + [lines[i]] + lines[j..]) == Table(lines)
  {
    ScanDuplicate(ParseMarker, Empty(), lines, i, j);
  }

  /**
   * Two output lines that parse to one visible name with two different expansions:
   * the earlier line is scanned last, so its pair is the one kept.
   */
  lemma ScanEarlierWins(lines: seq<string>, n: string, e1: string, e2: string)
    requires |lines| == 2 && e1 != e2
    requires ParseMarker(lines[0]) == Entry(n, e1) && ParseMarker(lines[1]) == Entry(n, e2)
    ensures Table(lines).Ok?
    ensures Table(lines).value.Has(n, e1) && !Table(lines).value.Has(n, e2)
  {
    forall k | 0 <= k < |lines| ensures !ParseMarker(lines[k]).Malformed? {
      assert k == 0 || k == 1;
    }
    ScanFatal(ParseMarker, Empty(), lines);
    ScanEntry(ParseMarker, Empty(), lines, 0, n, e1);
    var t := Table(lines).value;
    assert t.Has(n, e1);
    assert t.left[n] == e1;
  }

  /**
   * Two output lines that give two visible names one expansion: the earlier line's
   * pair is kept and the later name is left with no pair at all.
   */
  lemma ScanSharedExpansion(lines: seq<string>, n1: string, n2: string, e: string)
    requires |lines| == 2 && n1 != n2
    requires ParseMarker(lines[0]) == Entry(n1, e) && ParseMarker(lines[1]) == Entry(n2, e)
    ensures Table(lines).Ok?
    ensures Table(lines).value.Has(n1, e)
    ensures forall b :: !Table(lines).value.Has(n2, b)
  {
    forall k | 0 <= k < |lines| ensures !ParseMarker(lines[k]).Malformed? {
      assert k == 0 || k == 1;
    }
    ScanFatal(ParseMarker, Empty(), lines);
    ScanEntry(ParseMarker, Empty(), lines, 0, n1, e);
    var t := Table(lines).value;
    forall b ensures !t.Has(n2, b) {
      TableSound(lines, n2, b);
      forall k | 0 <= k < |lines| ensures !WinsAt(ParseMarker, lines, k, n2, b) {
        assert k == 0 || k == 1;
        assert k == 1 && b == e ==> ClashesAt(ParseMarker, lines, 0, n2, b);
      }
    }
  }

  /**
   * The marker lines of two renames of one visible name: the earlier line's
   * expansion is kept and the later line's is lost, so the scan order is observable.
   */
  lemma EarlierMarkerWins(n: string, e1: string, e2: string)
    requires '"' !in n && ' ' !in n && '"' !in e1 && '"' !in e2
    requires n != e1 && n != e2 && e1 != [] && e2 != [] && e1 != e2
    ensures Table([MarkerLine(n, e1), MarkerLine(n, e2)]).Ok?
    ensures Table([MarkerLine(n, e1), MarkerLine(n, e2)]).value.Has(n, e1)
    ensures !Table([MarkerLine(n, e1), MarkerLine(n, e2)]).value.Has(n, e2)
  {
    MarkerRoundTrip(n, e1);
    MarkerRoundTrip(n, e2);
    ScanEarlierWins([MarkerLine(n, e1), MarkerLine(n, e2)], n, e1, e2);
  }
}
