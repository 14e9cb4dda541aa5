# FunctionRenames: macro-renamed CUDA functions, modelled in Dafny

`crates/cust_raw/build/callbacks.rs` is a bindgen parse callback used by the
`cust_raw` build script. C headers often expose a function `foo` as a macro that
expands to a versioned symbol such as `foo_v2`. `FunctionRenames`:

1. logs every macro name bindgen reports that starts with a fixed prefix
   (`will_parse_macro`, `record_macro`);
2. the first time bindgen asks a naming question (`expand`, behind a `OnceLock`),
   writes a C probe file with the includes, a stringification macro pair, a marker
   macro `RENAMED(from, to)` and one `RENAMED(_name, name)` line per logged name.
   It runs the C preprocessor on that file, reads back every output line that
   starts with `"RUST_RENAMED" `, and fills a bijective map from visible name to
   expanded name. Pairs whose sides are equal, and pairs whose expansion is empty,
   are dropped;
3. answers `generated_name_override` (expanded to visible) and
   `generated_link_name_override` (visible to expanded) for function items only.

The model has one module per concern:

- `wrappers.dfy` (`Wrappers`): `Option`, the fatal `Failure`s, and `Outcome`.
- `rust_str.dfy` (`RustStr`): the `str` operations the parser uses. These are
  `starts_with`, `strip_prefix`, `replace("\"", "")`, `split_once(' ')`, the byte
  slice `l[1..]` and `lines()`.
- `bimaps.dfy` (`BiMaps`): `BiHashMap<String, String>` as two mutually inverse maps.
  `Insert` overwrites any pair that shares the new pair's left or right value.
- `probe.dfy` (`Probe`): the probe text and the loop that builds it.
- `markers.dfy` (`Markers`): the per-line parse and the reverse scan that fills
  the table, with a loop method proved against the scan function.
- `callbacks.dfy` (`Callbacks`): the `FunctionRenames` class. Its fields are the
  log (`seq<string>`) and the once-cell (`Option<BiMap>`). It has the two
  overrides and the expansion pass as a function of a `Host`.

The file system and the compiler are the four functions of a `Host` value:
read the includes, write the probe, preprocess it, and remove it. The pass
returns the list of `Effect`s (host calls) it made, in order. This makes two
things statable: "nothing is built or run for an empty log" and "a cached table
costs no host call". Every panic of the source becomes a `Fatal` outcome. A pass
that ends fatally leaves the once-cell empty, as a panicking `get_or_init` does.

Behaviours of the code worth knowing:

- Lines are scanned last to first, and `insert` overwrites any pair sharing a
  side. So when two marker lines claim the same visible or expanded name, the
  EARLIER line wins. The case one probe can produce is two macros with one
  expansion (`#define cuA cuX` and `#define cuB cuX`): the name logged second is
  left with no link-name override (`Callbacks.SharedExpansionLaterLoses`).
- The remainder after the marker is split at its first space only. The expanded
  name may contain spaces.
- A marker line whose left token is empty, or starts with a non-ASCII character,
  panics at `l[1..]` (`Failure.MalformedMarker`, `Markers.ParseMarker`).
- Both overrides call `expand()` before they look at the item kind. A query about
  a non-function item still triggers the one-time expansion. It only does not
  consult the table.
- A name logged twice gives two identical invocation lines. A marker line that
  does not panic, repeated anywhere after its first copy, leaves the table
  unchanged (`Markers.TableDuplicateLine`). Whether the two invocations print the
  same marker line depends on the preprocessor.

## Model

| member | source | states |
|---|---|---|
| `RustStr.StartsWith` | crates/cust_raw/build/callbacks.rs:105 | `starts_with` holds iff the text is the prefix followed by some rest |
| `RustStr.StripPrefix` | crates/cust_raw/build/callbacks.rs:85 | a result exactly when the line starts with the prefix, and then prefix + result is the line |
| `RustStr.RemoveChar` | crates/cust_raw/build/callbacks.rs:86 | no quote is left, every other character present before is present after, nothing new appears, a quote-free text is unchanged |
| `RustStr.RemoveCharAppend` | crates/cust_raw/build/callbacks.rs:86 | quote removal distributes over concatenation (order is kept) |
| `RustStr.SplitOnce` | crates/cust_raw/build/callbacks.rs:88 | no result iff there is no space; otherwise left + " " + right is the text and the left part has no space (the split is at the first space) |
| `RustStr.DropFirstByte` | crates/cust_raw/build/callbacks.rs:89 | `l[1..]` succeeds iff `l` is non-empty with an ASCII first character, and then returns `l` without that character |
| `RustStr.Lines` | crates/cust_raw/build/callbacks.rs:81 | `lines()` of an empty text is empty and of nothing else; a non-empty text without `\n` is one line, itself |
| `RustStr.LinesHaveNoBreak` | crates/cust_raw/build/callbacks.rs:81 | no line produced by `lines()` contains a line break |
| `RustStr.LinesOfUnlines` | crates/cust_raw/build/callbacks.rs:81 | `lines()` of `\n`-terminated lines without line breaks or trailing `\r` gives exactly those lines back |
| `RustStr.LinesAppend` | crates/cust_raw/build/callbacks.rs:81 | text that ends in `\n` splits into lines independently of the text after it |
| `BiMaps.Empty` | crates/cust_raw/build/callbacks.rs:43 | `BiHashMap::new()` is a consistent bimap holding no pair |
| `BiMaps.BiMap.Insert` | crates/cust_raw/build/callbacks.rs:93 | after `insert(l, r)` the pairs are `(l, r)` plus exactly the old pairs sharing neither side; both views stay inverse |
| `BiMaps.BiMap.GetByLeft` | crates/cust_raw/build/callbacks.rs:122 | `get_by_left` returns the partner of a left value, and nothing when it has none |
| `BiMaps.BiMap.GetByRight` | crates/cust_raw/build/callbacks.rs:114 | `get_by_right` returns the partner of a right value, and nothing when it has none |
| `BiMaps.InsertPresent` | crates/cust_raw/build/callbacks.rs:93 | inserting a pair already present leaves the map equal |
| `BiMaps.Extensional` | crates/cust_raw/build/callbacks.rs:80 | two consistent bimaps holding the same pairs are equal |
| `BiMaps.InsertKeepsAgreement` | crates/cust_raw/build/callbacks.rs:93 | inserting the same pair into two bimaps that differ only in pairs sharing a side with `(l, r)` keeps them differing only so |
| `BiMaps.InsertAbsorbs` | crates/cust_raw/build/callbacks.rs:93 | inserting `(l, r)` makes equal two bimaps that differ only in pairs sharing a side with `(l, r)` |
| `BiMaps.InsertIdempotent` | crates/cust_raw/build/callbacks.rs:93 | inserting the same pair twice equals inserting it once |
| `Probe.CallLinesAppend` | crates/cust_raw/build/callbacks.rs:58-61 | the invocation lines of a longer log are those of the shorter log followed by one line per added name, in order |
| `Probe.ProbeText` | crates/cust_raw/build/callbacks.rs:50-61 | the probe starts with the includes content, unchanged, followed by a line break |
| `Probe.BuildProbe` | crates/cust_raw/build/callbacks.rs:50-61 | the template built by `format!` and the `push_str` loop is the probe text of the includes and the log |
| `Probe.ProbeLines` | crates/cust_raw/build/callbacks.rs:50-61 | read line by line the probe is: the includes' lines, the STRINGIFY/TOSTRING/RENAMED defines, then exactly one invocation per logged name in log order |
| `Markers.ParseMarker` | crates/cust_raw/build/callbacks.rs:82-91 | a line without the `"RUST_RENAMED" ` prefix contributes nothing; `l[1..]` panics iff the line has the prefix and its unquoted remainder has a space and starts with a space (empty left token) or a non-ASCII character; a pair it yields has distinct sides, a non-empty expanded name and no quotes |
| `Markers.ParseMarkerEntry` | crates/cust_raw/build/callbacks.rs:84-91 | a line yielding `(v, e)` has the marker prefix, and its unquoted remainder is one ASCII non-space character, then `v` (no space), one space, then `e` |
| `Markers.ParseMarkerSplit` | crates/cust_raw/build/callbacks.rs:84-91 | conversely, a marker line whose unquoted remainder is an ASCII non-space character, a space-free `v`, a space and `e` yields `(v, e)`, or nothing when `v == e` or `e` is empty |
| `Markers.EmptyTokenMalformed` | crates/cust_raw/build/callbacks.rs:89 | a marker line whose remainder starts with a space panics |
| `Markers.MarkerRoundTrip` | crates/cust_raw/build/callbacks.rs:84-91 | the line `"RUST_RENAMED" "_n" "e"` (n without quotes or spaces, e without quotes) parses to exactly `(n, e)` if `n != e` and `e` is non-empty, else to nothing |
| `Markers.Step` | crates/cust_raw/build/callbacks.rs:84-94 | one loop iteration fails exactly on a malformed line, with that line, and otherwise keeps the bimap consistent |
| `Markers.Scan` | crates/cust_raw/build/callbacks.rs:81-95 | the reverse scan keeps the bimap consistent and can fail only with one of its lines that the parser finds malformed |
| `Markers.Table` | crates/cust_raw/build/callbacks.rs:80-95 | the loop yields a consistent bimap, or panics with one of the output lines, a malformed one |
| `Markers.BuildTable` | crates/cust_raw/build/callbacks.rs:80-95 | the loop over `lines().rev()` inserting into `remaps` computes the reverse scan from the empty bimap |
| `Markers.ScanKeepsRenameTable` | crates/cust_raw/build/callbacks.rs:91-93 | if the parser only yields renames, scanning keeps "every pair has distinct sides and a non-empty expansion" |
| `Markers.TableIsRenameTable` | crates/cust_raw/build/callbacks.rs:80-95 | every table the pass builds is a bijection of real renames |
| `Markers.ScanFatal` | crates/cust_raw/build/callbacks.rs:81-95 | the scan fails iff some output line is malformed |
| `Markers.ScanSound` | crates/cust_raw/build/callbacks.rs:81-95 | every pair of the result comes from the earliest line that yields a pair sharing a side with it, or was in the starting map and no line yields such a pair |
| `Markers.TableSound` | crates/cust_raw/build/callbacks.rs:80-95 | a pair is in the built table iff some output line yields it and no earlier line yields a pair sharing one of its sides: the earliest line wins, every later clashing line loses |
| `Markers.ScanPreserves` | crates/cust_raw/build/callbacks.rs:93 | a pair survives lines none of which yields a pair sharing one of its sides |
| `Markers.ScanEntry` | crates/cust_raw/build/callbacks.rs:81-95 | the pair parsed from line k is in the result unless an earlier line yields a pair sharing a side with it |
| `Markers.MarkerLineInTable` | crates/cust_raw/build/callbacks.rs:80-95 | the marker line of a real rename `(n, e)` puts `(n, e)` in the table unless an earlier line claims `n` or `e` |
| `Markers.MarkerLinePlain` | crates/cust_raw/build/callbacks.rs:54 | a marker line is returned unchanged by `lines()` |
| `Markers.ScanAppend` | crates/cust_raw/build/callbacks.rs:81 | scanning `a + b` is scanning `b` and then `a` from the map it left |
| `Markers.ScanIgnoresLine` | crates/cust_raw/build/callbacks.rs:81-94 | for any parser, a line that parses to nothing can be added anywhere without changing the outcome |
| `Markers.TableIgnoresLine` | crates/cust_raw/build/callbacks.rs:84-91 | a line that parses to nothing (any non-marker line, or the marker of a self- or empty expansion) can be added anywhere without changing the outcome |
| `Markers.TableRepeatedLine` | crates/cust_raw/build/callbacks.rs:58-61 | a marker line repeated right after itself leaves the outcome unchanged |
| `Markers.ScanAgree` | crates/cust_raw/build/callbacks.rs:81-94 | scanning the same lines from two bimaps that differ only in pairs sharing a side with `(v, e)` fails on the same line or gives bimaps that still differ only so |
| `Markers.ScanReinsert` | crates/cust_raw/build/callbacks.rs:81-94 | a pair inserted before scanning lines that yield it again makes no difference to the outcome |
| `Markers.ScanDuplicate` | crates/cust_raw/build/callbacks.rs:81-94 | for any parser, a copy of a non-malformed line placed anywhere after it leaves the outcome unchanged |
| `Markers.TableDuplicateLine` | crates/cust_raw/build/callbacks.rs:58-61 | a name logged twice: the copy of a non-malformed output line, anywhere after the original, leaves the table or the panic unchanged |
| `Markers.RepeatedStep` | crates/cust_raw/build/callbacks.rs:93 | applying the same line twice is applying it once |
| `Markers.ScanEarlierWins` | crates/cust_raw/build/callbacks.rs:81-93 | with two output lines that parse to one visible name with two different expansions, the scan succeeds, keeps the earlier line's pair and loses the later one's |
| `Markers.ScanSharedExpansion` | crates/cust_raw/build/callbacks.rs:81-93 | with two output lines that give two visible names one expansion, the scan succeeds, keeps the earlier line's pair, and the later name has no pair at all |
| `Markers.EarlierMarkerWins` | crates/cust_raw/build/callbacks.rs:81-93 | the marker lines `"RUST_RENAMED" "_n" "e1"` then `"RUST_RENAMED" "_n" "e2"` (real renames, e1 != e2) give a table with `(n, e1)` and without `(n, e2)`: the reverse scan order is observable (two expansions of one name do not come from a single probe; `Callbacks.SharedExpansionLaterLoses` is the case that does) |
| `Callbacks.JoinPath` | crates/cust_raw/build/callbacks.rs:46 | the result is the directory, at most one added character, then the file name; the character before the file name is `/` unless the directory is empty |
| `Callbacks.ExpansionRun` | crates/cust_raw/build/callbacks.rs:41-99 | the pass makes no host call iff the log is empty, at most four host calls, and reads the includes first |
| `Callbacks.SharedExpansionLaterLoses` | crates/cust_raw/build/callbacks.rs:81-125 | for `"RUST_RENAMED" "_a" "x"` then `"RUST_RENAMED" "_b" "x"` the pass keeps `a <-> x` in both overrides and gives `b` no link-name override |
| `Callbacks.NameOverride` | crates/cust_raw/build/callbacks.rs:111-117 | a result only for a function item, and then its pair has the item's name on the expanded side; none for a function whose name has no pair |
| `Callbacks.LinkNameOverride` | crates/cust_raw/build/callbacks.rs:119-125 | a result only for a function item, and then its pair has the item's name on the visible side; none for a function whose name has no pair |
| `Callbacks.OverridesInvert` | crates/cust_raw/build/callbacks.rs:111-125 | name override of `e` is `v` iff link-name override of `v` is `e`, and every table pair is found by the name override |
| `Callbacks.RunIsRenameTable` | crates/cust_raw/build/callbacks.rs:41-99 | a successful expansion pass yields a bijection of real renames whatever the host does |
| `Callbacks.EmptyLogNoProbe` | crates/cust_raw/build/callbacks.rs:42-44 | with an empty log no host call is made and the table is empty |
| `Callbacks.RunEffects` | crates/cust_raw/build/callbacks.rs:46-97 | a successful pass reads the includes, writes exactly the probe text of includes and log, preprocesses it and removes it; the removal of the probe is attempted only on the success path or on the path where the removal itself fails |
| `Callbacks.RunRoundTrip` | crates/cust_raw/build/callbacks.rs:58-125 | with a cooperating host and the marker line of a real rename `(n, e)` in the output, the pass succeeds and the link-name override maps `n` to `e` while the name override maps `e` to `n` |
| `Callbacks.CuLaunchRun` | crates/cust_raw/build/callbacks.rs:104-125 | for prefix `cu` and `#define cuLaunch cuLaunchKernel_v2`, the pass makes four host calls and the overrides map `cuLaunch` and `cuLaunchKernel_v2` to each other |
| `Callbacks.FunctionRenames.constructor` | crates/cust_raw/build/callbacks.rs:20-34 | stores the configuration with an empty log and an empty once-cell |
| `Callbacks.FunctionRenames.RecordMacro` | crates/cust_raw/build/callbacks.rs:36-38 | appends exactly the name at the end of the log, without deduplication; nothing else changes |
| `Callbacks.FunctionRenames.WillParseMacro` | crates/cust_raw/build/callbacks.rs:104-109 | appends the name iff it starts with the prefix, else leaves the log unchanged; always answers `Default`; the log holds only prefixed names |
| `Callbacks.FunctionRenames.ComputeRemaps` | crates/cust_raw/build/callbacks.rs:41-99 | the `get_or_init` closure returns the outcome and host calls of the expansion pass over the current log |
| `Callbacks.FunctionRenames.Expand` | crates/cust_raw/build/callbacks.rs:40-100 | a set cell is returned unchanged with no host call, even if the log grew; an empty cell runs the pass once and keeps its table on success, stays empty on failure |
| `Callbacks.FunctionRenames.GeneratedNameOverride` | crates/cust_raw/build/callbacks.rs:111-117 | runs `expand` (same host calls), then answers the name override from the stored table; fails iff the expansion fails, and then the once-cell stays empty |
| `Callbacks.FunctionRenames.GeneratedLinkNameOverride` | crates/cust_raw/build/callbacks.rs:119-125 | runs `expand` (same host calls), then answers the link-name override from the stored table; fails iff the expansion fails, and then the once-cell stays empty |

## Left out

- File contents and the compiler: reading the includes file, creating and writing
  `expand_macros.c`, `cc::Build::try_expand` with its include directories and
  `cargo_warnings(false)`, `str::from_utf8`, and `fs::remove_file`. Each is one
  function of the `Host`. Success or failure is kept; what the C preprocessor
  actually prints for a given probe is not modelled. `Markers.MarkerLine` is the
  expected form of its answer for one invocation.
- The termination of the process on a panic: a panic is a `Fatal` outcome. A
  probe file left behind on a fatal path shows only in the effect list, as a
  `WriteFile` with no later `RemoveFile`.
- Thread safety of `OnceLock` and the dynamic borrow checks of `RefCell`: only
  the single assignment of the cell and the append to the log are modelled.
- Path handling: `Callbacks.JoinPath` is `Path::join` for a relative file name
  with `/` as separator. Windows separators and prefixes are not modelled.
- bindgen's `ItemInfo` and `ItemKind` are reduced to a name and `Function |
  Other`. `MacroParsingBehavior` is reduced to `Default | Ignore`.
- `BiHashMap` hashing, capacity and iteration order. Only the pair relation and
  the overwrite rule of `insert` are modelled.
- `str::lines` follows current Rust semantics: each line loses its `\n` and a
  `\r` right before it, and a bare trailing `\r` at the end of the text is kept.
