# Lint result aggregator of the Postman Spectral linter

The tool fetches a Postman collection or workspace, runs Spectral over it and
prints the findings grouped by rule message. This project models the core of
that tool, `process_results` in `linter.py`. The function takes the source
document and Spectral's findings and prints a report:

- **Grouping** (`grouping.dfy`). Findings whose `severity` is below 0 are
  dropped; a missing severity counts as 0. The rest are grouped by
  `message` in a `defaultdict(list)`. Groups come out in the order their
  message was first seen, and each group holds its findings in input order.
- **Walk** (`traversal.dfy`, `pyint.dfy`, `json.dfy`). For every finding the
  walk follows `path[:-1]` from the document root. At a list the segment goes
  through Python's `int()`, with surrounding whitespace, a sign and `_`
  separators allowed. A negative index counts from the end. At a dict the
  segment is used as a key. Any other value cannot be subscripted.
- **Labels** (`labels.dfy`, `output.dfy`). If the walk reaches a dict whose
  `"name"` is truthy, `Name: <name>` is printed. Otherwise
  `Path: <'.'.join(path)>` is printed. A `KeyError`, `IndexError` or
  `TypeError` is caught and prints `Path: ...` followed by
  `Error accessing path: <e>`. A `ValueError` from `int()` is not caught and
  ends the whole run.
- **Report** (`aggregator.dfy`). For each group, the header
  `\n<n> occurrences of: <message>` is printed, then each finding's lines.

Printed output is modelled as a `Transcript`. It holds the sequence of
printed `Line`s and, when a `ValueError` cut the run short, the segment
that raised it. `Output.Text` gives the string handed to `print` for each line, apart
from the differences listed under "## Left out".

Each loop and each loop body of the source is a method proved equal to a
specification function. The loops are `GroupFindings`, `WalkTo`,
`ReportFindings` and `ReportGroups`. The loop bodies are `ResolveFinding` and
`ReportGroup`. `ProcessResults` is the whole function. The lemmas then state
what the source promises about those functions.

Points of the code worth stating plainly:

- `if name:` (linter.py:63) tests Python truthiness. A `"name"` of `0`,
  `false`, `null`, `""`, `[]` or `{}` therefore falls back to the path.
- Only `path[:-1]` is walked (linter.py:52). The last segment is never looked
  up, so a finding whose last key is absent still prints one line without an
  error.
- `int(key)` (linter.py:54) raises `ValueError` for a segment that is not an
  integer, or one with more than 4300 digits. The handler at linter.py:67
  catches only `KeyError`, `IndexError` and `TypeError`, so that `ValueError`
  ends the whole run.
- The header printed at linter.py:46 starts with a newline.

## Model

| member | source | states |
|---|---|---|
| Grouping.GroupFindings | linter.py:39-42 | the groups built by the `defaultdict` loop are exactly `GroupByMessage(results)` |
| Grouping.GroupingIsPermutationOfKept | linter.py:40-42 | the findings across all groups are, as a multiset, exactly the input findings with severity at least 0: none lost, none duplicated |
| Grouping.GroupSizesSum | linter.py:40-42 | the group sizes add up to the number of kept findings |
| Grouping.GroupMembership | linter.py:41-42 | a finding with negative severity is in no group; a kept finding of the input is in the group of its own message |
| Grouping.GroupedFindingIsKept | linter.py:41-42 | every finding in a group comes from the input, has severity at least 0 and carries the group's message |
| Grouping.KeptOnlyCounts | linter.py:41 | the filter keeps every copy of a finding with severity at least 0 (a missing severity counts as 0) and no copy of any other |
| Grouping.MessagesAreKeptMessages | linter.py:41-42 | a message has a group if and only if some kept finding carries it |
| Grouping.MessagesDistinct | linter.py:39-42 | no message has two groups |
| Grouping.MessagesInFirstSeenOrder | linter.py:39-45 | groups follow the order in which their messages first occur among kept findings, as dict insertion order does |
| Grouping.MembersInInputOrder | linter.py:40-42 | a group lists exactly the kept findings with its message, at strictly increasing input positions |
| PyInt.ParseIntRoundTrip | linter.py:54 | `int()` of the decimal text of an integer `i` gives `i` back when `abs(i) < 10^4300`, and raises `ValueError` for every longer integer (CPython's default limit of 4300 digits) |
| PyInt.ShortRoundTrip | linter.py:54 | every integer below `10^20` in magnitude, so every 64-bit index, reads back unchanged |
| PyInt.SeparatorNotSkipped | linter.py:54 | `int()` does not skip the separator `\x1c` that `str.isspace()` accepts, so `"\x1c0"` is rejected |
| PyInt.NonNumericRejected | linter.py:54 | `int()` rejects a segment with no decimal digit |
| Traversal.WalkTo | linter.py:51-55 | the walk loop ends in the same node, caught failure or `ValueError` as the recursive `Walk` over the keys |
| Traversal.WalkAppend | linter.py:52-55 | walking `p + q` walks `p`, then continues from the node reached with `q`; a failure or `ValueError` in `p` ends the walk |
| Traversal.RaisedSegment | linter.py:53-54 | a `ValueError` comes from one of the walked segments, and `int()` rejects that segment |
| Traversal.NegativeIndexFromEnd | linter.py:54-55 | a negative index `i` with `-len <= i` and `-2^63 <= i` selects element `len + i` of a list |
| Traversal.MinusOneIsLast | linter.py:54-55 | segment `"-1"` selects the last element of a non-empty list |
| Traversal.IndexPastEnd | linter.py:54-55 | an index at or past the end of a list raises the caught `IndexError`: `list index out of range` below `2^63`, `cannot fit 'int' into an index-sized integer` from `2^63` up. From `10^4300` up, `int()` raises the uncaught `ValueError` instead |
| Traversal.NonNumericAtListRaises | linter.py:53-54 | a segment without digits at a list raises the uncaught `ValueError` |
| Labels.ResolveFinding | linter.py:48-69 | the lines one finding prints, or its abort, are exactly `Outcome(root, path)` |
| Labels.NameLineWhenNamedParent | linter.py:58-64 | a `Name:` line with value `v` is printed if and only if the walk reaches a dict whose `"name"` is `v` and `v` is truthy |
| Labels.OneLineWhenReached | linter.py:57-66 | a walk that reaches a node prints exactly one line, and that line is the dotted path if and only if the node is not a dict with a truthy `"name"` |
| Labels.TwoLinesWhenCaught | linter.py:67-69 | the output is the dotted path plus the error line for `e` if and only if the walk failed with `e` |
| Labels.AbortIffRaised | linter.py:53-54 | a finding ends the run if and only if its walk raised `ValueError` |
| Labels.AbortCause | linter.py:52-54 | an aborting finding prints nothing, and its abort names a segment of `path[:-1]` that `int()` rejects |
| Labels.FinalSegmentNotLookedUp | linter.py:52 | once `path[:-1]` is reached, any last segment prints one line without error; with a named parent that line does not depend on the last segment |
| Labels.EmptyPath | linter.py:51-66 | an empty path labels the root: its truthy `"name"` if it has one, otherwise `Path: ` with an empty path |
| Labels.UnnamedParentExample | linter.py:51-66 | in `{"info":{"name":"API"},"paths":[{"get":{"summary":"x"}}]}` the path `paths.0.get` prints `Path: paths.0.get` |
| Labels.IndexOutOfRangeExample | linter.py:51-69 | `items.2.name` with a one-element `items` prints `Path: items.2.name` and an `IndexError` line |
| Aggregator.ReportFindings | linter.py:47-69 | the inner loop prints exactly `FindingsReport`: each finding's outcome in order, stopping at the first abort |
| Aggregator.ReportGroup | linter.py:46-69 | one group prints its header and then its findings' lines, exactly `GroupReport` |
| Aggregator.ReportGroups | linter.py:45-69 | the outer loop prints exactly `GroupsReport` over the groups in order, stopping at the first abort |
| Aggregator.ProcessResults | linter.py:37-69 | the whole function prints exactly `Report(root, results)`: grouping followed by the report of every group |
| Aggregator.ReportAbortsIff | linter.py:40-54 | the run is cut short if and only if some kept finding's walk raises `ValueError` |
| Aggregator.ReportAbortSegment | linter.py:52-54 | the segment that ends a run is rejected by `int()` and lies in `path[:-1]` of a kept finding |
| Aggregator.RaisingFindingAborts | linter.py:41-54 | a kept finding whose walk raises `ValueError` always ends the run |
| Aggregator.AbortComesFromRaisingFinding | linter.py:41-54 | every abort comes from a kept finding whose walk raises `ValueError` |
| Aggregator.GroupReportShape | linter.py:46-69 | a group's output starts with its header, whose text is `\n<count> occurrences of: <message>`; without abort it has between `1 + n` and `1 + 2n` lines for `n` findings |
| Aggregator.ReportLineCount | linter.py:45-69 | a run that is not cut short prints between `g + k` and `g + 2k` lines, for `g` groups and `k` kept findings |

## Left out

- `fetch_json_from_postman`, `lint_json` and `main` are not part of this model. They cover HTTP, the `spectral` subprocess, file writing, JSON decoding and argument parsing. The document and the findings are parameters of `ProcessResults` instead.
- Standard output is modelled as the returned sequence of `Line`s. `print`'s trailing newline is not part of `Output.Text`.
- Floating-point numbers in the document are not modelled. `JNum` holds integers only.
- Output.Show: a list or dict used as a truthy `"name"` is shown as `[...]` or `{...}`. Python's `str()` of the container is not modelled.
- Output.Describe: shows a missing key between single quotes as given. Python's `repr`, which picks double quotes for a key holding a single quote and escapes backslashes, control characters and non-printable characters, is not modelled.
- PyInt.ParseInt: uses CPython's default limit of 4300 digits. A limit set by `PYTHONINTMAXSTRDIGITS` or `-X int_max_str_digits` is not modelled.
- Traversal.Child: takes `Py_ssize_t` to be 64 bits wide, as on 64-bit builds. The 32-bit bound is not modelled.
- Output.Show: a `JNum` is assumed to have at most 4300 digits. `str()` of a longer integer raises `ValueError`, which is not modelled. `json.loads` refuses such numbers in any case.
- PyInt.ParseInt: accepts ASCII digits and skips the ASCII whitespace space, `\t`, `\n`, `\v`, `\f` and `\r`, as `int()` does. `int()` also accepts non-ASCII Unicode digits and spaces; those are not modelled.
- A kept finding without `message` raises an uncaught `KeyError` at linter.py:42. A kept finding without `path` raises it at linter.py:48 when its turn to print comes. A finding with negative severity reaches neither line. Here every `Finding` has both keys.
- A `severity` that is not an integer is not modelled; a severity is an optional integer. A `null` or a string makes linter.py:41 raise an uncaught `TypeError`. A float or a boolean is compared with 0 as a number.
- Path segments are strings. Spectral can emit integer segments, which behave differently as dict keys and make `'.'.join` raise `TypeError`. Integer segments are not modelled.
- A traceback or exit status after the uncaught `ValueError` is not modelled. The abort is only recorded in `Transcript.abort`.
