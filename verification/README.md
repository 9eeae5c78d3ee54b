# Test-automation server core, in Dafny

The server is a small tool server for a Java project. It runs Maven and git,
reads JaCoCo coverage reports, suggests where tests are missing, and writes
JUnit skeletons from a method header. This project models its four pieces of
pure logic as total functions over immutable data and proves what they promise.

- **`git_status`** (`git_status.dfy`, module `GitStatus`). The captured output
  of `git status --porcelain=v1` is split with Python's `splitlines`. Each line
  is read as a two-character `XY` code, a space and a path. An ordered rule
  chain puts each path into one of four lists:
  - `??` goes to untracked;
  - any `U` goes to conflicts;
  - a non-space index column goes to staged;
  - otherwise a non-space worktree column goes to unstaged.

  A line too short to index makes the whole call fail. So does a non-zero
  exit status of git, which reports git's stderr.
- **`parse_jacoco_xml`** (`jacoco.dfy`, module `Jacoco`). An already parsed
  report tree (report, package, class, counter and method) is folded into
  per-class and per-method instruction and branch totals. Each method gets an
  `uncovered` flag.
- **`coverage_recommendations`** (`recommendations.dfy`, module
  `Recommendations`). The aggregated coverage becomes an ordered list of
  messages: one per class missing branches and one per uncovered method. When
  there are none, the list is the single "everything is covered" message.
- **`generate_spec_tests`** (`spec_tests.dfy`, module `SpecTests`). A Java
  method header is parsed into a method name and `(type, name)` parameters.
  Each parameter gets the fixed boundary and equivalence cases for its type,
  and one numbered JUnit test is produced per case.

Supporting modules:
- `Results`: `Option`, `Result`, and `CollectAll`, the "raise at the first bad
  item" loop.
- `Seqs`: `MapSeq`, `Filter`, `FlatMap` and `CountWhere`.
- `PyText`: the Python string operations these tools rely on, with Python's
  exact edge cases:
  - `str.isspace` whitespace and `strip`;
  - `split()` and `split(sep)`;
  - `find`, returning -1 when the character is absent;
  - slices with negative and out-of-range indices;
  - `splitlines`, including `\r\n` and the other line boundaries.

Messages and the JUnit text are modelled by what they carry, not by their
wording. A `BranchGap` carries the class name and the count of missed
branches. A `TestMethod` carries its number and the suggested input.

## Model

| member | source | states |
|---|---|---|
| GitStatus.Classify | server.py:147-156 | Per column X = line[0], Y = line[1]: `??` is untracked; otherwise any `U` in X or Y is a conflict; otherwise a non-space X is staged, so `MM` is staged only; otherwise a non-space Y is unstaged; two spaces is skipped. A line that is empty, or a single space, raises and is malformed. The six outcomes are each characterised by an if-and-only-if. |
| GitStatus.PathOf | server.py:148 | The path is everything from offset 3 on: the line is its first three characters followed by the path, and lines of length up to 3 give the empty path. |
| GitStatus.SelectSnoc | server.py:146-156 | Appending a line extends exactly the bucket it classifies into, at the end, so each list keeps input order. |
| GitStatus.ListsSnoc | server.py:149-156 | One more line extends the list of its own bucket by its path and leaves the other three lists unchanged. A skipped line changes no list. |
| GitStatus.ClassifyLines | server.py:146-163 | The loop fails with an index error exactly when some line is malformed. Otherwise each of the four lists equals the reference selection of its bucket's paths, in input order. |
| GitStatus.Run | server.py:140-165 | A non-zero return code yields a failure carrying stderr and no lists. Otherwise the result is the classification of `stdout.splitlines()`, failing exactly when some line is malformed. |
| GitStatus.BucketsPartitionLines | server.py:146-156 | The four lists, the skipped lines and the malformed lines together account for every line exactly once, so no line lands in two lists. |
| PyText.SplitLines | server.py:146 | `splitlines` gives no lines exactly for the empty text, no line contains a line boundary, and a non-empty text without a boundary is one line, itself. |
| PyText.SplitLinesJoinLines | server.py:146 | Splitting newline-terminated, break-free lines gives back exactly those lines, with no extra empty line after the final terminator. |
| PyText.SplitLinesUnterminated | server.py:146 | A final non-empty line without a terminator is kept: newline-terminated lines followed by it split back into all of them. |
| PyText.SplitLinesBreak | server.py:146 | Every single boundary character (`\n`, a lone `\r`, `\v`, `\f`, U+001C to U+001E, U+0085, U+2028, U+2029) ends a break-free line, and the text after it is split on its own. |
| PyText.SplitLinesCrLf | server.py:146 | `\r\n` is a single line boundary: a break-free line ended by it comes off as one line, with no empty line between the two characters. |
| Jacoco.TallyAllAddsSums | server.py:68-77 | The counter loop, started from any totals, adds exactly the INSTRUCTION sums to the instruction pair and the BRANCH sums to the branch pair. |
| Jacoco.CounterTotals | server.py:63-77 | Totals start at zero and end as the sums of `missed` and `covered` over the INSTRUCTION counters and over the BRANCH counters. |
| Jacoco.OtherCountersIgnored | server.py:68-77 | A counter of any other type, wherever it stands, leaves all four totals unchanged. |
| Jacoco.AggregateMethod | server.py:79-99 | A method keeps its name and descriptor and gets the type-filtered totals. It is `uncovered` exactly when its missed instructions or missed branches are positive. |
| Jacoco.AggregateClass | server.py:58-78 | A class keeps its name and source file, gets its own counter totals, and has one method entry per `<method>` child, in document order. |
| Jacoco.AggregatePackage | server.py:56-58 | One class entry per `<class>` child, in document order, and the package name. |
| Jacoco.AggregateReport | server.py:55-56 | One package entry per `<package>` child, in document order. |
| Jacoco.ParseJacoco | server.py:50-55 | A missing file fails with its path and an unreadable one with the reader's reason. The call succeeds exactly for a parsed report, and then its value is the aggregation of that report. |
| Recommendations.MethodGaps | server.py:120-126 | One method message per uncovered method: the k-th message names the k-th uncovered method, in method order, and the enclosing class. |
| Recommendations.MethodGapsAppend | server.py:120-126 | Method messages follow method order. |
| Recommendations.ClassGaps | server.py:114-126 | A class gives its branch message (if it misses branches) and then its method messages. Only position 0 can be a branch message, and that happens exactly when the class misses branches. Every later position k holds the message for the (k - b)-th uncovered method, in method order, naming the class; b is 1 when there is a branch message and 0 otherwise. |
| Recommendations.ClassesGapsAppend | server.py:113-126 | Messages follow class order: the messages of two runs of classes are the first run's followed by the second's. |
| Recommendations.GapsFlatten | server.py:112-126 | Package boundaries play no part: the messages are those of all classes in document order. |
| Recommendations.ClassesGapsCount | server.py:112-126 | The number of messages is the number of classes missing branches plus the number of uncovered methods. The "everything is covered" message is never among them. |
| Recommendations.Recommend | server.py:109-129 | Input without `success` fails. Otherwise the result is never empty. It is exactly the single "everything is covered" message when the gap count is zero. Otherwise it has one message per gap, in document order. |
| Recommendations.ClassGapsEmpty | server.py:98-121 | A class yields no message exactly when its raw counters show no missed branch and no method misses an instruction or a branch. |
| Recommendations.PackageGapsEmpty | server.py:112-126 | A package yields no message exactly when none of its raw classes misses anything. |
| Recommendations.ReportFullyCovered | server.py:56-129 | End to end from a parsed report: the answer is exactly "everything is covered" if and only if no class misses a branch and no method misses an instruction or a branch. |
| Results.CollectAll | server.py:252-255 | The loop succeeds exactly when every item does, keeping values in order. Otherwise it fails with the error of the first failing item. |
| PyText.Find | server.py:245-246 | `find` is -1 exactly when the character is absent. Otherwise it is the index of its first occurrence. |
| PyText.Slice | server.py:248 | A Python slice: in-range bounds take exactly that segment, negative bounds count from the end, and out-of-range bounds clamp. |
| PyText.SplitOn | server.py:247 | `split(sep)` gives at least one piece, no piece contains the separator, and joining with the separator restores the text. The first piece is the text before the first separator. |
| PyText.Strip | server.py:244 | `strip` leaves no whitespace at either end and never lengthens the text. |
| PyText.StripIsTrim | server.py:244 | `strip` only trims: its result is a contiguous infix of the text with only whitespace before and after it. With `Strip`'s contract this fixes the result. |
| PyText.StripSurrounded | server.py:253 | Text that starts and ends with a non-space, surrounded by whitespace, strips to exactly that text. |
| PyText.StripKeepsText | server.py:244 | `strip` is empty exactly for all-whitespace text, and it removes no non-whitespace character. |
| PyText.SplitWs | server.py:247 | `split()` yields only non-empty words without whitespace. |
| PyText.SplitWsEmpty | server.py:247 | `split()` yields no word exactly for all-whitespace text. |
| PyText.SplitWsSpellsText | server.py:254 | The words of `split()`, concatenated, are exactly the text's non-whitespace characters in order. |
| PyText.SplitWsInterleave | server.py:247 | Words joined by non-empty whitespace gaps, with optional whitespace at either end, split back into exactly those words, so word boundaries fall at whitespace. |
| PyText.SplitWsTwoWords | server.py:254 | Two words with whitespace between them split into exactly those two words. |
| SpecTests.BeforeParen | server.py:247 | `header.split("(")[0]` is the text before the first `(`, or the whole header when there is none, and contains no `(`. |
| SpecTests.ParseParam | server.py:253-255 | A piece parses exactly when its stripped text splits into exactly two words. Otherwise the error names the piece. |
| SpecTests.ParamSpellsPiece | server.py:253-255 | A parsed type and name are single words that together spell the piece's non-whitespace characters. |
| SpecTests.ParseParamValue | server.py:253-255 | A parsed piece has exactly two words; its type is the first and its name the second. |
| SpecTests.ParseParamWords | server.py:253-255 | A type word and a name word separated by whitespace, with optional whitespace around them, parse to exactly that type and that name. |
| SpecTests.ParseParams | server.py:250-255 | The parameter loop succeeds exactly when every piece is a type and a name, keeping their order. Otherwise the error names one of the pieces. |
| SpecTests.ParamText | server.py:245-248 | The parameter text is the stripped text strictly between the first `(` and the first `)` when `)` comes after `(`, or from the start when there is no `(`. It is empty when `)` comes first. With no `)` the end index is -1, so the text runs from after `(` to one character before the end. |
| SpecTests.ParamPieces | server.py:248-252 | There are no pieces exactly when the trimmed parameter text is empty. Otherwise the pieces are that text's `split(",")`. |
| SpecTests.ParseHeader | server.py:244-255 | The parse fails with `NoMethodName` exactly when no word precedes the first `(`. It succeeds exactly when there is such a word and every parameter piece parses. The method name is the last word before `(`, and the parameters are the pieces' pairs in order. |
| SpecTests.EmptyParamTextNoParams | server.py:250-251 | Empty parameter text, as in `void run()`, gives zero parameters. |
| SpecTests.BlankNameFails | server.py:247 | The parse fails for lack of a name exactly when the text before `(` is all whitespace. |
| SpecTests.CasesFor | server.py:258-274 | Every case of a parameter names it, and a non-empty list opens with a boundary case. |
| SpecTests.CaseCount | server.py:257-274 | There are 5 cases per `int`/`Integer`, 3 per `double`/`float` and 3 per `String`. Other types contribute nothing. |
| SpecTests.CasesAppend | server.py:257-274 | Cases follow parameter order. |
| SpecTests.NumberFrom | server.py:286-289 | `enumerate` numbering: the k-th case becomes test `first + k`. |
| SpecTests.Emit | server.py:276-301 | The class is `<method>SpecTest` and carries the specification. It has one test per case, numbered from 1 in case order, for 5·#int + 3·#floating + 3·#String tests. |
| SpecTests.Generate | server.py:243-304 | The tool fails exactly when the header parse fails, with that error. Otherwise it emits the class for the parsed header. |

## Left out

- The Java test files are not part of this model. They only exercise library classes whose source is not available, and modelling those from call sites would mean inventing their behaviour.
- Launching processes is not modelled: `run_maven_tests`, `git_add_all`, `git_commit`, `git_push`, `git_pull_request`, and the `subprocess.run` call inside `git_status`. `git_status` starts from an already captured run: return code, stdout and stderr. An exception while launching git is not modelled.
- Python's text-mode newline translation of the captured stdout is not modelled. `splitlines` is applied to the string as given.
- File existence checks and XML parsing are not modelled. `parse_jacoco_xml` starts from a `Document`: a missing file, an unreadable file with its reason, or an already parsed tree. Counter attributes are already integers, so `int()` failures do not arise.
- A missing XML attribute (`get` returning `None`) is modelled as `Option` for names, descriptors and source files. A counter's type is a plain string: a missing type behaves like any type other than INSTRUCTION or BRANCH, so it is ignored.
- Recommendations.Recommend: its input is the result of `ParseJacoco`, not an arbitrary dictionary. Dictionaries with missing keys, which the source would reject with a `KeyError`, cannot be expressed.
- Exact message wording and the JUnit template text are not modelled. Messages are datatypes carrying the names and counts they mention. The generated class is its name, the specification and the numbered test list.
- The FastMCP registration, the server start, and the one-line `add` tool are not modelled, being transport or trivial arithmetic.
- The catch-all `except Exception` is modelled only for the failures the pure logic can raise: `IndexOutOfRange` for a short status line, `NoMethodName` and `MalformedParam` for a bad header. Error texts are not modelled.
- SpecTests.ParseParams: a failure names one offending piece, but the contract does not say it is the first one. Python's unpacking error does not name the piece at all; it only says how many values it got, and that message is not modelled.
