/** The `parse_jacoco_xml` tool: it folds a JaCoCo XML report
    (report > package > class > counter | method > counter) into per-class and
    per-method instruction and branch totals and flags every method that
    misses an instruction or a branch. The model starts from the already
    parsed element tree; each counter's `missed` and `covered` attributes are
    the integers `int()` produced. */
module Jacoco {
  import opened Results
  import opened Seqs

  /** A `<counter type=… missed=… covered=…/>` element. */
  datatype Counter = Counter(kind: string, missed: int, covered: int)

  /** A `<method>` element: its `name` and `desc` attributes and its counters. */
  datatype MethodElem = MethodElem(name: Option<string>, desc: Option<string>, counters: seq<Counter>)

  /** A `<class>` element: `name`, `sourcefilename`, its own counters and its methods. */
  datatype ClassElem = ClassElem(name: Option<string>, sourceFile: Option<string>,
                                 counters: seq<Counter>, methods: seq<MethodElem>)

  datatype PackageElem = PackageElem(name: Option<string>, classes: seq<ClassElem>)

  /** The `<report>` root: its `<package>` children in document order. */
  datatype ReportElem = ReportElem(packages: seq<PackageElem>)

  /** What reading the report file produced: no file at the path, a file the
      XML reader rejected, or the element tree. */
  datatype Document = Missing(path: string) | Unparsable(reason: string) | Parsed(root: ReportElem)

  datatype Totals = Totals(missedInstructions: int, coveredInstructions: int,
                           missedBranches: int, coveredBranches: int)

  datatype MethodCoverage = MethodCoverage(name: Option<string>, desc: Option<string>,
                                           totals: Totals, uncovered: bool)

  datatype ClassCoverage = ClassCoverage(name: Option<string>, source: Option<string>,
                                         methods: seq<MethodCoverage>, totals: Totals)

  datatype PackageCoverage = PackageCoverage(name: Option<string>, classes: seq<ClassCoverage>)

  datatype Coverage = Coverage(packages: seq<PackageCoverage>)

  datatype JacocoError = NotFound(path: string) | ParseFailed(reason: string)

  const InstructionKind: string := "INSTRUCTION"
  const BranchKind: string := "BRANCH"

  const NoTotals := Totals(0, 0, 0, 0)

  /** Reference sum: the `missed` values of the counters of type `kind`. */
  function Missed(cs: seq<Counter>, kind: string): int {
    if |cs| == 0 then 0 else (if cs[0].kind == kind then cs[0].missed else 0) + Missed(cs[1..], kind)
  }

  /** Reference sum: the `covered` values of the counters of type `kind`. */
  function Covered(cs: seq<Counter>, kind: string): int {
    if |cs| == 0 then 0 else (if cs[0].kind == kind then cs[0].covered else 0) + Covered(cs[1..], kind)
  }

  /** One iteration of the counter loop: an INSTRUCTION counter adds into the
      instruction pair, a BRANCH counter into the branch pair, any other
      counter changes nothing. */
  function Tally(t: Totals, c: Counter): Totals {
    if c.kind == InstructionKind then
      t.(missedInstructions := t.missedInstructions + c.missed,
         coveredInstructions := t.coveredInstructions + c.covered)
    else if c.kind == BranchKind then
      t.(missedBranches := t.missedBranches + c.missed,
         coveredBranches := t.coveredBranches + c.covered)
    else t
  }

  /** The counter loop: counters folded left to right into running totals. */
  function TallyAll(t: Totals, cs: seq<Counter>): Totals
    decreases |cs|
  {
    if |cs| == 0 then t else TallyAll(Tally(t, cs[0]), cs[1..])
  }

  /** The left-to-right fold adds exactly the type-filtered sums to whatever
      totals it starts from. */
  lemma {:induction false} TallyAllAddsSums(t: Totals, cs: seq<Counter>)
    ensures TallyAll(t, cs) == Totals(t.missedInstructions + Missed(cs, InstructionKind),
                                      t.coveredInstructions + Covered(cs, InstructionKind),
                                      t.missedBranches + Missed(cs, BranchKind),
                                      t.coveredBranches + Covered(cs, BranchKind))
    decreases |cs|
  {
    if |cs| > 0 {
      TallyAllAddsSums(Tally(t, cs[0]), cs[1..]);
    }
  }

  /** Totals of a class or method: they start at zero and equal the sums of
      `missed`/`covered` over its INSTRUCTION counters and over its BRANCH
      counters. */
  function CounterTotals(cs: seq<Counter>): (t: Totals)
    ensures t.missedInstructions == Missed(cs, InstructionKind)
    ensures t.coveredInstructions == Covered(cs, InstructionKind)
    ensures t.missedBranches == Missed(cs, BranchKind)
    ensures t.coveredBranches == Covered(cs, BranchKind)
  {
    TallyAllAddsSums(NoTotals, cs);
    TallyAll(NoTotals, cs)
  }

  lemma {:induction false} MissedAppend(a: seq<Counter>, b: seq<Counter>, kind: string)
    ensures Missed(a + b, kind) == Missed(a, kind) + Missed(b, kind)
    ensures Covered(a + b, kind) == Covered(a, kind) + Covered(b, kind)
    decreases |a|
  {
    if |a| == 0 {
      assert a + b == b;
    } else {
      assert (a + b)[1..] == a[1..] + b;
      MissedAppend(a[1..], b, kind);
    }
  }

  /** A counter of any type other than INSTRUCTION or BRANCH, wherever it
      stands among the others, leaves all four totals unchanged. */
  lemma OtherCountersIgnored(before: seq<Counter>, c: Counter, after: seq<Counter>)
    requires c.kind != InstructionKind && c.kind != BranchKind
    ensures CounterTotals(before + [c] + after) == CounterTotals(before + after)
  {
    MissedAppend(before + [c], after, InstructionKind);
    MissedAppend(before + [c], after, BranchKind);
    MissedAppend(before, [c], InstructionKind);
    MissedAppend(before, [c], BranchKind);
    MissedAppend(before, after, InstructionKind);
    MissedAppend(before, after, BranchKind);
  }

  /** One `<method>` element: its attributes, its counter totals, and the
      `uncovered` flag, which holds exactly when it misses at least one
      instruction or at least one branch. */
  function AggregateMethod(m: MethodElem): (r: MethodCoverage)
    ensures r.name == m.name && r.desc == m.desc
    ensures r.totals == CounterTotals(m.counters)
    ensures r.uncovered <==> Missed(m.counters, InstructionKind) > 0 || Missed(m.counters, BranchKind) > 0
  {
    var t := CounterTotals(m.counters);
    MethodCoverage(m.name, m.desc, t, t.missedInstructions > 0 || t.missedBranches > 0)
  }

  /** One `<class>` element: attributes, its own counter totals, and one entry
      per `<method>` child, in document order. */
  function AggregateClass(c: ClassElem): (r: ClassCoverage)
    ensures r.name == c.name && r.source == c.sourceFile
    ensures r.totals == CounterTotals(c.counters)
    ensures |r.methods| == |c.methods|
    ensures forall k :: 0 <= k < |c.methods| ==> r.methods[k] == AggregateMethod(c.methods[k])
  {
    ClassCoverage(c.name, c.sourceFile, MapSeq(AggregateMethod, c.methods), CounterTotals(c.counters))
  }

  /** One `<package>` element: one entry per `<class>` child, in document order. */
  function AggregatePackage(p: PackageElem): (r: PackageCoverage)
    ensures r.name == p.name
    ensures |r.classes| == |p.classes|
    ensures forall k :: 0 <= k < |p.classes| ==> r.classes[k] == AggregateClass(p.classes[k])
  {
    PackageCoverage(p.name, MapSeq(AggregateClass, p.classes))
  }

  /** The whole report: one entry per `<package>`, in document order. */
  function AggregateReport(root: ReportElem): (r: Coverage)
    ensures |r.packages| == |root.packages|
    ensures forall k :: 0 <= k < |root.packages| ==> r.packages[k] == AggregatePackage(root.packages[k])
  {
    Coverage(MapSeq(AggregatePackage, root.packages))
  }

  /** The tool: a missing file and an unreadable file are failures carrying
      the reason; a parsed report is aggregated. */
  function ParseJacoco(doc: Document): (r: Result<Coverage, JacocoError>)
    ensures doc.Missing? ==> r == Failure(NotFound(doc.path))
    ensures doc.Unparsable? ==> r == Failure(ParseFailed(doc.reason))
    ensures doc.Parsed? <==> r.Success?
    ensures doc.Parsed? ==> r == Success(AggregateReport(doc.root))
  {
    match doc
    case Missing(path) => Failure(NotFound(path))
    case Unparsable(reason) => Failure(ParseFailed(reason))
    case Parsed(root) => Success(AggregateReport(root))
  }
}
