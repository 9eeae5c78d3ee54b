/** The `coverage_recommendations` tool: from aggregated coverage it lists one
    message per class that misses branches and one per uncovered method, or
    the single "everything is covered" message when there is nothing to say.
    Messages are modelled by what they carry, not by their wording. */
module Recommendations {
  import opened Results
  import opened Seqs
  import opened Jacoco

  datatype Recommendation =
    | BranchGap(className: Option<string>, missedBranches: int)
    | MethodGap(methodName: Option<string>, className: Option<string>)
    | AllCovered

  /** The answer to input whose `success` flag is false. */
  datatype RecommendationError = InvalidCoverageData

  predicate HasBranchGap(c: ClassCoverage) {
    c.totals.missedBranches > 0
  }

  predicate IsUncovered(m: MethodCoverage) {
    m.uncovered
  }

  /** The inner loop: one message per uncovered method, in method order. The
      k-th message names the k-th uncovered method and the enclosing class. */
  function MethodGaps(className: Option<string>, ms: seq<MethodCoverage>): (r: seq<Recommendation>)
    ensures |r| == CountWhere(ms, IsUncovered)
    ensures var gaps := Filter(ms, IsUncovered);
            forall k :: 0 <= k < |r| ==> r[k] == MethodGap(gaps[k].name, className)
  {
    if |ms| == 0 then []
    else
      var rest := MethodGaps(className, ms[1..]);
      var here := if ms[0].uncovered then [MethodGap(ms[0].name, className)] else [];
      var gaps := Filter(ms, IsUncovered);
      var restGaps := Filter(ms[1..], IsUncovered);
      var skip := |here|;
      assert gaps == (if ms[0].uncovered then [ms[0]] else []) + restGaps;
      assert forall k :: skip <= k < skip + |rest| ==> gaps[k] == restGaps[k - skip];
      assert forall k :: skip <= k < skip + |rest| ==> (here + rest)[k] == rest[k - skip];
      here + rest
  }

  /** Method messages keep method order: the messages for two runs of methods
      are those of the first run followed by those of the second. */
  lemma {:induction false} MethodGapsAppend(className: Option<string>, a: seq<MethodCoverage>, b: seq<MethodCoverage>)
    ensures MethodGaps(className, a + b) == MethodGaps(className, a) + MethodGaps(className, b)
    decreases |a|
  {
    if |a| == 0 {
      assert a + b == b;
    } else {
      assert (a + b)[0] == a[0];
      assert (a + b)[1..] == a[1..] + b;
      MethodGapsAppend(className, a[1..], b);
    }
  }

  /** The messages of one class: the branch message first (when it misses
      branches), then its method messages. */
  function ClassGaps(c: ClassCoverage): (r: seq<Recommendation>)
    ensures |r| == (if HasBranchGap(c) then 1 else 0) + CountWhere(c.methods, IsUncovered)
    ensures HasBranchGap(c) ==> r[0] == BranchGap(c.name, c.totals.missedBranches)
    ensures forall k :: 0 <= k < |r| ==> (r[k].BranchGap? <==> k == 0 && HasBranchGap(c))
    ensures forall k :: 0 <= k < |r| && r[k].MethodGap? ==> r[k].className == c.name
    ensures var b := if HasBranchGap(c) then 1 else 0;
            var gaps := Filter(c.methods, IsUncovered);
            forall k :: b <= k < |r| ==> r[k] == MethodGap(gaps[k - b].name, c.name)
  {
    var head := if HasBranchGap(c) then [BranchGap(c.name, c.totals.missedBranches)] else [];
    var tail := MethodGaps(c.name, c.methods);
    assert forall k :: |head| <= k < |head| + |tail| ==> (head + tail)[k] == tail[k - |head|];
    head + tail
  }

  /** The class loop: the classes' messages one after the other. */
  function ClassesGaps(cs: seq<ClassCoverage>): seq<Recommendation> {
    if |cs| == 0 then [] else ClassGaps(cs[0]) + ClassesGaps(cs[1..])
  }

  /** The package loop around the class loop. */
  function Gaps(ps: seq<PackageCoverage>): seq<Recommendation> {
    if |ps| == 0 then [] else ClassesGaps(ps[0].classes) + Gaps(ps[1..])
  }

  /** Every class of the report, package by package, in document order. */
  function AllClasses(ps: seq<PackageCoverage>): seq<ClassCoverage> {
    if |ps| == 0 then [] else ps[0].classes + AllClasses(ps[1..])
  }

  /** Every method of the given classes, class by class, in document order. */
  function AllMethods(cs: seq<ClassCoverage>): seq<MethodCoverage> {
    if |cs| == 0 then [] else cs[0].methods + AllMethods(cs[1..])
  }

  /** How many messages the coverage calls for: classes missing branches plus
      uncovered methods. */
  function GapCount(ps: seq<PackageCoverage>): nat {
    CountWhere(AllClasses(ps), HasBranchGap) + CountWhere(AllMethods(AllClasses(ps)), IsUncovered)
  }

  /** Messages keep class order: the messages of two runs of classes are the
      messages of the first run followed by those of the second. */
  lemma {:induction false} ClassesGapsAppend(a: seq<ClassCoverage>, b: seq<ClassCoverage>)
    ensures ClassesGaps(a + b) == ClassesGaps(a) + ClassesGaps(b)
    decreases |a|
  {
    if |a| == 0 {
      assert a + b == b;
    } else {
      assert (a + b)[0] == a[0];
      assert (a + b)[1..] == a[1..] + b;
      ClassesGapsAppend(a[1..], b);
    }
  }

  /** Package boundaries play no part: the messages are those of all classes
      taken in document order. */
  lemma {:induction false} GapsFlatten(ps: seq<PackageCoverage>)
    ensures Gaps(ps) == ClassesGaps(AllClasses(ps))
    decreases |ps|
  {
    if |ps| > 0 {
      GapsFlatten(ps[1..]);
      ClassesGapsAppend(ps[0].classes, AllClasses(ps[1..]));
    }
  }

  lemma {:induction false} AllMethodsAppend(a: seq<ClassCoverage>, b: seq<ClassCoverage>)
    ensures AllMethods(a + b) == AllMethods(a) + AllMethods(b)
    decreases |a|
  {
    if |a| == 0 {
      assert a + b == b;
    } else {
      assert (a + b)[0] == a[0];
      assert (a + b)[1..] == a[1..] + b;
      AllMethodsAppend(a[1..], b);
    }
  }

  /** One message per class that misses branches and one per uncovered
      method, and never the "everything is covered" message. */
  lemma {:induction false} ClassesGapsCount(cs: seq<ClassCoverage>)
    ensures |ClassesGaps(cs)| == CountWhere(cs, HasBranchGap) + CountWhere(AllMethods(cs), IsUncovered)
    ensures AllCovered !in ClassesGaps(cs)
    decreases |cs|
  {
    if |cs| > 0 {
      ClassesGapsCount(cs[1..]);
      CountWhereAppend(cs[0].methods, AllMethods(cs[1..]), IsUncovered);
      var g := ClassGaps(cs[0]);
      assert forall k :: 0 <= k < |g| ==> g[k] != AllCovered;
    }
  }

  /** The tool. Input without `success` is refused. Otherwise the list holds
      one message per class missing branches and one per uncovered method, in
      document order; when there are none it is exactly the single "everything
      is covered" message, so a successful answer is never empty. */
  function Recommend(data: Result<Coverage, JacocoError>): (r: Result<seq<Recommendation>, RecommendationError>)
    ensures data.Failure? <==> r.Failure?
    ensures r.Failure? ==> r.error == InvalidCoverageData
    ensures data.Success? ==>
              var ps := data.value.packages;
              && |r.value| >= 1
              && (GapCount(ps) == 0 ==> r.value == [AllCovered])
              && (GapCount(ps) > 0 ==> |r.value| == GapCount(ps) && AllCovered !in r.value)
              && (GapCount(ps) > 0 ==> r.value == ClassesGaps(AllClasses(ps)))
  {
    match data
    case Failure(_) => Failure(InvalidCoverageData)
    case Success(coverage) =>
      var recs := Gaps(coverage.packages);
      GapsFlatten(coverage.packages);
      ClassesGapsCount(AllClasses(coverage.packages));
      Success(if |recs| == 0 then [AllCovered] else recs)
  }

  /** A raw class element misses nothing the recommendations look at: no
      missed branch in its own counters, and no method missing an instruction
      or a branch. */
  predicate ClassNothingMissed(c: ClassElem) {
    && Missed(c.counters, BranchKind) <= 0
    && forall k :: 0 <= k < |c.methods| ==>
         Missed(c.methods[k].counters, InstructionKind) <= 0 && Missed(c.methods[k].counters, BranchKind) <= 0
  }

  predicate PackageNothingMissed(p: PackageElem) {
    forall k :: 0 <= k < |p.classes| ==> ClassNothingMissed(p.classes[k])
  }

  predicate NothingMissed(root: ReportElem) {
    forall k :: 0 <= k < |root.packages| ==> PackageNothingMissed(root.packages[k])
  }

  lemma ClassGapsEmpty(c: ClassElem)
    ensures ClassGaps(AggregateClass(c)) == [] <==> ClassNothingMissed(c)
  {
    var ac := AggregateClass(c);
    CountWhereZero(ac.methods, IsUncovered);
    assert forall k :: 0 <= k < |c.methods| ==> ac.methods[k] == AggregateMethod(c.methods[k]);
  }

  lemma {:induction false} ClassesGapsEmpty(cs: seq<ClassCoverage>)
    ensures ClassesGaps(cs) == [] <==> forall k :: 0 <= k < |cs| ==> ClassGaps(cs[k]) == []
    decreases |cs|
  {
    if |cs| > 0 {
      ClassesGapsEmpty(cs[1..]);
      assert forall k :: 1 <= k < |cs| ==> cs[k] == cs[1..][k - 1];
    }
  }

  lemma {:induction false} GapsEmpty(ps: seq<PackageCoverage>)
    ensures Gaps(ps) == [] <==> forall k :: 0 <= k < |ps| ==> ClassesGaps(ps[k].classes) == []
    decreases |ps|
  {
    if |ps| > 0 {
      GapsEmpty(ps[1..]);
      assert forall k :: 1 <= k < |ps| ==> ps[k] == ps[1..][k - 1];
    }
  }

  lemma PackageGapsEmpty(p: PackageElem)
    ensures ClassesGaps(AggregatePackage(p).classes) == [] <==> PackageNothingMissed(p)
  {
    var ap := AggregatePackage(p);
    ClassesGapsEmpty(ap.classes);
    forall k | 0 <= k < |p.classes|
      ensures ClassGaps(ap.classes[k]) == [] <==> ClassNothingMissed(p.classes[k])
    {
      ClassGapsEmpty(p.classes[k]);
    }
  }

  /** End to end, from the report's raw counters: the recommendations are
      exactly the single "everything is covered" message when, and only when,
      no class misses a branch and no method misses an instruction or a branch. */
  lemma ReportFullyCovered(root: ReportElem)
    ensures Recommend(ParseJacoco(Parsed(root))) == Success([AllCovered]) <==> NothingMissed(root)
  {
    var cov := AggregateReport(root);
    GapsEmpty(cov.packages);
    forall k | 0 <= k < |root.packages|
      ensures ClassesGaps(cov.packages[k].classes) == [] <==> PackageNothingMissed(root.packages[k])
    {
      PackageGapsEmpty(root.packages[k]);
    }
    GapsFlatten(cov.packages);
    ClassesGapsCount(AllClasses(cov.packages));
  }
}
