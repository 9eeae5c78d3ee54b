/** The `generate_spec_tests` tool: it reads a Java method header such as
    `int add(int a, int b)`, takes the method name and the `(type, name)`
    parameter pairs, and emits a JUnit class skeleton with one numbered test
    per suggested input: five boundary/equivalence inputs for an integer
    parameter, three for a floating-point one, three for a `String`, none for
    any other type. The JUnit text is modelled by its structure. */
module SpecTests {
  import opened Results
  import PyText
  import Seqs

  datatype Param = Param(typeName: string, name: string)

  datatype Header = Header(methodName: string, params: seq<Param>)

  /** The two ways the header parse raises: no token before the first `(`
      (`split()[-1]` on an empty list), or a parameter that is not exactly a
      type and a name (tuple unpacking of `split()`). */
  datatype SpecError = NoMethodName | MalformedParam(text: string)

  datatype Reason = Boundary | Equivalence

  /** The suggested input of a test, one per line of the generator. */
  datatype Suggestion =
    | Zero | One | MinusOne | LargePositive | LargeNegative   // int, Integer
    | ZeroPointZero | Negative | Positive                     // double, float
    | EmptyString | NullValue | ValidValue                    // String

  datatype TestCase = TestCase(paramName: string, suggestion: Suggestion, reason: Reason)

  /** A generated `test_case_<number>` method and the case it documents. */
  datatype TestMethod = TestMethod(number: nat, testCase: TestCase)

  /** The generated `<methodName>SpecTest` class. */
  datatype TestClass = TestClass(className: string, specification: string, tests: seq<TestMethod>)

  datatype Generated = Generated(signature: string, testClass: TestClass)

  const IntTypes: set<string> := {"int", "Integer"}
  const RealTypes: set<string> := {"double", "float"}
  const StringTypes: set<string> := {"String"}

  /** `header.split("(")[0]`: the text before the first `(`, or all of it. */
  function BeforeParen(header: string): (prefix: string)
    ensures '(' !in prefix
    ensures PyText.Find(header, '(') == -1 ==> prefix == header
    ensures 0 <= PyText.Find(header, '(') ==> prefix == header[..PyText.Find(header, '(')]
  {
    PyText.SplitOn(header, '(')[0]
  }

  /** `header[name_start+1:name_end].strip()`, with Python's slice rules: a
      missing `(` starts the slice at 0, and a missing `)` (index -1) ends it
      one character before the end. */
  function ParamText(header: string): (raw: string)
    ensures var open, close := PyText.Find(header, '('), PyText.Find(header, ')');
            0 <= close && open < close ==> raw == PyText.Strip(header[open + 1..close])
    ensures var open, close := PyText.Find(header, '('), PyText.Find(header, ')');
            0 <= close <= open ==> raw == []
    ensures var open, close := PyText.Find(header, '('), PyText.Find(header, ')');
            close == -1 && open + 1 < |header| - 1 ==> raw == PyText.Strip(header[open + 1..|header| - 1])
    ensures var open, close := PyText.Find(header, '('), PyText.Find(header, ')');
            close == -1 && |header| - 1 <= open + 1 ==> raw == []
  {
    var open, close := PyText.Find(header, '('), PyText.Find(header, ')');
    var cut := PyText.Slice(header, open + 1, close);
    if 0 <= close && open < close then
      assert cut == header[open + 1..close];
      PyText.Strip(cut)
    else if 0 <= close || |header| - 1 <= open + 1 then
      assert cut == [];
      PyText.Strip(cut)
    else
      assert cut == header[open + 1..|header| - 1];
      PyText.Strip(cut)
  }

  /** `ptype, pname = p.strip().split()`. */
  function ParseParam(piece: string): (r: Result<Param, SpecError>)
    ensures r.Success? <==> |PyText.SplitWs(PyText.Strip(piece))| == 2
    ensures r.Failure? ==> r == Failure(MalformedParam(piece))
  {
    var tokens := PyText.SplitWs(PyText.Strip(piece));
    if |tokens| == 2 then Success(Param(tokens[0], tokens[1])) else Failure(MalformedParam(piece))
  }

  /** A parsed parameter's type and name are single words that together spell
      the piece's non-whitespace characters. */
  lemma ParamSpellsPiece(piece: string)
    requires ParseParam(piece).Success?
    ensures var p := ParseParam(piece).value;
            && PyText.IsToken(p.typeName) && PyText.IsToken(p.name)
            && p.typeName + p.name == PyText.Squeeze(piece)
  {
    var words := PyText.SplitWs(PyText.Strip(piece));
    assert words[0] in words && words[1] in words;
    PairSpellsText(words);
    PyText.SplitWsSpellsText(PyText.Strip(piece));
    PyText.StripKeepsText(piece);
  }

  /** A parsed piece's type is the first word of the stripped piece and its
      name the second. */
  lemma ParseParamValue(piece: string)
    requires ParseParam(piece).Success?
    ensures var words := PyText.SplitWs(PyText.Strip(piece));
            |words| == 2 && ParseParam(piece).value == Param(words[0], words[1])
  {
  }

  /** A piece made of a type word and a name word, separated by whitespace
      and with optional whitespace around them, parses to exactly that type
      and that name. */
  lemma ParseParamWords(before: string, typeName: string, gap: string, name: string, after: string)
    requires PyText.AllSpace(before) && PyText.AllSpace(gap) && PyText.AllSpace(after)
    requires |gap| > 0
    requires PyText.IsToken(typeName) && PyText.IsToken(name)
    ensures ParseParam(before + typeName + gap + name + after) == Success(Param(typeName, name))
  {
    var m := typeName + gap + name;
    assert m[0] == typeName[0] && m[|m| - 1] == name[|name| - 1];
    assert before + typeName + gap + name + after == before + m + after;
    PyText.StripSurrounded(before, m, after);
    PyText.SplitWsTwoWords(typeName, gap, name);
  }

  lemma PairSpellsText(tokens: seq<string>)
    requires |tokens| == 2
    ensures PyText.Concat(tokens) == tokens[0] + tokens[1]
  {
    var rest := tokens[1..];
    assert rest[0] == tokens[1];
    assert rest[1..] == [];
    assert PyText.Concat(rest) == tokens[1] + PyText.Concat([]);
  }

  /** The parameter loop over the comma-separated pieces: it succeeds exactly
      when every piece is a type and a name, keeping their order, and
      otherwise fails naming a piece that is not. */
  function ParseParams(pieces: seq<string>): (r: Result<seq<Param>, SpecError>)
    ensures r.Success? <==> forall k :: 0 <= k < |pieces| ==> ParseParam(pieces[k]).Success?
    ensures r.Success? ==>
              && |r.value| == |pieces|
              && forall k :: 0 <= k < |pieces| ==> r.value[k] == ParseParam(pieces[k]).value
    ensures r.Failure? ==> exists k :: 0 <= k < |pieces| && r.error == MalformedParam(pieces[k])
  {
    var parsed := Seqs.MapSeq(ParseParam, pieces);
    var r := CollectAll(parsed);
    assert r.Failure? ==> exists k :: 0 <= k < |pieces| && parsed[k] == Failure(MalformedParam(pieces[k]))
                                      && r.error == parsed[k].error;
    r
  }

  /** `header.split("(")[0].split()` for the stripped header: the words
      before the first `(`, the last of which is the method name. */
  function NameTokens(signature: string): seq<string> {
    PyText.SplitWs(BeforeParen(PyText.Strip(signature)))
  }

  /** The pieces the parameter loop visits: none when the parameter text is
      empty (`if params_raw:`), otherwise `params_raw.split(",")`. */
  function ParamPieces(signature: string): (pieces: seq<string>)
    ensures ParamText(PyText.Strip(signature)) == [] <==> pieces == []
    ensures var raw := ParamText(PyText.Strip(signature));
            raw != [] ==> pieces == PyText.SplitOn(raw, ',')
  {
    var raw := ParamText(PyText.Strip(signature));
    if |raw| == 0 then [] else PyText.SplitOn(raw, ',')
  }

  /** The header parse. It fails with `NoMethodName` exactly when no word
      precedes the first `(`; otherwise the method name is the last such word.
      It then fails unless every parameter piece is exactly a type and a name,
      and keeps the parameters in order. */
  function ParseHeader(signature: string): (r: Result<Header, SpecError>)
    ensures r == Failure(NoMethodName) <==> NameTokens(signature) == []
    ensures r.Success? <==>
              && NameTokens(signature) != []
              && forall k :: 0 <= k < |ParamPieces(signature)| ==> ParseParam(ParamPieces(signature)[k]).Success?
    ensures r.Success? ==>
              var names := NameTokens(signature);
              && r.value.methodName == names[|names| - 1]
              && PyText.IsToken(r.value.methodName)
    ensures r.Success? ==>
              var pieces := ParamPieces(signature);
              && |r.value.params| == |pieces|
              && forall k :: 0 <= k < |pieces| ==> r.value.params[k] == ParseParam(pieces[k]).value
  {
    var names := NameTokens(signature);
    if |names| == 0 then Failure(NoMethodName)
    else
      var methodName := names[|names| - 1];
      assert methodName in names;
      var parsed := ParseParams(ParamPieces(signature));
      if parsed.Failure? then
        assert parsed.error.MalformedParam?;
        Failure(parsed.error)
      else Success(Header(methodName, parsed.value))
  }

  /** An empty parameter text, as in `void run()`, gives a method with no
      parameters. */
  lemma EmptyParamTextNoParams(signature: string)
    requires NameTokens(signature) != []
    requires ParamText(PyText.Strip(signature)) == []
    ensures ParseHeader(signature).Success?
    ensures ParseHeader(signature).value.params == []
  {
  }

  /** A header with nothing but whitespace before its first `(` has no
      method name, and the parse fails. */
  lemma BlankNameFails(signature: string)
    ensures ParseHeader(signature) == Failure(NoMethodName)
            <==> PyText.AllSpace(BeforeParen(PyText.Strip(signature)))
  {
    PyText.SplitWsEmpty(BeforeParen(PyText.Strip(signature)));
  }

  /** The cases suggested for one parameter, in the generator's order; every
      one names the parameter, and a non-empty list opens with a boundary case. */
  function CasesFor(p: Param): (cs: seq<TestCase>)
    ensures forall c <- cs :: c.paramName == p.name
    ensures |cs| > 0 ==> cs[0].reason == Boundary
  {
    var n := p.name;
    if p.typeName in IntTypes then
      [TestCase(n, Zero, Boundary), TestCase(n, One, Boundary), TestCase(n, MinusOne, Boundary),
       TestCase(n, LargePositive, Equivalence), TestCase(n, LargeNegative, Equivalence)]
    else if p.typeName in RealTypes then
      [TestCase(n, ZeroPointZero, Boundary), TestCase(n, Negative, Equivalence), TestCase(n, Positive, Equivalence)]
    else if p.typeName in StringTypes then
      [TestCase(n, EmptyString, Boundary), TestCase(n, NullValue, Equivalence), TestCase(n, ValidValue, Equivalence)]
    else []
  }

  /** The case loop: each parameter's cases in parameter order. */
  function Cases(ps: seq<Param>): seq<TestCase> {
    Seqs.FlatMap(CasesFor, ps)
  }

  predicate IsIntParam(p: Param) {
    p.typeName in IntTypes
  }

  predicate IsRealParam(p: Param) {
    p.typeName in RealTypes
  }

  predicate IsStringParam(p: Param) {
    p.typeName in StringTypes
  }

  /** Five cases per `int`/`Integer`, three per `double`/`float`, three per
      `String`, none for any other type. */
  lemma {:induction false} CaseCount(ps: seq<Param>)
    ensures |Cases(ps)| == 5 * Seqs.CountWhere(ps, IsIntParam) + 3 * Seqs.CountWhere(ps, IsRealParam) + 3 * Seqs.CountWhere(ps, IsStringParam)
    decreases |ps|
  {
    if |ps| > 0 {
      CaseCount(ps[1..]);
    }
  }

  /** Cases follow parameter order: the cases of two runs of parameters are
      those of the first run followed by those of the second. */
  lemma {:induction false} CasesAppend(a: seq<Param>, b: seq<Param>)
    ensures Cases(a + b) == Cases(a) + Cases(b)
  {
    Seqs.FlatMapAppend(CasesFor, a, b);
  }

  /** `enumerate` from `first`: the k-th case becomes test number `first + k`. */
  function NumberFrom(cases: seq<TestCase>, first: nat): (tests: seq<TestMethod>)
    ensures |tests| == |cases|
    ensures forall k :: 0 <= k < |cases| ==> tests[k] == TestMethod(first + k, cases[k])
    decreases |cases|
  {
    if |cases| == 0 then []
    else
      var rest := NumberFrom(cases[1..], first + 1);
      [TestMethod(first, cases[0])] + rest
  }

  /** The generated class for a parsed header: named after the method, with
      the specification text, and one test per case numbered from 1 in case
      order, so there are 5·#int + 3·#floating + 3·#String tests. */
  function Emit(h: Header, signature: string, specification: string): (g: Generated)
    ensures g.signature == signature
    ensures g.testClass.className == h.methodName + "SpecTest"
    ensures g.testClass.specification == specification
    ensures |g.testClass.tests| == |Cases(h.params)|
    ensures |g.testClass.tests| == 5 * Seqs.CountWhere(h.params, IsIntParam) + 3 * Seqs.CountWhere(h.params, IsRealParam)
                                   + 3 * Seqs.CountWhere(h.params, IsStringParam)
    ensures forall k :: 0 <= k < |g.testClass.tests| ==>
              g.testClass.tests[k].number == k + 1 && g.testClass.tests[k].testCase == Cases(h.params)[k]
  {
    CaseCount(h.params);
    Generated(signature, TestClass(h.methodName + "SpecTest", specification, NumberFrom(Cases(h.params), 1)))
  }

  /** The tool: it fails exactly when the header parse fails, with the same
      error, and otherwise emits the class for the parsed header. */
  function Generate(signature: string, specification: string): (r: Result<Generated, SpecError>)
    ensures r.Success? <==> ParseHeader(signature).Success?
    ensures r.Failure? ==> r.error == ParseHeader(signature).error
    ensures r.Success? ==> r.value == Emit(ParseHeader(signature).value, signature, specification)
  {
    match ParseHeader(signature)
    case Failure(e) => Failure(e)
    case Success(h) => Success(Emit(h, signature, specification))
  }
}
