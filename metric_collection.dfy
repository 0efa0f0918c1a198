/**
 * The evaluation harness: builds one test case per question from a retriever
 * call and an agent call, hands the cases to the metric library, and pivots
 * the per-case metric results into a dictionary of columns.
 */
module MetricCollection {
  import opened Wrappers
  import opened QdrantRetrieval

  /** A metric object of the evaluation library; opaque. */
  type Metric

  /** A metric score; opaque, nothing is computed on it. */
  type Score

  /** An evaluation case, one per question. */
  datatype TestCase = LLMTestCase(
    input: string,
    actualOutput: string,
    expectedOutput: Option<string>,
    retrievalContext: seq<string>)

  /** One metric's verdict on one case. */
  datatype MetricData = MetricData(name: string, score: Score)

  /** The evaluation library's result for one case; `metricsData` may be `None`. */
  datatype TestResult = TestResult(input: string, metricsData: Option<seq<MetricData>>)

  /** A cell of the score dictionary: a case's input, or a score. */
  datatype Cell = InputCell(input: string) | ScoreCell(score: Score)

  /** The dictionary of columns built from the evaluation results. */
  type ScoreTable = map<string, seq<Cell>>

  /** The one exception the harness raises. */
  datatype Error = ValueError(message: string)

  /** The external calls the collector makes, in the order it makes them. */
  datatype ExternalCall =
    | RetrieverSearch(query: string)
    | AgentInvoke(query: string)
    | Evaluation(cases: seq<TestCase>)

  /** The language-model predictor: (question, retrieved passages) to answer text. */
  type Predictor = (string, seq<Passage>) -> string

  /**
   * The question-answering agent: its own retriever, which need not be the
   * collector's, and the predictor it hands that retriever's results to.
   */
  datatype RagAgent = RagAgent(retriever: QdrantRetriever, predict: Predictor)

  /** The evaluation library's `evaluate`: (cases, metrics) to one result per case. */
  type Evaluator = (seq<TestCase>, seq<Metric>) -> seq<TestResult>

  /** The key of the column of case inputs. */
  const InputColumn: string := "Input"

  const LengthMismatchMessage: string := "Questions and answers must have the same length"
  const NotCollectedMessage: string := "Test cases not collected. Run collect_test_cases first."

  /** Python's `str` on a text value or `None`. */
  function PyStr(v: Option<string>): string {
    match v
    case Some(s) => s
    case None => "None"
  }

  /** The retrieval context recorded for a search result: `str(doc["text"])` of each record. */
  function ContextTexts(docs: seq<Passage>): (texts: seq<string>)
    ensures |texts| == |docs|
    ensures forall i :: 0 <= i < |docs| && docs[i].text.Some? ==> texts[i] == docs[i].text.value
    ensures forall i :: 0 <= i < |docs| && docs[i].text.None? ==> texts[i] == "None"
  {
    seq(|docs|, i requires 0 <= i < |docs| => PyStr(docs[i].text))
  }

  /** `s.index(x)`: the first position holding `x`. */
  function FirstIndex<T(==)>(s: seq<T>, x: T): (j: nat)
    requires x in s
    ensures j < |s| && s[j] == x
    ensures forall i :: 0 <= i < j ==> s[i] != x
  {
    if s[0] == x then 0 else 1 + FirstIndex(s[1..], x)
  }

  /**
   * The expected output of the case for `question`: the answer at the first
   * position of `question`, or `None` when `answers` is `None` or empty.
   */
  function ExpectedOutput(questions: seq<string>, answers: Option<seq<string>>, question: string): (r: Option<string>)
    requires question in questions
    requires answers.Some? ==> |answers.value| == |questions|
    ensures r.None? <==> answers.None? || answers.value == []
    ensures r.Some? ==>
      exists j :: 0 <= j < |questions| && questions[j] == question &&
                  (forall l :: 0 <= l < j ==> questions[l] != question) && r.value == answers.value[j]
  {
    if answers.Some? && answers.value != [] then Some(answers.value[FirstIndex(questions, question)]) else None
  }

  /** Every case of a batch with duplicate-free questions gets its own answer. */
  lemma ExpectedOutputOfDistinctQuestions(questions: seq<string>, answers: seq<string>, i: nat)
    requires |answers| == |questions| && i < |questions|
    requires forall a, b :: 0 <= a < b < |questions| ==> questions[a] != questions[b]
    ensures ExpectedOutput(questions, Some(answers), questions[i]) == Some(answers[i])
  {
  }

  /** A repeated question gets the answer of its first occurrence. */
  lemma ExpectedOutputOfRepeatedQuestion(questions: seq<string>, answers: seq<string>, i: nat, j: nat)
    requires |answers| == |questions| && j <= i < |questions|
    requires questions[j] == questions[i]
    requires forall l :: 0 <= l < j ==> questions[l] != questions[i]
    ensures ExpectedOutput(questions, Some(answers), questions[i]) == Some(answers[j])
  {
  }

  /** The external calls a successful case-building pass makes: a search, then an agent call, per question. */
  function CallsFor(questions: seq<string>): seq<ExternalCall> {
    if questions == [] then []
    else
      var last := questions[|questions| - 1];
      CallsFor(questions[..|questions| - 1]) + [RetrieverSearch(last), AgentInvoke(last)]
  }

  /** Question `i` adds its search and its agent call after those of the questions before it. */
  lemma CallsForStep(questions: seq<string>, i: nat)
    requires i < |questions|
    ensures CallsFor(questions[..i + 1]) ==
      CallsFor(questions[..i]) + [RetrieverSearch(questions[i]), AgentInvoke(questions[i])]
  {
    assert questions[..i + 1][..i] == questions[..i];
  }

  lemma {:induction false} CallsForOrder(questions: seq<string>)
    ensures |CallsFor(questions)| == 2 * |questions|
    ensures forall i :: 0 <= i < |questions| ==>
      CallsFor(questions)[2 * i] == RetrieverSearch(questions[i]) &&
      CallsFor(questions)[2 * i + 1] == AgentInvoke(questions[i])
  {
    if questions != [] {
      var init := questions[..|questions| - 1];
      CallsForOrder(init);
      assert forall i :: 0 <= i < |init| ==> init[i] == questions[i];
    }
  }

  /** `result.metrics_data or []`. */
  function MetricsOf(result: TestResult): (ms: seq<MetricData>)
    ensures result.metricsData.Some? ==> ms == result.metricsData.value
    ensures result.metricsData.None? ==> ms == []
  {
    match result.metricsData
    case Some(ms) => ms
    case None => []
  }

  /** The scores of the metric data named `name`, in order. */
  function ScoresNamed(ms: seq<MetricData>, name: string): seq<Cell> {
    if ms == [] then []
    else
      var last := ms[|ms| - 1];
      ScoresNamed(ms[..|ms| - 1], name) + (if last.name == name then [ScoreCell(last.score)] else [])
  }

  /** What one result appends to the column `name`: its input first, then its scores named `name`. */
  function RowCells(result: TestResult, name: string): seq<Cell> {
    (if name == InputColumn then [InputCell(result.input)] else []) + ScoresNamed(MetricsOf(result), name)
  }

  /** The column `name` of the score dictionary built from `results`. */
  function Column(results: seq<TestResult>, name: string): seq<Cell> {
    if results == [] then []
    else Column(results[..|results| - 1], name) + RowCells(results[|results| - 1], name)
  }

  /**
   * `data` is the dictionary built from `results`: a key is present exactly
   * when its column would have an entry, and then holds that column.
   */
  ghost predicate TableOf(data: ScoreTable, results: seq<TestResult>) {
    (forall name :: name in data <==> Column(results, name) != []) &&
    (forall name :: name in data ==> data[name] == Column(results, name))
  }

  /** `data[key].append(cell)` on a dictionary whose missing keys start as empty lists. */
  function Append(data: ScoreTable, key: string, cell: Cell): (r: ScoreTable)
    ensures r.Keys == data.Keys + {key}
    ensures r[key] == (if key in data then data[key] else []) + [cell]
    ensures forall name :: name in data && name != key ==> r[name] == data[name]
  {
    data[key := (if key in data then data[key] else []) + [cell]]
  }

  /**
   * The column `name` once the results `done` are in, together with the input
   * and the first `j` metric data of `result`.
   */
  function PartialColumn(done: seq<TestResult>, result: TestResult, j: nat, name: string): seq<Cell>
    requires j <= |MetricsOf(result)|
  {
    Column(done, name) + (if name == InputColumn then [InputCell(result.input)] else []) +
    ScoresNamed(MetricsOf(result)[..j], name)
  }

  /** `data` is the dictionary built from `done` and the first `j` metric data of `result`. */
  ghost predicate PartialTableOf(data: ScoreTable, done: seq<TestResult>, result: TestResult, j: nat)
    requires j <= |MetricsOf(result)|
  {
    (forall name :: name in data <==> PartialColumn(done, result, j, name) != []) &&
    (forall name :: name in data ==> data[name] == PartialColumn(done, result, j, name))
  }

  lemma PartialColumnStart(done: seq<TestResult>, result: TestResult, name: string)
    ensures PartialColumn(done, result, 0, name) ==
      Column(done, name) + (if name == InputColumn then [InputCell(result.input)] else [])
  {
    assert MetricsOf(result)[..0] == [];
  }

  lemma PartialColumnStep(done: seq<TestResult>, result: TestResult, j: nat, name: string)
    requires j < |MetricsOf(result)|
    ensures var m := MetricsOf(result)[j];
      PartialColumn(done, result, j + 1, name) ==
      PartialColumn(done, result, j, name) + (if m.name == name then [ScoreCell(m.score)] else [])
  {
    var ms := MetricsOf(result);
    assert ms[..j + 1][..j] == ms[..j];
  }

  lemma PartialColumnEnd(results: seq<TestResult>, i: nat, name: string)
    requires i < |results|
    ensures PartialColumn(results[..i], results[i], |MetricsOf(results[i])|, name) == Column(results[..i + 1], name)
  {
    var ms := MetricsOf(results[i]);
    assert ms[..|ms|] == ms;
    assert results[..i + 1][..i] == results[..i];
  }

  lemma StartRow(data: ScoreTable, results: seq<TestResult>, i: nat)
    requires i < |results| && TableOf(data, results[..i])
    ensures PartialTableOf(Append(data, InputColumn, InputCell(results[i].input)), results[..i], results[i], 0)
  {
    var data' := Append(data, InputColumn, InputCell(results[i].input));
    forall name
      ensures name in data' <==> PartialColumn(results[..i], results[i], 0, name) != []
      ensures name in data' ==> data'[name] == PartialColumn(results[..i], results[i], 0, name)
    {
      PartialColumnStart(results[..i], results[i], name);
    }
  }

  lemma StepRow(data: ScoreTable, done: seq<TestResult>, result: TestResult, j: nat)
    requires j < |MetricsOf(result)|
    requires PartialTableOf(data, done, result, j)
    ensures PartialTableOf(Append(data, MetricsOf(result)[j].name, ScoreCell(MetricsOf(result)[j].score)), done, result, j + 1)
  {
    var m := MetricsOf(result)[j];
    var data' := Append(data, m.name, ScoreCell(m.score));
    forall name
      ensures name in data' <==> PartialColumn(done, result, j + 1, name) != []
      ensures name in data' ==> data'[name] == PartialColumn(done, result, j + 1, name)
    {
      PartialColumnStep(done, result, j, name);
    }
  }

  lemma EndRow(data: ScoreTable, results: seq<TestResult>, i: nat)
    requires i < |results|
    requires PartialTableOf(data, results[..i], results[i], |MetricsOf(results[i])|)
    ensures TableOf(data, results[..i + 1])
  {
    forall name
      ensures name in data <==> Column(results[..i + 1], name) != []
      ensures name in data ==> data[name] == Column(results[..i + 1], name)
    {
      PartialColumnEnd(results, i, name);
    }
  }

  /** The pivot loop: one `Input` entry per result, one entry per metric datum in its metric's column. */
  method Pivot(results: seq<TestResult>) returns (data: ScoreTable)
    ensures TableOf(data, results)
  {
    data := map[];
    for i := 0 to |results|
      invariant TableOf(data, results[..i])
    {
      var result := results[i];
      StartRow(data, results, i);
      data := Append(data, InputColumn, InputCell(result.input));
      var metricsData := MetricsOf(result);
      for j := 0 to |metricsData|
        invariant PartialTableOf(data, results[..i], result, j)
      {
        var metricData := metricsData[j];
        StepRow(data, results[..i], result, j);
        data := Append(data, metricData.name, ScoreCell(metricData.score));
      }
      EndRow(data, results, i);
    }
    assert results[..|results|] == results;
  }

  /** All metric data of all results, in result order. */
  function AllMetricData(results: seq<TestResult>): seq<MetricData> {
    if results == [] then []
    else AllMetricData(results[..|results| - 1]) + MetricsOf(results[|results| - 1])
  }

  /** No metric datum of any result carries `name`. */
  ghost predicate NoMetricNamed(results: seq<TestResult>, name: string) {
    forall i, m :: 0 <= i < |results| && m in MetricsOf(results[i]) ==> m.name != name
  }

  lemma {:induction false} ScoresNamedConcat(a: seq<MetricData>, b: seq<MetricData>, name: string)
    ensures ScoresNamed(a + b, name) == ScoresNamed(a, name) + ScoresNamed(b, name)
  {
    if b == [] {
      assert a + b == a;
    } else {
      var init := b[..|b| - 1];
      assert (a + b)[..|a + b| - 1] == a + init;
      ScoresNamedConcat(a, init, name);
    }
  }

  lemma {:induction false} ScoresNamedEmptyIff(ms: seq<MetricData>, name: string)
    ensures ScoresNamed(ms, name) == [] <==> forall m :: m in ms ==> m.name != name
  {
    if ms != [] {
      var init := ms[..|ms| - 1];
      ScoresNamedEmptyIff(init, name);
      assert forall m :: m in ms <==> m in init || m == ms[|ms| - 1];
    }
  }

  /** The last result's cells come after the others'. */
  lemma ColumnSnoc(results: seq<TestResult>, result: TestResult, name: string)
    ensures Column(results + [result], name) == Column(results, name) + RowCells(result, name)
  {
    assert (results + [result])[..|results|] == results;
  }

  /** The dictionary built from `a + b` is, column by column, that of `a` followed by that of `b`. */
  lemma {:induction false} ColumnConcat(a: seq<TestResult>, b: seq<TestResult>, name: string)
    ensures Column(a + b, name) == Column(a, name) + Column(b, name)
  {
    if b == [] {
      assert a + b == a;
    } else {
      var init, last := b[..|b| - 1], b[|b| - 1];
      assert b == init + [last];
      assert a + b == (a + init) + [last];
      ColumnSnoc(a + init, last, name);
      ColumnSnoc(init, last, name);
      ColumnConcat(a, init, name);
      CellsAssoc(Column(a, name), Column(init, name), RowCells(last, name));
    }
  }

  lemma CellsAssoc(x: seq<Cell>, y: seq<Cell>, z: seq<Cell>)
    ensures (x + y) + z == x + (y + z)
  {
  }

  /**
   * Unless some metric is itself named `Input`, the `Input` column holds the
   * input of every result, one per result, in result order.
   */
  lemma {:induction false} InputColumnHoldsInputs(results: seq<TestResult>)
    requires NoMetricNamed(results, InputColumn)
    ensures |Column(results, InputColumn)| == |results|
    ensures forall i :: 0 <= i < |results| ==> Column(results, InputColumn)[i] == InputCell(results[i].input)
  {
    if results != [] {
      var n := |results| - 1;
      var init := results[..n];
      assert NoMetricNamed(init, InputColumn) by {
        forall i, m | 0 <= i < |init| && m in MetricsOf(init[i]) ensures m.name != InputColumn {
          assert init[i] == results[i];
        }
      }
      InputColumnHoldsInputs(init);
      ScoresNamedEmptyIff(MetricsOf(results[n]), InputColumn);
    }
  }

  /**
   * Any other column holds the scores of the metric data carrying its name,
   * taken across all results in order; nothing else.
   */
  lemma {:induction false} MetricColumnIsScores(results: seq<TestResult>, name: string)
    requires name != InputColumn
    ensures Column(results, name) == ScoresNamed(AllMetricData(results), name)
  {
    if results != [] {
      var n := |results| - 1;
      MetricColumnIsScores(results[..n], name);
      ScoresNamedConcat(AllMetricData(results[..n]), MetricsOf(results[n]), name);
    }
  }

  /** A result without metric data adds nothing to any metric column. */
  lemma EmptyResultAddsNothing(before: seq<TestResult>, result: TestResult, after: seq<TestResult>, name: string)
    requires name != InputColumn && MetricsOf(result) == []
    ensures Column(before + [result] + after, name) == Column(before + after, name)
  {
    ColumnConcat(before + [result], after, name);
    ColumnSnoc(before, result, name);
    NoRowCells(result, name);
    ColumnConcat(before, after, name);
  }

  lemma NoRowCells(result: TestResult, name: string)
    requires name != InputColumn && MetricsOf(result) == []
    ensures RowCells(result, name) == []
  {
  }

  /** A metric datum is among all metric data exactly when some result carries it. */
  lemma {:induction false} AllMetricDataMembers(results: seq<TestResult>, m: MetricData)
    ensures m in AllMetricData(results) <==> exists i :: 0 <= i < |results| && m in MetricsOf(results[i])
  {
    if results != [] {
      var n := |results| - 1;
      var init, last := results[..n], results[n];
      AllMetricDataMembers(init, m);
      assert AllMetricData(results) == AllMetricData(init) + MetricsOf(last);
      if m in AllMetricData(init) {
        var i :| 0 <= i < |init| && m in MetricsOf(init[i]);
        assert results[i] == init[i];
      } else if m in MetricsOf(last) {
        assert m in MetricsOf(results[n]);
      } else {
        forall i | 0 <= i < |results|
          ensures m !in MetricsOf(results[i])
        {
          if i < n {
            assert results[i] == init[i];
          }
        }
      }
    }
  }

  /**
   * A name other than `Input` is a key of the dictionary exactly when some
   * result carries a datum of that metric.
   */
  lemma MetricColumnPresentIff(results: seq<TestResult>, name: string)
    requires name != InputColumn
    ensures Column(results, name) != [] <==>
      exists i, m :: 0 <= i < |results| && m in MetricsOf(results[i]) && m.name == name
  {
    MetricColumnIsScores(results, name);
    ScoresNamedEmptyIff(AllMetricData(results), name);
    if Column(results, name) != [] {
      var m :| m in AllMetricData(results) && m.name == name;
      AllMetricDataMembers(results, m);
      var i :| 0 <= i < |results| && m in MetricsOf(results[i]);
    }
    if exists i, m :: 0 <= i < |results| && m in MetricsOf(results[i]) && m.name == name {
      var i, m :| 0 <= i < |results| && m in MetricsOf(results[i]) && m.name == name;
      AllMetricDataMembers(results, m);
    }
  }

  /**
   * When every result carries exactly one datum of a metric, that metric's
   * column is aligned with the results: entry i is result i's score.
   */
  lemma {:induction false} AlignedMetricColumn(results: seq<TestResult>, name: string)
    requires name != InputColumn
    requires forall i :: 0 <= i < |results| ==> |ScoresNamed(MetricsOf(results[i]), name)| == 1
    ensures |Column(results, name)| == |results|
    ensures forall i :: 0 <= i < |results| ==> Column(results, name)[i] == ScoresNamed(MetricsOf(results[i]), name)[0]
  {
    if results != [] {
      var n := |results| - 1;
      var init := results[..n];
      AlignedPrefix(results, name);
      AlignedMetricColumn(init, name);
      MetricColumnSnoc(results, name);
      var row := ScoresNamed(MetricsOf(results[n]), name);
      SnocCells(Column(results, name), Column(init, name), row);
    }
  }

  /** Indexing into a column that grew by one cell. */
  lemma SnocCells(col: seq<Cell>, prev: seq<Cell>, row: seq<Cell>)
    requires col == prev + row && |row| == 1
    ensures |col| == |prev| + 1 && col[|prev|] == row[0]
    ensures forall i :: 0 <= i < |prev| ==> col[i] == prev[i]
  {
  }

  lemma AlignedPrefix(results: seq<TestResult>, name: string)
    requires results != []
    requires forall i :: 0 <= i < |results| ==> |ScoresNamed(MetricsOf(results[i]), name)| == 1
    ensures var init := results[..|results| - 1];
      forall i :: 0 <= i < |init| ==> init[i] == results[i] && |ScoresNamed(MetricsOf(init[i]), name)| == 1
  {
  }

  lemma MetricColumnSnoc(results: seq<TestResult>, name: string)
    requires results != [] && name != InputColumn
    ensures Column(results, name) ==
      Column(results[..|results| - 1], name) + ScoresNamed(MetricsOf(results[|results| - 1]), name)
  {
    var last := results[|results| - 1];
    assert RowCells(last, name) == ScoresNamed(MetricsOf(last), name);
  }

  class VisualMetricCollector {
    /** The metrics every evaluation runs. */
    const metrics: seq<Metric>
    /** The retriever whose hits become the retrieval context. */
    const retriever: QdrantRetriever
    /** The agent whose answers become the actual outputs. */
    const agent: RagAgent
    /** The evaluation library's evaluate call. */
    const evaluate: Evaluator
    /** The cases of the last successful `CollectTestCases`. */
    var testCases: seq<TestCase>
    /** The score dictionary of the last successful `CollectMetricResults`. */
    var metricScores: ScoreTable
    /** The external calls made so far. */
    ghost var trace: seq<ExternalCall>

    constructor (metrics: seq<Metric>, retriever: QdrantRetriever, agent: RagAgent, evaluate: Evaluator)
      ensures this.metrics == metrics && this.retriever == retriever
      ensures this.agent == agent && this.evaluate == evaluate
      ensures testCases == [] && metricScores == map[] && trace == []
    {
      this.metrics := metrics;
      this.retriever := retriever;
      this.agent := agent;
      this.evaluate := evaluate;
      testCases := [];
      metricScores := map[];
      trace := [];
    }

    /** `agent.invoke(question).output`: the agent searches with its own retriever, then runs the predictor. */
    function Invoke(question: string): string {
      agent.predict(question, agent.retriever.Search(question))
    }

    /** The case built for question `i`. */
    function CaseFor(questions: seq<string>, answers: Option<seq<string>>, i: nat): TestCase
      requires i < |questions|
      requires answers.Some? ==> |answers.value| == |questions|
    {
      var question := questions[i];
      LLMTestCase(question, Invoke(question), ExpectedOutput(questions, answers, question),
                  ContextTexts(retriever.Search(question)))
    }

    /** One iteration's work: search, then the agent, then the case for question `i`. */
    method BuildCase(questions: seq<string>, answers: Option<seq<string>>, i: nat) returns (testCase: TestCase)
      requires i < |questions|
      requires answers.Some? ==> |answers.value| == |questions|
      ensures testCase == CaseFor(questions, answers, i)
    {
      var question := questions[i];
      var retrievedDocs := retriever.SearchMedicalGuidelines(question);
      assert retrievedDocs == retriever.Search(question);
      var result := Invoke(question);
      var expectedOutput := ExpectedOutput(questions, answers, question);
      testCase := LLMTestCase(question, result, expectedOutput, ContextTexts(retrievedDocs));
    }

    /** The fields of the cases built for `questions`, one by one. */
    lemma CaseFields(questions: seq<string>, answers: Option<seq<string>>, cases: seq<TestCase>)
      requires answers.Some? ==> |answers.value| == |questions|
      requires |cases| == |questions|
      requires forall i :: 0 <= i < |questions| ==> cases[i] == CaseFor(questions, answers, i)
      ensures forall i :: 0 <= i < |questions| ==>
        cases[i].input == questions[i] &&
        cases[i].actualOutput == Invoke(questions[i]) &&
        cases[i].expectedOutput == ExpectedOutput(questions, answers, questions[i]) &&
        cases[i].retrievalContext == ContextTexts(retriever.Search(questions[i]))
    {
    }

    /**
     * Builds one case per question, in order, replacing the earlier cases.
     * A length mismatch raises before any external call and leaves the cases as they were.
     */
    method CollectTestCases(questions: seq<string>, answers: Option<seq<string>> := None) returns (r: Result<seq<TestCase>, Error>)
      modifies this`testCases, this`trace
      ensures r.Failure? <==> answers.Some? && |questions| != |answers.value|
      ensures r.Failure? ==>
        r.error == ValueError(LengthMismatchMessage) && testCases == old(testCases) && trace == old(trace)
      ensures r.Success? ==> r.value == testCases && |testCases| == |questions|
      ensures r.Success? ==> forall i :: 0 <= i < |questions| ==>
        testCases[i].input == questions[i] &&
        testCases[i].actualOutput == Invoke(questions[i]) &&
        testCases[i].expectedOutput == ExpectedOutput(questions, answers, questions[i]) &&
        testCases[i].retrievalContext == ContextTexts(retriever.Search(questions[i]))
      ensures r.Success? ==> trace == old(trace) + CallsFor(questions)
    {
      if answers.Some? && |questions| != |answers.value| {
        return Failure(ValueError(LengthMismatchMessage));
      }
      testCases := [];
      for i := 0 to |questions|
        invariant |testCases| == i
        invariant forall j :: 0 <= j < i ==> testCases[j] == CaseFor(questions, answers, j)
        invariant trace == old(trace) + CallsFor(questions[..i])
      {
        var testCase := BuildCase(questions, answers, i);
        trace := trace + [RetrieverSearch(questions[i]), AgentInvoke(questions[i])];
        testCases := testCases + [testCase];
        CallsForStep(questions, i);
      }
      assert questions[..|questions|] == questions;
      CaseFields(questions, answers, testCases);
      r := Success(testCases);
    }

    /**
     * Evaluates the collected cases and stores their score dictionary.
     * With no cases it raises before calling the evaluation library.
     */
    method CollectMetricResults() returns (r: Result<ScoreTable, Error>)
      modifies this`metricScores, this`trace
      ensures testCases == [] ==>
        r == Failure(ValueError(NotCollectedMessage)) && metricScores == old(metricScores) && trace == old(trace)
      ensures testCases != [] ==>
        r == Success(metricScores) &&
        TableOf(metricScores, evaluate(testCases, metrics)) &&
        trace == old(trace) + [Evaluation(testCases)]
    {
      if testCases == [] {
        return Failure(ValueError(NotCollectedMessage));
      }
      var evaluationResult := evaluate(testCases, metrics);
      trace := trace + [Evaluation(testCases)];
      var data := Pivot(evaluationResult);
      metricScores := data;
      r := Success(metricScores);
    }
  }
}
