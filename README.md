# Retrieval-augmented QA evaluation harness — Dafny model

This project models the two stateful pieces of a retrieval-augmented question-answering
system for cardiology guidelines, and proves properties of them:

- **The passage retriever** (`QdrantRetrieval`, after `qdrant_retriever.py`). A
  `QdrantRetriever` is built with a collection name, a vector-store client and a
  result count `k` (default 3). A search embeds the query once
  (model `text-embedding-3-small`). It then asks the store for `k` points of that
  collection, with their payloads, and reshapes each hit into a record. `title` becomes
  `document`; `section`, `doc_url` and `text` keep their names. A missing key gives `None`;
  no hit is dropped and the order is kept.
- **The evaluation collector** (`MetricCollection`, after `metric_collector.py`). A
  `VisualMetricCollector` builds one test case per question, in order. Each case holds the
  question, the agent's answer, the expected answer and the text of each search hit. It
  then hands the cases to the metric library. Finally it pivots the per-case results into
  a dictionary of columns: an `Input` column with one entry per result, and one column per
  metric name holding that metric's scores in result order.

External services are function-typed fields supplied at construction: the embedding
provider, the vector store, the agent's language-model predictor and the metric library's
`evaluate`. The agent is its own retriever paired with that predictor. Embeddings, metrics and scores are opaque types. The collector keeps a ghost
`trace` of the external calls it makes, so the contracts can say when a call happens and
in what order.

## Model

| member | source | states |
|---|---|---|
| `QdrantRetrieval.FormatHit` | qdrant_retriever.py:54-59 | each record field is present exactly when its payload key is (`title` for `document`, `section`, `doc_url`, `text`), and then equals the payload value; a missing key gives `None` |
| `QdrantRetrieval.QdrantRetriever.constructor` | qdrant_retriever.py:10-20 | the retriever keeps the given collection name, client and `k`, with `k` defaulting to 3; the fields are constants, so no search can change them |
| `QdrantRetrieval.QdrantRetriever.GetOpenAIEmbedding` | qdrant_retriever.py:22-33 | the embedding is the provider's vector for the query under the given model, by default `text-embedding-3-small` |
| `QdrantRetrieval.QdrantRetriever.SearchMedicalGuidelines` | qdrant_retriever.py:35-61 | the store is queried with the retriever's collection, the query's default-model embedding, `limit == k` and payloads on; the result has exactly one record per hit, in hit order, each the hit's projected payload |
| `MetricCollection.FirstIndex` | metric_collector.py:33 | `questions.index(q)`: a position holding `q` with no earlier position holding it |
| `MetricCollection.ExpectedOutputOfDistinctQuestions` | metric_collector.py:33 | with duplicate-free questions and matching answers, question i's expected output is answer i |
| `MetricCollection.ExpectedOutputOfRepeatedQuestion` | metric_collector.py:33 | a question that first occurs at position j gets answer j at every later occurrence too |
| `MetricCollection.ExpectedOutput` | metric_collector.py:33 | `None` exactly when answers are absent or empty (`if answers`); otherwise the answer at the first position holding the question |
| `MetricCollection.ContextTexts` | metric_collector.py:29 | one text per retrieved record, in order: the record's text, or `"None"` when it has none (`str(None)`) |
| `MetricCollection.MetricsOf` | metric_collector.py:58 | `metrics_data or []`: the result's metric data, or the empty sequence when it is `None` |
| `MetricCollection.Append` | metric_collector.py:56-59 | the defaultdict append: the key becomes present, its column gains the cell at the end (starting from empty when new), and every other column is unchanged |
| `MetricCollection.CallsForOrder` | metric_collector.py:28-30 | a successful pass makes 2n calls to the retriever and the agent: for question i, a retriever search (call 2i) and then an agent call (call 2i+1) |
| `MetricCollection.Pivot` | metric_collector.py:54-59 | the dictionary has a key exactly when that column has an entry, and each key holds `Column(results, key)`: the row's input (for `Input`) and then the row's scores of that name, row by row |
| `MetricCollection.ColumnConcat` | metric_collector.py:55-59 | the columns built from `a + b` are those of `a` followed by those of `b` |
| `MetricCollection.InputColumnHoldsInputs` | metric_collector.py:55-56 | when no metric is named `Input`, the `Input` column has one entry per result, entry i being result i's input |
| `MetricCollection.MetricColumnIsScores` | metric_collector.py:58-59 | every other column is the subsequence of metric data carrying its name, taken across all results in order, as scores |
| `MetricCollection.EmptyResultAddsNothing` | metric_collector.py:58 | a result whose `metrics_data` is `None` or empty adds nothing to any metric column |
| `MetricCollection.MetricColumnPresentIff` | metric_collector.py:54-59 | a name other than `Input` is a key of the dictionary (its column is non-empty) exactly when some result has a metric datum of that name; together with `InputColumnHoldsInputs`, `Input` is a key exactly when there is a result |
| `MetricCollection.AlignedMetricColumn` | metric_collector.py:55-59 | when every result has exactly one datum of a metric, that column has one entry per result, entry i being result i's score |
| `MetricCollection.VisualMetricCollector.constructor` | metric_collector.py:12-20 | the collector keeps its metrics, retriever and agent (with the agent's own retriever); it starts with no test cases, an empty score dictionary and no external calls |
| `MetricCollection.VisualMetricCollector.CollectTestCases` | metric_collector.py:22-44 | fails with the length-mismatch `ValueError` exactly when answers are given with a different length, and then changes no state and makes no external call. Otherwise the cases are replaced by exactly one per question, in order. Case i holds question i, the agent's output for it, the first-occurrence answer (`None` when answers are absent or empty) and `str` of each hit's text, for the same hits in the same order. The calls made are `CallsFor(questions)` |
| `MetricCollection.VisualMetricCollector.CollectMetricResults` | metric_collector.py:46-63 | with no test cases, fails with the not-collected `ValueError` before evaluating and changes nothing. Otherwise it evaluates the cases once and stores and returns the dictionary pivoted from the evaluation results |

## Left out

- `cardiology_agent.py` is not part of this model beyond its call shape. The agent is its own retriever plus a predictor. The predictor is applied to the question and to that retriever's search result (cardiology_agent.py:39-48). Nothing ties the agent's retriever to the collector's, so the agent's passages and the recorded retrieval context may differ. The prompt rules (word limit, source list, fallback sentence) are instructions to a language model that no code checks.
- Network calls: the embedding provider, the Qdrant client and the metric library are function-typed fields. Functions are deterministic, so the model cannot express two searches for the same query returning different hits. In particular, when the agent's retriever is the collector's, the two searches return the same hits here. For the same reason, "the embedding is computed once" is not observable; the method body makes one call.
- Exceptions raised by the external services are not modelled. The source does not catch them, so they would propagate out of the calling method.
- `aggregate_metric_pass_rates` is left out: its return value is discarded and it changes no collector state.
- `visualize` (plotting) and `tqdm` (progress display) are left out.
- The pandas `DataFrame` conversion is left out. `metricScores` is the dictionary of columns, not a frame. The frame constructor's own check that all columns have equal length, and the error it raises when they do not, are not modelled.
- Payload values are modelled as text. `str` of a non-text payload value is not modelled; `str(None)` is `"None"`.
- A search hit's id, vector and similarity score are not modelled; the retriever reads only the payload.
- Scores are opaque, so floating-point values, including `None` scores, are not interpreted.
- The `qdrant_url` constructor argument is not modelled; the client is passed in already connected.
- A metric named `Input` shares its column with the case inputs, as the source does. The lemmas on the `Input` column therefore assume that no metric has that name.
- Hits are never filtered (qdrant_retriever.py:53-60). The modelled methods raise only the `ValueError`s at metric_collector.py:24 and :48, besides the frame constructor's error noted above.
- `metricScores` is a map, so it does not keep the insertion order of `data`: `Input` first, then the metrics in first-seen order. That order fixes the column order of the frame built at metric_collector.py:62.
- Aliasing of returned state is not modelled. `collect_test_cases` returns the list `self.test_cases` itself (metric_collector.py:44), and `collect_metric_results` returns the frame `self.metric_scores` itself (:63). A caller that mutates either result therefore mutates the collector. The model returns values, so later changes by a caller cannot reach `testCases` or `metricScores`.
- Partial state after an exception is not modelled. `collect_test_cases` empties `self.test_cases` before its loop (metric_collector.py:26) and appends one case per iteration (:42). An exception from the retriever or the agent partway through would leave the list holding only the cases built so far. In the model the external services always return, so `CollectTestCases` always ends with one case per question.
