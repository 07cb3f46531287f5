/** The batch answer resolver (mental.py:34-46): `get_answer` runs the
    question-answering pipeline on one (question, context) pair and turns an
    exception into `None`; the script applies it to every row and builds
    `chatbot_dict` question -> predicted answer. */
module Resolver {
  import opened Wrappers
  import opened Normalizer
  import opened Dicts
  import opened IndexBuilder

  /** What one call of the question-answering pipeline does: return an
      answer, or raise. */
  datatype Inference = Answered(answer: string) | Raised

  /** The transformer pipeline of mental.py:31, as an opaque function of the
      question cell and the context it is given. */
  type QaPipeline = (Cell, string) -> Inference

  /** `get_answer` (mental.py:34-40): the pipeline's answer, or `None` if it raised. */
  function GetAnswer(qa: QaPipeline, question: Cell, context: string): (r: Option<string>)
    ensures r.None? <==> qa(question, context).Raised?
    ensures r.Some? ==> r.value == qa(question, context).answer
  {
    match qa(question, context)
    case Answered(a) => Some(a)
    case Raised => None
  }

  /** The `predicted_answer` column: `get_answer` of each row. */
  function Predictions(qa: QaPipeline, data: seq<Record>): seq<Option<string>> {
    seq(|data|, i requires 0 <= i < |data| => GetAnswer(qa, data[i].question, data[i].context))
  }

  /** `data.set_index('question')['predicted_answer'].to_dict()`. */
  function ChatbotDict(data: seq<Record>, predicted: seq<Option<string>>): Dict<Cell, Option<string>>
    requires |predicted| == |data|
  {
    FromPairs(Questions(data), predicted)
  }

  /** The `predicted_answer` column (mental.py:43): a row-wise pass over the
      table that calls `get_answer` on each row's question and context, in row
      order. A row whose call raised gets `None` while every other row still
      gets its own result. `calls` is a record kept by this loop of the
      arguments it passes, in order; the pipeline is a pure function here,
      so that record is not observed through `qa` itself, and the guarantee
      about the results is the `predicted` ensures. */
  method PredictAnswers(qa: QaPipeline, data: seq<Record>)
    returns (predicted: seq<Option<string>>, calls: seq<(Cell, string)>)
    ensures |predicted| == |data| && |calls| == |data|
    ensures forall i :: 0 <= i < |data| ==> calls[i] == (data[i].question, data[i].context)
    ensures forall i :: 0 <= i < |data| ==> predicted[i] == GetAnswer(qa, calls[i].0, calls[i].1)
  {
    predicted, calls := [], [];
    for i := 0 to |data|
      invariant |predicted| == i && |calls| == i
      invariant forall k :: 0 <= k < i ==> calls[k] == (data[k].question, data[k].context)
      invariant forall k :: 0 <= k < i ==> predicted[k] == GetAnswer(qa, calls[k].0, calls[k].1)
    {
      var row := data[i];
      calls := calls + [(row.question, row.context)];
      predicted := predicted + [GetAnswer(qa, row.question, row.context)];
    }
  }

  // ---------------------------------------------------------------------------
  // Lemmas

  /** Failure isolation: a pipeline that raises on one (question, context)
      pair and otherwise behaves like `qa` leaves every other row's prediction
      as `qa` gives it, and marks that pair's rows with `None`. */
  lemma FailureIsolation(qa: QaPipeline, faulty: QaPipeline, data: seq<Record>, bad: (Cell, string))
    requires faulty(bad.0, bad.1).Raised?
    requires forall q, c :: (q, c) != bad ==> faulty(q, c) == qa(q, c)
    ensures |Predictions(faulty, data)| == |data|
    ensures forall i :: 0 <= i < |data| ==>
      if (data[i].question, data[i].context) == bad then Predictions(faulty, data)[i] == None
      else Predictions(faulty, data)[i] == Predictions(qa, data)[i]
  {
  }

  /** `chatbot_dict` has the same keys, in the same order, as `qa_dict`. */
  lemma {:induction false} ChatbotDictKeys(data: seq<Record>, predicted: seq<Option<string>>)
    requires |predicted| == |data|
    ensures ChatbotDict(data, predicted).keys == QaDict(data).keys
    ensures forall k :: k in ChatbotDict(data, predicted).entries <==> k in QaDict(data).entries
  {
    FromPairsKeysIgnoreValues(Questions(data), predicted, Contexts(data));
  }

  /** Each key of `chatbot_dict` holds the prediction of the last row with that key. */
  lemma ChatbotDictLastRowWins(qa: QaPipeline, data: seq<Record>, i: nat)
    requires i < |data|
    requires forall j :: i < j < |data| ==> data[j].question != data[i].question
    ensures var d := ChatbotDict(data, Predictions(qa, data));
      && data[i].question in d.entries
      && d.entries[data[i].question] == GetAnswer(qa, data[i].question, data[i].context)
  {
    var qs := Questions(data);
    assert qs[i] == data[i].question;
    FromPairsLastWins(qs, Predictions(qa, data), data[i].question);
    assert LastIndex(qs, data[i].question) == i;
  }
}
