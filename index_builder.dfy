/** The body of `load_data` (mental.py:15-21): the table read from the CSV
    file is renamed, its two columns are cleaned, empty contexts are filled
    with "", and the flashcard dictionary question -> context is built. */
module IndexBuilder {
  import opened Normalizer
  import opened Dicts

  /** A row as read from the CSV file, with its `Question` and `Answer` fields. */
  datatype RawRow = RawRow(question: Cell, answer: Cell)

  /** A row of the prepared table: the `question` column may still hold NaN,
      the `context` column holds text only once it has been filled. */
  datatype Record = Record(question: Cell, context: string)

  /** `fillna(value)` on one cell. */
  function FillNa(c: Cell, value: string): string {
    match c
    case Text(s) => s
    case Missing => value
  }

  /** The prepared row that `load_data` makes of one CSV row. */
  function Prepare(r: RawRow): Record {
    Record(CleanText(r.question), FillNa(CleanText(r.answer), ""))
  }

  function PrepareAll(raw: seq<RawRow>): seq<Record> {
    seq(|raw|, i requires 0 <= i < |raw| => Prepare(raw[i]))
  }

  function RawQuestions(raw: seq<RawRow>): seq<Cell> {
    seq(|raw|, i requires 0 <= i < |raw| => raw[i].question)
  }

  function RawAnswers(raw: seq<RawRow>): seq<Cell> {
    seq(|raw|, i requires 0 <= i < |raw| => raw[i].answer)
  }

  /** The `question` column of the prepared table. */
  function Questions(data: seq<Record>): seq<Cell> {
    seq(|data|, i requires 0 <= i < |data| => data[i].question)
  }

  /** The `context` column of the prepared table. */
  function Contexts(data: seq<Record>): seq<string> {
    seq(|data|, i requires 0 <= i < |data| => data[i].context)
  }

  /** `data.set_index('question')['context'].to_dict()`. */
  function QaDict(data: seq<Record>): Dict<Cell, string> {
    FromPairs(Questions(data), Contexts(data))
  }

  /** `column.apply(clean_text)`: a new column, cell by cell. */
  method CleanColumn(column: seq<Cell>) returns (cleaned: seq<Cell>)
    ensures |cleaned| == |column|
    ensures forall i :: 0 <= i < |column| ==> cleaned[i] == CleanText(column[i])
  {
    cleaned := [];
    for i := 0 to |column|
      invariant |cleaned| == i
      invariant forall k :: 0 <= k < i ==> cleaned[k] == CleanText(column[k])
    {
      cleaned := cleaned + [CleanText(column[i])];
    }
  }

  /** `column.fillna(value, inplace=True)`: every NaN replaced by `value`, text kept. */
  method FillNaColumn(column: seq<Cell>, value: string) returns (filled: seq<string>)
    ensures |filled| == |column|
    ensures forall i :: 0 <= i < |column| ==>
      (column[i].Missing? ==> filled[i] == value) && (column[i].Text? ==> filled[i] == column[i].s)
  {
    filled := [];
    for i := 0 to |column|
      invariant |filled| == i
      invariant forall k :: 0 <= k < i ==>
        (column[k].Missing? ==> filled[k] == value) && (column[k].Text? ==> filled[k] == column[k].s)
    {
      filled := filled + [FillNa(column[i], value)];
    }
  }

  /** `load_data` after the CSV file has been read into `raw`: returns the
      prepared table and the flashcard dictionary. */
  method LoadData(raw: seq<RawRow>) returns (data: seq<Record>, qaDict: Dict<Cell, string>)
    ensures data == PrepareAll(raw)
    ensures qaDict == QaDict(data)
  {
    // The `Question` column becomes the question, the `Answer` column the context.
    var question := RawQuestions(raw);
    var context := RawAnswers(raw);
    question := CleanColumn(question);
    context := CleanColumn(context);
    var filled := FillNaColumn(context, "");
    data := seq(|raw|, i requires 0 <= i < |raw| => Record(question[i], filled[i]));
    assert Questions(data) == question && Contexts(data) == filled;
    qaDict := BuildDict(question, filled);
  }

  // ---------------------------------------------------------------------------
  // Lemmas

  /** The dictionary's keys are exactly the cleaned questions of the rows. */
  lemma QaDictKeys(raw: seq<RawRow>, k: Cell)
    ensures k in QaDict(PrepareAll(raw)).entries <==>
      exists i :: 0 <= i < |raw| && CleanText(raw[i].question) == k
  {
    var qs := Questions(PrepareAll(raw));
    if k in qs {
      var i :| 0 <= i < |qs| && qs[i] == k;
      assert CleanText(raw[i].question) == k;
    }
    if i :| 0 <= i < |raw| && CleanText(raw[i].question) == k {
      assert qs[i] == k;
    }
  }

  /** A row whose cleaned question no later row repeats decides the value of
      its key: its cleaned context, or "" when the context was empty. */
  lemma QaDictLastRowWins(raw: seq<RawRow>, i: nat)
    requires i < |raw|
    requires forall j :: i < j < |raw| ==> CleanText(raw[j].question) != CleanText(raw[i].question)
    ensures var qa := QaDict(PrepareAll(raw));
      && CleanText(raw[i].question) in qa.entries
      && Text(qa.entries[CleanText(raw[i].question)]) ==
           if raw[i].answer.Missing? then Text("") else CleanText(raw[i].answer)
  {
    var data := PrepareAll(raw);
    var qs := Questions(data);
    var k := CleanText(raw[i].question);
    assert qs[i] == k;
    FromPairsLastWins(qs, Contexts(data), k);
    assert LastIndex(qs, k) == i;
  }

  /** The flashcard list `list(qa_dict.keys())` (mental.py:69) holds every
      cleaned question once, in the order of first appearance. */
  lemma QaDictKeyOrder(raw: seq<RawRow>)
    ensures var qa := QaDict(PrepareAll(raw));
      && Distinct(qa.keys)
      && (forall k :: k in qa.keys <==> k in Questions(PrepareAll(raw)))
      && forall a, b :: 0 <= a < b < |qa.keys| ==>
           FirstIndex(Questions(PrepareAll(raw)), qa.keys[a]) < FirstIndex(Questions(PrepareAll(raw)), qa.keys[b])
  {
    var data := PrepareAll(raw);
    FromPairsKeyOrder(Questions(data), Contexts(data));
  }
}
