/** The script of mental.py as a whole: at start-up it loads the table
    (mental.py:26), predicts an answer for every row (mental.py:43) and builds
    `chatbot_dict` (mental.py:46); each query then goes through `chatbot`.
    The lemmas here follow a raw row or a raw query through all of it. */
module MentalBot {
  import opened Wrappers
  import opened Normalizer
  import opened Dicts
  import opened IndexBuilder
  import opened Resolver
  import opened Lookup

  /** The `chatbot_dict` the script ends up with for the CSV rows `raw`. */
  function BotDict(raw: seq<RawRow>, qa: QaPipeline): Dict<Cell, Option<string>> {
    ChatbotDict(PrepareAll(raw), Predictions(qa, PrepareAll(raw)))
  }

  /** The module-level start-up of mental.py: `data, qa_dict` from
      `load_data`, the `predicted_answer` column (with the calls made to the
      pipeline), and `chatbot_dict`. */
  method Setup(raw: seq<RawRow>, qa: QaPipeline)
    returns (data: seq<Record>, qaDict: Dict<Cell, string>,
             chatbotDict: Dict<Cell, Option<string>>, calls: seq<(Cell, string)>)
    ensures data == PrepareAll(raw)
    ensures qaDict == QaDict(data)
    ensures |calls| == |raw| && forall i :: 0 <= i < |raw| ==> calls[i] == (data[i].question, data[i].context)
    ensures chatbotDict == BotDict(raw, qa)
  {
    data, qaDict := LoadData(raw);
    var predicted;
    predicted, calls := PredictAnswers(qa, data);
    assert predicted == Predictions(qa, data);
    chatbotDict := BuildDict(Questions(data), predicted);
  }

  // ---------------------------------------------------------------------------
  // Lemmas

  /** Typing the raw question of any row (text) always hits `chatbot_dict`:
      the reply is the value stored under that row's cleaned question. */
  lemma AskRowQuestionHits(raw: seq<RawRow>, qa: QaPipeline, j: nat)
    requires j < |raw| && raw[j].question.Text?
    ensures var d := BotDict(raw, qa);
      && CleanText(raw[j].question) in d.entries
      && Chatbot(raw[j].question.s, d) == [d.entries[CleanText(raw[j].question)]]
  {
    var data := PrepareAll(raw);
    var key := CleanText(raw[j].question);
    assert Questions(data)[j] == key;
    assert key in BotDict(raw, qa).entries;
    CleanTextAgreesWithUserInput(raw[j].question.s);
  }

  /** For the last row with a given cleaned question, the reply to its raw
      question is that row's predicted answer: the pipeline's answer, or
      `None` if the pipeline raised on it. */
  lemma AskRowQuestionAnswer(raw: seq<RawRow>, qa: QaPipeline, j: nat)
    requires j < |raw| && raw[j].question.Text?
    requires forall i :: j < i < |raw| ==> CleanText(raw[i].question) != CleanText(raw[j].question)
    ensures Chatbot(raw[j].question.s, BotDict(raw, qa)) ==
      [GetAnswer(qa, CleanText(raw[j].question), FillNa(CleanText(raw[j].answer), ""))]
  {
    var data := PrepareAll(raw);
    CleanTextAgreesWithUserInput(raw[j].question.s);
    ChatbotDictLastRowWins(qa, data, j);
  }

  /** A query whose normalised form is no row's cleaned question gets the
      sorry message, which quotes the normalised query. */
  lemma AskUnknown(raw: seq<RawRow>, qa: QaPipeline, query: string)
    requires forall i :: 0 <= i < |raw| ==> CleanText(raw[i].question) != Text(CleanUserInput(query))
    ensures Chatbot(query, BotDict(raw, qa)) == [Some(SorryMessage(CleanUserInput(query)))]
  {
    assert Text(CleanUserInput(query)) !in Questions(PrepareAll(raw));
  }

  /** The pipeline that returns the context unchanged. */
  function Echo(question: Cell, context: string): Inference {
    Answered(context)
  }

  /** The pipeline that always raises. */
  function Failing(question: Cell, context: string): Inference {
    Raised
  }

  /** The one-row table "Hello" / "Hi there". */
  function HelloTable(): seq<RawRow> {
    [RawRow(Text("Hello"), Text("Hi there"))]
  }

  lemma CleanHello()
    ensures CleanText(Text("Hello")) == Text("hello")
  {
    assert Lower("Hello") == "hello" by { assert LowerChar('H') == 'h'; }
    assert TrimLeft("hello") == "hello" && TrimRight("hello") == "hello";
  }

  lemma CleanHiThere()
    ensures CleanText(Text("Hi there")) == Text("hi there")
  {
    assert Lower("Hi there") == "hi there" by { assert LowerChar('H') == 'h'; }
    assert TrimLeft("hi there") == "hi there" && TrimRight("hi there") == "hi there";
  }

  lemma CleanPaddedHello()
    ensures CleanUserInput(" HELLO ") == "hello"
  {
    assert TrimLeft(" HELLO ") == "HELLO " by { assert " HELLO "[1..] == "HELLO "; }
    assert TrimRight("HELLO ") == "HELLO" by { assert "HELLO "[..5] == "HELLO"; }
    assert Lower("HELLO") == "hello";
  }

  lemma CleanBye()
    ensures CleanUserInput("bye") == "bye"
  {
    assert Normal("bye");
    NormalIsFixed("bye");
  }

  /** With the echoing pipeline, "hello" is answered with the cleaned context. */
  lemma HelloAnswered()
    ensures Chatbot("hello", BotDict(HelloTable(), Echo)) == [Some("hi there")]
  {
    var d := BotDict(HelloTable(), Echo);
    CleanHello();
    CleanHiThere();
    CleanTextAgreesWithUserInput("Hello");
    AskRowQuestionAnswer(HelloTable(), Echo, 0);
    assert Chatbot("Hello", d) == [Some("hi there")];
    CleanUserInputIdempotent("Hello");
    ChatbotSeesNormalisedQuery("hello", "Hello", d);
  }

  /** "bye" is no key: the reply is the sorry message quoting it. */
  lemma ByeUnknown()
    ensures Chatbot("bye", BotDict(HelloTable(), Echo)) == [Some("Sorry, I don't know the answer to 'bye'")]
  {
    CleanHello();
    CleanBye();
    AskUnknown(HelloTable(), Echo, "bye");
    assert SorryMessage("bye") == "Sorry, I don't know the answer to 'bye'";
  }

  /** With a pipeline that raises, " HELLO " is answered with `None`, not
      with the context. */
  lemma HelloFailed()
    ensures Chatbot(" HELLO ", BotDict(HelloTable(), Failing)) == [None]
  {
    CleanHello();
    CleanPaddedHello();
    CleanTextAgreesWithUserInput("Hello");
    AskRowQuestionAnswer(HelloTable(), Failing, 0);
    ChatbotSeesNormalisedQuery(" HELLO ", "Hello", BotDict(HelloTable(), Failing));
  }
}
