/** The chatbot lookup (mental.py:53-58): the query is normalised with
    `clean_user_input` and looked up by exact match in `chatbot_dict`. */
module Lookup {
  import opened Wrappers
  import opened Normalizer
  import opened Dicts

  /** The reply for a query that is not a key. */
  function SorryMessage(query: string): string {
    "Sorry, I don't know the answer to '" + query + "'"
  }

  /** `chatbot(user_input, chatbot_dict)`: a one-element list holding the
      stored value for the normalised query (verbatim, `None` included), or
      the sorry message quoting the normalised query when it is no key. */
  function Chatbot(userInput: string, chatbotDict: Dict<Cell, Option<string>>): (r: seq<Option<string>>)
    ensures |r| == 1
    ensures Text(CleanUserInput(userInput)) in chatbotDict.entries ==>
      r[0] == chatbotDict.entries[Text(CleanUserInput(userInput))]
    ensures Text(CleanUserInput(userInput)) !in chatbotDict.entries ==>
      r[0] == Some(SorryMessage(CleanUserInput(userInput)))
  {
    var query := CleanUserInput(userInput);
    if Text(query) in chatbotDict.entries then [chatbotDict.entries[Text(query)]]
    else [Some(SorryMessage(query))]
  }

  // ---------------------------------------------------------------------------
  // Lemmas

  /** The reply depends on the query only through its normalised form. */
  lemma ChatbotSeesNormalisedQuery(a: string, b: string, chatbotDict: Dict<Cell, Option<string>>)
    requires CleanUserInput(a) == CleanUserInput(b)
    ensures Chatbot(a, chatbotDict) == Chatbot(b, chatbotDict)
  {
  }

  /** Queries that differ only in letter case get the same reply. */
  lemma ChatbotIgnoresCase(a: string, b: string, chatbotDict: Dict<Cell, Option<string>>)
    requires Lower(a) == Lower(b)
    ensures Chatbot(a, chatbotDict) == Chatbot(b, chatbotDict)
  {
    StripLower(a);
    StripLower(b);
    ChatbotSeesNormalisedQuery(a, b, chatbotDict);
  }

  /** Whitespace around a query does not change the reply. */
  lemma ChatbotIgnoresSurroundingSpace(w1: string, s: string, w2: string, chatbotDict: Dict<Cell, Option<string>>)
    requires AllSpace(w1) && AllSpace(w2)
    ensures Chatbot(w1 + s + w2, chatbotDict) == Chatbot(s, chatbotDict)
  {
    var padded := w1 + s + w2;
    StripPadded(w1, s, w2);
    assert CleanUserInput(padded) == CleanUserInput(s);
    ChatbotSeesNormalisedQuery(padded, s, chatbotDict);
  }

  /** Asking the same query twice, or an already normalised query, gives the
      same reply. */
  lemma ChatbotOnNormalisedQuery(userInput: string, chatbotDict: Dict<Cell, Option<string>>)
    ensures Chatbot(CleanUserInput(userInput), chatbotDict) == Chatbot(userInput, chatbotDict)
  {
    CleanUserInputIdempotent(userInput);
    ChatbotSeesNormalisedQuery(CleanUserInput(userInput), userInput, chatbotDict);
  }
}
