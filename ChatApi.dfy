/**
  The chat endpoint (pages/api/chat.ts): it rewrites the newest message with injected context,
  keeps the newest messages that fit the model's token budget, opens the upstream completion
  stream and maps every failure to a status-500 response.
 */
module ChatApi {
  import opened Wrappers
  import opened Types
  import opened Text

  /** Tokens held back for the model's own completion. */
  const CompletionReserve := 768

  /** The fixed system prompt sent upstream; the request's `prompt` field is ignored. */
  const SystemPrompt := "You are a helpful assistant. You work for Nosana, a decentralized computing network, and your job is to informatively answer questions about Nosana. You will get questions accompanied with pages of context. Only use the context you are given when it is informative to answer the question. If you don't know the answer, be honest about it."

  /** The two phrases that mark a price question once the text is lower-cased. */
  const PriceTrigger := "nosana price"
  const PriceTriggerReversed := "price of nosana"

  const PriceSeparator := "\n\nContext: "
  const SearchSeparator := "\n\nContext:\n"

  /** A model's tokenizer, reduced to the number of tokens it encodes a text into. */
  type Tokenizer = string -> nat

  datatype Model = Model(id: string, tokenLimit: int)

  /** The parsed request body; absent optional fields are `None`. */
  datatype ChatBody = ChatBody(
    url: string,
    model: Model,
    messages: seq<Message>,
    key: string,
    prompt: string,
    temperature: Option<real>,
    searchResults: Option<seq<string>>)

  /** What the handler's `try` block can throw. */
  datatype Failure =
    | OpenAIError(message: string)  // raised by the upstream client
    | TypeError                     // reading a field of `undefined`
    | OtherError(message: string)   // anything else the upstream client throws

  /** The arguments the handler passes to the upstream streaming client. */
  datatype UpstreamRequest = UpstreamRequest(
    url: string,
    model: Model,
    systemPrompt: string,
    temperature: real,
    key: string,
    messages: seq<Message>)

  datatype Response =
    | StreamResponse(body: seq<string>)
    | ErrorResponse(status: int, statusText: Option<string>, text: string)

  // ---------------------------------------------------------------- context injection

  /** A price question: the lower-cased text contains one of the two trigger phrases. */
  function IsPriceQuery(userMessage: string): (r: bool)
    ensures r <==> Occurs(Lower(userMessage), PriceTrigger) || Occurs(Lower(userMessage), PriceTriggerReversed)
  {
    Contains(Lower(userMessage), PriceTrigger) || Contains(Lower(userMessage), PriceTriggerReversed)
  }

  /** The two fixed pieces of the price directive, before and after the price. */
  const PricePreamble := "The current price of Nosana is $"
  const PriceInstruction := ". Respond with just the price, prefaced by \"The price of Nosana is: X$\"."

  /**
    The directive embedding the price, given the price already rendered to four decimals: the
    price stands right after the dollar sign, and the directive asks for a literal `X`.
   */
  function PriceContext(renderedPrice: string): (r: string)
    ensures |r| == |PricePreamble| + |renderedPrice| + |PriceInstruction|
    ensures r[..|PricePreamble|] == PricePreamble
    ensures r[|PricePreamble|..|PricePreamble| + |renderedPrice|] == renderedPrice
    ensures r[|PricePreamble| + |renderedPrice|..] == PriceInstruction
  {
    PricePreamble + renderedPrice + PriceInstruction
  }

  /** Reads the price back out of a directive, if the text has the directive's shape. */
  function ReadPrice(directive: string): Option<string> {
    if |directive| >= |PricePreamble| + |PriceInstruction|
      && directive[..|PricePreamble|] == PricePreamble
      && directive[|directive| - |PriceInstruction|..] == PriceInstruction
    then Some(directive[|PricePreamble|..|directive| - |PriceInstruction|])
    else None
  }

  /** The directive carries the price unaltered, so different prices give different directives. */
  lemma PriceContextRoundTrip(renderedPrice: string)
    ensures ReadPrice(PriceContext(renderedPrice)) == Some(renderedPrice)
  {
  }

  /**
    How a template literal renders the client's `searchResults`: "undefined" when absent, and
    otherwise the documents with a comma between each two, every document appearing in full.
   */
  function SearchResultsText(searchResults: Option<seq<string>>): (r: string)
    ensures searchResults.None? ==> r == "undefined"
    ensures searchResults == Some([]) ==> r == ""
    ensures searchResults.Some? && |searchResults.value| == 1 ==> r == searchResults.value[0]
    ensures searchResults.Some? && searchResults.value != [] ==>
      |r| == TotalLength(searchResults.value) + |searchResults.value| - 1
    ensures searchResults.Some? ==> forall k :: 0 <= k < |searchResults.value| ==> Occurs(r, searchResults.value[k])
  {
    match searchResults
    case None => "undefined"
    case Some(docs) => Join(docs, ",")
  }

  /**
    Rendering a concatenation of search results puts one comma between the two renderings, so
    the documents appear in their order with a comma between each two neighbours.
   */
  lemma SearchResultsAppend(docs: seq<string>, more: seq<string>)
    requires docs != [] && more != []
    ensures SearchResultsText(Some(docs + more)) == SearchResultsText(Some(docs)) + "," + SearchResultsText(Some(more))
  {
    JoinAppend(docs, more, ",");
  }

  /**
    The newest message's content after context injection. `price` is the rendered price when
    the lookup gave a truthy number and `None` when it gave a falsy result. The lookup is made
    only for a price question.
   */
  function ContextualContent(userMessage: string, price: Option<string>, searchText: string): (r: string)
    ensures |userMessage| <= |r| && r[..|userMessage|] == userMessage
    ensures r == userMessage <==> IsPriceQuery(userMessage) && price.None?
    ensures IsPriceQuery(userMessage) && price.Some? ==> r[|userMessage|..] == PriceSeparator + PriceContext(price.value)
    ensures !IsPriceQuery(userMessage) ==> r[|userMessage|..] == SearchSeparator + searchText
  {
    if IsPriceQuery(userMessage) then
      match price
      case Some(p) =>
        var context := PriceSeparator + PriceContext(p);
        assert |context| > 0;
        userMessage + context
      case None => userMessage
    else
      var context := SearchSeparator + searchText;
      assert |context| > 0;
      userMessage + context
  }

  /** The message list after context injection: only the newest message's content changes. */
  function WithContext(messages: seq<Message>, price: Option<string>, searchText: string): (r: seq<Message>)
    requires messages != []
    ensures |r| == |messages|
    ensures r[..|r| - 1] == messages[..|messages| - 1]
    ensures r[|r| - 1].role == messages[|messages| - 1].role
    ensures r[|r| - 1].content == ContextualContent(messages[|messages| - 1].content, price, searchText)
  {
    var last := |messages| - 1;
    messages[last := messages[last].(content := ContextualContent(messages[last].content, price, searchText))]
  }

  /** Which context an injected content carries, read back from the content alone. */
  datatype ContextKind = NoContext | PriceKind | SearchKind

  function ReadContextKind(original: string, sent: string): ContextKind {
    if sent == original then NoContext
    else if |sent| >= |original| + |PriceSeparator|
      && sent[|original|..|original| + |PriceSeparator|] == PriceSeparator then PriceKind
    else SearchKind
  }

  /**
    Exactly one branch runs, and it can be read back from the result: the original text is
    always kept as a prefix; a price question never receives the search results (it gets the
    price directive, or nothing when the lookup was falsy); any other question always receives
    the search text.
   */
  lemma ContextBranchIsExclusive(userMessage: string, price: Option<string>, searchText: string)
    ensures var sent := ContextualContent(userMessage, price, searchText);
      && |userMessage| <= |sent| && sent[..|userMessage|] == userMessage
      && ReadContextKind(userMessage, sent)
         == if !IsPriceQuery(userMessage) then SearchKind
            else if price.Some? then PriceKind
            else NoContext
  {
    var sent := ContextualContent(userMessage, price, searchText);
    var n := |userMessage|;
    if IsPriceQuery(userMessage) && price.Some? {
      assert sent[n..][..|PriceSeparator|] == PriceSeparator;
    } else if !IsPriceQuery(userMessage) {
      assert sent[n..][..|SearchSeparator|] == SearchSeparator;
      assert sent[n..n + |PriceSeparator|] == SearchSeparator;
      assert SearchSeparator[10] != PriceSeparator[10];
    }
  }

  /** A price question ignores the search results entirely. */
  lemma PriceQueryIgnoresSearchResults(userMessage: string, price: Option<string>, searchText: string, otherText: string)
    requires IsPriceQuery(userMessage)
    ensures ContextualContent(userMessage, price, searchText) == ContextualContent(userMessage, price, otherText)
  {
  }

  /** Any other question ignores the price lookup entirely. */
  lemma SearchQueryIgnoresPrice(userMessage: string, price: Option<string>, otherPrice: Option<string>, searchText: string)
    requires !IsPriceQuery(userMessage)
    ensures ContextualContent(userMessage, price, searchText) == ContextualContent(userMessage, otherPrice, searchText)
  {
  }

  /** A trigger phrase in any letter case, anywhere in the text, makes it a price question. */
  lemma TriggerAnywhereIsPriceQuery(before: string, phrase: string, after: string)
    requires Lower(phrase) == PriceTrigger || Lower(phrase) == PriceTriggerReversed
    ensures IsPriceQuery(before + phrase + after)
  {
    var text := before + phrase + after;
    LowerAppend(before + phrase, after);
    LowerAppend(before, phrase);
    var lowered := Lower(before) + Lower(phrase) + Lower(after);
    assert Lower(text) == lowered;
    var i := |before|;
    assert lowered[i..i + |Lower(phrase)|] == Lower(phrase);
    assert OccursAt(lowered, Lower(phrase), i);
  }

  /**
    What the price lookup returned: a falsy value (`null` on a failed fetch, `0`, `NaN`), a
    truthy number given by its four-decimal rendering, or any other truthy value, on which
    `toFixed` is not a function.
   */
  datatype PriceLookup = Falsy | Number(rendered: string) | NotANumber

  /** The rendered price the directive uses, when there is one. */
  function RenderedPrice(price: PriceLookup): (r: Option<string>)
    ensures r.Some? <==> price.Number?
    ensures price.Number? ==> r.value == price.rendered
  {
    match price
    case Number(rendered) => Some(rendered)
    case _ => None
  }

  /**
    The rewrite of the newest message on a copy of the list: a price question with a truthy
    number gets the price directive, a price question with a falsy price is left as it is, a
    price question with a truthy non-number throws a `TypeError`, and any other question gets
    the search results.
   */
  method InjectContext(messages: seq<Message>, price: PriceLookup, searchResults: Option<seq<string>>)
    returns (outcome: Result<seq<Message>, Failure>)
    requires messages != []
    ensures IsPriceQuery(messages[|messages| - 1].content) && price.NotANumber? ==> outcome == Failure(TypeError)
    ensures !(IsPriceQuery(messages[|messages| - 1].content) && price.NotANumber?) ==>
      outcome == Success(WithContext(messages, RenderedPrice(price), SearchResultsText(searchResults)))
  {
    var messagesToSend := messages;
    var last := |messagesToSend| - 1;
    var lastMessage := messages[last];
    var userMessage := lastMessage.content;
    if IsPriceQuery(userMessage) {
      match price
      case Number(rendered) =>
        var priceContext := PriceContext(rendered);
        messagesToSend := messagesToSend[last := lastMessage.(content := lastMessage.content + PriceSeparator + priceContext)];
        assert lastMessage.content + PriceSeparator + priceContext == ContextualContent(userMessage, Some(rendered), SearchResultsText(searchResults));
      case NotANumber =>
        // `price.toFixed` is undefined, so calling it throws
        return Failure(TypeError);
      case Falsy =>
        assert messagesToSend == messages[last := lastMessage];
    } else {
      var searchText := SearchResultsText(searchResults);
      messagesToSend := messagesToSend[last := lastMessage.(content := userMessage + SearchSeparator + searchText)];
      assert userMessage + SearchSeparator + searchText == ContextualContent(userMessage, None, searchText);
    }
    outcome := Success(messagesToSend);
  }

  // ---------------------------------------------------------------- token budget

  /** Total tokens of the messages' contents. */
  function Tokens(messages: seq<Message>, count: Tokenizer): nat {
    if messages == [] then 0 else count(messages[0].content) + Tokens(messages[1..], count)
  }

  /** The system prompt, these messages and the completion reserve fit the model's limit. */
  predicate Fits(messages: seq<Message>, count: Tokenizer, promptTokens: nat, tokenLimit: int) {
    promptTokens + Tokens(messages, count) + CompletionReserve <= tokenLimit
  }

  /**
    `kept` is what the backward walk keeps: a contiguous suffix of `messages` in chronological
    order, within budget when it is not empty, and the next-older message would not fit.
   */
  predicate IsGreedySuffix(messages: seq<Message>, kept: seq<Message>, count: Tokenizer, promptTokens: nat, tokenLimit: int) {
    && |kept| <= |messages|
    && kept == messages[|messages| - |kept|..]
    && (kept != [] ==> Fits(kept, count, promptTokens, tokenLimit))
    && (|kept| < |messages| ==> !Fits(messages[|messages| - |kept| - 1..], count, promptTokens, tokenLimit))
  }

  /**
    The selection loop: walk from the newest message to the oldest, committing each message
    whose tokens still fit, and stop at the first one that does not.
   */
  method SelectMessages(messages: seq<Message>, count: Tokenizer, promptTokens: nat, tokenLimit: int)
    returns (filteredMessages: seq<Message>)
    ensures IsGreedySuffix(messages, filteredMessages, count, promptTokens, tokenLimit)
  {
    var tokenCount := promptTokens;
    filteredMessages := [];
    var i := |messages| - 1;
    while i >= 0
      invariant -1 <= i < |messages|
      invariant filteredMessages == messages[i + 1..]
      invariant tokenCount == promptTokens + Tokens(filteredMessages, count)
      invariant filteredMessages != [] ==> tokenCount + CompletionReserve <= tokenLimit
    {
      var message := messages[i];
      var tokens := count(message.content);
      assert messages[i..][1..] == messages[i + 1..];
      if tokenCount + tokens + CompletionReserve > tokenLimit {
        break;
      }
      tokenCount := tokenCount + tokens;
      filteredMessages := [message] + filteredMessages;
      i := i - 1;
    }
  }

  /** Committing more messages never lowers the running total: tokens grow with the suffix. */
  lemma {:induction false} TokensSuffixMonotone(messages: seq<Message>, count: Tokenizer, i: int, j: int)
    requires 0 <= i <= j <= |messages|
    ensures Tokens(messages[j..], count) <= Tokens(messages[i..], count)
    decreases j - i
  {
    if i < j {
      assert messages[i..][1..] == messages[i + 1..];
      TokensSuffixMonotone(messages, count, i + 1, j);
    }
  }

  /** The kept suffix is the longest that fits: a non-empty suffix fits exactly when it is no longer. */
  lemma GreedySuffixIsLongestFit(messages: seq<Message>, kept: seq<Message>, count: Tokenizer, promptTokens: nat, tokenLimit: int)
    requires IsGreedySuffix(messages, kept, count, promptTokens, tokenLimit)
    ensures forall j :: 0 <= j < |messages| ==>
      (Fits(messages[j..], count, promptTokens, tokenLimit) <==> j >= |messages| - |kept|)
  {
    var k := |messages| - |kept|;
    forall j | 0 <= j < |messages|
      ensures Fits(messages[j..], count, promptTokens, tokenLimit) <==> j >= k
    {
      if j >= k {
        TokensSuffixMonotone(messages, count, k, j);
      } else {
        TokensSuffixMonotone(messages, count, j, k - 1);
      }
    }
  }

  /** The walk's outcome is determined by its inputs. */
  lemma GreedySuffixUnique(messages: seq<Message>, kept: seq<Message>, other: seq<Message>, count: Tokenizer, promptTokens: nat, tokenLimit: int)
    requires IsGreedySuffix(messages, kept, count, promptTokens, tokenLimit)
    requires IsGreedySuffix(messages, other, count, promptTokens, tokenLimit)
    ensures kept == other
  {
    GreedySuffixIsLongestFit(messages, kept, count, promptTokens, tokenLimit);
    GreedySuffixIsLongestFit(messages, other, count, promptTokens, tokenLimit);
  }

  /** When the whole conversation fits, every message is kept unchanged and in order. */
  lemma AllFitKeepsEverything(messages: seq<Message>, kept: seq<Message>, count: Tokenizer, promptTokens: nat, tokenLimit: int)
    requires IsGreedySuffix(messages, kept, count, promptTokens, tokenLimit)
    requires Fits(messages, count, promptTokens, tokenLimit)
    ensures kept == messages
  {
    if messages != [] {
      GreedySuffixIsLongestFit(messages, kept, count, promptTokens, tokenLimit);
      assert messages[0..] == messages;
    }
  }

  /**
    Nothing is kept exactly when there is nothing to keep or the newest message alone does not
    fit; in particular when the system prompt and the reserve already exceed the limit.
   */
  lemma EmptySelection(messages: seq<Message>, kept: seq<Message>, count: Tokenizer, promptTokens: nat, tokenLimit: int)
    requires IsGreedySuffix(messages, kept, count, promptTokens, tokenLimit)
    ensures kept == [] <==> (messages == [] || !Fits(messages[|messages| - 1..], count, promptTokens, tokenLimit))
    ensures promptTokens + CompletionReserve > tokenLimit ==> kept == []
  {
    if kept != [] {
      GreedySuffixIsLongestFit(messages, kept, count, promptTokens, tokenLimit);
    }
  }

  /** With every message costing `cost` tokens, the walk keeps the largest whole number that fits. */
  lemma UniformCostKeepsQuota(messages: seq<Message>, kept: seq<Message>, count: Tokenizer, cost: nat, promptTokens: nat, tokenLimit: int)
    requires cost > 0
    requires forall i :: 0 <= i < |messages| ==> count(messages[i].content) == cost
    requires IsGreedySuffix(messages, kept, count, promptTokens, tokenLimit)
    ensures promptTokens + CompletionReserve > tokenLimit ==> kept == []
    ensures promptTokens + CompletionReserve <= tokenLimit ==>
      |kept| == Min(|messages|, (tokenLimit - promptTokens - CompletionReserve) / cost)
  {
    EmptySelection(messages, kept, count, promptTokens, tokenLimit);
    if promptTokens + CompletionReserve <= tokenLimit {
      var budget := tokenLimit - promptTokens - CompletionReserve;
      var quota := budget / cost;
      var n := |messages|;
      var k := |kept|;
      TokensUniform(messages[n - k..], count, cost);
      assert k * cost <= budget;
      QuotaBound(k, cost, budget);
      if k < n {
        TokensUniform(messages[n - k - 1..], count, cost);
        assert (k + 1) * cost > budget;
        QuotaBound(k + 1, cost, budget);
      }
    }
  }

  function Min(a: int, b: int): int {
    if a <= b then a else b
  }

  lemma {:induction false} TokensUniform(messages: seq<Message>, count: Tokenizer, cost: nat)
    requires forall i :: 0 <= i < |messages| ==> count(messages[i].content) == cost
    ensures Tokens(messages, count) == |messages| * cost
  {
    if messages != [] {
      TokensUniform(messages[1..], count, cost);
    }
  }

  /** `m * cost <= budget` exactly when `m` is at most `budget / cost`. */
  lemma QuotaBound(m: nat, cost: nat, budget: nat)
    requires cost > 0
    ensures m * cost <= budget <==> m <= budget / cost
  {
    var q := budget / cost;
    assert q * cost <= budget < (q + 1) * cost;
    if m <= q {
      assert m * cost <= q * cost;
    } else {
      assert m * cost >= (q + 1) * cost;
    }
  }

  // ---------------------------------------------------------------- error mapping and handler

  /** Every failure becomes status 500; only an `OpenAIError` passes its message on as status text. */
  function ToErrorResponse(error: Failure): (r: Response)
    ensures r.ErrorResponse? && r.status == 500 && r.text == "Error"
    ensures r.statusText.Some? <==> error.OpenAIError?
    ensures error.OpenAIError? ==> r.statusText == Some(error.message)
  {
    match error
    case OpenAIError(message) => ErrorResponse(500, Some(message), "Error")
    case _ => ErrorResponse(500, None, "Error")
  }

  /** The upstream client's stream is returned as it is; a thrown error is mapped. */
  function Respond(outcome: Result<seq<string>, Failure>): (r: Response)
    ensures r.StreamResponse? <==> outcome.Success?
    ensures outcome.Success? ==> r.body == outcome.value
    ensures outcome.Failure? ==> r.status == 500 && r.text == "Error"
    ensures outcome.Failure? ==> r.statusText == if outcome.error.OpenAIError? then Some(outcome.error.message) else None
  {
    match outcome
    case Success(stream) => StreamResponse(stream)
    case Failure(error) => ToErrorResponse(error)
  }

  /**
    The request handler. `price` is what the price lookup returns; it is consulted only for a
    price question, where a truthy non-number makes the handler fail. `tokenizers` is the
    tokenizer table keyed by model id, and `upstream` the streaming client, which either
    returns the stream or throws.
   */
  method Handle(
    body: ChatBody,
    price: PriceLookup,
    tokenizers: map<string, Tokenizer>,
    defaultTemperature: real,
    upstream: UpstreamRequest -> Result<seq<string>, Failure>)
    returns (response: Response)
    ensures body.messages == [] ==> response == ToErrorResponse(TypeError)
    ensures body.messages != [] && IsPriceQuery(body.messages[|body.messages| - 1].content) && price.NotANumber? ==>
      response == ToErrorResponse(TypeError)
    ensures body.messages != [] && !(IsPriceQuery(body.messages[|body.messages| - 1].content) && price.NotANumber?) ==>
      body.model.id !in tokenizers ==> response == ToErrorResponse(TypeError)
    ensures body.messages != [] && !(IsPriceQuery(body.messages[|body.messages| - 1].content) && price.NotANumber?) ==>
      body.model.id in tokenizers ==>
      var count := tokenizers[body.model.id];
      var sent := WithContext(body.messages, RenderedPrice(price), SearchResultsText(body.searchResults));
      exists kept ::
        && IsGreedySuffix(sent, kept, count, count(SystemPrompt), body.model.tokenLimit)
        && response == Respond(upstream(UpstreamRequest(
             body.url, body.model, SystemPrompt, body.temperature.GetOr(defaultTemperature), body.key, kept)))
  {
    var temperatureToUse := body.temperature.GetOr(defaultTemperature);
    if |body.messages| == 0 {
      // `lastMessage` is undefined, so reading its content throws
      response := ToErrorResponse(TypeError);
      return;
    }
    var injected := InjectContext(body.messages, price, body.searchResults);
    if injected.Failure? {
      response := ToErrorResponse(injected.error);
      return;
    }
    var messagesToSend := injected.value;
    if body.model.id !in tokenizers {
      // the tokenizer is undefined, so calling `encode` on it throws
      response := ToErrorResponse(TypeError);
      return;
    }
    var count := tokenizers[body.model.id];
    var filteredMessages := SelectMessages(messagesToSend, count, count(SystemPrompt), body.model.tokenLimit);
    var request := UpstreamRequest(body.url, body.model, SystemPrompt, temperatureToUse, body.key, filteredMessages);
    response := Respond(upstream(request));
    assert IsGreedySuffix(messagesToSend, filteredMessages, count, count(SystemPrompt), body.model.tokenLimit);
  }
}
