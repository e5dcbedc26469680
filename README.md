# Nosana chat assistant: request assembly and conversation bookkeeping

This project models two pieces of sequential logic of a chat assistant for the Nosana
decentralized computing network.

- **The chat endpoint** (`pages/api/chat.ts`, module `ChatApi`). The handler rewrites the newest
  message with injected context. A price question gets a price directive, and any other question
  gets the client's search results. The handler then keeps the newest messages that fit the model's
  token budget, opens the upstream completion stream, and turns every failure into a status-500
  response.
- **The home page** (`pages/index.tsx`, module `Home`). With React and `localStorage` stripped away,
  each handler maps the page state to the next one. The page state is the conversation list, the
  selected conversation, the id being edited and the pending name. `Send` folds the streamed reply
  into the selected conversation and stores it in the list.

Shared records are in `Types` (Role, Message, Conversation). The JavaScript string operations the
code relies on are in `Text`: `toLowerCase`, `includes`, array-to-string rendering, and `+=`
accumulation. `Wrappers` holds `Option` and `Result`.

How the non-deterministic or foreign parts are represented:

- The tokenizer is a function `string -> nat` that counts tokens. The tokenizer table is a
  `map<string, Tokenizer>` keyed by model id.
- The price lookup's result is an input `PriceLookup`. `Falsy` stands for every falsy result
  (`null`, `0`, `NaN`). `Number(t)` stands for a truthy number whose four-decimal rendering is `t`.
  `NotANumber` stands for any other truthy value, such as a string. Calling `toFixed` on it throws a
  `TypeError`. The model consults the lookup only for a price question.
- The upstream streaming client is a function parameter. It maps the request it is given to either
  the stream (a sequence of chunks) or a thrown `Failure`.
- The decoded reads of the reply stream are a given finite sequence of strings. It always has at
  least the final read that reports `done`.
- The default temperature is a parameter, because `utils/app/const` is not part of this model.

## Behaviour worth noting

- **No error when the prompt is too big.** When the system prompt plus the 768-token reserve
  already exceeds the limit, the handler does not fail. It sends an empty message list
  (`EmptySelection`).
- **Missing search results are still appended.** A non-price question without search results
  gets `"\n\nContext:\nundefined"` appended to the newest message.
- **The price directive has a literal `X`.** It embeds the price as `$<price>` and asks for the
  literal pattern `"The price of Nosana is: X$"`.
- **A non-number price fails the request.** On a price question, a truthy price that is not a
  number makes `toFixed` throw. The result is a status-500 response with no status text.
- **Every failure has status 500.** This holds whatever the cause. Only an `OpenAIError` passes its
  message on as status text.

## Model

| member | source | states |
|---|---|---|
| `Text.Lower` | pages/api/chat.ts:28 | lower-casing keeps the length and maps each character to its lower-case form |
| `Text.Contains` | pages/api/chat.ts:28 | the left-to-right `includes` scan is true exactly when the phrase occurs at some index of the text |
| `Text.Join` | pages/api/chat.ts:36 | rendering an array in a template literal gives "" for no elements and the element itself for one. Otherwise its length is the elements' total length plus one separator between each two neighbours, and every element occurs in it |
| `Text.JoinAppend` | pages/api/chat.ts:36 | joining two non-empty arrays back to back gives the two joins with one separator between them, so the elements appear in order with the separator between each two neighbours |
| `Text.Concat` | pages/index.tsx:59-66 | the text built by `text += chunkValue` is exactly as long as all the chunks together |
| `Text.ConcatAppend` | pages/index.tsx:59-66 | the accumulated text does not depend on how it is split into reads: the text of a + b is the text of a followed by the text of b |
| `ChatApi.IsPriceQuery` | pages/api/chat.ts:28 | a question is a price question exactly when its lower-cased text contains "nosana price" or "price of nosana" at some index |
| `ChatApi.PriceContext` | pages/api/chat.ts:31 | the directive is the fixed preamble ending in "$", then the rendered price unaltered, then the fixed instruction with the literal "X$" |
| `ChatApi.PriceContextRoundTrip` | pages/api/chat.ts:31 | the price can be read back out of the directive, so different prices give different directives |
| `ChatApi.SearchResultsText` | pages/api/chat.ts:36 | absent search results render as "undefined", an empty array as "" and a single document as itself. Otherwise the length is the documents' total length plus one comma between each two, and every document appears in full |
| `ChatApi.SearchResultsAppend` | pages/api/chat.ts:36 | rendering two non-empty runs of documents back to back gives the two renderings with one comma between them, so the documents keep their order |
| `ChatApi.ContextualContent` | pages/api/chat.ts:28-37 | the original text stays a prefix. It is unchanged exactly for a price question with a falsy price. A price question with a price gets "\n\nContext: " and the directive appended, and any other question gets "\n\nContext:\n" and the search text |
| `ChatApi.RenderedPrice` | pages/api/chat.ts:30-31 | a price is rendered into the directive exactly when the lookup gave a truthy number, and then it is that number's rendering |
| `Text.LowerAppend` | pages/api/chat.ts:28 | lower-casing distributes over concatenation, so a trigger phrase keeps its position after `toLowerCase` |
| `ChatApi.TriggerAnywhereIsPriceQuery` | pages/api/chat.ts:28 | a text containing either trigger phrase, in any ASCII letter case and at any position, is a price question |
| `ChatApi.WithContext` | pages/api/chat.ts:23-37 | only the newest message is rewritten: same length, every earlier message identical, same role, and the newest content is the branch's rewrite |
| `ChatApi.InjectContext` | pages/api/chat.ts:23-37 | on a price question with a truthy non-number price, `toFixed` throws a `TypeError`. Otherwise the in-place rewrite of the copied list yields exactly the rewritten list |
| `ChatApi.ContextBranchIsExclusive` | pages/api/chat.ts:28-37 | exactly one branch runs, and it can be read back from the result. The original text stays a prefix. A price question gets the price directive, or no change when the price is falsy, and never the search text. Any other question always gets the search text |
| `ChatApi.PriceQueryIgnoresSearchResults` | pages/api/chat.ts:28-33 | for a price question the rewrite does not depend on the search results |
| `ChatApi.SearchQueryIgnoresPrice` | pages/api/chat.ts:34-37 | for any other question the rewrite does not depend on the price lookup |
| `ChatApi.SelectMessages` | pages/api/chat.ts:40-54 | the backward loop returns a contiguous suffix in chronological order. It is within budget (prompt + tokens + 768 ≤ limit) when non-empty, and the next-older message would not fit. The running count stays prompt + tokens of the kept messages |
| `ChatApi.TokensSuffixMonotone` | pages/api/chat.ts:42-53 | committing more messages never lowers the running token total |
| `ChatApi.GreedySuffixIsLongestFit` | pages/api/chat.ts:45-54 | a non-empty suffix fits the budget exactly when it is no longer than the kept one, so the cut is maximal |
| `ChatApi.GreedySuffixUnique` | pages/api/chat.ts:45-54 | the selection is determined by its inputs |
| `ChatApi.AllFitKeepsEverything` | pages/api/chat.ts:45-54 | when the whole conversation fits, every message is kept unchanged and in order |
| `ChatApi.EmptySelection` | pages/api/chat.ts:45-54 | nothing is kept exactly when the list is empty or the newest message alone does not fit. In particular nothing is kept when prompt + 768 exceeds the limit. No error is raised |
| `ChatApi.UniformCostKeepsQuota` | pages/api/chat.ts:45-54 | with every message costing c tokens, the number of messages kept is min(n, (limit − prompt − 768) / c) |
| `ChatApi.Respond` | pages/api/chat.ts:56-72 | a stream from the upstream client is returned as the body unchanged. A thrown failure becomes status 500 with body "Error", with the message as status text only for an `OpenAIError` |
| `ChatApi.ToErrorResponse` | pages/api/chat.ts:66-72 | every failure becomes status 500 with body "Error". The status text is present exactly for an `OpenAIError` and is then its message |
| `ChatApi.Handle` | pages/api/chat.ts:15-74 | an empty message list, a truthy non-number price on a price question and an unknown model id each give status 500 with no status text. Otherwise the upstream client receives the fixed system prompt, `temperature ?? default` and the greedy suffix of the rewritten list. Its stream is returned, or its failure is mapped |
| `Home.FindById` | pages/index.tsx:243-249 | a found conversation is in the list and has the id. When nothing is found, no entry has the id |
| `Home.FindByIdFindsFirst` | pages/index.tsx:243-249 | the `find` by id succeeds exactly when the id occurs, and returns its first occurrence |
| `Home.ReplaceLastContent` | pages/index.tsx:82-93 | one later chunk changes only the newest message: its content becomes the running text and its role stays. Length and every earlier message are unchanged |
| `Home.StreamReply` | pages/index.tsx:55-102 | after reads c1..cn (n ≥ 1) the messages are the sent list followed by exactly one assistant message with content c1+…+cn |
| `Home.AfterSend` | pages/index.tsx:109-121 | every entry with the selected id becomes the updated conversation and the others are unchanged. Only an empty list gets the updated conversation pushed |
| `Home.AfterSendStoresReply` | pages/index.tsx:109-121 | afterwards the list holds the reply under its id, unless the list was non-empty and lacked the id. Then the reply is not stored |
| `Home.Send` | pages/index.tsx:20-131 | without a selection nothing changes. A not-ok response keeps the appended user message selected and throws its status text. A missing body keeps that message and returns. A streamed body selects the answered conversation and stores it through the post-send replace |
| `Home.NextId` | pages/index.tsx:170-173 | an empty list gives id 1. On a list with increasing ids the result is larger than every stored id |
| `Home.NewConversation` | pages/index.tsx:169-193 | appends one empty "New conversation" and also selects it. Its id is the last conversation's id + 1, or 1 for an empty list. The editing state is untouched |
| `Home.NewConversationIdIsFresh` | pages/index.tsx:170-178 | on a list with increasing ids, the new id (last id + 1, or 1) is larger than every stored id. The list stays increasing |
| `Home.RemoveId` | pages/index.tsx:201-203 | the filter never lengthens the list, and no remaining entry has the id |
| `Home.RemoveIdSpec` | pages/index.tsx:201-203 | the filter keeps exactly the entries with a different id. It shortens a list holding the id and leaves a list without it unchanged |
| `Home.RemoveIdDistributes` | pages/index.tsx:201-203 | filtering commutes with concatenation, so the remaining entries keep their order |
| `Home.RemoveIdKeepsIdsIncreasing` | pages/index.tsx:201-203 | deleting keeps the ids increasing |
| `Home.DeleteConversation` | pages/index.tsx:200-223 | the list loses exactly the entries with the id. The selection becomes the first remaining entry, or {id: 1, name: "", messages: []} when none remains |
| `Home.RenameConversation` | pages/index.tsx:139-167 | every entry with the id becomes the passed conversation under the new name, which is also selected. Length is preserved and other entries are unchanged |
| `Home.RenameStoredChangesOnlyName` | pages/index.tsx:143-154 | for a stored conversation on a list with unique ids, renaming changes that entry's name only. Length, order, ids and messages are kept |
| `Home.SetName` | pages/index.tsx:234-236 | the confirm-rename `map` changes only the names of the entries with the id. Length, ids and messages are kept |
| `Home.ConfirmRename` | pages/index.tsx:226-258 | with an empty name the list and selection are unchanged. With a name, entries with the id are renamed and the first is selected, or the default. Either way `editing` becomes -1 and the pending name "" |
| `Home.ConfirmRenameSelectsRenamed` | pages/index.tsx:243-249 | a confirmed rename selects an entry with the id that carries the new name and a stored entry's messages when the id is stored, and the default conversation otherwise |
| `Home.ListHandlersKeepIdsIncreasing` | pages/index.tsx:109-236 | new, delete, rename, confirm-rename and the post-send replace under any selected id all keep the ids strictly increasing, hence unique. No selection is needed |

## Left out

- The price lookup (`getNosanaPrice`, pages/api/chat.ts:78-93) is outbound HTTP and JSON parsing. Its result is the `price` input.
- The tokenizer library (`tokenizer.encode`, `OpenAITokenizers`) is not visible source. It is abstracted as a deterministic token count per model id.
- `OpenAIStream` and the streamed `Response` are upstream I/O whose source is not shown. The client is a function parameter returning the stream's chunks or a failure.
- `price.toFixed(4)` is floating point. The rendered price text is opaque.
- `PriceLookup` takes every truthy non-number to throw in `toFixed`. A value that carries its own `toFixed` method is not modelled.
- Request-body parsing (`req.json()`) is left out, and the body is a typed record. A body that fails to parse, or a `searchResults` that is neither an array nor absent, is not modelled.
- `SearchResultsText` renders an array of strings as JavaScript would (elements joined by ","). Non-string elements are not modelled.
- `Text.Lower` maps only the ASCII letters A–Z. This does not change which texts contain the two all-ASCII trigger phrases, except through Unicode case mappings onto ASCII letters, which are not modelled.
- The error log (`console.error`) and the unused `prompt` field of the body are left out.
- The page's HTTP call, `getReader` and `TextDecoder` are left out. The reply is a `Reply` value whose body is the sequence of decoded reads. Suspension between reads is not modelled.
- All `localStorage` reads and writes, the `useEffect` hydration, and rendering are left out. This includes the stale selection written at pages/index.tsx:250-253.
- The flags `loading`, `messageIsStreaming`, `model`, `lightMode` and `showSidebar` are left out, along with their setters (including `setModel`/`setLoading` in `handleNewConversation`).
- `handleSelectConversation` (pages/index.tsx:195-198) and `handleOnSetNewConversationName` (pages/index.tsx:270-272) each call one setter. `handleBeginRenameConversation` and `handleCancelRenameConversation` (pages/index.tsx:260-268) each call two, `setEditing` and `setNewConversationName`. `handleLightMode` (pages/index.tsx:134-137) sets the theme and stores it. They hold no logic beyond these assignments and are not modelled.
- Conversation ids are unbounded integers. JavaScript's floating-point numbers lose `id + 1` beyond 2^53, which is not modelled.
- components/Chat/EnhacedMenu.tsx is display code and is not part of this model.
