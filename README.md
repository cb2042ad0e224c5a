# Personal shopper chat handler, modelled in Dafny

This project models the request pipeline of the serverless chat endpoint in
`api/chat.js`. The endpoint turns a shopper's free-text message into catalog
searches and replies with the products it found. It does this in five steps:

1. It refuses every method except POST with 405.
2. It asks a language model for search terms. The answer is parsed as JSON, and
   when the parse throws, the user's message becomes the only term.
3. It builds one catalog search URL per term on the VTEX public search endpoint
   and issues all the searches at once.
4. A search whose response is not ok contributes an empty list. The per-term
   results are collected in term order, flattened one level, stripped of
   nulls, and projected onto `{name, img, price, link}`.
5. It replies with `Busqué productos para: ` followed by the terms joined with
   `", "`. Any exception in steps 2-4 becomes status 500 with one fixed error
   text.

The model is pure: datatypes, functions and lemmas over sequences. It has five
modules:

- `Options` holds the option type.
- `JsValues` holds parsed JSON values, JavaScript's `String()` and
  `Array.prototype.join` on them (including the TypeError `String()` throws
  for an object with its own "toString" member), and a `split` used to read a
  reply back.
- `Catalog` holds the search URL and its parser, the shape of a catalog
  record, and the projection onto a product.
- `Pipeline` holds `Promise.all`, `flat()`, `filter(p => p != null)`, and the
  composition of these with formatting.
- `Chat` holds the handler, `Handle`, and the lemmas about whole requests.

`Handle` returns an `Exchange`. It lists the external calls the request makes,
in issue order (the model call, then one search per URL), together with the
response.

The things the handler reaches outside itself are inputs to the model:

- the language model's outcome (`Completion`), which is either unavailable or
  the result of `JSON.parse` on its answer;
- the store account;
- `encodeURIComponent`, as a function parameter `encode`;
- the outcome of each search (`fetch(i, url)`): rejected, not ok, or ok with a
  parsed body.

## Model

| member | source | states |
|---|---|---|
| Chat.Handle | api/chat.js:13-91 | A request is answered 405 "Method not allowed" exactly when its method is not POST, and then makes no call. A POST always makes the model call first. When the model call fails, the response is the fixed 500 error and no search is made. Every failure is the fixed 500 error, and every reply has status 200 and begins with the reply prefix. |
| Chat.SearchTerms | api/chat.js:38-44 | The terms are the parsed value, or the one-element list holding the message when the parse threw. It has no contract of its own; `Chat.FallbackSearchesMessage`, `Chat.ParsedListIsSearched` and `Chat.ParsedNonListFails` state what each case leads to. |
| Chat.FallbackSearchesMessage | api/chat.js:38-50 | When the model's answer does not parse, the only search is the one for the user's message, and a reply names exactly the message. |
| Chat.ParsedListIsSearched | api/chat.js:40-52 | When the answer parses to a list whose elements all convert to strings, the model call is followed by exactly one search per element, in element order. Search `i` goes to the URL built from the escaped `String()` of element `i`. The other case is `Chat.UnprintableTermFails`. |
| Chat.UnprintableTermFails | api/chat.js:49-52 | A term whose `String()` throws makes its callback reject before its `fetch`. The request then makes fewer searches than there are terms, and ends with the fixed 500 error. |
| Chat.ParsedNonListFails | api/chat.js:41-49 | When the answer parses to something that is not a list, `map` throws. The request ends with the fixed 500 error after the model call alone. |
| Chat.TermUrl | api/chat.js:50 | A term has a URL exactly when its `String()` does not throw. The escaped term read back from that URL is `encode(String(term))`. |
| Chat.SearchUrls | api/chat.js:49-50 | There is one entry per term. Entry `i` is a URL exactly when term `i` converts, and the escaped term read back from it is `encode(String(term i))`. |
| Chat.Responses | api/chat.js:52-64 | Term `i` settles as `fetch(i, url)` when it has a URL, and rejects when it has none. No contract of its own; `Chat.ResolvedHaveUrls` and `Chat.UnprintableTermFails` state its consequences. |
| Chat.ResolvedHaveUrls | api/chat.js:49-67 | If `Promise.all` resolves, every term had a URL. |
| Chat.SearchCalls | api/chat.js:21-52 | The calls are the model call followed by one search per URL that exists, in term order. |
| Chat.Answer | api/chat.js:63-90 | Without a resolved `Promise.all` the response is the fixed 500 error. Otherwise it is the reply exactly when every record left after flattening and filtering has the fields the projection reads and the terms can be joined. The reply is then status 200, its text is the prefix followed by the terms joined with ", ", and it holds one product per record, product `j` formatted from record `j`. Any other response is the fixed 500 error. |
| Chat.SucceedsExactly | api/chat.js:63-90 | The request is answered exactly when `Promise.all` resolves and every non-null flattened record has a first item, a first image, a first seller and an offer. A reply then has exactly one product per record, and product `j` is formatted from record `j`. There is never a partial list. |
| Chat.ReplyNamesTerms | api/chat.js:49-83 | A reply means every term converted to a string, and the reply text is `Busqué productos para: ` followed by the terms joined with ", ". |
| Chat.SettledTermsPrint | api/chat.js:49-67 | If `Promise.all` resolves, every term converted to a string. |
| Chat.NotOkTermLosesOnlyItsProducts | api/chat.js:49-85 | Making term `k`'s response not ok leaves the calls and the reply text unchanged. It removes exactly term `k`'s products: the products of the terms before and after it stay, in order. |
| Chat.OneFailedSearchStillAnswers | api/chat.js:63-85 | In one concrete run with two terms, the first search is not ok and the second finds one complete record. The request still succeeds, with that single product and the reply "Busqué productos para: carbon, chorizo". |
| Chat.ReplyListsTerms | api/chat.js:83 | When there is at least one term and every term is a string without a comma, splitting the reply after its prefix at `", "` gives back exactly the terms. |
| JsValues.ToJsString | api/chat.js:50 | `String(v)`: `None` when it throws. No contract of its own; `JsValues.ToJsStringThrowsExactly` and `JsValues.ArrayOfStringsRoundTrip` state what it does. |
| JsValues.ToJsStringThrowsExactly | api/chat.js:50 | `String(v)` throws exactly when `v` is an object with its own "toString" member, or an array holding such a value at any depth. |
| JsValues.ArrayOfStringsRoundTrip | api/chat.js:50 | A non-empty list of comma-free strings converts, and its string splits back at "," into those strings. |
| JsValues.Join | api/chat.js:83 | `xs.join(sep)`; `None` when converting an element throws. No contract of its own; `JsValues.JoinOfPrintable`, `JsValues.JoinOfStrings` and `JsValues.SplitJoin` state what it does. |
| JsValues.JoinOfPrintable | api/chat.js:83 | A list whose elements all convert to strings can be joined. |
| JsValues.JoinOfStrings | api/chat.js:83 | Joining a list of string values gives the strings themselves joined with the separator. |
| JsValues.SplitJoin | api/chat.js:83 | Splitting a join of a non-empty list at its separator returns the joined pieces, when no piece contains the separator's first character. |
| Catalog.SearchUrl | api/chat.js:50 | The URL is the account's endpoint prefix, then the escaped term, then `?_from=0&_to=3`, with lengths that add up. |
| Catalog.SearchUrlRoundTrip | api/chat.js:50 | The escaped term is recovered from the URL built for it. |
| Catalog.EncodedTermOfIsExact | api/chat.js:50 | Any URL the parser accepts is exactly the URL built for the term it reads. |
| Catalog.SearchUrlInjective | api/chat.js:50 | Different escaped terms give different URLs. |
| Catalog.Project | api/chat.js:74-79 | The projection of one record. No contract of its own beyond its shape requirement; `Catalog.FormatAll` states its fields through `FormattedFrom`. |
| Catalog.FormatAll | api/chat.js:74-79 | Formatting succeeds exactly when every record has the fields the projection dereferences. It then gives one product per record, in order, each with its record's name, first image URL, first seller's price and link text. |
| Catalog.FormatAllAppend | api/chat.js:74-79 | Formatting a concatenation gives the concatenation of the formatted parts. It fails exactly when either part fails. |
| Pipeline.Settled | api/chat.js:63-64 | One term's settled value: `[]` when its response is not ok, its body otherwise. No contract of its own; `Pipeline.Settle` states it through `SettlesTo`. |
| Pipeline.Settle | api/chat.js:49-67 | `Promise.all` resolves exactly when no search rejects. It then holds one value per term, in term order: `[]` for a response that is not ok and the parsed body for an ok one. |
| Pipeline.Gather | api/chat.js:67 | Whatever order the searches complete in, collecting each result into its slot gives result `i` as the value of search `i`. |
| Pipeline.SettleIsGathered | api/chat.js:67 | The value `Promise.all` resolves to is the positional collection of the per-term values, for every completion order. |
| Pipeline.SoftFailure | api/chat.js:63 | Turning term `k`'s response into not ok changes only term `k`'s settled value, which becomes `[]`. |
| Pipeline.Flat | api/chat.js:70 | `results.flat()`. No contract of its own; `Pipeline.FlatAppend`, `Pipeline.FlatAt`, `Pipeline.FlatBlocks` and `Pipeline.FlatWithout` state what it does. |
| Pipeline.FlatAppend | api/chat.js:70 | Flattening distributes over concatenation. |
| Pipeline.FlatAt | api/chat.js:67-70 | Entry `j` of term `i`'s body sits in the flattened list right after all entries of the terms before `i`. The flattened list is grouped by term in term order, with response order kept within a term. |
| Pipeline.FlatBlocks | api/chat.js:70 | The flattened list is the entries of the terms before `k`, then those of term `k`, then those after it. |
| Pipeline.FlatWithout | api/chat.js:63-70 | Emptying term `k` removes exactly term `k`'s block from the flattened list. |
| Pipeline.NonNull | api/chat.js:70 | `filter(p => p != null)`. No contract of its own; the `Pipeline.NonNull…` lemmas state what it does. |
| Pipeline.NonNullCount | api/chat.js:70 | The filter keeps as many entries as there are non-null entries. |
| Pipeline.NonNullMembers | api/chat.js:70 | Every kept record was in the input, and every non-null entry of the input is kept. |
| Pipeline.NonNullAppend | api/chat.js:70 | Filtering distributes over concatenation. |
| Pipeline.NonNullAt | api/chat.js:70 | A non-null entry keeps its relative place: it lands right after the survivors of the entries before it. |
| Pipeline.NonNullAllPresent | api/chat.js:70 | When no entry is null, the filter keeps every entry in place. |
| Pipeline.FilteredBlocks | api/chat.js:63-70 | The filtered list splits at term `k` into three blocks. Emptying term `k` leaves exactly the outer two. |
| Pipeline.Products | api/chat.js:67-79 | The products formatted from the flattened, filtered settled values. No contract of its own; `Pipeline.ProductsByBlocks` and `Chat.Answer` state what it gives. |
| Pipeline.ProductsByBlocks | api/chat.js:63-79 | The products are those of each term's block in turn. Formatting fails exactly when some block fails. Emptying term `k` leaves the other blocks' products unchanged and in order. |

## Left out

- The chat completion call is an input. The client and its configuration, the prompt, and the model's text are left out. `Completion.Unavailable` stands for a failed call or an answer with no message to read; both reach the 500 path.
- How `JSON.parse` works is left out. Its result is an input: a value, or `None` when it throws.
- `encodeURIComponent` is the parameter `encode`. It throws a URIError when a term contains a lone surrogate, which a `JSON.parse` escape can produce. Dafny strings cannot hold a lone surrogate, so that path to the 500 error is not modelled. The TypeError of its string conversion is modelled (`JsValues.ToJsString`).
- `fetch`, its headers, `response.ok` and `response.json()` are inputs, given per search as `Failed`, `NotOk` or `Ok(body)`. `Failed` covers a rejected request and a body that is not JSON; either rejects `Promise.all`, so the request fails with 500.
- Concurrency is left out. `Promise.all` is modelled by its positional result; `Pipeline.SettleIsGathered` shows that the completion order does not change it.
- `res.status(...).send/json` and `console.error` are I/O. The handler returns the response as a value instead.
- Environment variables are left out. The account is a parameter, and an unset account is just the string the caller passes.
- Number formatting is left out. A JSON number carries the text `String()` prints for it. Prices are reals.
- A missing `req.body` or a message that is not a string is left out. `req.body` is destructured outside the `try`, so the message is taken as a string.
- Catalog entries are reduced to the fields the projection reads:
  - Any other non-null entry of a body (a number, a string, a boolean or a nested array) is modelled as a record without items. Indexing it throws either way.
  - Null entries inside `items`, `images` or `sellers` are not represented.
  - `imageUrl` is represented only as a string and `Price` only as a number; an `imageUrl` of another type (a number, say) or a `Price` of another type (a string, say) is not represented.
- `undefined` and an absent key are both `None`. Key order in the JSON output is left out.
- `public/script.js` is left out: it is browser rendering with no pipeline logic.
- Every method but POST gets 405, OPTIONS included; there is no preflight handling.
