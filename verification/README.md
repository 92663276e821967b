# Health-influencer service: extraction, shaping, refresh, lookup and research merge

The service asks a language model for mock "health influencer" records, stores them
in a two-table database (Influencer, Post) and serves them over HTTP. This project
models the parts of `app.js` that are logic rather than plumbing:

- **Fenced-JSON extraction** (`extraction.dfy`). Four places run
  `/```json\n([\s\S]*?)\n```/` over a model reply: the refresh handler (app.js:52),
  the search-claims handler (app.js:152), the research handler (app.js:202) and
  `generateScientificClaim` (app.js:247). Each parses the captured group when there
  is a match and the whole reply otherwise. The regular-expression search
  is modelled as the engine performs it: try each start position from the left,
  match the opener, then extend the lazy group to the first closer. The result is
  proved equal to a declarative description: the leftmost opener that has a closer
  after it, and the first closer after that opener. `JSON.parse` is a parameter
  `parse: string -> Option<Value>`. `None` stands for the SyntaxError it throws.
- **Row shaping** (`records.dfy`). The `map` projects each parsed influencer onto the
  six Influencer columns. The `flatMap` turns every claim into a Post row tagged with
  its parent's id. Property reads follow JavaScript: reading a field of `null` or
  `undefined` throws, and a missing field reads as `undefined`. Calling `.map` on
  something that is not an array throws.
- **Refresh and lookup** (`handlers.dfy`). The store is a pair of row sequences. The
  refresh handler's steps are recorded as an effect trace: delete posts, delete
  influencers, call the model, parse, insert influencers, insert posts. Each
  database call's success is a parameter. The lookup handler is modelled on the same
  store.
- **Research merge** (`research.dfy`). `generateScientificClaim` and the handler
  that extends each post with a `scientificClaim`. The concurrent `Promise.all` is
  modelled as an ordered map.

`js_values.dfy` holds the JavaScript value model, property reads, `trim` (the
ECMAScript WhiteSpace and LineTerminator set) and the fields an object spread
copies. `http.dfy` holds the response type. `wrappers.dfy` holds `Option` and
`Result`. `sequences.dfy` holds small facts about concatenation and slicing that
the proofs about Post rows cite.

A failed refresh does not always leave the store empty. Both deletes run first
(app.js:21-22), so once they succeed no old row survives. But the Influencer rows
are inserted (app.js:58-67) before the Post rows are built (app.js:70-77), and no
transaction spans the two. So a failed Influencer insert leaves both tables empty,
while a failure in building or inserting the posts leaves the new influencers in
place with no posts. `Handlers.Persist` and `Handlers.Refresh` state which of the
two outcomes each failure produces.

The search-claims handler writes `(await jsonMatch)` at app.js:153. Awaiting a
non-promise yields the value itself, so this is the same test as at app.js:53, and
`Extraction.DecodeReply` models both. The refresh and search-claims paths parse the
reply as received. The research paths (app.js:199, 244) trim it first.
`Extraction.TrimKeepsPayload` shows that trimming matters only when there is no
fenced block.

## Model

| member | source | states |
|---|---|---|
| Extraction.FindFrom | app.js:52 | Returns the first occurrence of the pattern at or after the start, or none when there is no occurrence from there on. |
| Extraction.MatchFrom | app.js:52 | The engine's search from a start position returns an opener with a closer after it, no earlier candidate start, and no closer inside the group. It returns none exactly when no opener at or after the start has a closer after it. |
| Extraction.FencedMatch | app.js:52 | `match` fails exactly when no opener has a closer after it. Otherwise it reports the leftmost opener that has a closer after it, and the first closer after that opener. |
| Extraction.ExtractPayload | app.js:52-55 | The text handed to `JSON.parse` equals the whole reply exactly when the reply holds no fenced block. Otherwise it is the text between the leftmost opener and the first closer after it. |
| Extraction.DecodeReply | app.js:52-55 | An unfenced reply decodes iff `JSON.parse` accepts the whole reply, and yields that value. A fenced reply decodes iff the payload of the leftmost-lazy match parses. Every failure is a SyntaxError. |
| Extraction.LeftmostLazyUnique | app.js:52 | At most one opener/closer pair is the regular expression's match. |
| Extraction.PayloadHasNoCloser | app.js:52 | Because `*?` is lazy, the extracted payload never contains the closer. |
| Extraction.FirstFenceWins | app.js:52-54 | For a block whose content holds no closer, anything after the block is ignored: the payload is exactly that content. |
| Extraction.EmbeddedCloserCutsShort | app.js:52 | When the content of a block holds the closer, the lazy group stops at that embedded closer and the payload is strictly shorter than the content. |
| Extraction.FenceRoundTrip | app.js:52-54 | Extracting from an opener + s + closer gives back `s` exactly when `s` contains no closer (both directions). |
| Extraction.TrimKeepsFenced | app.js:199-202 | Trimming the reply never creates or removes a fenced block. |
| Extraction.TrimKeepsPayload | app.js:199-203 | When the reply holds a fenced block, trimming it first does not change the payload. |
| Extraction.DecodeTrimmed | app.js:244-248 | For a fenced reply, decoding the trimmed reply is the same as decoding the reply itself. |
| JsValues.Trim | app.js:199 | `trim` returns a contiguous slice. It drops only whitespace before and after it, and the slice neither starts nor ends with whitespace. |
| Records.ShapeAll | app.js:59-66 | The `map` succeeds iff no element is null or undefined. Then row `i` copies element `i`'s `id, name, category, trustScore, followersCount, verifiedClaims`, with the same length and order. Otherwise it throws a TypeError. |
| Records.ShapeInfluencers | app.js:58-66 | The Influencer rows exist iff the parsed value is an array with no null or undefined element. They have its length and order, and each copies the six columns of its element. |
| Records.ClaimRows | app.js:71-76 | The inner `map` succeeds iff no claim is null or undefined. Then row `c` carries claim `c`'s content, status and trust score, and the parent's id. |
| Records.PostsOfInfluencer | app.js:71-76 | An influencer contributes rows iff it is not nullish, its `claims` is an array and no claim is nullish. It contributes one row per claim. |
| Records.FlattenAll | app.js:70-77 | When the `flatMap` succeeds, it yields one row per claim: its length is the sum of the claim counts. |
| Records.FlattenAllSucceeds | app.js:70-77 | The `flatMap` succeeds iff every influencer has a usable claim list (both directions). |
| Records.FlattenAppend | app.js:70-77 | Flattening a concatenation of influencer lists succeeds on both parts and concatenates their rows. |
| Records.FlattenPosts | app.js:70-77 | The Post rows exist iff the parsed value is an array of influencers with usable claim lists. There are as many rows as claims in total. |
| Records.OffsetStep | app.js:70-77 | An influencer's block of Post rows starts after all earlier influencers' claims and ends within the total. |
| Records.FlattenOrder | app.js:70-77 | Claim `c` of influencer `i` sits at offset(i) + c: ordered by influencer, then by claim. The row copies the claim's content, status and trust score and is tagged with influencer `i`'s id. |
| Handlers.Persist | app.js:58-79 | The writes succeed iff both shapings and both inserts succeed, leaving exactly the built rows. The Influencer insert is attempted iff the Influencer rows were built. The Post insert is attempted iff the Influencer insert succeeded and the Post rows were built. A failure before the Influencer insert, or of that insert, leaves both tables empty. A failure after it leaves exactly the new Influencer rows and no Post rows. |
| Handlers.Refresh | app.js:18-86 | The attempted steps are a non-empty prefix of delete posts, delete influencers, call the model, parse, insert influencers, insert posts. Each step is attempted iff every earlier step succeeded, so the run stops at the first failure. The response is 200 iff every step succeeds, and then the store holds exactly the built rows. Otherwise it is 500 with the static error. A failed delete leaves what it did not reach. After the deletes no old row survives: a failure up to and including the Influencer insert leaves both tables empty, and a later failure leaves exactly the new Influencer rows and no Post rows. |
| Handlers.FindInfluencer | app.js:106-109 | Finds nothing iff no row has the id. Otherwise returns a stored row with that id. |
| Handlers.PostsFor | app.js:108 | The included posts are, counted with multiplicity, exactly the stored posts whose `influencerId` is the id. |
| Handlers.GetById | app.js:103-120 | 500 iff the store fails. 404 iff no stored influencer has the id. Otherwise 200 with a stored influencer that has the id and exactly the stored posts tagged with it. |
| Handlers.PostsForAppend | app.js:108 | Selecting posts by id distributes over concatenation of the Post table. |
| Handlers.PostsForUniform | app.js:71-76 | Selecting one influencer's rows by id keeps all of them when the id is theirs and none otherwise. |
| Handlers.PostsForForeignId | app.js:70-77 | Selecting the flattened rows by an id no parsed influencer has yields nothing. |
| Handlers.PostsForFlattened | app.js:70-77 | When no other influencer has influencer `k`'s id, selecting the flattened rows by that id yields exactly the rows built from `k`'s claims. |
| Handlers.LookupInRefreshedStore | app.js:106-115 | In the tables a refresh writes, when no other influencer has influencer `k`'s id, looking it up returns `k`'s row and exactly the rows built from `k`'s claims. |
| Handlers.MissInRefreshedStore | app.js:106-113 | In the tables a refresh writes, a lookup is 404 iff no parsed influencer has the id. |
| Handlers.HitsInRefreshedStore | app.js:106-115 | In the tables a refresh writes, with distinct ids, looking up any influencer's id returns its row and one post per claim. |
| Handlers.RefreshThenLookup | app.js:103-115 | After a successful refresh, a lookup is 404 iff the reply had no influencer with that id. With distinct ids, it returns that influencer with as many posts as it had claims. |
| Research.GenerateScientificClaimAsWritten | app.js:227-253 | As written, the function returns the placeholder `{content: "Failed to generate scientific claim", source: "N/A"}` on every input. |
| Research.GenerateScientificClaim | app.js:227-253 | Corrected: returns the parsed (trimmed, extracted) reply when the prompt builds and the reply decodes. The prompt builds when the content converts to a string and the journals are an array whose elements convert. Whenever the prompt cannot be built, and whenever the reply is missing or does not decode, it returns the placeholder. It never throws. |
| Research.UnconvertibleContentGivesPlaceholder | app.js:232-236 | Post content `{"toString": 1}` cannot be converted by the template literal, so even the corrected function returns the placeholder, although the reply `{}` would decode. |
| Research.AsWrittenDiscardsReply | app.js:243 | Counterexample: take the journals `["Nature"]` and a reply that is a fenced `{}`. The corrected function returns `{}`; the as-written one returns the placeholder. |
| Research.ResearchWith | app.js:199-223 | 200 iff the model answered, the trimmed reply decodes to an array and no element is nullish; otherwise 500. On 200 the result has the posts' length and order. Element `i` is post `i`'s spread fields with `scientificClaim` set to the claim made for post `i`'s content. |
| Research.ResearchAsWritten | app.js:206-217 | As written, every post that comes back carries the placeholder as its `scientificClaim`. |
| Research.Research | app.js:206-217 | With the corrected generator, post `i` carries what that generator makes of the `i`-th reply, next to its own fields. |

## Left out

- The model-provider requests and their prompt strings (app.js:14-16, 24-49, 136-149, 188-197, 229-242): remote I/O. Each reply is an input string, or `None` when the request fails or carries no text.
- Research.ResearchWith: the handler's own prompt (app.js:188-192) converts `claimsToAnalyze`, `topic`, `influencer` and `dateRange` from the request body to strings. A body value with an own `toString` field makes that conversion throw a TypeError, and the handler answers 500. The model does not take the request body as input, so it reaches that 500 only through `reply = None`. The same conversion rule is modelled for `generateScientificClaim` (`Research.PromptBuilds`).
- Prisma: uniqueness and foreign-key checks, column type validation, and `createMany` rejecting duplicate ids. This is library behaviour; each database call's success is a boolean parameter, and the tables are plain sequences.
- The internals of `JSON.parse`: it is an uninterpreted, partial parameter.
- `Promise.all` concurrency (app.js:206): it is modelled as an ordered map, since only the ordered result is observable. Failed requests still started by other mappers are not modelled.
- `parseInt` of the path or body id (app.js:104, 128): the id is taken to be an integer already.
- The list handler `GET /api/influencers/db` (app.js:89-99) returns the Influencer table as stored. It is not modelled beyond the store itself.
- The search-claims handler (app.js:123-174) is modelled only in its extraction step (app.js:151-155), which `Extraction.DecodeReply` covers.
- Express routing, CORS, dotenv, logging and `app.listen` (app.js:1-12, 368-370): plumbing.
- The commented-out code (app.js:160-167, 255-366): dead.
- Handlers.FindInfluencer: with duplicate ids in the plain-sequence store it returns the first. The real store's unique key rules duplicates out.
- Handlers.PostsFor: the order in which the store returns the included posts is unspecified. The model keeps storage order, and its contract states the contents (with multiplicity) and not the order.
- JsValues.Value: numbers are exact rationals rather than doubles, and object key order is not modelled (objects are maps).
- JsValues.OwnFields: a string spreads one key per character. JavaScript spreads one key per UTF-16 code unit, which differs for characters outside the Basic Multilingual Plane.

## Findings

| source | as written | input that shows it | evidently intended | confidence | as-written member | corrected member |
|---|---|---|---|---|---|---|
| app.js:243 | logs `openAiResponse.choices[0].message.content`; `openAiResponse` is a constant of the research handler and is not in scope in `generateScientificClaim`, so the line throws a ReferenceError that the catch turns into the placeholder | journals `["Nature"]`, model reply `` ```json\n{}\n``` `` (any call at all) | log `message.choices[0].message.content`, the reply just received, and return the decoded reply | high; not executed | Research.GenerateScientificClaimAsWritten, Research.AsWrittenDiscardsReply | Research.GenerateScientificClaim |
