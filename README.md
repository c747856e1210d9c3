# Verified model of the stock-checking chat agent

The server answers a question in one request (`POST /chat`), using a chat
model and one tool. `runAgent` sends the model a single human message: a
fixed Arabic persona preamble followed by the question. That first call offers
every registered tool, with `tool_choice: 'auto'`. The agent then walks the
response's `tool_calls` in order and runs the first call whose name is
registered; calls naming unknown tools are skipped. It pushes one
`ToolMessage` carrying the tool's result and the call's id, makes a second
model call with no tools, and returns that call's `content`. If no call is
dispatched, it returns the first response's `content`.

The only tool is `get_product_stock`. It looks a product up in an in-memory
SQLite table that holds four products and is written only while seeding. The
query is `name LIKE '%query%'`, and the tool renders the first row as
`المنتج: **name** | المخزون: **stock وحدة**`. When no row matches, or the
database reports an error, it returns `المنتج غير موجود في المخزون.`. The
chat page renders `**…**` in bold with a regular expression.

Modules (one `.dfy` file each):

- `Wrappers`: `Option`.
- `SqlLike`: SQLite's default `LIKE`: `%`, `_`, ASCII-only case folding, and
  the 50000-byte limit on the pattern's UTF-8 length.
- `Inventory`: InsertOrIgnore seeding, the first-row query, the reply
  template and the `db.get` callback.
- `Tools`: the registry, lookup by name, and the declarations sent to the model.
- `Agent`: `runAgent` as a method with its loop (`RunAgent`), the
  specification it is proved against (`Exchange`), and the `/chat` guard.
- `Markup`: the bold rewrite and its inverse.

The chat model is a parameter `model: Request -> Response`, a total function
from the request sent to the response received. So every property about the
exchange holds whatever the model answers. `RunAgent` returns the trace of
model requests and tool executions it made, next to the reply.

Three behaviours one might expect of such an agent are absent from the code, and
the model follows the code (server.js:69-80):

- An unregistered tool name is skipped silently. There is no `ToolNotFound` failure.
- Only the `ToolMessage` is appended. The assistant message is not.
- Tool calls in the second response are ignored. They are not a protocol error.

Assumptions:

- "The first row" is the first row in rowid order, which is insertion order.
  The query has no `ORDER BY`. A leading `%` rules out a range lookup on the
  UNIQUE index of `name`, and that index does not hold `stock`, so SQLite
  scans the table itself, in rowid order.
- The model's tool calls expose `id`, `name` and `args` the way the code reads
  them (`call.name`, `call.args.product_name`). This is an assumption about the
  chat-model library, not something the code guarantees. If the library hands
  `additional_kwargs.tool_calls` over in the raw `{id, type, function: {name,
  arguments}}` form, `call.name` is undefined. Then no call is registered, and
  `Agent.NoDispatchOneCall` describes the whole exchange.

## Model

| member | source | states |
|---|---|---|
| SqlLike.Like | server.js:42 | SQLite's default `LIKE`; its meaning is stated by `LikeLiteral`, `LikeLeadingPercent` and `LikeContains` below |
| SqlLike.Utf8Length | server.js:42 | the byte length against which `LIKE` checks its pattern limit: between one and four bytes per character |
| SqlLike.LikeLiteral | server.js:42 | a pattern without `%` or `_` matches a name exactly when the two are equal after ASCII case folding |
| SqlLike.LikeLeadingPercent | server.js:42 | a pattern starting with `%` matches a text exactly when the rest of the pattern matches some suffix of it |
| SqlLike.LikeContains | server.js:42 | for a query without wildcards, `'%query%'` matches a name exactly when the folded query is a substring of the folded name (both directions) |
| Inventory.InsertOrIgnore | server.js:19 | `INSERT OR IGNORE` with a UNIQUE name: a name already present leaves the table unchanged, otherwise the row is appended with the next AUTOINCREMENT id; ids stay increasing and names unique |
| Inventory.SeedAll | server.js:19-24 | running the inserts in order keeps ids increasing and preserves unique names |
| Inventory.SeedingYieldsProducts | server.js:13-25 | the seeding block yields exactly the four products with ids 1 to 4 in insertion order, names unique |
| Inventory.FirstMatch | server.js:42 | returns the first row in rowid order whose name matches the pattern (every earlier row fails), and returns none exactly when no row matches |
| Inventory.Select | server.js:42 | `db.get` yields a row exactly when some product's name matches `'%query%'`, and that row is the (name, stock) of the first matching product in rowid order |
| Inventory.Format | server.js:44 | the found-reply template; `FormatContains`, `FormatNotNotFound` and `DecimalRoundTrip` state what it keeps |
| Inventory.Resolve | server.js:43-44 | the reply is the not-found text exactly when the query failed or found no row; otherwise it is the formatted row; it never rejects |
| Inventory.Lookup | server.js:40-47 | `get_product_stock.func`, with the query's error being the pattern-length limit; its meaning is stated by `LookupCases`, `LookupNotFound` and `LookupSubstring` |
| Inventory.LookupCases | server.js:40-47 | the tool's reply is the not-found text when the pattern is too long for `LIKE`; otherwise the formatted first matching row, or the not-found text when none matches |
| Inventory.LookupNotFound | server.js:42-43 | the reply is the not-found text exactly when the pattern is too long for `LIKE` or no seeded product's name matches `'%query%'` (both directions) |
| Inventory.LongQueryNotFound | server.js:42-43 | a query of more than 49998 characters always gets the not-found text, whatever it would match |
| Inventory.ShortQueryNoError | server.js:42 | a query of at most 12498 characters never makes `LIKE` fail |
| Inventory.LookupSubstring | server.js:42 | for a query without `%` or `_`, a seeded product matches exactly when the query is a case-folded substring of its name |
| Inventory.FormatContains | server.js:44 | a found reply embeds the row's name and its decimal stock, at their template positions |
| Inventory.FormatNotNotFound | server.js:43-44 | a found reply is never the not-found text |
| Inventory.Decimal | server.js:44 | `${row.stock}`: a non-empty run of digits with no leading zero; `DecimalRoundTrip` reads it back to the stock |
| Inventory.DecimalRoundTrip | server.js:44 | the stock's decimal rendering reads back to the same number |
| Inventory.LookupIphone | server.js:40-47 | looking up "iPhone 15" returns its row, so the reply contains "iPhone 15" and "12" |
| Inventory.LookupNokia | server.js:42-43 | looking up "Nokia 3310" returns the not-found text |
| Inventory.LookupPro | server.js:42-44 | "Pro" matches both "MacBook Pro 16" and "AirPods Pro"; the reply is the first of them in rowid order |
| Tools.RegistryUnique | server.js:36-54 | the registry's tool names are unique; its only tool is `get_product_stock` |
| Tools.FindTool | server.js:71 | `tools.find` returns a registered tool with the requested name, and returns none exactly when no tool has that name |
| Tools.FindToolFirst | server.js:71 | the tool `tools.find` returns is the first one with the name: every earlier tool has another name |
| Tools.FindInRegistry | server.js:71 | a name resolves exactly when it is `get_product_stock` |
| Tools.Declarations | server.js:65 | one declaration per tool, in order, carrying its name, description and parameter schema |
| Tools.Invoke | server.js:73 | runs the tool's `func`; the only executor is `Inventory.Lookup`, as `Agent.DispatchTwoCalls` states |
| Agent.ProductName | server.js:73 | `call.args.product_name`, or "undefined" when the field is missing; `Agent.DispatchTwoCalls` states that the tool runs on it |
| Agent.FirstDispatchable | server.js:70-72 | the index of the first tool call with a registered name (all earlier calls unregistered); none exactly when no call is registered |
| Agent.Exchange | server.js:57-81 | the exchange as a specification; `RunAgent` is proved equal to it, and `FirstCallShape`, `ExchangeBounds`, `NoDispatchOneCall`, `DispatchTwoCalls` and `SecondResponseToolCallsIgnored` state what it does |
| Agent.RunAgent | server.js:57-81 | the loop-and-push implementation produces exactly the reply, model requests and tool executions of the `Exchange` specification |
| Agent.FirstCallShape | server.js:58-67 | the first call carries exactly one human message (preamble + question) and offers every registered tool with `tool_choice: 'auto'` |
| Agent.ExchangeBounds | server.js:64-77 | one or two model calls; a tool runs, exactly once, exactly when a second call is made |
| Agent.NoDispatchOneCall | server.js:69-80 | when no tool call is registered (including absent or empty `tool_calls`), one model call is made, no tool runs, and the first response's content is returned unchanged |
| Agent.DispatchTwoCalls | server.js:70-77 | the first registered call runs its tool once on `args.product_name`; the second call gets exactly [prompt, ToolMessage(result, call.id)] and no tools; its content is the reply |
| Agent.IphoneStockExchange | server.js:70-76 | a single `get_product_stock` call for "iPhone 15" puts the iPhone's formatted row, under the call's id, into the second call |
| Agent.SkipUnregistered | server.js:70-72 | putting calls with unregistered names in front of the list only shifts the index of the dispatched call |
| Agent.SecondResponseToolCallsIgnored | server.js:75-76 | only the `content` of the second response matters; its tool calls change nothing |
| Agent.Chat | server.js:165-176 | a missing or empty message gets 400 and the fixed error without any model call; otherwise 200 with the agent's reply |
| Markup.Bold | server.js:152 | the regular-expression replace; `BoldNoMatch`, `BoldSkip`, `BoldAtMatch`, `BoldLeftmost` and `BoldRoundTrip` state what it does |
| Markup.CloseFrom | server.js:152 | the lazy group closes at the least index with `**` such that no line terminator lies before it; none when no such index exists |
| Markup.BoldNoMatch | server.js:152 | text where no match starts is left unchanged |
| Markup.BoldSkip | server.js:152 | text before the first match is copied through unchanged |
| Markup.BoldAtMatch | server.js:152 | at a match, `**x**` becomes `<strong>x</strong>` and the scan resumes after the closing `**` |
| Markup.BoldLeftmost | server.js:152 | the leftmost match is replaced, closing at the first following `**` on its line; the text before it is kept |
| Markup.BoldRoundTrip | server.js:152 | on text without `<`, turning the tags back into `**` restores the input, so the rewrite loses no text |
| Markup.BoldPlain | server.js:152 | a prefix without `*` passes through the rewrite unchanged |
| Markup.BoldPair | server.js:152 | `**x**`, with no `*` or line break in x, becomes `<strong>x</strong>` |
| Markup.BoldFormat | server.js:44 | rendering a found reply shows the name and `stock وحدة` in bold |

## Left out

- HTTP wiring (Express, routing, JSON encoding, the 500 path, `app.listen`). Only the empty-message guard of `/chat` is modelled.
- The chat-model client (`ChatOpenAI`, its key, URL and temperature). It is replaced by the total function parameter `model`, so a failing model call, which the server answers with 500, is not modelled.
- Promises and `async`/`await`. The exchange is strictly sequential, which is what the code does.
- The SQLite engine itself. The table is a constant sequence and `LIKE` is a pure predicate. `_` matches one Unicode code point; JavaScript strings are UTF-16.
- Database errors other than the pattern-length limit. `Inventory.Lookup` reports an error exactly when `LIKE` rejects the pattern as too long. Other failures of the in-memory database, such as running out of memory, depend on the runtime and are not modelled.
- SqlLike.Like: SQLite reads a pattern and a name only up to their first NUL character. The model compares whole strings, so a query containing `\u0000` is not modelled faithfully after that character.
- JSON value types other than strings. `message` is a string or missing; `args` maps names to strings. A non-object `call.args`, which would throw before the tool runs, is not modelled.
- The HTML page, DOM updates and `fetch` handling. Only the pure bold rewrite is kept. Inserting the markup with `innerHTML` is not modelled.
- `console.error` logging.
- Integer width. Stock is an unbounded `nat`. SQLite stores INTEGER in 64 bits, the driver hands it to JavaScript as a double, and `${n}` switches to exponent form from 10^21 up. None of this is reachable with the four seeded stock values.
- Idempotence of the lookup has no lemma of its own. `Inventory.Lookup` is a function of the query over the constant seeded table, so two calls with the same query give the same reply by construction.
