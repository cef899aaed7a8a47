# AI chat control panel: interaction memory and service registries

This project models an application that drives several AI chat services
(ChatGPT, Claude, Mistral, Gemini) side by side and remembers past exchanges.
Before a message is sent, the remembered exchanges are used to enrich it.

The core is the **interaction memory** of `database.py`. It is a SQLite table
of exchanges. Each exchange holds a user id, a timestamp, the user's message,
the bot's reply and three sentence embeddings stored as JSON text. The memory
supports four operations:

- `save_interaction` appends one exchange together with its three embeddings.
- `get_recent_context` returns the user's newest exchanges in chronological
  order.
- `get_similar_context` ranks the user's embedded exchanges by cosine
  similarity to a query. Rows whose stored embedding cannot be used are
  skipped. It falls back to recent context when the user has no embedded rows.
- `migrate_existing_data` backfills embeddings for legacy rows.

Around the memory sit three small state machines:

- **`app.py`**: the HTTP server's registry from service name to
  `BrowserSession`. Its endpoints start, close, inject, scrape and send.
  Injection builds an *enhanced prompt*: up to three remembered exchanges of
  the web user, followed by the message.
- **`electron-main.js`**: the Electron controller's registry of browser views.
  Each view is laid out in one quadrant of the window under a 200-pixel
  control panel. The controller also quotes a message into the script that
  types it, and shuts down.
- **`desktop_app.py`**: the desktop app's registry of services, each with an
  `enabled` and a `connected` flag. It supports toggling, connecting, a
  broadcast to every active service, timestamped file names, and a lazily
  loaded embedding model.

Several pieces of foreign code are not modelled. They are parameters of the
operations that use them, given as the function-valued fields of
`Memory.Oracles`:

- the sentence-transformer encoder;
- `json.dumps` and `json.loads` of vectors;
- sklearn's cosine similarity.

Other values from outside the program are also passed in as parameters rather
than modelled:

- clock readings;
- what a web page does when a script runs in it;
- the model a `SentenceTransformer(...)` construction returns.

Modules, one per file:

- `Wrappers`: `Option` and `Result`.
- `Maps`: the shared "every other key unchanged" predicate.
- `Text`: Python and SQLite string behaviour:
  - `str.replace` on one character;
  - slicing;
  - `str(int)` and its inverse;
  - the BINARY collation order on TEXT.
- `Ranking`: a stable insertion sort with top-k selection. It serves both
  SQLite's `ORDER BY … LIMIT` and Python's `sort(reverse=True)[:n]`.
- `LazyModel`: the load-once model slot.
- `Memory`: `database.py`.
- `Sessions`: `app.py`.
- `Views`: `electron-main.js`.
- `Desktop`: `desktop_app.py`.

Three points of the code's behaviour shape the model:

- The code never rejects an empty user id or a non-positive `limit`. Only
  `limit > 0` is assumed, as a precondition.
- The migration backfills a row only when both texts are non-empty (Python
  truthiness), not merely non-null.
- Recent rows are ordered by the timestamp **text** under SQLite's BINARY
  collation, not by time.

What becomes of a stored combined embedding inside the `try` block of
`get_similar_context` is one of three outcomes (`Memory.Decoded`): a float
vector, an error the handler catches (`json.JSONDecodeError`, `ValueError`),
so the row is skipped, or a `TypeError` the handler does not catch (valid JSON
that is not numeric), so the whole lookup raises. A table is well formed
(`Memory.WellFormed`) when it holds no embeddings without the embedding
columns.

## Model

| member | source | states |
|---|---|---|
| Memory.Save | database.py:59-78 | Without the embedding columns the insert fails. Otherwise exactly one row is appended and the existing rows are unchanged. The new row holds the user id, the clock text, both texts, and the JSON of the encodings of the user text, the bot text and `"User: "+u+" Bot: "+b`. Its id exceeds every existing id, so increasing ids stay increasing. |
| Memory.MaxId | database.py:34 | Bounds every id in the table, so AUTOINCREMENT can hand out a fresh larger one. |
| Memory.NewerOrSameIsTotalPreorder | database.py:84-86 | `ORDER BY timestamp DESC` on TEXT is a total preorder on rows. |
| Memory.Newest | database.py:84-89 | The user's rows selected by `ORDER BY timestamp DESC LIMIT n`: min(n, count) of them, drawn from the input, in non-increasing timestamp text, and no left-out row newer than a selected one. |
| Memory.RecentRows | database.py:81-93 | `get_recent_context` returns min(limit, number of the user's rows) rows, all of that user. They are the newest ones (no omitted row of the user has a greater timestamp text) and come in ascending timestamp order. |
| Memory.RecentContext | database.py:81-93 | `get_recent_context` returns min(limit, number of the user's rows) lines. Line i is the formatted text of the i-th row `Memory.RecentRows` selects, so the lines are the user's newest exchanges, each from a row of that user, in ascending timestamp order. |
| Memory.Contexts | database.py:92 | Each returned line is `"User: {u} \| Bot: {b}"` of the corresponding row, one line per row, in order. |
| Memory.Score | database.py:113-124 | Every entry of the similarities list comes from a fetched row whose stored vector converts to floats and has the query's non-zero width, and carries the cosine of that vector against the query. |
| Memory.ScoreFollowsRows | database.py:113-124 | The rows of the similarities list are exactly the scorable fetched rows, in the order they were fetched. |
| Memory.ScoreKeepsScorable | database.py:114-124 | Every row that can be scored gets its entry: only failing rows are skipped. |
| Memory.AtLeastAsSimilarIsTotalPreorder | database.py:126 | Descending order by score is a total preorder. |
| Memory.BestFirst | database.py:126-127 | `sort(reverse=True)[:limit]` gives min(limit, hits) hits, sorted best first, with no left-out hit scoring higher and equal scores in input order. |
| Memory.Ranked | database.py:110-127 | The ranked hits are as many as limit and the scorable rows allow, best score first. Each is a scorable row of the user, no scorable row left out scores higher than a returned one, and each class of equal scores keeps the order it has in the scored list (which follows the table, see `Memory.ScoreFollowsRows`). |
| Memory.HitsAreScorableCandidates | database.py:99-124 | Every scored entry comes from a row of the user with a combined embedding that scores. |
| Memory.SimilarContext | database.py:96-130 | Raises exactly when the embedding columns are missing or a stored combined embedding of the user is valid JSON that does not convert to floats; the missing-columns error is reported exactly when the columns are missing. Otherwise every returned line is the formatted text of a row of the requested user, so other users' rows never appear. |
| Memory.FormattedFromUser | database.py:129 | Formatting rows of one user yields lines that each come from such a row. |
| Memory.SimilarFallsBackExactlyWithoutCandidates | database.py:99-130 | When no row of the user has a combined embedding, the result is exactly the recent context. When one has, it is the non-numeric error if a stored embedding of the user raises, and otherwise the formatted ranked rows. |
| Memory.NothingScorable | database.py:113-124 | If no row scores, the similarities list is empty. |
| Memory.AllCorruptGivesNothing | database.py:105-130 | A user with embedded rows none of which scores gets an empty answer (or the non-numeric error if one of them raises), although recent context exists: there is no second fallback. |
| Memory.SaveThenRecall | database.py:59-130 | After saving (u, b) for a user with no history, asking with limit 1 returns exactly `["User: "+u+" \| Bot: "+b]`, provided the stored JSON loads back to the vector and it has the query's width. |
| Memory.RecallOnlyRow | database.py:96-130 | A user whose rows are all one exchange that scores gets exactly that exchange back at limit 1. |
| Memory.OnlyRowOfUser | database.py:99-103 | The candidates of a fresh user after one save are exactly the saved row. |
| Memory.Migrate | database.py:133-171 | On a well-formed table: afterwards the columns exist and the row count and each row's id, user, clock and texts are unchanged. Every row with no combined embedding and two non-empty texts gets all three embeddings. Every other row is untouched. No row still needs a backfill. |
| Memory.MigrateIdempotent | database.py:149-171 | On a well-formed table a second migration changes nothing. |
| Ranking.Filter | database.py:84-86 | The WHERE clause keeps exactly the elements satisfying it, as a sub-multiset; an empty table gives nothing. |
| Ranking.FilterAppend | database.py:99-103 | The WHERE clause keeps table order: filtering a table with one more row appends that row exactly when it satisfies the clause. |
| Ranking.Sort | database.py:126 | The sort is a permutation of its input. |
| Ranking.SortSorted | database.py:126 | Under a total preorder the sort's output is ordered. |
| Ranking.SortStable | database.py:126 | For every tie class, its members appear in the output in exactly their input order (Python's sort is stable). |
| Ranking.Top | database.py:126-127 | Sort then cut: min(k, n) elements, ordered, a sub-multiset of the input, none left out ranking strictly higher, tie classes kept in order. |
| Ranking.TakeOfSortedIsTop | database.py:127 | Cutting a sorted list keeps elements ranking at least as high as everything cut off. |
| Ranking.Reverse | database.py:91 | `rows.reverse()` maps index i to n-1-i and keeps the multiset. |
| Ranking.Take | database.py:127 | `[:k]` is the prefix of length min(k, n). |
| Text.TextLeTotal | database.py:86 | Any two timestamp texts are comparable. |
| Text.TextLeTransitive | database.py:86 | The text order is transitive. |
| Text.TextLeAntisymmetric | database.py:86 | Texts ordered both ways are equal. |
| Text.ReplaceChar | app.py:88 | `replace(':', '-')` keeps length and other characters, and leaves no `:`. |
| Text.Prefix | app.py:379 | `s[:500]` is a prefix of s of length min(500, \|s\|). |
| Text.JoinKeepsElements | app.py:75 | `"\n".join(lines)` holds every line unchanged at its offset, each next one starting after it and one separator. |
| Text.Decimal | app.py:305 | `str(int(time.time()))` is a non-empty string of digits. |
| Text.DecimalRoundTrip | app.py:361 | Parsing the digits back gives the number. |
| LazyModel.Get | desktop_app.py:49-52 | One call constructs a model only when the slot is empty. It returns the cached instance otherwise and always leaves that instance cached. |
| LazyModel.GetEach | app.py:36-40 | A run of calls returns one instance per call and leaves the slot loaded. |
| LazyModel.ConstructedAtMostOnce | database.py:49-53 | Over any number of calls the model is constructed at most once (exactly once from an empty slot), and every call returns the same instance. |
| Sessions.NewSession | app.py:43-49 | A new session carries its service and url, is inactive and has no scrape. |
| Sessions.StartSession | app.py:51-63 | Starting activates the session and changes nothing else. |
| Sessions.CloseSession | app.py:147-153 | Closing always leaves the session inactive and changes nothing else. |
| Sessions.CloseSessionIdempotent | app.py:147-153 | Closing twice is closing once, and starting a closed session is starting it. |
| Sessions.Enhance | app.py:72-76 | The enhanced prompt equals the message exactly when there is no context. Otherwise it is the context header, then the context lines joined by line breaks, then the two line breaks and `Current question: `, then the message. |
| Sessions.EnhanceCarriesContext | app.py:72-76 | Every context line stands unchanged in the enhanced prompt after the header, in the order of the context, each next one after one line break. |
| Sessions.MessageFileName | app.py:88 | The message file name keeps every non-colon character of the timestamp in place, and contains no `:` when the service name has none. |
| Sessions.PrepareMessage | app.py:65-101 | `inject_message` succeeds exactly when the session is active and the similarity lookup for `web_user` does not raise (a raise is caught and reported as failure). The enhanced text is `Sessions.Enhance` of the lines that lookup returns at limit 3, and differs from the message exactly when it returned lines. The record carries the message, service, timestamp and file name. |
| Sessions.ScrapeCurrentData | app.py:107-141 | An inactive session yields None and is unchanged. An active one yields a one-element placeholder for its service and url, whose embedding is the encoding of its full text, and remembers it as the last scrape. |
| Sessions.StartBrowserSession | app.py:232-254 | A missing or empty service or url gives "Missing service or URL" and leaves the registry unchanged. Otherwise the service maps to a fresh active session with the url, the previous session (if any) is returned closed, other entries are unchanged, and registry coherence is kept. |
| Sessions.CloseBrowserSession | app.py:256-264 | A known service is removed, its session closed and "Closed session for X" returned. An unknown one gives "Session not found" with the registry unchanged. |
| Sessions.Guard | app.py:266-274 | The checks run in a fixed order: "Missing service or message" first, then "Browser session not found". Both pass exactly when both values are non-empty and the service is registered. |
| Sessions.InjectMessage | app.py:266-286 | Guard failures are returned first. Injection succeeds exactly when the guards pass, the session is active and the similarity lookup does not raise (columns present, no non-numeric stored embedding of the web user); otherwise the reply is "Failed to inject message". |
| Sessions.InjectFailsOnlyOnLookupError | app.py:266-286 | In a coherent registry, injecting into a known session fails exactly when the similarity lookup raises, in particular whenever the memory lacks its embedding columns. |
| Sessions.ScrapeChatData | app.py:289-323 | The guards come first. A scrape of an active session is saved as `{service}_{secs}.json`. The reply gives the placeholder's title, its one chat element and the length of its full text, and the session now holds exactly `scrape_current_data`'s result as its last scrape. Other sessions are unchanged, and failures leave the registry unchanged. |
| Sessions.ResponseFileName | app.py:361 | The response file name is the service, `_response_`, digits, `.json`. |
| Sessions.ResponseFileNameKeepsTime | app.py:361 | The digits in the response file name parse back to the clock seconds. |
| Sessions.LastReply | app.py:367-373 | The reply text is present exactly when the scrape has chat elements, and is the last element's text. |
| Sessions.RecordReply | app.py:359-369 | The exchange is saved only when the scrape has chat elements. It is saved under "web_user" with the message and the last element's text, appending exactly one row; otherwise the memory is unchanged. |
| Sessions.Deliver | app.py:357-381 | After a successful injection the send succeeds. The scrape is recorded in the session, its last chat element is the reply appended to memory with the message, and the preview is exactly the first 500 characters of that reply. |
| Sessions.SendMessageToAI | app.py:341-381 | The guards come first. Sending succeeds exactly when the session is active and the similarity lookup does not raise. On success it names the response file, appends the exchange whose reply is the last chat element of the stored scrape, previews exactly the first 500 characters of that reply, and keeps the registry coherent. Any failure leaves registry and memory unchanged. |
| Views.Find | electron-main.js:77 | A service is found exactly when some service has that name. |
| Views.FindIn | electron-main.js:77 | The same for any service list. |
| Views.FindKnowsExactlyTheFour | electron-main.js:12-17 | The known names are exactly chatgpt, claude, mistral and gemini. |
| Views.ViewBounds | electron-main.js:129-148 | Width is floor(W/2) and height floor((H-200)/2). Chatgpt, claude, mistral and gemini take the top-left, top-right, bottom-left and bottom-right quadrants. |
| Views.QuadrantsDisjoint | electron-main.js:136-148 | The views of two different services never overlap. |
| Views.QuadrantsInside | electron-main.js:129-148 | With H at least 200, every view lies below the panel and inside the window. The four leave at most one column and one row uncovered. |
| Views.CreateAIView | electron-main.js:75-127 | An unknown name gives "Unknown service: X" and an existing view gives "View already exists", both with no change. A failed load gives its error with no change. Otherwise exactly one view is added with the service's url and quadrant, and the others are unchanged. |
| Views.CreateIdempotent | electron-main.js:82-85 | Once a view exists, creating it again reports so and changes nothing. After a failed load nothing was registered. |
| Views.DestroyAIView | electron-main.js:151-165 | A present view is removed with "X view destroyed" when detaching and destroying it succeed. If either throws, the error's message is returned and the view stays registered. An absent view gives "No view found for X". Every failure leaves the map unchanged. |
| Views.CreateThenDestroy | electron-main.js:75-165 | Creating a new view and destroying it restores the registry. |
| Views.SendMessageToAI | electron-main.js:167-232 | Without a view the reply is "No view found for X". Otherwise the page's outcome decides the reply: the rejection message, "Message sent to X" with the selector, or "Failed to find input element for X". The literal written into the page denotes exactly the message (with the corrected escaping, see Findings). |
| Views.ScrapeAIData | electron-main.js:234-286 | Without a view the reply is "No view found for X". The page's result is returned exactly when a view exists and the script resolves. |
| Views.OnlyCreateAdds | electron-main.js:151-239 | Destroying never adds a view; sending and scraping succeed only for a registered view. |
| Views.Cleanup | electron-main.js:320-336 | After cleanup the view map is empty and no backend process is held. |
| Views.CleanupFinal | electron-main.js:320-336 | Cleanup is idempotent, and afterwards every destroy or send finds no view. |
| Views.EscapeQuotes | electron-main.js:189 | The injected text replaces each `'` by `\'`: the length grows by the number of quotes and no quote stands first. |
| Views.EscapedQuotesArePreceded | electron-main.js:189 | Every quote in the escaped text follows a backslash. |
| Views.UnescapeEscapeQuotes | electron-main.js:189 | Removing the inserted backslashes gives back the message. |
| Views.EscapeQuotesWithoutBackslash | electron-main.js:189 | For a message without backslash or line break, the quoted text denotes exactly the message. |
| Views.QuoteEscapingBreaksLiterals | electron-main.js:189-192 | The quote-only escaping breaks the literal: a lone backslash leaves it unterminated, a line break breaks it, `\n` arrives as a line break, and for the message `\';alert(1);//` the literal holds one backslash, the third character closes it and `;alert(1);//` follows as script. |
| Views.QuoteEndsLiteral | electron-main.js:189-192 | A message of a backslash, a quote and any text without quotes is escaped so that the literal holds one backslash, the third character closes it, and the text follows unchanged as script. |
| Views.InjectedScript | electron-main.js:189-192 | For `\';alert(1);//` the literal closes after one backslash and `;alert(1);//` follows as script. |
| Views.EscapeLiteral | electron-main.js:189-192 | The escaped text is at least as long as the message. |
| Views.EscapeLiteralRoundTrip | electron-main.js:189-192 | With backslashes, quotes and line breaks escaped, the literal denotes exactly the message. |
| Views.LineSeparatorsContinueLines | electron-main.js:189-192 | The reference decoder treats a backslash before U+2028 or U+2029 as a line continuation, which it does not decode. |
| Desktop.Init | desktop_app.py:19-47 | The registry holds chatgpt, claude, mistral and gemini, only chatgpt enabled, none connected, no windows, no model. |
| Desktop.Toggle | desktop_app.py:54-58 | A known id has `enabled` flipped and the new value returned, with nothing else changed. An unknown id returns false and changes nothing. |
| Desktop.ToggleTwice | desktop_app.py:54-58 | Toggling twice restores the state. |
| Desktop.StartAiBrowser | desktop_app.py:60-78 | Returns true exactly for a known id. It records an 800 x 600 window titled "{name} - AI Browser" on the service url and sets `connected`. `enabled` and every other entry are unchanged. |
| Desktop.InteractionFileName | desktop_app.py:93 | The file name is the id, then the timestamp with colons replaced by dashes. It has no `:` when the id has none. |
| Desktop.ScrapeFileName | desktop_app.py:122 | The same for `scraped_{id}_{timestamp}.json`. |
| Desktop.FileNamesKeepTimestamps | desktop_app.py:93-122 | Timestamps that differ outside colon positions give different file names. |
| Desktop.SendMessageToAi | desktop_app.py:80-99 | A record is written exactly when the service is known and enabled. It carries the id, message, timestamp, simulated response and file name. |
| Desktop.SendMessageToAllActive | desktop_app.py:101-106 | The result's keys are exactly the services both enabled and connected, and every value is true. |
| Desktop.StartThenBroadcast | desktop_app.py:60-106 | Opening the window of an enabled service makes the broadcast reach it. In a valid state every service the broadcast reaches has its window open. |
| Desktop.ToggleThenSend | desktop_app.py:54-99 | After a toggle, a direct send to that service succeeds exactly when the toggle returned true. |
| Desktop.EmbeddingModel | desktop_app.py:49-52 | The app's model slot ends up holding the returned instance. An already loaded model is returned as is. |
| Desktop.ScrapeAiData | desktop_app.py:108-128 | An unknown id raises before the model is touched. A known one returns its scrape content, embedded with the app's model, which is loaded once. Services and windows are unchanged. |
| Desktop.ScrapesShareOneModel | desktop_app.py:108-128 | Two scrapes in a row embed with the same model instance, the first one building it if needed. |
| Desktop.OperationsKeepValid | desktop_app.py:19-128 | The initial state is valid, and toggling, opening a window, loading the model and scraping keep it valid. A valid state has exactly the four services registered, and every connected service has its window open on the service's url. |

## Findings

| source | as written | input that shows it | evidently intended | confidence | as-written member | corrected member |
|---|---|---|---|---|---|---|
| electron-main.js:189-192 | The message is placed between single quotes in the injected script with only `'` escaped as `\'`. | The message `\` leaves the literal unterminated. A message with a line break is a syntax error. The two characters `\n` arrive as a line break. `\';alert(1);//` closes the literal after one backslash, so `alert(1)` runs as script. | The input element receives the message text unchanged. | high; not executed | Views.EscapeQuotes, Views.QuoteEscapingBreaksLiterals | Views.EscapeLiteral, Views.EscapeLiteralRoundTrip |

`Views.SendMessageToAI` writes the message with the corrected escaping. The
behaviour as written is `Views.EscapeQuotes`: it is correct only for messages
without backslashes and line breaks (`Views.EscapeQuotesWithoutBackslash`).

## Left out

- Which stored JSON converts to floats, is skipped by the handler or raises a `TypeError` past it is decided by the `loads` field of `Memory.Oracles`: numpy's and sklearn's conversion rules are not modelled.
- Rows with a NULL `user_id` or `timestamp` are not representable. Every insert of the program supplies both; only a table written by other code could hold them.
- Sentence-transformer inference, JSON (de)serialisation of vectors and sklearn's cosine similarity are floating-point numerics in foreign libraries. They are the uninterpreted fields of `Memory.Oracles`.
- SQL text, connection handling, `init_db` (the fresh table is `Memory.Empty`) and thread-safety flags are left out. The order SQLite returns among rows with equal timestamps is unspecified; `Memory.RecentRows` promises nothing about it.
- File writes and reads, `json.dump`, printing and logging are left out, and so are their failures. The records they would write are returned instead.
- HTTP routing, CORS, the `/health` and `/get_browser_sessions` GET handlers, `get_scraped_files`, `consolidate_storage_files`, the signal handler and `main` are left out. They are request plumbing and filesystem listing with no state of the registries.
- `time.sleep(5)` in `send_message_to_ai` and all concurrency are left out. The model assumes no other request changes the memory between injection and save, which is why `Sessions.Deliver` may require the columns.
- Request fields are modelled as optional strings. Non-string JSON values for `service`, `url` or `message` are left out.
- `BrowserSession.driver` and `window_handle` are always None and are not modelled. The same goes for `_inject_message_by_site` and `_scrape_by_site`, which are never called.
- The failure branch of `start_browser_session` is left out because `start_session` cannot raise.
- Page scripts are not modelled: the selector search for an input element and the DOM walk that collects chat messages. Their outcomes are parameters (`Views.PageOutcome`, `Views.PageScrape`).
- `createMainWindow`, IPC wiring, `startPythonBackend` and `get-python-status` are left out. So is the list of views attached to the main window: a view whose page fails to load stays attached but is not registered. Automatic resizing after creation is left out as well.
- Views.DecodeLiteral: numeric, hexadecimal, unicode and line-continuation escapes (a backslash before a line break, U+2028 or U+2029) of JavaScript string literals are reported as `Unmodelled` rather than decoded. Neither escaping function produces them.
- `SendMessageToAllActive` computes each service's result with one clock reading. The source reads the clock once per service, which only changes the names of the files written.
- `get_api_data`, the HTML interface of `desktop_app.py`, `create_main_window` and the webview event loop are left out.
- A failing `SentenceTransformer(...)` construction (model download) is left out. Construction always yields the given instance.
