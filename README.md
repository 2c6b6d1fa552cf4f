# Asset-Investment-Website server core, in Dafny

A model of the decision and transformation rules of `server.js`, the
Express back end of the site, with proofs of what those rules promise:

- `convertAVTime`, which rewrites Alpha Vantage's `time_published`
  (ISO 8601 basic format, `YYYYMMDDThhmmss`) into the extended format
  `YYYY-MM-DDThh:mm:ss` of section 4.3.2 of ISO 8601:2004 by cutting fixed
  fields with JavaScript's clamping `substring` (module `AVTime`, over
  `JsText.Substring`);
- the `GET /api/news` end handler, which turns the parsed provider body into
  either a 502 answer with an error message or one article per feed item
  (module `News`);
- `detectPython`, a first-match search over `python`, `python3`, `py` using a
  `--version` probe (module `Interpreter`, an imperative loop);
- the `POST /run-quiz` handler: answer validation (400), missing interpreter
  (500), the single line written to the child's standard input, the two
  append-only output buffers (a class `CapturedOutput` whose methods append
  one chunk), and the close rule that maps exit code, standard output and
  standard error to the answer (module `Quiz`).

JSON values are a datatype (`JsValues.Json`) and `undefined` is `None`.
Property reads, truthiness and `||` follow JavaScript: reading a property of
`null` throws a `TypeError`, and everything the news handler throws is
answered as `Bad response from news provider`. Outside effects are
parameters: the clock reading `now`, the probe `probe(commandLine)` that
stands for `execSync` succeeding, the serialiser `stringify` that stands for
`JSON.stringify`, the sequence of `'data'` events of the child and how it
terminated, and the provider body already parsed (or the parse failure, or a
network error).

Behaviour the code has and the model keeps:
- a `time_published` that is truthy but not a string has no `substring`
  method, so the whole news answer becomes the 502 bad-response answer;
- a truthy `feed` that is not an array (no `map`) and a parsed `null` body
  give the same answer;
- the `'Error Message'` value is passed through whatever JSON value it is;
- `userAnswers.length !== 5` also lets through a five-character string and an
  object whose `length` field is the number 5;
- the exit code reported on `'close'` is `null` when a signal ended the
  child, so the message then reads `... exited with code null`.

Further facts of `server.js` the model follows: it has no `/chat` handler,
so no chat rule is modelled; each article carries a `content` field equal to
its `description` (server.js:78); the answers must pass the five-answer check
at server.js:109 before anything else happens; and `spawn` at server.js:124
is given only the script path, with no `env` and no interpreter flags.

## Model

| member | source | states |
|---|---|---|
| JsText.Substring | server.js:38-44 | `substring` never fails; for indices in order its result is the slice between the indices clamped to the string's end, exactly `end - start` characters when both are in range |
| JsText.SubstringSymmetric | server.js:38-44 | `substring` gives the same result with its two indices swapped |
| JsText.ConcatAppend | server.js:129-130 | accumulating chunks with `+=` is append-only: the text of `a + b` is the text of `a` followed by the text of `b` |
| JsText.NatToDecimal | server.js:140 | the numeral written for a natural number is non-empty, all digits, with no leading zero except for 0 |
| JsText.NatToDecimalRoundTrip | server.js:140 | reading the numeral of `n` back as a decimal gives `n` |
| JsText.IntToDecimal | server.js:140 | `${code}` for an integer is the shortest numeral: `-` exactly when it is negative, then digits with no leading zero for either sign except for 0 itself |
| JsText.IntToDecimalRoundTrip | server.js:140 | reading `${n}` back gives `n` for every integer |
| JsValues.Truthy | server.js:37 | the truth tests of `!x` and of the `or` operator (also at lines 65, 75, 109, 138): a truthy value is defined and not `null`; every array and object is truthy |
| JsValues.Lookup | server.js:73-78 | a property read on a non-null parsed value is defined exactly for an own field of an object, and gives that field |
| JsValues.Get | server.js:62-65 | a property read throws exactly on `null`, and otherwise is the plain lookup |
| JsValues.Or | server.js:66 | JavaScript's `or` operator gives its left operand when that is truthy and its right operand otherwise |
| AVTime.Reformat | server.js:38-47 | the substring template gives between 5 and 19 characters and starts with the input's first four characters (clamped) |
| AVTime.ConvertAVTime | server.js:36-48 | a falsy argument gives the supplied clock reading unchanged; the call throws exactly for a truthy non-string; a non-empty string gives the reformatted text |
| AVTime.FieldOfField | server.js:41-44 | cutting a sub-range out of the clamped time part equals cutting the shifted range out of the input |
| AVTime.ReformatFields | server.js:38-47 | each output field is the input slice at a fixed offset (0-4, 4-6, 6-8, 9-11, 11-13, 13-15), clamped to the input's end, between the separators `-`, `-`, `T`, `:`, `:` |
| AVTime.ReformatLength | server.js:38-47 | any input, however short, gives the five separators plus the clamped field lengths, never an error |
| AVTime.ExtendedLayout | server.js:38-47 | a 15-character input gives 19 characters with `-` at 4 and 7, `T` at 10, `:` at 13 and 16, and the digits copied verbatim from input positions 0-7 and 9-14 |
| AVTime.ReformatAt | server.js:38-47 | for a 15-character input, every input character except index 8 appears verbatim at its fixed place in the output |
| AVTime.SkipsIndexEight | server.js:38-41 | the character at input index 8 never influences the result |
| AVTime.CompactRoundTrip | server.js:38-47 | for a 15-character input the result is an extended timestamp, and deleting its separators gives the input back exactly when input index 8 is `T` |
| AVTime.ExtendedRoundTrip | server.js:38-47 | converting the basic form of any extended timestamp restores that timestamp |
| AVTime.StripRoundTrip | server.js:38-47 | for a well-formed basic timestamp, removing every `-` and `:` from the result reproduces the input |
| AVTime.FalsyGivesNow | server.js:37 | an absent, null, empty, false or zero `time_published` gives the clock reading unchanged |
| AVTime.ConvertExample | server.js:35-47 | `20240115T093000` becomes `2024-01-15T09:30:00` |
| News.Reshape | server.js:72-79 | an item reshapes exactly when it is not null and its `time_published` converts; title and url are copied, description and content are both the summary |
| News.ReshapeFeed | server.js:72-79 | the map succeeds exactly when every item reshapes, and then keeps the feed's length and order, item by item |
| News.HandleNews | server.js:60-91 | a network error gives 502 `Error fetching news`, a parse failure 502 `Bad response from news provider` |
| News.BadGatewayExactly | server.js:57-91 | the route answers 502 exactly when the fetch failed, the parse failed, the body is `null`, `feed` is falsy, `feed` is not an array, or reshaping an item throws |
| News.MissingFeed | server.js:65-69 | any non-null parsed body (object, array, string, number or boolean) whose `feed` is falsy or absent gives 502 with its truthy `Error Message`, else `Invalid response from Alpha Vantage` |
| News.UnreadableBody | server.js:61-86 | a parsed `null`, or a truthy `feed` that is not an array, gives 502 `Bad response from news provider` |
| News.ItemThrows | server.js:72-85 | a feed array with an item that throws (a `null` item, or a truthy non-string `time_published`) gives 502 `Bad response from news provider` |
| News.ArticlesFollowFeed | server.js:72-81 | with an array `feed`, articles come back exactly when every item reshapes; they then match the feed one for one with `source.name` the item's truthy `source` or `Alpha Vantage`, `publishedAt` the converted `time_published`, description and content the summary |
| News.NewsExample | server.js:72-81 | the one-item example feed gives one article with `publishedAt` `2024-01-01T12:00:00` and `source.name` `S` |
| Interpreter.FirstResponding | server.js:95-103 | what the search returns is one of the candidates, and its version probe succeeded |
| Interpreter.FirstRespondingIsFirst | server.js:94-104 | the search finds nothing exactly when every probe fails; what it finds responds and every earlier candidate failed |
| Interpreter.DetectPython | server.js:94-104 | the loop returns the first candidate in list order whose `--version` probe succeeds, every earlier probe having failed, and `null` exactly when all three fail |
| Interpreter.OnlyLastResponds | server.js:95-103 | when only `py` responds, `py` is chosen |
| Quiz.LengthOf | server.js:109 | `.length` is defined only for strings, arrays and objects, and for strings and arrays it is their number of elements |
| Quiz.HasFiveAnswers | server.js:109 | the check passes only for a defined string, array or object, and always for a five-element array |
| Quiz.HasFiveAnswersExactly | server.js:107-111 | validation passes exactly for a five-element array, a five-character string, or an object whose `length` is the number 5 |
| Quiz.StdinPayload | server.js:149-150 | the child's standard input receives the serialised answers followed by one line break |
| Quiz.PayloadIsOneLine | server.js:122-149 | a serialisation without line breaks reaches the child as exactly one line, ended by the only line break |
| Quiz.CodeText | server.js:140 | `${code}` is `null` for a null code, and otherwise a numeral that reads back to the code |
| Quiz.CloseOutcome | server.js:137-146 | the answer is 500 exactly when the exit code is not 0 or standard error is non-empty; the error body starts with the fixed header and ends with the captured standard output; success is 200 with exactly the standard output |
| Quiz.StderrIsTheMessage | server.js:138-141 | non-empty standard error is the message, even with exit code 0 |
| Quiz.ExitCodeIsReported | server.js:138-141 | a non-zero exit with empty standard error gives `Python script exited with code N` as message, and `N` reads back to the code |
| Quiz.NullCodeIsReported | server.js:138-141 | a child ended by a signal (code `null`) with empty standard error gives 500 with `Python script exited with code null` |
| Quiz.ExitThreeExample | server.js:138-141 | exit code 3 with empty standard error gives `Python script exited with code 3` |
| Quiz.ChunksAppend | server.js:129-130 | the chunks of one stream over two consecutive event runs are those of the first run followed by those of the second |
| Quiz.CapturedOutput.constructor | server.js:126-127 | both buffers start empty, with no chunks received |
| Quiz.CapturedOutput.AppendStdout | server.js:129 | `stdout += chunk` extends standard output by the chunk and leaves standard error as it was |
| Quiz.CapturedOutput.AppendStderr | server.js:130 | `stderr += chunk` extends standard error by the chunk and leaves standard output as it was |
| Quiz.Capture | server.js:126-130 | after the events, each buffer is the concatenation of its own stream's chunks in arrival order |
| Quiz.CaptureIsAppendOnly | server.js:126-130 | later output only extends what a buffer already holds |
| Quiz.RunQuiz | server.js:106-151 | invalid answers give 400 and start nothing; a missing interpreter gives 500 and starts nothing; otherwise the found interpreter is started on the script with the serialised answers and a line break as input, and the answer is the start failure or the close rule over the collected buffers |

## Left out

- Express setup, the static and redirect routes and `app.listen` (server.js:7-33, 153-154): framework glue without decisions.
- The `https.get` request, the URL with the API key and the `limit` default, and the `+=` accumulation of the provider body (server.js:51-59): network I/O; the model starts from the parsed body, a parse failure, or a network error.
- `JSON.parse` and `JSON.stringify`: the parse result is an input and `stringify` a parameter; the order in which the answer's keys are serialised and the dropping of `undefined` fields are not modelled.
- Process execution: `execSync` is the parameter `probe`, assumed to answer the same way for the same command line; `spawn` is not executed, and only its inputs (command, arguments, standard input) are recorded.
- The interleaving of `'error'` and `'close'`: a child that fails to start is modelled as `'error'` alone; Node may also emit `'close'` afterwards, which would make the handler send a second answer.
- The per-call clock: `new Date().toISOString()` is read once per item in the source and is one parameter `now` here.
- Decoding of output chunks (`chunk.toString()`): chunks arrive already decoded, so a multi-byte character split across two chunks is not modelled.
- String lengths are counted in Dafny characters, not UTF-16 code units, so `length` of a string outside the Basic Multilingual Plane differs from JavaScript's.
- `${code}` is modelled for integers in plain decimal; JavaScript's exponent form for magnitudes of 10^21 and more is not.
- Property reads only see an object's own fields; properties the built-in prototypes supply are not modelled, except `length`, `substring` and `map`, which the model decides by the value's kind: `LengthOf` gives `length` for strings, arrays and objects, only a string has `substring` (`ConvertAVTime`), and only an array has `map` (`HandleNews`).
- How `req.body.answers` is extracted from the request: the value of `answers` is an input.
- Console logging throughout.
- The `/chat` route: it has no handler in `server.js`. `chatbot.py` is not part of this model (one HTTP call around a stdin reader), nor are `test_ai.py` and `test-api.js` (client scripts without logic).
