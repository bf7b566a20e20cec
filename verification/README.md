# Superlog core, modelled in Dafny

Superlog is a structured-logging package for Laravel. Every log call
becomes an entry with the same shape:

- a timestamp, the trace id of the unit of work, a zero-padded request
  sequence number and the span id of the section;
- the upper-cased level, the bracketed section and the message;
- the caller's context and (when non-empty) metrics;
- a correlation snapshot.

Each entry is masked by the redaction processor, bounded by the payload
processor, and rendered as JSON or as a one-line text form. On top of
`log` sit wrappers for the request lifecycle (startup, middleware,
database, outbound HTTP, cache, shutdown). A model-query processor turns
an Eloquent model event followed by a query into a debug entry. An
external handler batches records for asynchronous shipping.

The model is pure. PHP arrays are sequences of key/value pairs (`Values`).
The process-wide trace-id slots, the span cache, the sequence counter and
the batch buffer are explicit state records. Each operation returns the new
state next to its result.

Modules, one per source class:

- `Strings`, `Values`: the PHP string and array semantics the code relies
  on. These include truthiness, `stripos`, `str_pad`, `explode`,
  `array_merge`, `array_slice`, `empty` and `??`.
- `Redaction`: RedactionProcessor.
- `Payload`: PayloadProcessor.
- `Correlation`: CorrelationContext.
- `Logger`: StructuredLogger. Each wrapper is modelled as the `Call` it
  passes to `log`.
- `ModelQuery`: ModelQueryProcessor.
- `ExternalHandler`: ExternalLogHandler.

What the host supplies is passed in as parameters:

- fresh UUIDs;
- the clock (a timestamp string, integer milliseconds, or the text of a
  float duration);
- `json_encode`, as two functions from values to strings: one for the flags of the JSON format (unescaped slashes and Unicode, line 317 of StructuredLogger.php) and one for the text line (unescaped slashes only, line 368);
- the email filter;
- the session store;
- the peak memory, included-file count and opcache state.

## Model

| member | source | states |
|---|---|---|
| Redaction.New | src/Processors/RedactionProcessor.php:11-19 | a configured mask_char is the mask, otherwise '*'; a pattern is used exactly when it is a configured pattern or a custom key |
| Redaction.SensitiveKeyMeaning | src/Processors/RedactionProcessor.php:73-91 | a key is sensitive iff some pattern occurs in it ignoring case, or smart detection is on and the lower-cased key starts with password, passwd, pwd, secret, token, auth, api_key or key |
| Redaction.DefaultCustomKeysMaskEveryKey | config/superlog.php:84 | with the shipped default custom_keys (the split of an empty string, one empty pattern) every key of every array is sensitive |
| Redaction.NewSkippingEmpty | src/Processors/RedactionProcessor.php:15-18 | the corrected constructor: a configured mask_char is the mask, otherwise '*'; a pattern is used iff it is non-empty and configured |
| Redaction.DefaultCustomKeysAddNothing | src/Processors/RedactionProcessor.php:77-81 | with empty patterns dropped, the default custom key list changes no key's sensitivity |
| Redaction.MaskValue | src/Processors/RedactionProcessor.php:123-145 | non-strings become the mask; strings of length at most 2 become the mask repeated once per character (in either mode); longer strings become [REDACTED] in remove mode, otherwise the first character, the mask repeated once per inner character, and the last character, for a mask string of any length |
| Redaction.MaskIdempotent | src/Processors/RedactionProcessor.php:123-145 | with a one-character mask, masking a masked value changes nothing |
| Redaction.RedactPair | src/Processors/RedactionProcessor.php:55-64 | a sensitive key masks the whole value, arrays included; otherwise an array becomes the redaction of its own pairs (same keys), a sensitive-looking string is masked, and everything else is unchanged |
| Redaction.RedactArray | src/Processors/RedactionProcessor.php:51-68 | every pair keeps its key and position and gets the per-pair rule |
| Redaction.NoSmartDetectionKeepsScalars | src/Processors/RedactionProcessor.php:96-100 | without smart detection, a scalar under a non-matching key passes through untouched |
| Redaction.CardNumberMeaning | src/Processors/RedactionProcessor.php:107-110 | for a string without a newline, the card test holds iff every character is a digit or a space and there are 13 to 19 digits |
| Redaction.BearerTokenMeaning | src/Processors/RedactionProcessor.php:112-115 | the bearer test holds iff the string starts with Bearer, then one or more white-space characters, then a letter, digit, '-', '_' or '.' |
| Redaction.CardNumberMasked | src/Processors/RedactionProcessor.php:96-110 | with smart detection on, a card number of 13 to 19 digits, spaces allowed, is masked under any key |
| Redaction.RedactArrayIdempotent | src/Processors/RedactionProcessor.php:51-68 | with a one-character mask, redacting an array twice is redacting it once |
| Redaction.Process | src/Processors/RedactionProcessor.php:24-46 | disabled: the entry is returned as is; enabled: keys and order are kept and only context, metrics and correlation can change |
| Redaction.ProcessAt | src/Processors/RedactionProcessor.php:30-43 | position by position, exactly the context, metrics and correlation fields that hold arrays are replaced by their redacted form |
| Redaction.ProcessIdempotent | src/Processors/RedactionProcessor.php:24-46 | with a one-character mask, processing an entry twice is processing it once |
| Payload.TruncateString | src/Processors/PayloadProcessor.php:67-76 | a string within max_string_length (default 5000) is kept; a longer one becomes its prefix of that length followed by [TRUNCATED]; a negative limit marks every string after dropping that many characters from its end |
| Payload.TruncateIdempotent | src/Processors/PayloadProcessor.php:67-76 | truncating a truncated string changes nothing |
| Payload.ProcessValue | src/Processors/PayloadProcessor.php:33-93 | past max_array_depth (default 10) the value becomes [MAX_DEPTH_REACHED]; otherwise strings are truncated, an array becomes its children processed one level deeper (same keys), resources become [RESOURCE], files become a file summary, other traversables an unknown_resource summary, and scalars and objects are kept |
| Payload.ProcessArray | src/Processors/PayloadProcessor.php:45-51 | each child keeps its key and is processed one level deeper |
| Payload.ProcessArrayKeepsUntouched | src/Processors/PayloadProcessor.php:45-93 | an array within the depth limit whose values are scalars, objects or short strings comes out unchanged |
| Payload.ProcessValueBoundsNesting | src/Processors/PayloadProcessor.php:35-50 | whatever the input, the output nests arrays at most max_array_depth + 1 levels deep |
| Payload.Process | src/Processors/PayloadProcessor.php:17-28 | keys and order are kept; every field other than context and metrics, correlation included, is unchanged |
| Payload.ProcessAt | src/Processors/PayloadProcessor.php:19-25 | a set context or metrics value is replaced by its processed form from depth 0; an unset one is kept |
| Correlation.SetTraceId | src/Utils/CorrelationContext.php:28-45 | a tmp/ id fills only the temporary slot; any other id becomes the permanent id and, if a temporary id was held, moves it to the replaced slot and clears it |
| Correlation.GetTraceId | src/Utils/CorrelationContext.php:50-65 | the permanent id if set, else the temporary id if set, else a fresh tmp/ id that is stored; never empty |
| Correlation.GetTraceIdStable | src/Utils/CorrelationContext.php:50-65 | a second read returns the same id and changes nothing |
| Correlation.PermanentSurvivesTemporary | src/Utils/CorrelationContext.php:28-65 | after any number of temporary ids, reads still return the permanent id |
| Correlation.UpgradeRecordsReplaced | src/Utils/CorrelationContext.php:36-41 | a permanent id set over a held temporary id is what reads return, and the temporary id is remembered as replaced |
| Correlation.LaterPermanentWins | src/Utils/CorrelationContext.php:33-34 | a later permanent id overwrites an earlier one |
| Correlation.Method | src/Utils/CorrelationContext.php:87-90 | the request method, or UNKNOWN when never set |
| Correlation.Path | src/Utils/CorrelationContext.php:104-107 | the path, or / when never set |
| Correlation.ClientIp | src/Utils/CorrelationContext.php:121-124 | the client address, or UNKNOWN when never set |
| Correlation.SetMethod | src/Utils/CorrelationContext.php:78-82 | the method is recorded and nothing else changes |
| Correlation.SetPath | src/Utils/CorrelationContext.php:95-99 | the path is recorded and nothing else changes |
| Correlation.SetClientIp | src/Utils/CorrelationContext.php:112-116 | the client address is recorded and nothing else changes |
| Correlation.AccessorsReadSetters | src/Utils/CorrelationContext.php:78-124 | a fresh context reads UNKNOWN, / and UNKNOWN; each getter returns what its setter stored, the other getters and the span cache are unaffected |
| Correlation.GetOrCreateSpanId | src/Utils/CorrelationContext.php:129-135 | a cached section keeps its id and the context; a new section gets the fresh id, cached, and no other entry changes |
| Correlation.SpanIdStable | src/Utils/CorrelationContext.php:129-135 | asking again for a section returns the same id, whatever fresh id is offered |
| Correlation.SpanRunDistinct | src/Utils/CorrelationContext.php:129-135 | given distinct fresh ids, different sections never share a span id |
| Correlation.ToArray | src/Utils/CorrelationContext.php:153-162 | the snapshot holds trace_id (as a read returns it), method, path, client_ip and request_duration_ms (the given duration), in that order |
| Logger.ReqSeq | src/Logger/StructuredLogger.php:81 | for counters below 10^10, ten decimal digits whose value is the counter; 1 gives 0000000001 |
| Logger.ReqSeqInjective | src/Logger/StructuredLogger.php:81 | different counters in range give different sequence numbers |
| Logger.InitializeRequest | src/Logger/StructuredLogger.php:42-65 | a true non-temporary id becomes permanent; a missing or false id is replaced by a fresh permanent one; a temporary id leaves the slots alone; method, path and address are set; the counter becomes the stored value plus one and is stored back |
| Logger.AdoptedTraceIdIsRead | src/Logger/StructuredLogger.php:45-46 | after adopting a permanent id, every later read returns it |
| Logger.CounterCountsRequests | src/Logger/StructuredLogger.php:58-62 | requests initialised one after another in a session numbered k are counted k+1, k+2, …: after n of them counter and stored value are k + n (n in a fresh session) |
| Logger.EntryKeys | src/Logger/StructuredLogger.php:85-101 | an entry has 10 keys with metrics and 9 without, context at position 7 and correlation last |
| Logger.Log | src/Logger/StructuredLogger.php:70-115 | disabled: an empty entry and no state change; enabled: the entry's keys in order, the first seven values (timestamp, trace id, padded counter, span id, upper-cased level, bracketed section, message), the counter unchanged, the span cache and slots as the reads leave them |
| Logger.Shape | src/Logger/StructuredLogger.php:103-109 | redaction then payload shaping keep the keys and touch only context, metrics and correlation |
| Logger.ContextRedactedThenBounded | src/Logger/StructuredLogger.php:103-109 | each context value of the entry is its redacted form, then payload-processed at depth 1 |
| Logger.CorrelationAgreesWithEntry | src/Logger/StructuredLogger.php:87-101 | unless redaction flags it, the correlation block's trace_id equals the entry's trace_id |
| Logger.LoggedEntryUnique | src/Logger/StructuredLogger.php:85-101 | a logged entry never repeats a key |
| Logger.ContextStaysArray | src/Logger/StructuredLogger.php:93-109 | the context (and metrics when present) of a logged entry stay arrays |
| Logger.StartupCalls | src/Logger/StructuredLogger.php:146-174 | two info STARTUP calls: the URL line, then each request field under its own name with its value or null (user agent and query string only when configured), then the payload size |
| Logger.MiddlewareStartCall | src/Logger/StructuredLogger.php:179-188 | an info MIDDLEWARE-START call with the name in the message and the request id as the only context |
| Logger.MiddlewareEndCall | src/Logger/StructuredLogger.php:193-207 | an info MIDDLEWARE-END call, message ending in SUCCESS, no context |
| Logger.MiddlewareEndMetrics | src/Logger/StructuredLogger.php:195-198 | an extra metric overrides duration_ms or response_status of the same name; otherwise the base value stays |
| Logger.DatabaseCall | src/Logger/StructuredLogger.php:212-227 | counters default to 0, slow_queries_count is the full count, and the context holds at most five slow queries, present iff bindings are captured and there are slow queries |
| Logger.DatabaseKeepsFirstFive | src/Logger/StructuredLogger.php:221-224 | for a list of slow queries the context holds the first five, in order, renumbered from 0 |
| Logger.HttpOutCall | src/Logger/StructuredLogger.php:232-242 | an info HTTP-OUT call with message "HTTP method url - status" and no context |
| Logger.HttpOutMetrics | src/Logger/StructuredLogger.php:234-239 | extra metrics override method, url, status or duration_ms of the same name; otherwise the base value stays |
| Logger.CacheCall | src/Logger/StructuredLogger.php:247-257 | hits, misses, sets and duration_ms, each the statistic when set and 0 otherwise |
| Logger.HostMetrics | src/Logger/StructuredLogger.php:270-280 | exactly the host facts the configuration asks for, in order; memory_peak_mb, included_files_count and opcache_enabled carry the host's figures when configured and are absent otherwise |
| Logger.ShutdownCall | src/Logger/StructuredLogger.php:262-287 | request_ms, response_status and response_bytes (0 when not set), then the host facts asked for, then queue_jobs_dispatched exactly when it is not empty |
| Logger.EmitCarriesMetrics | src/Logger/StructuredLogger.php:85-109 | with redaction off, the metrics a wrapper passes reach the entry unchanged when nothing in them needs bounding |
| Logger.EmitCarriesContext | src/Logger/StructuredLogger.php:85-109 | likewise for the context |
| Logger.StartupLogged | src/Logger/StructuredLogger.php:146-174 | the URL entry has no metrics and reads URL: and the URL; the request entry's metrics are the reported fields in order, then the payload size |
| Logger.MiddlewareStartLogged | src/Logger/StructuredLogger.php:179-188 | the entry has no metrics, section [MIDDLEWARE-START] and the name in the message |
| Logger.MiddlewareStartContextLogged | src/Logger/StructuredLogger.php:179-188 | the entry's context is the request id and nothing else |
| Logger.CacheStatisticsLogged | src/Logger/StructuredLogger.php:247-257 | the CACHE entry's metrics are hits, misses, sets and duration_ms in that order, each the statistic or 0 |
| Logger.ShutdownMetricsLogged | src/Logger/StructuredLogger.php:262-287 | the SHUTDOWN entry's metrics are named as configured and open with request_ms, response_status and response_bytes, each the given figure or 0 |
| Logger.TraceText | src/Logger/StructuredLogger.php:340-350 | the entry's trace id, unless it is empty, unknown or N/A, in which case the fallback |
| Logger.SeqText | src/Logger/StructuredLogger.php:352-355 | the entry's sequence number, the padded counter when it is empty or "0", 0000000000 when missing |
| Logger.Header | src/Logger/StructuredLogger.php:361 | the header is never empty and opens with '[' |
| Logger.FormatAsText | src/Logger/StructuredLogger.php:327-369 | empty line iff message, context and metrics are all empty; otherwise the header, followed by the merged context and metrics in the slash-preserving encoding of line 368 only when either is non-empty |
| Logger.FormatLogEntry | src/Logger/StructuredLogger.php:314-322 | JSON format renders the whole entry with the slash- and Unicode-preserving encoding of line 317; text format is empty iff the entry is blank, else it opens with '[' |
| Logger.LoggedEntryRendersItsIds | src/Logger/StructuredLogger.php:327-361 | the text line of a logged entry begins with a header carrying that entry's timestamp, level, trace id, sequence number, section and message |
| ModelQuery.VerbOf | src/Processors/ModelQueryProcessor.php:40-50 | the seven event names map to insert, update, delete, select, save, restore, forceDelete; any other name is kept |
| ModelQuery.EventVerb | src/Processors/ModelQueryProcessor.php:31-34 | as written: the verb of the text after the first colon, or of the whole name when there is none |
| ModelQuery.EventVerbTakesClassName | src/Processors/ModelQueryProcessor.php:31-34 | for every framework event name `eloquent.<event>: <class>` the verb read as written is the class name with its leading space, whatever the event |
| ModelQuery.ModelEventVerb | src/Processors/ModelQueryProcessor.php:31-50 | the corrected verb: the event name before the colon, without the eloquent. prefix, mapped |
| ModelQuery.ModelEventVerbReadsEvent | src/Processors/ModelQueryProcessor.php:31-50 | for every name eloquent.e: Class, the corrected verb is the mapped e |
| ModelQuery.EventContext | src/Processors/ModelQueryProcessor.php:26-54 | as written: a context is stored iff the first payload is a model, with its basename and the verb read after the colon |
| ModelQuery.EventContextStoresClassName | src/Processors/ModelQueryProcessor.php:26-54 | as written, for every framework event name the stored verb is the class name with its leading space |
| ModelQuery.EventContextIntended | src/Processors/ModelQueryProcessor.php:26-54 | corrected: stored iff the first payload is a model, with its basename and the mapped event name |
| ModelQuery.EventContextIntendedStoresVerb | src/Processors/ModelQueryProcessor.php:26-54 | corrected, for every framework event name eloquent.e: Class the stored verb is the mapped e |
| ModelQuery.RecordCount | src/Processors/ModelQueryProcessor.php:101-120 | select: 1 if "limit 1" occurs (any case), else (multiple); insert: value groups for bulk inserts, else 1; update or delete: (affected); anything else 0; never negative |
| ModelQuery.LimitTenCountsAsOne | src/Processors/ModelQueryProcessor.php:108 | a select with limit 10 is counted as one record |
| ModelQuery.BulkInsertCountsGroups | src/Processors/ModelQueryProcessor.php:111-116 | a bulk insert with a "),(" separator counts at least two records |
| ModelQuery.AddSlashesRoundTrip | src/Processors/ModelQueryProcessor.php:163-164 | stripping the slashes from an escaped binding gives it back |
| ModelQuery.AddSlashesGuardsQuotes | src/Processors/ModelQueryProcessor.php:163-164 | every quote in an escaped binding is preceded by a backslash |
| ModelQuery.AddSlashesPlain | src/Processors/ModelQueryProcessor.php:163-164 | a binding without quotes, backslashes or NUL is kept as is |
| ModelQuery.Render | src/Processors/ModelQueryProcessor.php:157-166 | null shows NULL, booleans TRUE/FALSE, strings quoted and escaped, other values their string form |
| ModelQuery.EscapeThenFormat | src/Processors/ModelQueryProcessor.php:155-168 | escaping % and ? and then formatting equals replacing each ? by the next argument, left to right |
| ModelQuery.SubstituteDefined | src/Processors/ModelQueryProcessor.php:168 | formatting succeeds iff there are at least as many bindings as placeholders |
| ModelQuery.FormatSql | src/Processors/ModelQueryProcessor.php:153-169 | the substitution of the rendered bindings, defined iff placeholders do not outnumber bindings |
| ModelQuery.FormatFillsPlaceholders | src/Processors/ModelQueryProcessor.php:153-169 | the i-th ? shows the i-th rendered binding; % in the SQL and ? inside bindings come out literally |
| ModelQuery.FormatOne | src/Processors/ModelQueryProcessor.php:153-169 | one placeholder, one binding: the binding's rendering in its place |
| ModelQuery.FormatTwo | src/Processors/ModelQueryProcessor.php:153-169 | two placeholders, two bindings, in order |
| ModelQuery.RenderPlainString | src/Processors/ModelQueryProcessor.php:163-164 | a string binding with nothing to escape is shown between single quotes |
| ModelQuery.FormatSqlNull | tests/ModelQueryProcessorTest.php:52-63 | a null binding renders as NULL |
| ModelQuery.FormatSqlTrue | tests/ModelQueryProcessorTest.php:65-76 | a true binding renders as TRUE |
| ModelQuery.QueryCall | src/Processors/ModelQueryProcessor.php:122-139 | raises iff placeholders outnumber bindings (the vsprintf error of line 168); otherwise a debug call in section MODEL/model/verb, context sql (formatted) and bindings, metrics duration_ms, record_count and connection in that order |
| ModelQuery.ProcessQuery | src/Processors/ModelQueryProcessor.php:80-144 | no model context: nothing happens; otherwise the query is logged and the context forgotten, or formatting raises and the context is left in place |
| ModelQuery.MissingBindingRaises | src/Processors/ModelQueryProcessor.php:153-168 | a query with a placeholder and no bindings raises, and the model context survives |
| ModelQuery.ListenedQuerySection | src/Processors/ModelQueryProcessor.php:31-34 | as written, an event followed by a query logs under MODEL/model/ followed by the class name |
| ModelQuery.ListenedQuerySectionIntended | src/Processors/ModelQueryProcessor.php:31-50 | corrected, the section is MODEL/model/ followed by the mapped event |
| ModelQuery.QueryMetricsLogged | src/Processors/ModelQueryProcessor.php:122-139 | with redaction off and nothing to bound, the entry carries section [MODEL/model/verb] and the metrics duration_ms, record_count, connection in order |
| ExternalHandler.New | src/Handlers/ExternalLogHandler.php:16-22 | batch size 100 and timeout 5000 ms unless configured, an empty buffer, the construction time as the last flush |
| ExternalHandler.Flush | src/Handlers/ExternalLogHandler.php:58-69 | an empty buffer changes nothing; otherwise exactly the buffer is shipped as one batch, the buffer is emptied and the last flush is now |
| ExternalHandler.Write | src/Handlers/ExternalLogHandler.php:27-53 | the record is kept in order; the buffer is shipped iff it reached the batch size or the timeout passed, otherwise nothing is shipped |
| ExternalHandler.Destruct | src/Handlers/ExternalLogHandler.php:74-77 | the buffer is shipped and left empty |
| ExternalHandler.WriteAtSizeShips | src/Handlers/ExternalLogHandler.php:43-45 | a write that fills the buffer ships it, new record included |
| ExternalHandler.WriteAfterTimeoutShips | src/Handlers/ExternalLogHandler.php:48-50 | a write after the timeout ships the buffer however small |
| ExternalHandler.WriteBelowBothKeeps | src/Handlers/ExternalLogHandler.php:40-53 | below size and timeout the record only joins the buffer |
| ExternalHandler.RunKeepsBufferBelowSize | src/Handlers/ExternalLogHandler.php:29-45 | with a batch size of at least one, the buffer stays below it after every write |
| ExternalHandler.RunConserves | src/Handlers/ExternalLogHandler.php:29-67 | shipped batches followed by the buffer are exactly the records written, in order |
| ExternalHandler.RunShipsNoEmptyBatch | src/Handlers/ExternalLogHandler.php:60-62 | no shipped batch is empty |
| ExternalHandler.LifetimeShipsEverything | src/Handlers/ExternalLogHandler.php:74-77 | created, written to and destroyed, the handler ships every record once, in order |

## Left out

- Writing entries out (`writeToLog`, SuperlogHandler, ShipLogsJob), the diagnostic command, the service provider, the facade and both middlewares are I/O and framework glue. `log` returns the entry it would write.
- The `\Log::info` line that `setTraceId` writes on an upgrade is I/O.
- StructuredLogger's `sections` field, which `initializeRequest` clears (line 64), is never read. It is not modelled.
- Clocks, UUIDs, the session, `memory_get_peak_usage`, `get_included_files`, `extension_loaded`, `mime_content_type` and `json_encode` are host facts. They are parameters.
- Floats (durations, `round` in the file summary and in the memory figure) are carried as the text PHP would print. `getDurationMs` is that text, passed in.
- The email check of smart detection (`FILTER_VALIDATE_EMAIL`) is a parameter of the redactor. The card and bearer patterns are modelled.
- The model-query listener's 100 ms freshness window and the container binding that carries the model context are clock and container state. `ProcessQuery` takes the context as present (fresh) or absent. `class_basename` is applied by the caller of `EventContext`.
- The ValueError vsprintf raises when placeholders outnumber bindings is modelled as the `Raises` outcome of `QueryCall` and `ProcessQuery`. Other PHP errors are not modelled. Preconditions exclude the inputs that raise them:
  - a `full_url` that is an object or resource, or a `payload` that is an array, object or resource, in `StartupCalls`;
  - a non-array `slow_queries` in `DatabaseCall`;
  - non-printable header fields or non-array context/metrics in `FormatAsText`;
  - bindings that are objects or resources in `FormatSql`.
- A missing array key that PHP reads with a warning (`$requestData['method']`) is modelled as null, and an array `full_url` as the text `Array`, which is what plain PHP yields. Under Laravel's error handler these warnings become exceptions; the model does not follow that.
- `array_merge` renumbers integer keys. Numeric-string keys are not converted to integers.
- The two `json_encode` calls in formatAsText whose results are unused (lines 357-358) have no effect. They are not modelled.
- ExternalHandler.Write: one write reads the clock twice (in shouldFlush and in flush). The model uses one instant for both.
- Redaction.MaskIdempotent and Redaction.ProcessIdempotent: stated only for a one-character mask. A longer mask string makes a masked value longer, so re-masking changes it.
- Payload.TruncateIdempotent: stated only for a non-negative limit. `substr` with a negative length cuts from the end, so a negative limit is not idempotent.
- Payload.ProcessValueBoundsNesting: PHP reference cycles are not representable. Values are finite trees.
- ExternalHandler.RunKeepsBufferBelowSize: requires a batch size of at least one. With zero or less, every write ships at once.
- StructuredLogger's `log` never increments the counter; only `initializeRequest` does. Every entry of one request therefore carries the same req_seq, and the model follows this code.
- Logger.ContextStaysArray, Logger.ContextRedactedThenBounded and Logger.LoggedEntryRendersItsIds: stated for a max_array_depth of at least 0. A negative depth replaces the whole context with the depth sentinel.
- ModelQuery.FormatSql: other vsprintf conversions cannot occur after escaping and are not modelled.
- PHP strings are byte strings; the model's strings are sequences of `char` and every length counts elements. `strlen`, `substr`, `str_pad`, the masking of `maskValue` and the truncation of `truncateString` agree with PHP only when every character is one element, as with ASCII text or text given byte by byte. A multi-byte UTF-8 character taken as one `char` makes the model differ: PHP masks the 4 inner bytes of `héllo`, the model with five characters masks 3.
- Redaction.CardNumberMeaning: characterises the card test only for text without a newline. PCRE's `$` also matches before a final newline; `IsCardNumber` models that case, the reference reading leaves it out.
- Logger.StartupLogged, Logger.MiddlewareStartContextLogged, Logger.CacheStatisticsLogged, Logger.ShutdownMetricsLogged, Logger.EmitCarriesMetrics, Logger.EmitCarriesContext and ModelQuery.QueryMetricsLogged: stated with redaction off and values that payload shaping leaves alone. Otherwise the entry holds the redacted and bounded values, which Logger.ContextRedactedThenBounded describes for the context.

## Findings

| source | as written | input that shows it | evidently intended | confidence | as-written member | corrected member |
|---|---|---|---|---|---|---|
| config/superlog.php:84 | the default `custom_keys` is `explode(',', '')`, a list holding one empty pattern, and under PHP 8 `stripos` finds an empty pattern in every key | SUPERLOG_REDACT_KEYS unset: key `user_id` in any context | an unset custom key list adds no patterns | high, not executed | Redaction.DefaultCustomKeysMaskEveryKey | Redaction.DefaultCustomKeysAddNothing |
| src/Processors/ModelQueryProcessor.php:31-34 | the verb is taken from the text after the colon of the event name | the framework's event name `eloquent.created: App\Models\User` gives the verb ` App\Models\User` | the event between `eloquent.` and the colon, mapped (`created` gives insert) | medium, not executed | ModelQuery.EventVerbTakesClassName | ModelQuery.ModelEventVerbReadsEvent |
