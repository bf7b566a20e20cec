/** StructuredLogger: turns one log call into a structured entry. The entry
    carries the trace id, the zero-padded request sequence number, the span
    id of its section and a correlation snapshot; it is redacted and then
    bounded by the payload rules. Also the section wrappers (startup,
    middleware, database, outbound HTTP, cache, shutdown) and the text-line
    rendering. The clock, the UUID generator, the session store, JSON
    encoding and the host's memory/opcache facts are inputs. */
module Logger {
  import opened Strings
  import opened Values
  import Redaction
  import Payload
  import Correlation

  /** The switches of the `sections` configuration block the logger reads. */
  datatype Sections = Sections(
    captureUserAgent: bool,
    captureQueryString: bool,
    captureBindings: bool,
    captureMemoryPeak: bool,
    captureIncludedFilesCount: bool,
    captureOpcacheStatus: bool)

  /** The configuration the logger was built with; the redaction and payload
      blocks are already turned into their processors. */
  datatype Config = Config(
    enabled: bool,
    channel: string,
    format: string,
    redactor: Redaction.Redactor,
    payload: Payload.Settings,
    sections: Sections)

  /** A logger with the correlation state it works on: the process-wide
      trace-id slots, its context instance and its sequence counter. */
  datatype Logger = Logger(config: Config, slots: Correlation.Slots, ctx: Correlation.Context, counter: int)

  // ---------------------------------------------------------------- req_seq

  /** The request sequence number as it appears in entries: the counter in
      decimal, left-padded with '0' to ten characters. */
  function ReqSeq(counter: int): (q: string)
    ensures |q| >= 10 && Truthy(q)
    ensures 0 <= counter < Pow10(10) ==> |q| == 10 && AllDigits(q) && DigitsValue(q) == counter
    ensures counter == 1 ==> q == "0000000001"
  {
    var digits := IntToString(counter);
    var q := PadLeft(digits, 10, '0');
    if 0 <= counter < Pow10(10) then
      NatToStringRoundTrip(counter);
      NatToStringWidth(counter, 10);
      LeadingZerosValue(10 - |digits|, digits);
      assert q == Repeat("0", 10 - |digits|) + digits;
      q
    else
      q
  }

  /** Different counters in range give different sequence numbers. */
  lemma ReqSeqInjective(a: int, b: int)
    requires 0 <= a < Pow10(10) && 0 <= b < Pow10(10) && a != b
    ensures ReqSeq(a) != ReqSeq(b)
  {
    assert DigitsValue(ReqSeq(a)) != DigitsValue(ReqSeq(b));
  }

  // ------------------------------------------------------ initializeRequest

  /** The logger after initializeRequest, and the value written back to the
      session under `superlog_req_seq`. */
  datatype Started = Started(logger: Logger, storedSeq: int)

  /** initializeRequest. `traceId` is the id the caller passes, `session` the
      stored sequence value (already cast to int; None when absent) and
      `uuid` the fresh id the generator would yield. A supplied id that PHP
      considers true and that is not temporary becomes the trace id; a
      missing or false one is replaced by `uuid`; a temporary one leaves the
      slots alone. The counter becomes the stored value plus one and is
      stored back. The span cache is kept. */
  function InitializeRequest(lg: Logger, requestMethod: string, path: string, ip: string,
                             traceId: Option<string>, session: Option<int>, uuid: string): (r: Started)
    ensures r.logger.config == lg.config
    ensures r.logger.counter == (if session.Some? then session.value else 0) + 1
    ensures r.storedSeq == r.logger.counter
    ensures Correlation.Method(r.logger.ctx) == requestMethod
    ensures Correlation.Path(r.logger.ctx) == path
    ensures Correlation.ClientIp(r.logger.ctx) == ip
    ensures r.logger.ctx.spans == lg.ctx.spans
    ensures traceId.Some? && Truthy(traceId.value) && !Correlation.IsTemporary(traceId.value) ==>
      r.logger.slots.permanent == Some(traceId.value)
    ensures (traceId.None? || !Truthy(traceId.value)) && !Correlation.IsTemporary(uuid) ==>
      r.logger.slots.permanent == Some(uuid)
    ensures traceId.Some? && Truthy(traceId.value) && Correlation.IsTemporary(traceId.value) ==>
      r.logger.slots == lg.slots
  {
    var slots :=
      if traceId.Some? && Truthy(traceId.value) && !Correlation.IsTemporary(traceId.value)
      then Correlation.SetTraceId(lg.slots, traceId.value)
      else if traceId.None? || !Truthy(traceId.value)
      then Correlation.SetTraceId(lg.slots, uuid)
      else lg.slots;
    var ctx := Correlation.SetClientIp(Correlation.SetPath(Correlation.SetMethod(lg.ctx, requestMethod), path), ip);
    var counter := (if session.Some? then session.value else 0) + 1;
    Started(Logger(lg.config, slots, ctx, counter), counter)
  }

  /** After initializeRequest with a permanent id, every entry carries that
      id, whatever fresh id a later read is offered. */
  lemma AdoptedTraceIdIsRead(lg: Logger, requestMethod: string, path: string, ip: string,
                             t: string, session: Option<int>, uuid: string, later: string)
    requires Truthy(t) && !Correlation.IsTemporary(t)
    ensures var r := InitializeRequest(lg, requestMethod, path, ip, Some(t), session, uuid);
      Correlation.GetTraceId(r.logger.slots, later).id == t
  {
  }

  /** One request per trace id in `traces`, each in the same session: the
      first reads `session`, every later one reads what the one before
      stored. */
  function RunRequests(lg: Logger, m: string, p: string, ip: string, traces: seq<Option<string>>,
                       session: Option<int>, uuid: string): Started
    requires |traces| >= 1
    decreases |traces|
  {
    var first := InitializeRequest(lg, m, p, ip, traces[0], session, uuid);
    if |traces| == 1 then first
    else RunRequests(first.logger, m, p, ip, traces[1..], Some(first.storedSeq), uuid)
  }

  /** The session counter numbers the requests: after n requests in a
      session that held k, the counter and the stored value are k + n, so
      in a fresh session the n-th request carries sequence number n. */
  lemma {:induction false} CounterCountsRequests(lg: Logger, m: string, p: string, ip: string,
                                                 traces: seq<Option<string>>, session: Option<int>, uuid: string)
    requires |traces| >= 1
    ensures var r := RunRequests(lg, m, p, ip, traces, session, uuid);
      && r.logger.counter == (if session.Some? then session.value else 0) + |traces|
      && r.storedSeq == r.logger.counter
    decreases |traces|
  {
    if |traces| > 1 {
      var first := InitializeRequest(lg, m, p, ip, traces[0], session, uuid);
      CounterCountsRequests(first.logger, m, p, ip, traces[1..], Some(first.storedSeq), uuid);
    }
  }

  // -------------------------------------------------------------------- log

  /** What the host supplies to one log call: the clock's timestamp and the
      request duration (as the text of the float), and the fresh ids the
      UUID generator would yield for a new span and a new temporary trace. */
  datatype Env = Env(timestamp: string, spanUuid: string, traceUuid: string, durationMs: string)

  /** The returned entry and the logger after the call. */
  datatype Logged = Logged(entry: seq<Item>, logger: Logger)

  /** The keys of an entry, in order; metrics only when there are any. */
  function EntryKeys(withMetrics: bool): (ks: seq<Key>)
    ensures |ks| == if withMetrics then 10 else 9
    ensures ks[0] == StrKey("timestamp") && ks[1] == StrKey("trace_id") && ks[2] == StrKey("req_seq")
    ensures ks[4] == StrKey("level") && ks[5] == StrKey("section") && ks[6] == StrKey("message")
    ensures ks[7] == StrKey("context") && ks[|ks| - 1] == StrKey("correlation")
    ensures withMetrics ==> ks[8] == StrKey("metrics")
  {
    [ StrKey("timestamp"), StrKey("trace_id"), StrKey("req_seq"), StrKey("span_id"),
      StrKey("level"), StrKey("section"), StrKey("message"), StrKey("context") ]
    + (if withMetrics then [StrKey("metrics")] else [])
    + [StrKey("correlation")]
  }

  /** log. A disabled logger returns an empty entry and touches nothing.
      Otherwise the span id of the section is fetched (or minted), the trace
      id is read (which may mint a temporary one), the entry is assembled,
      redacted when redaction is on, and bounded by the payload rules. The
      counter never changes here. */
  function Log(lg: Logger, level: string, section: string, message: string,
               context: seq<Item>, metrics: seq<Item>, env: Env): (out: Logged)
    ensures !lg.config.enabled ==> out == Logged([], lg)
    ensures out.logger.counter == lg.counter && out.logger.config == lg.config
    ensures lg.config.enabled ==> Keys(out.entry) == EntryKeys(metrics != [])
    ensures lg.config.enabled ==>
      && out.entry[0].val == Str(env.timestamp)
      && out.entry[1].val == Str(Correlation.GetTraceId(lg.slots, env.traceUuid).id)
      && out.entry[2].val == Str(ReqSeq(lg.counter))
      && out.entry[3].val == Str(Correlation.GetOrCreateSpanId(lg.ctx, section, env.spanUuid).id)
      && out.entry[4].val == Str(Upper(level))
      && out.entry[5].val == Str("[" + section + "]")
      && out.entry[6].val == Str(message)
    ensures lg.config.enabled ==>
      && out.logger.ctx == Correlation.GetOrCreateSpanId(lg.ctx, section, env.spanUuid).ctx
      && out.logger.slots == Correlation.GetTraceId(lg.slots, env.traceUuid).slots
  {
    if !lg.config.enabled then Logged([], lg)
    else
      var span := Correlation.GetOrCreateSpanId(lg.ctx, section, env.spanUuid);
      var read := Correlation.GetTraceId(lg.slots, env.traceUuid);
      Correlation.GetTraceIdStable(lg.slots, env.traceUuid, env.traceUuid);
      var snapshot := Correlation.ToArray(read.slots, span.ctx, env.traceUuid, env.durationMs);
      var draft := Draft(lg, level, section, message, context, metrics, env);
      var entry := Shape(lg.config, draft);
      HeadKeysPlain(metrics != []);
      assert forall i :: 0 <= i < 7 ==> entry[i] == draft[i];
      Logged(entry, Logger(lg.config, snapshot.slots, span.ctx, lg.counter))
  }

  /** Redaction (when on), then payload shaping. Only the context, metrics
      and correlation fields can change. */
  function Shape(cfg: Config, entry: seq<Item>): (out: seq<Item>)
    ensures Keys(out) == Keys(entry)
    ensures forall i :: 0 <= i < |entry| && !(entry[i].key.StrKey? && entry[i].key.s in Redaction.RedactedFields) ==>
      out[i] == entry[i]
  {
    var redacted := if cfg.redactor.settings.enabled then Redaction.Process(cfg.redactor, entry) else entry;
    Payload.Process(cfg.payload, redacted)
  }

  /** Shaping position by position, for an entry with unique keys. */
  lemma ShapeAt(cfg: Config, entry: seq<Item>, i: int)
    requires UniqueKeys(entry) && 0 <= i < |entry|
    ensures UniqueKeys(Shape(cfg, entry))
    ensures var r := cfg.redactor;
      var it := if r.settings.enabled then Redaction.FieldRule(r, entry[i]) else entry[i];
      Shape(cfg, entry)[i] ==
        if it.key.StrKey? && it.key.s in Payload.ProcessedFields && it.val != Null
        then Item(it.key, Payload.ProcessValue(cfg.payload, it.val, 0))
        else it
  {
    var r := cfg.redactor;
    var redacted := if r.settings.enabled then Redaction.Process(r, entry) else entry;
    if r.settings.enabled {
      Redaction.ProcessAt(r, entry, i);
    }
    Redaction.UniqueKeysSameKeys(entry, redacted);
    Payload.ProcessAt(cfg.payload, redacted, i);
    Redaction.UniqueKeysSameKeys(entry, Shape(cfg, entry));
  }

  /** The first seven fields of an entry are never rewritten. */
  lemma HeadKeysPlain(withMetrics: bool)
    ensures forall i :: 0 <= i < 7 ==>
      EntryKeys(withMetrics)[i].StrKey? && EntryKeys(withMetrics)[i].s !in Redaction.RedactedFields
  {
  }

  /** The entry log assembles, before redaction and payload shaping. */
  function Draft(lg: Logger, level: string, section: string, message: string,
                 context: seq<Item>, metrics: seq<Item>, env: Env): (d: seq<Item>)
    ensures Keys(d) == EntryKeys(metrics != []) && UniqueKeys(d)
    ensures d[0].val == Str(env.timestamp)
    ensures d[1].val == Str(Correlation.GetTraceId(lg.slots, env.traceUuid).id)
    ensures d[2].val == Str(ReqSeq(lg.counter))
    ensures d[3].val == Str(Correlation.GetOrCreateSpanId(lg.ctx, section, env.spanUuid).id)
    ensures d[4].val == Str(Upper(level))
    ensures d[5].val == Str("[" + section + "]")
    ensures d[6].val == Str(message)
    ensures d[7].val == Arr(context)
    ensures metrics != [] ==> d[8].val == Arr(metrics)
    ensures var span := Correlation.GetOrCreateSpanId(lg.ctx, section, env.spanUuid);
      var read := Correlation.GetTraceId(lg.slots, env.traceUuid);
      d[|d| - 1].val == Arr(Correlation.ToArray(read.slots, span.ctx, env.traceUuid, env.durationMs).items)
  {
    var span := Correlation.GetOrCreateSpanId(lg.ctx, section, env.spanUuid);
    var read := Correlation.GetTraceId(lg.slots, env.traceUuid);
    var snapshot := Correlation.ToArray(read.slots, span.ctx, env.traceUuid, env.durationMs);
    Assemble(env.timestamp, read.id, ReqSeq(lg.counter), span.id, level, section, message,
             context, metrics, snapshot.items)
  }

  /** The entry's pairs in order. */
  function Assemble(timestamp: string, traceId: string, reqSeq: string, spanId: string,
                    level: string, section: string, message: string,
                    context: seq<Item>, metrics: seq<Item>, correlation: seq<Item>): (e: seq<Item>)
    ensures Keys(e) == EntryKeys(metrics != [])
    ensures UniqueKeys(e)
    ensures e[0].val == Str(timestamp) && e[1].val == Str(traceId) && e[2].val == Str(reqSeq)
    ensures e[3].val == Str(spanId) && e[4].val == Str(Upper(level))
    ensures e[5].val == Str("[" + section + "]") && e[6].val == Str(message) && e[7].val == Arr(context)
    ensures metrics != [] ==> e[8].val == Arr(metrics)
    ensures e[|e| - 1].val == Arr(correlation)
  {
    var head :=
      [ Item(StrKey("timestamp"), Str(timestamp)),
        Item(StrKey("trace_id"), Str(traceId)),
        Item(StrKey("req_seq"), Str(reqSeq)),
        Item(StrKey("span_id"), Str(spanId)),
        Item(StrKey("level"), Str(Upper(level))),
        Item(StrKey("section"), Str("[" + section + "]")),
        Item(StrKey("message"), Str(message)),
        Item(StrKey("context"), Arr(context)) ];
    var mid := if metrics != [] then [Item(StrKey("metrics"), Arr(metrics))] else [];
    var tail := [Item(StrKey("correlation"), Arr(correlation))];
    var e := head + mid + tail;
    assert Keys(e) == EntryKeys(metrics != []) by {
      KeysAppend(head, mid);
      KeysAppend(head + mid, tail);
    }
    assert UniqueKeys(e) by {
      EntryKeysDistinct(metrics != []);
    }
    e
  }

  lemma NoMetricsKey()
    ensures forall i :: 0 <= i < |EntryKeys(false)| ==> EntryKeys(false)[i] != StrKey("metrics")
  {
  }

  lemma EntryKeysDistinct(withMetrics: bool)
    ensures forall i, j :: 0 <= i < j < |EntryKeys(withMetrics)| ==> EntryKeys(withMetrics)[i] != EntryKeys(withMetrics)[j]
  {
  }

  /** Redaction runs before payload shaping: each context value ends up as
      its redacted form (when redaction is on), then bounded one level below
      the top. */
  lemma ContextRedactedThenBounded(lg: Logger, level: string, section: string, message: string,
                                   context: seq<Item>, metrics: seq<Item>, env: Env, i: int)
    requires lg.config.enabled && Payload.MaxDepth(lg.config.payload) >= 0 && 0 <= i < |context|
    ensures var out := Log(lg, level, section, message, context, metrics, env);
      var r := lg.config.redactor;
      var redacted := if r.settings.enabled then Redaction.RedactPair(r, context[i].key, context[i].val) else context[i].val;
      && out.entry[7].val.Arr?
      && |out.entry[7].val.items| == |context|
      && out.entry[7].val.items[i] == Item(context[i].key, Payload.ProcessValue(lg.config.payload, redacted, 1))
  {
    var cfg := lg.config;
    var r := cfg.redactor;
    var d := Draft(lg, level, section, message, context, metrics, env);
    var redacted := if r.settings.enabled then Redaction.RedactArray(r, context) else context;
    assert d[7] == Item(StrKey("context"), Arr(context)) by {
      assert Keys(d)[7] == StrKey("context");
    }
    assert Log(lg, level, section, message, context, metrics, env).entry == Shape(cfg, d);
    assert Shape(cfg, d)[7] == Item(StrKey("context"), Payload.ProcessValue(cfg.payload, Arr(redacted), 0)) by {
      ShapeAt(cfg, d, 7);
    }
    var out := Payload.ProcessArray(cfg.payload, redacted, 1);
    assert Payload.ProcessValue(cfg.payload, Arr(redacted), 0) == Arr(out);
    assert out[i] == Item(context[i].key, Payload.ProcessValue(cfg.payload, redacted[i].val, 1)) by {
      assert Keys(out)[i] == Keys(redacted)[i] == Keys(context)[i];
    }
  }

  /** The correlation block of an entry carries the entry's own trace id,
      unless redaction rewrites it. */
  lemma CorrelationAgreesWithEntry(lg: Logger, level: string, section: string, message: string,
                                   context: seq<Item>, metrics: seq<Item>, env: Env)
    requires lg.config.enabled
    requires var r := lg.config.redactor; var id := Correlation.GetTraceId(lg.slots, env.traceUuid).id;
      r.settings.enabled ==> !Redaction.IsSensitiveKey(r, StrKey("trace_id")) && !Redaction.IsSensitiveValue(r, id)
    ensures var out := Log(lg, level, section, message, context, metrics, env);
      var last := out.entry[|out.entry| - 1];
      last.key == StrKey("correlation") && last.val.Arr? && |last.val.items| == 5 &&
      last.val.items[0] == Item(StrKey("trace_id"), out.entry[1].val)
  {
    var r := lg.config.redactor;
    var span := Correlation.GetOrCreateSpanId(lg.ctx, section, env.spanUuid);
    var read := Correlation.GetTraceId(lg.slots, env.traceUuid);
    Correlation.GetTraceIdStable(lg.slots, env.traceUuid, env.traceUuid);
    var items := Correlation.ToArray(read.slots, span.ctx, env.traceUuid, env.durationMs).items;
    assert items[0] == Item(StrKey("trace_id"), Str(read.id)) by {
      assert Keys(items)[0] == StrKey("trace_id");
    }
    var d := Draft(lg, level, section, message, context, metrics, env);
    assert Keys(d)[|d| - 1] == StrKey("correlation");
    ShapeKeepsCorrelation(lg.config, d, items);
    assert Log(lg, level, section, message, context, metrics, env).entry == Shape(lg.config, d);
    if r.settings.enabled {
      SnapshotTraceIdSurvives(r, items, read.id);
    }
  }

  /** Shaping leaves the correlation block as redaction made it. */
  lemma ShapeKeepsCorrelation(cfg: Config, d: seq<Item>, items: seq<Item>)
    requires UniqueKeys(d) && |d| > 0 && d[|d| - 1] == Item(StrKey("correlation"), Arr(items))
    ensures var r := cfg.redactor;
      Shape(cfg, d)[|d| - 1] ==
        Item(StrKey("correlation"), Arr(if r.settings.enabled then Redaction.RedactArray(r, items) else items))
  {
    ShapeAt(cfg, d, |d| - 1);
    assert "correlation" !in Payload.ProcessedFields;
  }

  /** A trace id under a key and of a shape redaction does not flag is kept. */
  lemma SnapshotTraceIdSurvives(r: Redaction.Redactor, items: seq<Item>, id: string)
    requires |items| > 0 && items[0] == Item(StrKey("trace_id"), Str(id))
    requires !Redaction.IsSensitiveKey(r, StrKey("trace_id")) && !Redaction.IsSensitiveValue(r, id)
    ensures Redaction.RedactArray(r, items)[0] == items[0]
  {
  }

  // --------------------------------------------------------------- wrappers

  /** The arguments one wrapper passes to log. */
  datatype Call = Call(level: string, section: string, message: string, context: seq<Item>, metrics: seq<Item>)

  /** A wrapper's call carried out. */
  function Emit(lg: Logger, c: Call, env: Env): Logged {
    Log(lg, c.level, c.section, c.message, c.context, c.metrics, env)
  }

  /** `$a['k']` and `$a['k'] ?? null` alike: the value, or null when absent. */
  function Field(items: seq<Item>, name: string): Value {
    Coalesce(items, StrKey(name), Null)
  }

  /** Values strlen accepts after `?? ''`: strings and the scalars PHP
      coerces to strings. */
  predicate StringLike(v: Value) {
    v.Str? || v.Int? || v.Float? || v.Bool?
  }

  /** The request fields logStartup reports, in order, for a configuration. */
  function StartupFields(s: Sections): seq<string> {
    ["method", "path", "full_url", "ip", "user_id", "tenant_id", "session_id"]
    + (if s.captureUserAgent then ["user_agent"] else [])
    + (if s.captureQueryString then ["query_string"] else [])
  }

  /** logStartup: two info entries in the STARTUP section, the URL line and
      the request details; the second one is returned. Each reported field
      is the request's value (null when absent), then the payload size. */
  function StartupCalls(s: Sections, data: seq<Item>): (cs: seq<Call>)
    requires Printable(Coalesce(data, StrKey("full_url"), Str("")))
    requires StringLike(Coalesce(data, StrKey("payload"), Str("")))
    ensures |cs| == 2
    ensures cs[0] == Call("info", "STARTUP", "URL: " + Interp(Coalesce(data, StrKey("full_url"), Str(""))), [], [])
    ensures cs[1].level == "info" && cs[1].section == "STARTUP" && cs[1].message == "Request initiated"
    ensures cs[1].context == []
    ensures Keys(cs[1].metrics) == StrKeys(StartupFields(s) + ["request_payload_size"])
    ensures |cs[1].metrics| == |StartupFields(s)| + 1
    ensures forall i :: 0 <= i < |StartupFields(s)| ==>
      cs[1].metrics[i] == Item(StrKey(StartupFields(s)[i]), Field(data, StartupFields(s)[i]))
    ensures cs[1].metrics[|StartupFields(s)|] ==
      Item(StrKey("request_payload_size"), Int(|Interp(Coalesce(data, StrKey("payload"), Str("")))|))
  {
    var url := Coalesce(data, StrKey("full_url"), Str(""));
    var fields := Pick(data, StartupFields(s), Null);
    var size := [Item(StrKey("request_payload_size"), Int(|Interp(Coalesce(data, StrKey("payload"), Str("")))|))];
    var metrics := fields + size;
    KeysAppend(fields, size);
    StrKeysAppend(StartupFields(s), ["request_payload_size"]);
    [ Call("info", "STARTUP", "URL: " + Interp(url), [], []),
      Call("info", "STARTUP", "Request initiated", [], metrics) ]
  }

  /** logMiddlewareStart */
  function MiddlewareStartCall(name: string, requestId: string): (c: Call)
    ensures c.level == "info" && c.section == "MIDDLEWARE-START"
    ensures c.message == "[MIDDLEWARE START] " + name
    ensures Get(c.context, StrKey("request_id")) == Some(Str(requestId)) && |c.context| == 1
    ensures c.metrics == []
  {
    Call("info", "MIDDLEWARE-START", "[MIDDLEWARE START] " + name, [Item(StrKey("request_id"), Str(requestId))], [])
  }

  function MiddlewareEndBase(durationMs: string, status: int): seq<Item> {
    [Item(StrKey("duration_ms"), Float(durationMs)), Item(StrKey("response_status"), Int(status))]
  }

  /** logMiddlewareEnd: the extras are merged after the duration and
      status. */
  function MiddlewareEndCall(name: string, durationMs: string, status: int, extra: seq<Item>): (c: Call)
    ensures c.level == "info" && c.section == "MIDDLEWARE-END" && c.context == []
    ensures c.message == "[MIDDLEWARE END] " + name + " - SUCCESS"
  {
    Call("info", "MIDDLEWARE-END", "[MIDDLEWARE END] " + name + " - SUCCESS", [],
         Merge(MiddlewareEndBase(durationMs, status), extra))
  }

  /** A same-named extra overrides the base metric; a base metric the extras
      do not name keeps its value. */
  lemma MiddlewareEndMetrics(name: string, durationMs: string, status: int, extra: seq<Item>, k: Key)
    requires UniqueKeys(extra) && k.StrKey?
    ensures var m := MiddlewareEndCall(name, durationMs, status, extra).metrics;
      && (HasKey(extra, k) ==> Get(m, k) == Get(extra, k))
      && (!HasKey(extra, k) && k == StrKey("duration_ms") ==> Get(m, k) == Some(Float(durationMs)))
      && (!HasKey(extra, k) && k == StrKey("response_status") ==> Get(m, k) == Some(Int(status)))
  {
    var base := MiddlewareEndBase(durationMs, status);
    if HasKey(extra, k) {
      MergeOverrides(base, extra, k);
    } else {
      MergeKeeps(base, extra, k);
    }
  }

  const DatabaseFields: seq<string> := ["query_count", "total_query_ms", "slowest_query_ms"]

  /** logDatabase. Needs `slow_queries` (after `?? []`) to be an array, as
      count() does. The counters default to 0; the slow-query count is the
      full count; the context holds at most five slow queries, and only when
      bindings are captured and there are any. */
  function DatabaseCall(s: Sections, stats: seq<Item>): (c: Call)
    requires Coalesce(stats, StrKey("slow_queries"), Arr([])).Arr?
    ensures c.level == "info" && c.section == "DATABASE" && c.message == "Database statistics"
    ensures Keys(c.metrics) == StrKeys(DatabaseFields + ["slow_queries_count"])
    ensures forall i :: 0 <= i < 3 ==> c.metrics[i].val == Coalesce(stats, StrKey(DatabaseFields[i]), Int(0))
    ensures var slow := Coalesce(stats, StrKey("slow_queries"), Arr([])).items;
      && c.metrics[3].val == Int(|slow|)
      && (c.context != [] <==> s.captureBindings && slow != [])
      && (c.context != [] ==> c.context == [Item(StrKey("slow_queries"), Arr(Slice(slow, 5)))])
      && (c.context != [] ==> |c.context[0].val.items| <= 5)
  {
    var slow := Coalesce(stats, StrKey("slow_queries"), Arr([])).items;
    var counters := Pick(stats, DatabaseFields, Int(0));
    var count := [Item(StrKey("slow_queries_count"), Int(|slow|))];
    KeysAppend(counters, count);
    StrKeysAppend(DatabaseFields, ["slow_queries_count"]);
    var context :=
      if s.captureBindings && !EmptyAt(stats, StrKey("slow_queries"))
      then [Item(StrKey("slow_queries"), Arr(Slice(slow, 5)))]
      else [];
    Call("info", "DATABASE", "Database statistics", context, counters + count)
  }

  /** For a list of slow queries, the context holds the first five of them
      in order, renumbered from 0. */
  lemma DatabaseKeepsFirstFive(s: Sections, stats: seq<Item>)
    requires Coalesce(stats, StrKey("slow_queries"), Arr([])).Arr?
    requires var slow := Coalesce(stats, StrKey("slow_queries"), Arr([])).items;
      s.captureBindings && slow != [] && forall i :: 0 <= i < |slow| ==> slow[i].key.IntKey?
    ensures var slow := Coalesce(stats, StrKey("slow_queries"), Arr([])).items;
      var kept := DatabaseCall(s, stats).context[0].val.items;
      && |kept| == (if |slow| < 5 then |slow| else 5)
      && forall i :: 0 <= i < |kept| ==> kept[i] == Item(IntKey(i), slow[i].val)
  {
    var slow := Coalesce(stats, StrKey("slow_queries"), Arr([])).items;
    SliceOfList(slow, 5);
  }

  function HttpOutBase(requestMethod: string, url: string, status: int, durationMs: string): seq<Item> {
    [ Item(StrKey("method"), Str(requestMethod)), Item(StrKey("url"), Str(url)),
      Item(StrKey("status"), Int(status)), Item(StrKey("duration_ms"), Float(durationMs)) ]
  }

  /** logHttpOut: the extras are merged after method, url, status and
      duration. */
  function HttpOutCall(requestMethod: string, url: string, status: int, durationMs: string, extra: seq<Item>): (c: Call)
    ensures c.level == "info" && c.section == "HTTP-OUT" && c.context == []
    ensures c.message == "HTTP " + requestMethod + " " + url + " - " + IntToString(status)
  {
    Call("info", "HTTP-OUT", "HTTP " + requestMethod + " " + url + " - " + IntToString(status), [],
         Merge(HttpOutBase(requestMethod, url, status, durationMs), extra))
  }

  /** A same-named extra overrides the base metric; a base metric the extras
      do not name keeps its value. */
  lemma HttpOutMetrics(requestMethod: string, url: string, status: int, durationMs: string, extra: seq<Item>, k: Key)
    requires UniqueKeys(extra) && k.StrKey?
    ensures var m := HttpOutCall(requestMethod, url, status, durationMs, extra).metrics;
      var base := HttpOutBase(requestMethod, url, status, durationMs);
      && (HasKey(extra, k) ==> Get(m, k) == Get(extra, k))
      && (!HasKey(extra, k) ==> Get(m, k) == Get(base, k))
  {
    var base := HttpOutBase(requestMethod, url, status, durationMs);
    if HasKey(extra, k) {
      MergeOverrides(base, extra, k);
    } else {
      MergeKeeps(base, extra, k);
    }
  }

  const CacheFields: seq<string> := ["hits", "misses", "sets", "duration_ms"]

  /** logCache: hits, misses, sets and duration, each the statistic when set
      and 0 otherwise. */
  function CacheCall(stats: seq<Item>): (c: Call)
    ensures c.level == "info" && c.section == "CACHE" && c.message == "Cache statistics" && c.context == []
    ensures Keys(c.metrics) == StrKeys(CacheFields)
    ensures forall i :: 0 <= i < |CacheFields| ==>
      var k := StrKey(CacheFields[i]);
      (IsSet(stats, k) ==> Some(c.metrics[i].val) == Get(stats, k)) &&
      (!IsSet(stats, k) ==> c.metrics[i].val == Int(0))
  {
    Call("info", "CACHE", "Cache statistics", [], Pick(stats, CacheFields, Int(0)))
  }

  /** The facts logShutdown asks the host for: peak memory in megabytes
      (the text of the rounded float), the number of included files, and
      whether opcache is loaded. */
  datatype Host = Host(memoryPeakMb: string, includedFilesCount: int, opcacheEnabled: bool)

  const ShutdownFields: seq<string> := ["request_ms", "response_status", "response_bytes"]

  /** The host facts the configuration asks logShutdown to report. */
  function HostNames(s: Sections): seq<string> {
    OptionalName(s.captureMemoryPeak, "memory_peak_mb")
    + OptionalName(s.captureIncludedFilesCount, "included_files_count")
    + OptionalName(s.captureOpcacheStatus, "opcache_enabled")
  }

  function HostMetrics(s: Sections, host: Host): (m: seq<Item>)
    ensures Keys(m) == StrKeys(HostNames(s))
    ensures forall i :: 0 <= i < |m| ==> m[i].val.Float? || m[i].val.Int? || m[i].val.Bool?
    ensures Get(m, StrKey("memory_peak_mb")) ==
      if s.captureMemoryPeak then Some(Float(host.memoryPeakMb)) else None
    ensures Get(m, StrKey("included_files_count")) ==
      if s.captureIncludedFilesCount then Some(Int(host.includedFilesCount)) else None
    ensures Get(m, StrKey("opcache_enabled")) ==
      if s.captureOpcacheStatus then Some(Bool(host.opcacheEnabled)) else None
  {
    HostKeys(s, host);
    HostKinds(s, host);
    HostValues(s, host);
    HostParts(s, host)
  }

  /** The three optional parts of getHostMetrics, in the order the source adds them. */
  function HostParts(s: Sections, host: Host): seq<Item> {
    Optional(s.captureMemoryPeak, "memory_peak_mb", Float(host.memoryPeakMb))
    + Optional(s.captureIncludedFilesCount, "included_files_count", Int(host.includedFilesCount))
    + Optional(s.captureOpcacheStatus, "opcache_enabled", Bool(host.opcacheEnabled))
  }

  lemma HostKeys(s: Sections, host: Host)
    ensures Keys(HostParts(s, host)) == StrKeys(HostNames(s))
  {
    KeysAppend3(Optional(s.captureMemoryPeak, "memory_peak_mb", Float(host.memoryPeakMb)),
                Optional(s.captureIncludedFilesCount, "included_files_count", Int(host.includedFilesCount)),
                Optional(s.captureOpcacheStatus, "opcache_enabled", Bool(host.opcacheEnabled)),
                OptionalName(s.captureMemoryPeak, "memory_peak_mb"),
                OptionalName(s.captureIncludedFilesCount, "included_files_count"),
                OptionalName(s.captureOpcacheStatus, "opcache_enabled"));
  }

  lemma HostKinds(s: Sections, host: Host)
    ensures forall i :: 0 <= i < |HostParts(s, host)| ==>
      HostParts(s, host)[i].val.Float? || HostParts(s, host)[i].val.Int? || HostParts(s, host)[i].val.Bool?
  {
    ScalarsAppend3(Optional(s.captureMemoryPeak, "memory_peak_mb", Float(host.memoryPeakMb)),
                   Optional(s.captureIncludedFilesCount, "included_files_count", Int(host.includedFilesCount)),
                   Optional(s.captureOpcacheStatus, "opcache_enabled", Bool(host.opcacheEnabled)));
  }

  predicate Scalar(v: Value) {
    v.Float? || v.Int? || v.Bool?
  }

  lemma ScalarsAppend3(a: seq<Item>, b: seq<Item>, c: seq<Item>)
    requires forall i :: 0 <= i < |a| ==> Scalar(a[i].val)
    requires forall i :: 0 <= i < |b| ==> Scalar(b[i].val)
    requires forall i :: 0 <= i < |c| ==> Scalar(c[i].val)
    ensures forall i :: 0 <= i < |a + b + c| ==> Scalar((a + b + c)[i].val)
  {
    forall i | 0 <= i < |a + b + c|
      ensures Scalar((a + b + c)[i].val)
    {
      if i < |a| {
        assert (a + b + c)[i] == a[i];
      } else if i < |a| + |b| {
        assert (a + b + c)[i] == b[i - |a|];
      } else {
        assert (a + b + c)[i] == c[i - |a| - |b|];
      }
    }
  }

  lemma HostValues(s: Sections, host: Host)
    ensures Get(HostParts(s, host), StrKey("memory_peak_mb")) ==
      if s.captureMemoryPeak then Some(Float(host.memoryPeakMb)) else None
    ensures Get(HostParts(s, host), StrKey("included_files_count")) ==
      if s.captureIncludedFilesCount then Some(Int(host.includedFilesCount)) else None
    ensures Get(HostParts(s, host), StrKey("opcache_enabled")) ==
      if s.captureOpcacheStatus then Some(Bool(host.opcacheEnabled)) else None
  {
    var memory := Optional(s.captureMemoryPeak, "memory_peak_mb", Float(host.memoryPeakMb));
    var files := Optional(s.captureIncludedFilesCount, "included_files_count", Int(host.includedFilesCount));
    var opcache := Optional(s.captureOpcacheStatus, "opcache_enabled", Bool(host.opcacheEnabled));
    assert HostParts(s, host) == memory + files + opcache;
    assert Get(memory + files + opcache, StrKey("memory_peak_mb")) == Get(memory, StrKey("memory_peak_mb")) by {
      OptionalMisses(s.captureIncludedFilesCount, "included_files_count", Int(host.includedFilesCount), StrKey("memory_peak_mb"));
      OptionalMisses(s.captureOpcacheStatus, "opcache_enabled", Bool(host.opcacheEnabled), StrKey("memory_peak_mb"));
      GetOfPart(memory, files, opcache, StrKey("memory_peak_mb"), Get(memory, StrKey("memory_peak_mb")));
    }
    assert Get(memory + files + opcache, StrKey("included_files_count")) == Get(files, StrKey("included_files_count")) by {
      OptionalMisses(s.captureMemoryPeak, "memory_peak_mb", Float(host.memoryPeakMb), StrKey("included_files_count"));
      OptionalMisses(s.captureOpcacheStatus, "opcache_enabled", Bool(host.opcacheEnabled), StrKey("included_files_count"));
      GetOfPart(memory, files, opcache, StrKey("included_files_count"), Get(files, StrKey("included_files_count")));
    }
    assert Get(memory + files + opcache, StrKey("opcache_enabled")) == Get(opcache, StrKey("opcache_enabled")) by {
      OptionalMisses(s.captureMemoryPeak, "memory_peak_mb", Float(host.memoryPeakMb), StrKey("opcache_enabled"));
      OptionalMisses(s.captureIncludedFilesCount, "included_files_count", Int(host.includedFilesCount), StrKey("opcache_enabled"));
      GetOfPart(memory, files, opcache, StrKey("opcache_enabled"), Get(opcache, StrKey("opcache_enabled")));
    }
  }

  /** A key that at most one of three parts holds is read from that part. */
  lemma GetOfPart(a: seq<Item>, b: seq<Item>, c: seq<Item>, k: Key, w: Option<Value>)
    requires || (Get(a, k) == w && Get(b, k).None? && Get(c, k).None?)
             || (Get(a, k).None? && Get(b, k) == w && Get(c, k).None?)
             || (Get(a, k).None? && Get(b, k).None? && Get(c, k) == w)
    ensures Get(a + b + c, k) == w
  {
    GetConcat3(a, b, c, k);
  }

  /** `if (capture) $metrics[name] = v;` as the array it contributes. */
  function Optional(on: bool, name: string, v: Value): (m: seq<Item>)
    ensures Keys(m) == StrKeys(OptionalName(on, name))
    ensures forall i :: 0 <= i < |m| ==> m[i].val == v
    ensures Get(m, StrKey(name)) == if on then Some(v) else None
  {
    if on then [Item(StrKey(name), v)] else []
  }

  /** A metric array built by Optional holds no other key. */
  lemma OptionalMisses(on: bool, name: string, v: Value, k: Key)
    requires k != StrKey(name)
    ensures Get(Optional(on, name, v), k).None?
  {
  }

  function OptionalName(on: bool, name: string): seq<string> {
    if on then [name] else []
  }

  /** Whether logShutdown reports dispatched jobs: when they are not empty. */
  predicate ReportsJobs(data: seq<Item>) {
    !EmptyAt(data, StrKey("queue_jobs_dispatched"))
  }

  /** The metric names logShutdown reports, in order. */
  function ShutdownNames(s: Sections, data: seq<Item>): seq<string> {
    ShutdownFields + HostNames(s) + (if ReportsJobs(data) then ["queue_jobs_dispatched"] else [])
  }

  /** logShutdown: request time, status and size (0 when not set), the host
      facts the configuration asks for, and the dispatched jobs when there
      are any. */
  function ShutdownCall(s: Sections, data: seq<Item>, host: Host): (c: Call)
    ensures c.level == "info" && c.section == "SHUTDOWN" && c.message == "Request completed" && c.context == []
    ensures Keys(c.metrics) == StrKeys(ShutdownNames(s, data))
    ensures forall i :: 0 <= i < 3 ==> c.metrics[i].val == Coalesce(data, StrKey(ShutdownFields[i]), Int(0))
    ensures forall i :: 0 <= i < |HostNames(s)| ==> c.metrics[3 + i] == HostMetrics(s, host)[i]
    ensures ReportsJobs(data) ==>
      Some(c.metrics[|c.metrics| - 1].val) == Get(data, StrKey("queue_jobs_dispatched"))
  {
    var base := Pick(data, ShutdownFields, Int(0));
    var facts := HostMetrics(s, host);
    var jobs :=
      if ReportsJobs(data)
      then [Item(StrKey("queue_jobs_dispatched"), Get(data, StrKey("queue_jobs_dispatched")).value)]
      else [];
    var m := base + facts + jobs;
    assert Keys(m) == StrKeys(ShutdownNames(s, data)) by {
      KeysAppend(base, facts);
      KeysAppend(base + facts, jobs);
      StrKeysAppend(ShutdownFields, HostNames(s));
      StrKeysAppend(ShutdownFields + HostNames(s), if ReportsJobs(data) then ["queue_jobs_dispatched"] else []);
    }
    assert forall i :: 0 <= i < 3 ==> m[i] == base[i];
    assert forall i :: 0 <= i < |HostNames(s)| ==> m[3 + i] == facts[i] by {
      PartsAt(base, facts, jobs);
    }
    Call("info", "SHUTDOWN", "Request completed", [], m)
  }

  lemma PartsAt(a: seq<Item>, b: seq<Item>, c: seq<Item>)
    ensures forall i :: 0 <= i < |b| ==> (a + b + c)[|a| + i] == b[i]
  {
  }

  // ------------------------------------------------- what the wrappers log

  /** The bounds a wrapper's data passes through unchanged: logging on,
      redaction off, and room for one level of nesting. */
  predicate Transparent(cfg: Config) {
    cfg.enabled && !cfg.redactor.settings.enabled && Payload.MaxDepth(cfg.payload) >= 1
  }

  /** Every value of a list is one the payload rules keep. */
  predicate AllUntouched(p: Payload.Settings, items: seq<Item>) {
    forall i :: 0 <= i < |items| ==> Payload.Untouched(p, items[i].val)
  }

  /** The head of a wrapper's entry: its section in brackets and its
      message; metrics appear exactly when the wrapper passes some. */
  lemma EmitHead(lg: Logger, c: Call, env: Env)
    requires lg.config.enabled
    ensures var e := Emit(lg, c, env).entry;
      && Keys(e) == EntryKeys(c.metrics != [])
      && e[5].val == Str("[" + c.section + "]") && e[6].val == Str(c.message)
  {
  }

  /** The bracketed sections of the wrappers, spelled out. */
  lemma SectionBrackets()
    ensures "[" + "CACHE" + "]" == "[CACHE]"
    ensures "[" + "SHUTDOWN" + "]" == "[SHUTDOWN]"
    ensures "[" + "MIDDLEWARE-START" + "]" == "[MIDDLEWARE-START]"
  {
  }

  /** A wrapper's metrics reach the entry unchanged when nothing in them
      needs bounding and redaction is off. */
  lemma EmitCarriesMetrics(lg: Logger, c: Call, env: Env)
    requires Transparent(lg.config) && c.metrics != [] && AllUntouched(lg.config.payload, c.metrics)
    ensures var e := Emit(lg, c, env).entry;
      |e| == 10 && e[8] == Item(StrKey("metrics"), Arr(c.metrics))
  {
    var cfg := lg.config;
    var d := Draft(lg, c.level, c.section, c.message, c.context, c.metrics, env);
    assert d[8] == Item(StrKey("metrics"), Arr(c.metrics)) by {
      assert Keys(d)[8] == StrKey("metrics");
    }
    assert Emit(lg, c, env).entry == Shape(cfg, d);
    assert Shape(cfg, d)[8] == Item(StrKey("metrics"), Payload.ProcessValue(cfg.payload, Arr(c.metrics), 0)) by {
      ShapeAt(cfg, d, 8);
    }
    Payload.ProcessArrayKeepsUntouched(cfg.payload, c.metrics, 1);
  }

  /** Likewise for the context. */
  lemma EmitCarriesContext(lg: Logger, c: Call, env: Env)
    requires Transparent(lg.config) && AllUntouched(lg.config.payload, c.context)
    ensures var e := Emit(lg, c, env).entry;
      |e| >= 9 && e[7] == Item(StrKey("context"), Arr(c.context))
  {
    var cfg := lg.config;
    var d := Draft(lg, c.level, c.section, c.message, c.context, c.metrics, env);
    assert d[7] == Item(StrKey("context"), Arr(c.context)) by {
      assert Keys(d)[7] == StrKey("context");
    }
    assert Emit(lg, c, env).entry == Shape(cfg, d);
    assert Shape(cfg, d)[7] == Item(StrKey("context"), Payload.ProcessValue(cfg.payload, Arr(c.context), 0)) by {
      ShapeAt(cfg, d, 7);
    }
    Payload.ProcessArrayKeepsUntouched(cfg.payload, c.context, 1);
  }

  /** logCache as written to the log: the CACHE entry carries the four
      statistics in order, each the given one or 0. */
  lemma CacheStatisticsLogged(lg: Logger, stats: seq<Item>, env: Env)
    requires Transparent(lg.config)
    requires forall i :: 0 <= i < |CacheFields| ==>
      Payload.Untouched(lg.config.payload, Coalesce(stats, StrKey(CacheFields[i]), Int(0)))
    ensures var e := Emit(lg, CacheCall(stats), env).entry;
      && e[5].val == Str("[CACHE]") && e[6].val == Str("Cache statistics")
      && e[8].key == StrKey("metrics") && e[8].val.Arr? && |e[8].val.items| == |CacheFields|
      && forall i :: 0 <= i < |CacheFields| ==>
           e[8].val.items[i] == Item(StrKey(CacheFields[i]), Coalesce(stats, StrKey(CacheFields[i]), Int(0)))
  {
    var c := CacheCall(stats);
    assert c.metrics == Pick(stats, CacheFields, Int(0));
    CacheMetricsUntouched(lg.config.payload, stats);
    EmitHead(lg, c, env);
    SectionBrackets();
    EmitCarriesMetrics(lg, c, env);
  }

  lemma CacheMetricsUntouched(p: Payload.Settings, stats: seq<Item>)
    requires forall i :: 0 <= i < |CacheFields| ==> Payload.Untouched(p, Coalesce(stats, StrKey(CacheFields[i]), Int(0)))
    ensures AllUntouched(p, CacheCall(stats).metrics)
  {
    assert CacheCall(stats).metrics == Pick(stats, CacheFields, Int(0));
  }

  /** logShutdown as written to the log: the SHUTDOWN entry carries the
      metrics in the order of ShutdownNames, the request figures first. */
  lemma ShutdownMetricsLogged(lg: Logger, s: Sections, data: seq<Item>, host: Host, env: Env)
    requires Transparent(lg.config)
    requires forall i :: 0 <= i < 3 ==>
      Payload.Untouched(lg.config.payload, Coalesce(data, StrKey(ShutdownFields[i]), Int(0)))
    requires ReportsJobs(data) ==>
      Payload.Untouched(lg.config.payload, Get(data, StrKey("queue_jobs_dispatched")).value)
    ensures var e := Emit(lg, ShutdownCall(s, data, host), env).entry;
      && e[5].val == Str("[SHUTDOWN]")
      && e[8].key == StrKey("metrics") && e[8].val.Arr?
      && Keys(e[8].val.items) == StrKeys(ShutdownNames(s, data))
      && forall i :: 0 <= i < 3 ==> e[8].val.items[i].val == Coalesce(data, StrKey(ShutdownFields[i]), Int(0))
  {
    var c := ShutdownCall(s, data, host);
    ShutdownMetricsUntouched(lg.config.payload, s, data, host);
    EmitHead(lg, c, env);
    SectionBrackets();
    EmitCarriesMetrics(lg, c, env);
  }

  lemma ShutdownMetricsUntouched(p: Payload.Settings, s: Sections, data: seq<Item>, host: Host)
    requires forall i :: 0 <= i < 3 ==> Payload.Untouched(p, Coalesce(data, StrKey(ShutdownFields[i]), Int(0)))
    requires ReportsJobs(data) ==> Payload.Untouched(p, Get(data, StrKey("queue_jobs_dispatched")).value)
    ensures AllUntouched(p, ShutdownCall(s, data, host).metrics)
  {
    var m := ShutdownCall(s, data, host).metrics;
    var n := |HostNames(s)|;
    assert |m| == |ShutdownNames(s, data)| by {
      assert |Keys(m)| == |m|;
    }
    forall i | 0 <= i < |m| ensures Payload.Untouched(p, m[i].val) {
      if 3 <= i < 3 + n {
        assert m[i] == HostMetrics(s, host)[i - 3];
      } else if i >= 3 + n {
        assert ReportsJobs(data) && i == |m| - 1;
      }
    }
  }

  /** logMiddlewareStart as written to the log: a MIDDLEWARE-START entry
      without metrics. */
  lemma MiddlewareStartLogged(lg: Logger, name: string, requestId: string, env: Env)
    requires lg.config.enabled
    ensures var e := Emit(lg, MiddlewareStartCall(name, requestId), env).entry;
      && Keys(e) == EntryKeys(false)
      && e[5].val == Str("[MIDDLEWARE-START]")
      && e[6].val == Str("[MIDDLEWARE START] " + name)
  {
    EmitHead(lg, MiddlewareStartCall(name, requestId), env);
    SectionBrackets();
  }

  /** ... whose context is the request id and nothing else. */
  lemma MiddlewareStartContextLogged(lg: Logger, name: string, requestId: string, env: Env)
    requires Transparent(lg.config) && |requestId| <= Payload.MaxLength(lg.config.payload)
    ensures var e := Emit(lg, MiddlewareStartCall(name, requestId), env).entry;
      e[7] == Item(StrKey("context"), Arr([Item(StrKey("request_id"), Str(requestId))]))
  {
    var c := MiddlewareStartCall(name, requestId);
    assert c.context == [Item(StrKey("request_id"), Str(requestId))];
    EmitCarriesContext(lg, c, env);
  }

  /** logStartup as written to the log: the URL line carries nothing but its
      message; the request line carries each reported field, then the
      payload size. */
  lemma StartupLogged(lg: Logger, s: Sections, data: seq<Item>, env1: Env, env2: Env)
    requires Printable(Coalesce(data, StrKey("full_url"), Str("")))
    requires StringLike(Coalesce(data, StrKey("payload"), Str("")))
    requires Transparent(lg.config)
    requires forall i :: 0 <= i < |StartupFields(s)| ==> Payload.Untouched(lg.config.payload, Field(data, StartupFields(s)[i]))
    ensures var cs := StartupCalls(s, data);
      var first := Emit(lg, cs[0], env1);
      var e := Emit(first.logger, cs[1], env2).entry;
      && Keys(first.entry) == EntryKeys(false)
      && first.entry[6].val == Str("URL: " + Interp(Coalesce(data, StrKey("full_url"), Str(""))))
      && e[6].val == Str("Request initiated")
      && e[8].key == StrKey("metrics") && e[8].val.Arr?
      && |e[8].val.items| == |StartupFields(s)| + 1
      && (forall i :: 0 <= i < |StartupFields(s)| ==>
            e[8].val.items[i] == Item(StrKey(StartupFields(s)[i]), Field(data, StartupFields(s)[i])))
      && e[8].val.items[|StartupFields(s)|] ==
           Item(StrKey("request_payload_size"), Int(|Interp(Coalesce(data, StrKey("payload"), Str("")))|))
  {
    var cs := StartupCalls(s, data);
    var first := Emit(lg, cs[0], env1);
    assert Keys(first.entry) == EntryKeys(false)
      && first.entry[6].val == Str("URL: " + Interp(Coalesce(data, StrKey("full_url"), Str("")))) by {
      EmitHead(lg, cs[0], env1);
    }
    assert first.logger.config == lg.config;
    var e := Emit(first.logger, cs[1], env2).entry;
    assert e[6].val == Str("Request initiated") by {
      EmitHead(first.logger, cs[1], env2);
    }
    var m := cs[1].metrics;
    assert e[8] == Item(StrKey("metrics"), Arr(m)) by {
      StartupMetricsUntouched(lg.config.payload, s, data);
      EmitCarriesMetrics(first.logger, cs[1], env2);
    }
  }

  lemma StartupMetricsUntouched(p: Payload.Settings, s: Sections, data: seq<Item>)
    requires Printable(Coalesce(data, StrKey("full_url"), Str("")))
    requires StringLike(Coalesce(data, StrKey("payload"), Str("")))
    requires forall i :: 0 <= i < |StartupFields(s)| ==> Payload.Untouched(p, Field(data, StartupFields(s)[i]))
    ensures AllUntouched(p, StartupCalls(s, data)[1].metrics)
  {
    var m := StartupCalls(s, data)[1].metrics;
    var k := |StartupFields(s)|;
    forall i | 0 <= i < |m| ensures Payload.Untouched(p, m[i].val) {
      if i < k {
        assert m[i].val == Field(data, StartupFields(s)[i]);
      } else {
        assert i == k && m[i].val.Int?;
      }
    }
  }

  // ------------------------------------------------------------- formatting

  /** The trace id shown in a text line: the entry's, unless it is empty or
      a placeholder, in which case the correlation context's (or a fresh
      temporary id), given as `fallback`. */
  function TraceText(entry: seq<Item>, fallback: string): (t: string)
    requires Printable(Field(entry, "trace_id"))
    ensures var v := Field(entry, "trace_id");
      (Empty(v) || v == Str("unknown") || v == Str("N/A")) ==> t == fallback
    ensures var v := Field(entry, "trace_id");
      v.Str? && Truthy(v.s) && v.s != "unknown" && v.s != "N/A" ==> t == v.s
  {
    var v := Field(entry, "trace_id");
    if Empty(v) || v == Str("unknown") || v == Str("N/A") then fallback else Interp(v)
  }

  /** The sequence number shown in a text line: the entry's, unless it is
      missing-and-null, empty or "0", in which case the padded counter. */
  function SeqText(entry: seq<Item>, counter: int): (q: string)
    requires Printable(Coalesce(entry, StrKey("req_seq"), Str("0000000000")))
    ensures var v := Coalesce(entry, StrKey("req_seq"), Str("0000000000"));
      Empty(v) ==> q == ReqSeq(counter)
    ensures var v := Coalesce(entry, StrKey("req_seq"), Str("0000000000"));
      v.Str? && Truthy(v.s) ==> q == v.s
    ensures !IsSet(entry, StrKey("req_seq")) ==> q == "0000000000"
  {
    var v := Coalesce(entry, StrKey("req_seq"), Str("0000000000"));
    if Empty(v) then ReqSeq(counter) else Interp(v)
  }

  /** `$entry[k] ?? []` */
  function ArrayField(entry: seq<Item>, name: string): Value {
    Coalesce(entry, StrKey(name), Arr([]))
  }

  /** What formatAsText needs of an entry to render without a PHP error:
      printable header fields, and arrays to merge when there is data. */
  predicate Renderable(entry: seq<Item>) {
    && Printable(Field(entry, "timestamp"))
    && Printable(Field(entry, "level"))
    && Printable(Field(entry, "section"))
    && Printable(Field(entry, "message"))
    && Printable(Field(entry, "trace_id"))
    && Printable(Coalesce(entry, StrKey("req_seq"), Str("0000000000")))
    && ((EmptyAt(entry, StrKey("context")) && EmptyAt(entry, StrKey("metrics")))
        || (ArrayField(entry, "context").Arr? && ArrayField(entry, "metrics").Arr?))
  }

  /** The text-line header. */
  function Header(timestamp: string, channel: string, level: string, trace: string, reqSeq: string,
                  section: string, message: string): (h: string)
    ensures |h| > 0 && h[0] == '['
  {
    "[" + timestamp + "] " + channel + "." + level + ": [" + trace + ":" + reqSeq + "] " + section + " " + message
  }

  /** An entry with nothing to say: no message, context or metrics. */
  predicate Blank(entry: seq<Item>) {
    EmptyAt(entry, StrKey("message")) && EmptyAt(entry, StrKey("context")) && EmptyAt(entry, StrKey("metrics"))
  }

  /** formatAsText. `jsonText` stands for json_encode with unescaped
      slashes only (non-ASCII text is escaped); `fallback` is the trace id
      used when the entry's is missing or a placeholder. */
  function FormatAsText(lg: Logger, entry: seq<Item>, jsonText: Value -> string, fallback: string): (line: string)
    requires Renderable(entry)
    ensures line == "" <==> Blank(entry)
    ensures !Blank(entry) ==>
      var h := Header(Interp(Field(entry, "timestamp")), lg.config.channel, Interp(Field(entry, "level")),
                      TraceText(entry, fallback), SeqText(entry, lg.counter),
                      Interp(Field(entry, "section")), Interp(Field(entry, "message")));
      && h <= line
      && (EmptyAt(entry, StrKey("context")) && EmptyAt(entry, StrKey("metrics")) ==> line == h)
      && (!(EmptyAt(entry, StrKey("context")) && EmptyAt(entry, StrKey("metrics"))) ==>
            line == h + " " + jsonText(Arr(Merge(ArrayField(entry, "context").items, ArrayField(entry, "metrics").items))))
  {
    if Blank(entry) then ""
    else
      var h := Header(Interp(Field(entry, "timestamp")), lg.config.channel, Interp(Field(entry, "level")),
                      TraceText(entry, fallback), SeqText(entry, lg.counter),
                      Interp(Field(entry, "section")), Interp(Field(entry, "message")));
      if EmptyAt(entry, StrKey("context")) && EmptyAt(entry, StrKey("metrics")) then h
      else h + " " + jsonText(Arr(Merge(ArrayField(entry, "context").items, ArrayField(entry, "metrics").items)))
  }

  /** formatLogEntry: the whole entry as JSON, or the text line.
      `jsonEntry` stands for json_encode with unescaped slashes and unescaped
      Unicode, the encoder of the JSON format; the text line uses
      `jsonText`. */
  function FormatLogEntry(lg: Logger, entry: seq<Item>, jsonEntry: Value -> string, jsonText: Value -> string,
                          fallback: string): (out: string)
    requires lg.config.format != "json" ==> Renderable(entry)
    ensures lg.config.format == "json" ==> out == jsonEntry(Arr(entry))
    ensures lg.config.format != "json" ==> (out == "" <==> Blank(entry))
    ensures lg.config.format != "json" && !Blank(entry) ==> out[0] == '['
  {
    if lg.config.format == "json" then jsonEntry(Arr(entry)) else FormatAsText(lg, entry, jsonText, fallback)
  }

  /** A line rendered from an entry log produced (with a message, and a
      trace id that is not a placeholder) shows that entry's timestamp,
      level, trace id, sequence number, section and message. */
  lemma LoggedEntryRendersItsIds(lg: Logger, level: string, section: string, message: string,
                                 context: seq<Item>, metrics: seq<Item>, env: Env,
                                 jsonText: Value -> string, fallback: string)
    requires lg.config.enabled && Payload.MaxDepth(lg.config.payload) >= 0 && Truthy(message)
    requires var id := Correlation.GetTraceId(lg.slots, env.traceUuid).id; id != "unknown" && id != "N/A"
    ensures var out := Log(lg, level, section, message, context, metrics, env);
      && Renderable(out.entry)
      && Header(env.timestamp, lg.config.channel, Upper(level),
                Correlation.GetTraceId(lg.slots, env.traceUuid).id, ReqSeq(lg.counter),
                "[" + section + "]", message)
         <= FormatAsText(out.logger, out.entry, jsonText, fallback)
  {
    var out := Log(lg, level, section, message, context, metrics, env);
    var e := out.entry;
    var id := Correlation.GetTraceId(lg.slots, env.traceUuid).id;
    assert UniqueKeys(e) by {
      LoggedEntryUnique(lg, level, section, message, context, metrics, env);
    }
    assert ArrayField(e, "context").Arr? && ArrayField(e, "metrics").Arr? by {
      ContextStaysArray(lg, level, section, message, context, metrics, env);
    }
    assert |e| >= 7
      && e[0] == Item(StrKey("timestamp"), Str(env.timestamp))
      && e[1] == Item(StrKey("trace_id"), Str(id))
      && e[2] == Item(StrKey("req_seq"), Str(ReqSeq(lg.counter)))
      && e[4] == Item(StrKey("level"), Str(Upper(level)))
      && e[5] == Item(StrKey("section"), Str("[" + section + "]"))
      && e[6] == Item(StrKey("message"), Str(message))
    by {
      LoggedHead(lg, level, section, message, context, metrics, env);
    }
    assert out.logger.config == lg.config;
    HeaderOfEntry(out.logger, e, env.timestamp, Upper(level), id,
                  ReqSeq(lg.counter), "[" + section + "]", message, jsonText, fallback);
  }

  /** The first fields of a logged entry, as the header reads them. */
  lemma LoggedHead(lg: Logger, level: string, section: string, message: string,
                   context: seq<Item>, metrics: seq<Item>, env: Env)
    requires lg.config.enabled && Payload.MaxDepth(lg.config.payload) >= 0
    ensures var e := Log(lg, level, section, message, context, metrics, env).entry;
      && |e| >= 7
      && e[0] == Item(StrKey("timestamp"), Str(env.timestamp))
      && e[1] == Item(StrKey("trace_id"), Str(Correlation.GetTraceId(lg.slots, env.traceUuid).id))
      && e[2] == Item(StrKey("req_seq"), Str(ReqSeq(lg.counter)))
      && e[4] == Item(StrKey("level"), Str(Upper(level)))
      && e[5] == Item(StrKey("section"), Str("[" + section + "]"))
      && e[6] == Item(StrKey("message"), Str(message))
  {
    var e := Log(lg, level, section, message, context, metrics, env).entry;
    var ks := Keys(e);
    assert ks == EntryKeys(metrics != []);
    assert e[0].key == ks[0] && e[1].key == ks[1] && e[2].key == ks[2];
    assert e[4].key == ks[4] && e[5].key == ks[5] && e[6].key == ks[6];
  }

  /** An entry whose first seven fields hold these strings renders a line
      starting with the header made of them. */
  lemma HeaderOfEntry(lg: Logger, e: seq<Item>, timestamp: string, level: string, trace: string,
                      reqSeq: string, section: string, message: string,
                      jsonText: Value -> string, fallback: string)
    requires UniqueKeys(e) && |e| >= 7
    requires e[0] == Item(StrKey("timestamp"), Str(timestamp))
    requires e[1] == Item(StrKey("trace_id"), Str(trace))
    requires e[2] == Item(StrKey("req_seq"), Str(reqSeq))
    requires e[4] == Item(StrKey("level"), Str(level))
    requires e[5] == Item(StrKey("section"), Str(section))
    requires e[6] == Item(StrKey("message"), Str(message))
    requires Truthy(message) && Truthy(trace) && trace != "unknown" && trace != "N/A" && Truthy(reqSeq)
    requires ArrayField(e, "context").Arr? && ArrayField(e, "metrics").Arr?
    ensures Renderable(e)
    ensures Header(timestamp, lg.config.channel, level, trace, reqSeq, section, message)
            <= FormatAsText(lg, e, jsonText, fallback)
  {
    HeadFields(e, timestamp, level, trace, reqSeq, section, message);
    HeadTexts(e, trace, reqSeq, fallback, lg.counter);
    assert !Blank(e);
  }

  /** The trace id and sequence number the header shows, when the entry
      carries real ones. */
  lemma HeadTexts(e: seq<Item>, trace: string, reqSeq: string, fallback: string, counter: int)
    requires Field(e, "trace_id") == Str(trace) && Coalesce(e, StrKey("req_seq"), Str("0000000000")) == Str(reqSeq)
    requires Truthy(trace) && trace != "unknown" && trace != "N/A" && Truthy(reqSeq)
    ensures TraceText(e, fallback) == trace && SeqText(e, counter) == reqSeq
  {
  }

  /** The lookups the header makes, on an entry whose first fields are known. */
  lemma HeadFields(e: seq<Item>, timestamp: string, level: string, trace: string,
                   reqSeq: string, section: string, message: string)
    requires UniqueKeys(e) && |e| >= 7
    requires e[0] == Item(StrKey("timestamp"), Str(timestamp))
    requires e[1] == Item(StrKey("trace_id"), Str(trace))
    requires e[2] == Item(StrKey("req_seq"), Str(reqSeq))
    requires e[4] == Item(StrKey("level"), Str(level))
    requires e[5] == Item(StrKey("section"), Str(section))
    requires e[6] == Item(StrKey("message"), Str(message))
    ensures Field(e, "timestamp") == Str(timestamp) && Field(e, "trace_id") == Str(trace)
    ensures Coalesce(e, StrKey("req_seq"), Str("0000000000")) == Str(reqSeq)
    ensures Field(e, "level") == Str(level) && Field(e, "section") == Str(section)
    ensures Field(e, "message") == Str(message)
  {
    GetAt(e, 0);
    GetAt(e, 1);
    GetAt(e, 2);
    GetAt(e, 4);
    GetAt(e, 5);
    GetAt(e, 6);
  }

  lemma LoggedEntryUnique(lg: Logger, level: string, section: string, message: string,
                          context: seq<Item>, metrics: seq<Item>, env: Env)
    requires lg.config.enabled
    ensures UniqueKeys(Log(lg, level, section, message, context, metrics, env).entry)
  {
    var d := Draft(lg, level, section, message, context, metrics, env);
    Redaction.UniqueKeysSameKeys(d, Log(lg, level, section, message, context, metrics, env).entry);
  }

  /** The context and metrics of a logged entry are arrays (or metrics is
      absent) when the depth limit is not negative. */
  lemma ContextStaysArray(lg: Logger, level: string, section: string, message: string,
                          context: seq<Item>, metrics: seq<Item>, env: Env)
    requires lg.config.enabled && Payload.MaxDepth(lg.config.payload) >= 0
    ensures var e := Log(lg, level, section, message, context, metrics, env).entry;
      ArrayField(e, "context").Arr? && ArrayField(e, "metrics").Arr?
  {
    var d := Draft(lg, level, section, message, context, metrics, env);
    ShapedDraftArrays(lg.config, d, metrics != []);
    assert Shape(lg.config, d) == Log(lg, level, section, message, context, metrics, env).entry;
  }

  lemma ShapedDraftArrays(cfg: Config, d: seq<Item>, withMetrics: bool)
    requires UniqueKeys(d) && Keys(d) == EntryKeys(withMetrics) && Payload.MaxDepth(cfg.payload) >= 0
    requires d[7].val.Arr? && (withMetrics ==> d[8].val.Arr?)
    ensures ArrayField(Shape(cfg, d), "context").Arr? && ArrayField(Shape(cfg, d), "metrics").Arr?
  {
    var e := Shape(cfg, d);
    assert UniqueKeys(e) && Keys(e) == Keys(d) by {
      Redaction.UniqueKeysSameKeys(d, e);
    }
    assert ArrayField(e, "context").Arr? by {
      ShapedFieldArray(cfg, d, 7, "context");
    }
    if withMetrics {
      ShapedFieldArray(cfg, d, 8, "metrics");
    } else {
      assert ArrayField(e, "metrics") == Arr([]) by {
        NoMetricsKey();
        forall i | 0 <= i < |e| ensures e[i].key != StrKey("metrics") {
          assert Keys(e)[i] == EntryKeys(false)[i];
        }
        ArrayFieldAbsent(e, "metrics");
      }
    }
  }

  /** A context or metrics field holding an array still holds one after
      shaping, and `?? []` reads it. */
  lemma ShapedFieldArray(cfg: Config, d: seq<Item>, i: int, name: string)
    requires UniqueKeys(d) && 0 <= i < |d| && d[i].key == StrKey(name) && d[i].val.Arr?
    requires name == "context" || name == "metrics"
    requires Payload.MaxDepth(cfg.payload) >= 0
    ensures ArrayField(Shape(cfg, d), name).Arr?
  {
    var e := Shape(cfg, d);
    assert UniqueKeys(e) && Keys(e) == Keys(d) by {
      Redaction.UniqueKeysSameKeys(d, e);
    }
    assert e[i].val.Arr? by {
      ShapeKeepsArray(cfg, d, i);
    }
    assert e[i].key == StrKey(name) by {
      assert Keys(e)[i] == Keys(d)[i];
    }
    ArrayFieldAt(e, i, name);
  }

  lemma ArrayFieldAt(e: seq<Item>, i: int, name: string)
    requires UniqueKeys(e) && 0 <= i < |e| && e[i].key == StrKey(name) && e[i].val.Arr?
    ensures ArrayField(e, name) == e[i].val
  {
    GetAt(e, i);
  }

  lemma ArrayFieldAbsent(e: seq<Item>, name: string)
    requires forall i :: 0 <= i < |e| ==> e[i].key != StrKey(name)
    ensures ArrayField(e, name) == Arr([])
  {
  }

  /** Shaping keeps an array-valued context or metrics field an array when
      the depth limit is not negative. */
  lemma ShapeKeepsArray(cfg: Config, d: seq<Item>, i: int)
    requires UniqueKeys(d) && 0 <= i < |d| && d[i].val.Arr?
    requires d[i].key == StrKey("context") || d[i].key == StrKey("metrics")
    requires Payload.MaxDepth(cfg.payload) >= 0
    ensures Shape(cfg, d)[i].val.Arr?
  {
    ShapeAt(cfg, d, i);
  }
}
