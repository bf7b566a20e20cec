/** CorrelationContext: the trace identity shared by every entry of a unit of
    work, and the per-section span ids. The trace id lives in three
    process-wide slots: a permanent id, a temporary ("tmp/"-prefixed) id and
    the temporary id that a permanent one replaced. Method, path, client
    address and the span cache belong to one context instance. */
module Correlation {
  import opened Strings
  import opened Values

  /** The three process-wide trace-id slots. */
  datatype Slots = Slots(permanent: Option<string>, temporary: Option<string>, replaced: Option<string>)

  const EmptySlots: Slots := Slots(None, None, None)

  const TempPrefix: string := "tmp/"

  /** A slot counts as set when it holds a string PHP considers true. */
  predicate Held(o: Option<string>) {
    o.Some? && Truthy(o.value)
  }

  predicate IsTemporary(id: string) {
    StartsWith(id, TempPrefix)
  }

  /** setTraceId: a temporary id fills only the temporary slot; any other id
      becomes the permanent id, and a temporary id held at that moment is
      recorded as replaced and cleared. */
  function SetTraceId(s: Slots, id: string): (t: Slots)
    ensures IsTemporary(id) ==> t == s.(temporary := Some(id))
    ensures !IsTemporary(id) ==> t.permanent == Some(id)
    ensures !IsTemporary(id) && Held(s.temporary) ==> t.replaced == s.temporary && t.temporary == None
    ensures !IsTemporary(id) && !Held(s.temporary) ==> t.replaced == s.replaced && t.temporary == s.temporary
  {
    if IsTemporary(id) then s.(temporary := Some(id))
    else if Held(s.temporary) then Slots(Some(id), None, s.temporary)
    else s.(permanent := Some(id))
  }

  /** The id a read returned, with the slots after the read. */
  datatype Minted = Minted(id: string, slots: Slots)

  /** getTraceId: the permanent id if set, else the temporary id if set,
      else a fresh temporary id built from `uuid`, which is stored. */
  function GetTraceId(s: Slots, uuid: string): (m: Minted)
    ensures Truthy(m.id)
    ensures Held(s.permanent) ==> m == Minted(s.permanent.value, s)
    ensures !Held(s.permanent) && Held(s.temporary) ==> m == Minted(s.temporary.value, s)
    ensures !Held(s.permanent) && !Held(s.temporary) ==>
      m.id == TempPrefix + uuid && IsTemporary(m.id) && m.slots == s.(temporary := Some(m.id))
  {
    if Held(s.permanent) then Minted(s.permanent.value, s)
    else if Held(s.temporary) then Minted(s.temporary.value, s)
    else
      var id := TempPrefix + uuid;
      assert id[..4] == TempPrefix;
      Minted(id, s.(temporary := Some(id)))
  }

  /** getReplacedTempTraceId */
  function ReplacedTempTraceId(s: Slots): Option<string> {
    s.replaced
  }

  /** Once read, the trace id stays what it was: a second read (whatever
      fresh id it is offered) returns the same id and changes nothing. */
  lemma GetTraceIdStable(s: Slots, u1: string, u2: string)
    ensures GetTraceId(GetTraceId(s, u1).slots, u2) == GetTraceId(s, u1)
  {
  }

  /** A permanent id is never shadowed by a temporary one: after any run of
      temporary ids, reads still return it. */
  lemma {:induction false} PermanentSurvivesTemporary(s: Slots, ids: seq<string>, uuid: string)
    requires Held(s.permanent)
    requires forall i :: 0 <= i < |ids| ==> IsTemporary(ids[i])
    ensures GetTraceId(SetAll(s, ids), uuid).id == s.permanent.value
    ensures SetAll(s, ids).permanent == s.permanent
    decreases |ids|
  {
    if ids != [] {
      PermanentSurvivesTemporary(SetTraceId(s, ids[0]), ids[1..], uuid);
    }
  }

  /** Successive setTraceId calls. */
  function SetAll(s: Slots, ids: seq<string>): Slots
    decreases |ids|
  {
    if ids == [] then s else SetAll(SetTraceId(s, ids[0]), ids[1..])
  }

  /** Upgrading: a permanent id set while a temporary id is held is what
      reads return from then on, and the temporary id is remembered as the
      one it replaced. */
  lemma UpgradeRecordsReplaced(s: Slots, id: string, uuid: string)
    requires Held(s.temporary) && !IsTemporary(id) && Truthy(id)
    ensures GetTraceId(SetTraceId(s, id), uuid).id == id
    ensures ReplacedTempTraceId(SetTraceId(s, id)) == s.temporary
    ensures SetTraceId(s, id).temporary == None
  {
  }

  /** There is no once-only rule: a later permanent id overwrites an earlier
      one. */
  lemma LaterPermanentWins(s: Slots, a: string, b: string, uuid: string)
    requires !IsTemporary(a) && !IsTemporary(b) && Truthy(b)
    ensures GetTraceId(SetTraceId(SetTraceId(s, a), b), uuid).id == b
  {
  }

  // ------------------------------------------------------- instance state

  /** The per-instance part: request metadata and the span cache. */
  datatype Context = Context(
    requestMethod: Option<string>,
    path: Option<string>,
    clientIp: Option<string>,
    spans: map<string, string>)

  const NewContext: Context := Context(None, None, None, map[])

  function OrDefault(o: Option<string>, d: string): string {
    if o.Some? then o.value else d
  }

  /** getMethod, getPath, getClientIp with their defaults for unset fields. */
  function Method(c: Context): (m: string)
    ensures c.requestMethod.None? ==> m == "UNKNOWN"
    ensures c.requestMethod.Some? ==> m == c.requestMethod.value
  {
    OrDefault(c.requestMethod, "UNKNOWN")
  }

  function Path(c: Context): (p: string)
    ensures c.path.None? ==> p == "/"
    ensures c.path.Some? ==> p == c.path.value
  {
    OrDefault(c.path, "/")
  }

  function ClientIp(c: Context): (ip: string)
    ensures c.clientIp.None? ==> ip == "UNKNOWN"
    ensures c.clientIp.Some? ==> ip == c.clientIp.value
  {
    OrDefault(c.clientIp, "UNKNOWN")
  }

  /** setMethod, setPath, setClientIp. */
  function SetMethod(c: Context, m: string): (c': Context)
    ensures c'.requestMethod == Some(m) && c'.(requestMethod := c.requestMethod) == c
  {
    c.(requestMethod := Some(m))
  }

  function SetPath(c: Context, p: string): (c': Context)
    ensures c'.path == Some(p) && c'.(path := c.path) == c
  {
    c.(path := Some(p))
  }

  function SetClientIp(c: Context, ip: string): (c': Context)
    ensures c'.clientIp == Some(ip) && c'.(clientIp := c.clientIp) == c
  {
    c.(clientIp := Some(ip))
  }

  /** A fresh context reports the defaults; each setter is read back by its
      getter and leaves the other two getters and the span cache alone. */
  lemma AccessorsReadSetters(c: Context, m: string, p: string, ip: string)
    ensures Method(NewContext) == "UNKNOWN" && Path(NewContext) == "/" && ClientIp(NewContext) == "UNKNOWN"
    ensures Method(SetMethod(c, m)) == m
      && Path(SetMethod(c, m)) == Path(c) && ClientIp(SetMethod(c, m)) == ClientIp(c)
    ensures Path(SetPath(c, p)) == p
      && Method(SetPath(c, p)) == Method(c) && ClientIp(SetPath(c, p)) == ClientIp(c)
    ensures ClientIp(SetClientIp(c, ip)) == ip
      && Method(SetClientIp(c, ip)) == Method(c) && Path(SetClientIp(c, ip)) == Path(c)
    ensures SetClientIp(SetPath(SetMethod(c, m), p), ip).spans == c.spans
  {
  }

  datatype Span = Span(id: string, ctx: Context)

  /** getOrCreateSpanId: the cached id of a section, or `uuid`, cached. */
  function GetOrCreateSpanId(c: Context, section: string, uuid: string): (r: Span)
    ensures section in r.ctx.spans && r.id == r.ctx.spans[section]
    ensures section in c.spans ==> r == Span(c.spans[section], c)
    ensures section !in c.spans ==> r.id == uuid
    ensures r.ctx.spans.Keys == c.spans.Keys + {section}
    ensures forall k :: k in c.spans ==> r.ctx.spans[k] == c.spans[k]
    ensures r.ctx.(spans := c.spans) == c
  {
    if section in c.spans then Span(c.spans[section], c)
    else Span(uuid, c.(spans := c.spans[section := uuid]))
  }

  /** Asking again for a section's span id returns the same id and leaves the
      context unchanged, whatever fresh id is offered. */
  lemma SpanIdStable(c: Context, section: string, u1: string, u2: string)
    ensures var first := GetOrCreateSpanId(c, section, u1);
      GetOrCreateSpanId(first.ctx, section, u2) == first
  {
  }

  /** No two sections share a span id. */
  ghost predicate DistinctSpans(spans: map<string, string>) {
    forall a, b :: a in spans && b in spans && a != b ==> spans[a] != spans[b]
  }

  /** Span ids requested in turn for `sections`, the i-th request offered
      `uuids[i]`. */
  function SpanRun(c: Context, sections: seq<string>, uuids: seq<string>): Context
    requires |uuids| == |sections|
    decreases |sections|
  {
    if sections == [] then c
    else SpanRun(GetOrCreateSpanId(c, sections[0], uuids[0]).ctx, sections[1..], uuids[1..])
  }

  /** Given a supply of fresh ids (pairwise different, none already cached),
      different sections end up with different span ids. */
  lemma {:induction false} SpanRunDistinct(c: Context, sections: seq<string>, uuids: seq<string>)
    requires |uuids| == |sections|
    requires DistinctSpans(c.spans)
    requires forall i, j :: 0 <= i < j < |uuids| ==> uuids[i] != uuids[j]
    requires forall i :: 0 <= i < |uuids| ==> uuids[i] !in c.spans.Values
    ensures DistinctSpans(SpanRun(c, sections, uuids).spans)
    decreases |sections|
  {
    if sections != [] {
      var c' := GetOrCreateSpanId(c, sections[0], uuids[0]).ctx;
      assert DistinctSpans(c'.spans);
      assert c'.spans.Values <= c.spans.Values + {uuids[0]} by {
        forall v | v in c'.spans.Values ensures v in c.spans.Values + {uuids[0]} {
          var k :| k in c'.spans && c'.spans[k] == v;
          if k in c.spans {
            assert c.spans[k] == v;
          }
        }
      }
      forall i | 0 <= i < |uuids[1..]| ensures uuids[1..][i] !in c'.spans.Values {
        assert uuids[1..][i] == uuids[i + 1];
      }
      SpanRunDistinct(c', sections[1..], uuids[1..]);
    }
  }

  /** toArray: the correlation snapshot attached to every entry. The read of
      the trace id may mint a temporary id; the duration is given as the
      text of the float the clock produced. */
  datatype Snapshot = Snapshot(items: seq<Item>, slots: Slots)

  function ToArray(s: Slots, c: Context, uuid: string, durationMs: string): (r: Snapshot)
    ensures Keys(r.items) == [StrKey("trace_id"), StrKey("method"), StrKey("path"),
                              StrKey("client_ip"), StrKey("request_duration_ms")]
    ensures r.items[0].val == Str(GetTraceId(s, uuid).id)
    ensures r.items[1].val == Str(Method(c))
    ensures r.items[2].val == Str(Path(c))
    ensures r.items[3].val == Str(ClientIp(c))
    ensures r.items[4].val == Float(durationMs)
    ensures r.slots == GetTraceId(s, uuid).slots
  {
    var m := GetTraceId(s, uuid);
    Snapshot(
      [ Item(StrKey("trace_id"), Str(m.id)),
        Item(StrKey("method"), Str(Method(c))),
        Item(StrKey("path"), Str(Path(c))),
        Item(StrKey("client_ip"), Str(ClientIp(c))),
        Item(StrKey("request_duration_ms"), Float(durationMs)) ],
      m.slots)
  }
}
