/** ModelQueryProcessor: the entry logged for a database query that follows
    an Eloquent model event. The event name gives the verb, the SQL text
    gives a rough record count, and the bindings are spliced into the SQL
    for display through vsprintf. */
module ModelQuery {
  import opened Strings
  import opened Values
  import Payload
  import Logger

  // ------------------------------------------------------------ event verb

  /** The verb map of the model-event listener; other names pass through. */
  function VerbOf(name: string): (v: string)
    ensures name == "created" ==> v == "insert"
    ensures name == "updated" ==> v == "update"
    ensures name == "deleted" ==> v == "delete"
    ensures name == "retrieved" ==> v == "select"
    ensures name == "saved" ==> v == "save"
    ensures name == "restored" ==> v == "restore"
    ensures name == "forceDeleted" ==> v == "forceDelete"
    ensures name !in {"created", "updated", "deleted", "retrieved", "saved", "restored", "forceDeleted"} ==> v == name
  {
    if name == "created" then "insert"
    else if name == "updated" then "update"
    else if name == "deleted" then "delete"
    else if name == "retrieved" then "select"
    else if name == "saved" then "save"
    else if name == "restored" then "restore"
    else if name == "forceDeleted" then "forceDelete"
    else name
  }

  /** The listener's verb as written: the text after the first ':' of the
      event name (the whole name when there is none), then mapped. */
  function EventVerb(event: string): (v: string)
    ensures ':' !in event ==> v == VerbOf(event)
    ensures ':' in event ==> v == VerbOf(event[FirstIndex(event, ':') + 1..])
  {
    if ':' in event then VerbOf(event[FirstIndex(event, ':') + 1..]) else VerbOf(event)
  }

  /** The framework names a model event "eloquent.<event>: <model class>".
      Read as written, the text after the colon is the class name (with its
      leading space), so whatever the event, the class name becomes the
      verb. */
  lemma EventVerbTakesClassName(e: string, cls: string)
    requires ':' !in e
    ensures EventVerb(EventPrefix + e + ": " + cls) == " " + cls
  {
    var event := EventPrefix + e + ": " + cls;
    var k := |EventPrefix| + |e|;
    assert event[..k] == EventPrefix + e;
    assert event[k] == ':';
    FirstIndexIsFirst(event, ':', k);
    assert event[k + 1..] == " " + cls;
    assert (" " + cls)[0] == ' ';
  }

  const EventPrefix: string := "eloquent."

  /** The verb the listener evidently means: the event between the
      "eloquent." prefix and the colon, mapped. */
  function ModelEventVerb(event: string): (v: string)
    ensures ':' !in event && !StartsWith(event, EventPrefix) ==> v == VerbOf(event)
    ensures ':' in event && !StartsWith(event[..FirstIndex(event, ':')], EventPrefix) ==>
      v == VerbOf(event[..FirstIndex(event, ':')])
  {
    var name := if ':' in event then event[..FirstIndex(event, ':')] else event;
    var bare := if StartsWith(name, EventPrefix) then name[|EventPrefix|..] else name;
    VerbOf(bare)
  }

  /** For every framework event name, the corrected verb is the mapped
      event. */
  lemma ModelEventVerbReadsEvent(e: string, cls: string)
    requires ':' !in e
    ensures ModelEventVerb(EventPrefix + e + ": " + cls) == VerbOf(e)
  {
    var event := EventPrefix + e + ": " + cls;
    var k := |EventPrefix| + |e|;
    assert event[k] == ':';
    assert ':' in event;
    assert ':' !in event[..k] by {
      assert event[..k] == EventPrefix + e;
    }
    assert FirstIndex(event, ':') == k by {
      FirstIndexIsFirst(event, ':', k);
    }
    assert event[..k] == EventPrefix + e;
    assert (EventPrefix + e)[|EventPrefix|..] == e;
  }

  lemma FirstIndexIsFirst(s: string, c: char, k: nat)
    requires k < |s| && s[k] == c && c !in s[..k]
    ensures FirstIndex(s, c) == k
  {
    var f := FirstIndex(s, c);
    assert forall j :: 0 <= j < k ==> s[..k][j] == s[j];
    assert forall j :: 0 <= j < f ==> s[..f][j] == s[j];
  }

  /** What the listener stores for the next query: the model's class
      basename and the verb. */
  datatype ModelContext = ModelContext(model: string, verb: string)

  /** The model-event listener as written: nothing is stored unless the
      first payload is a model (`model` is its basename, None when there is
      no model); the verb is read from the text after the colon. */
  function EventContext(event: string, model: Option<string>): (c: Option<ModelContext>)
    ensures model.None? <==> c.None?
    ensures c.Some? ==> c.value.model == model.value && c.value.verb == EventVerb(event)
  {
    if model.None? then None else Some(ModelContext(model.value, EventVerb(event)))
  }

  /** For a framework event name the listener as written stores the class
      name, with its leading space, as the verb. */
  lemma EventContextStoresClassName(e: string, cls: string, model: string)
    requires ':' !in e
    ensures EventContext(EventPrefix + e + ": " + cls, Some(model)) == Some(ModelContext(model, " " + cls))
  {
    EventVerbTakesClassName(e, cls);
  }

  /** The listener with the corrected verb: the mapped event name. */
  function EventContextIntended(event: string, model: Option<string>): (c: Option<ModelContext>)
    ensures model.None? <==> c.None?
    ensures c.Some? ==> c.value.model == model.value && c.value.verb == ModelEventVerb(event)
  {
    if model.None? then None else Some(ModelContext(model.value, ModelEventVerb(event)))
  }

  /** For a framework event name the corrected listener stores the mapped
      event: "created" is stored as insert. */
  lemma EventContextIntendedStoresVerb(e: string, cls: string, model: string)
    requires ':' !in e
    ensures EventContextIntended(EventPrefix + e + ": " + cls, Some(model)) == Some(ModelContext(model, VerbOf(e)))
  {
    ModelEventVerbReadsEvent(e, cls);
  }

  // ---------------------------------------------------------- record count

  /** The record-count estimate from the SQL text alone. */
  function RecordCount(sql: string): (r: Value)
    ensures StartsWithIgnoringCase(sql, "select") ==>
      r == (if HasSubstringIgnoringCase(sql, "limit 1") then Int(1) else Str("(multiple)"))
    ensures !StartsWithIgnoringCase(sql, "select") && StartsWithIgnoringCase(sql, "insert") ==>
      r == (if HasSubstringIgnoringCase(sql, "insert into") && CountOccurrences(sql, "(") > 1
            then Int(CountOccurrences(sql, "),(") + 1) else Int(1))
    ensures !StartsWithIgnoringCase(sql, "select") && !StartsWithIgnoringCase(sql, "insert") ==>
      r == (if StartsWithIgnoringCase(sql, "update") || StartsWithIgnoringCase(sql, "delete")
            then Str("(affected)") else Int(0))
    ensures r.Int? ==> r.i >= 0
  {
    if StartsWithIgnoringCase(sql, "select") then
      if HasSubstringIgnoringCase(sql, "limit 1") then Int(1) else Str("(multiple)")
    else if StartsWithIgnoringCase(sql, "insert") then
      if HasSubstringIgnoringCase(sql, "insert into") && CountOccurrences(sql, "(") > 1
      then Int(CountOccurrences(sql, "),(") + 1)
      else Int(1)
    else if StartsWithIgnoringCase(sql, "update") || StartsWithIgnoringCase(sql, "delete") then
      Str("(affected)")
    else
      Int(0)
  }

  /** The estimate looks for the text "limit 1", which "limit 10" (or any
      limit starting with the digit 1) also contains: such a select counts
      as one record. */
  lemma LimitTenCountsAsOne(sql: string)
    requires StartsWithIgnoringCase(sql, "select")
    requires HasSubstringIgnoringCase(sql, "limit 10")
    ensures RecordCount(sql) == Int(1)
  {
    var l := Lower(sql);
    var i := IndexOf(l, Lower("limit 10")).index;
    assert Lower("limit 10") == "limit 10";
    assert Lower("limit 1") == "limit 1";
    assert l[i..i + 7] == "limit 1" by {
      assert l[i..i + 8] == "limit 10";
      assert l[i..i + 7] == l[i..i + 8][..7];
    }
    assert OccursAt(l, "limit 1", i);
  }

  /** A bulk insert counts one record per value group. */
  lemma BulkInsertCountsGroups(sql: string)
    requires !StartsWithIgnoringCase(sql, "select") && StartsWithIgnoringCase(sql, "insert")
    requires HasSubstringIgnoringCase(sql, "insert into") && CountOccurrences(sql, "(") > 1
    ensures RecordCount(sql) == Int(CountOccurrences(sql, "),(") + 1)
    ensures HasSubstring(sql, "),(") ==> RecordCount(sql).i >= 2
  {
    if HasSubstring(sql, "),(") {
      CountPositiveIffContains(sql, "),(");
    }
  }

  // ------------------------------------------------------ SQL with bindings

  /** addslashes: a backslash before every quote, double quote and
      backslash; a NUL byte becomes backslash-zero. */
  function AddSlashes(s: string): (r: string)
    ensures |r| >= |s|
  {
    if s == [] then ""
    else
      var c := s[0];
      (if c == '\'' || c == '"' || c == '\\' then ['\\', c]
       else if c == '\0' then "\\0"
       else [c]) + AddSlashes(s[1..])
  }

  /** stripslashes, the inverse reading. */
  function StripSlashes(s: string): string
    decreases |s|
  {
    if s == [] then ""
    else if s[0] == '\\' && |s| >= 2 then
      (if s[1] == '0' then "\0" else [s[1]]) + StripSlashes(s[2..])
    else if s[0] == '\\' then ""
    else [s[0]] + StripSlashes(s[1..])
  }

  /** Escaping loses nothing: stripping the slashes gives the value back. */
  lemma {:induction false} AddSlashesRoundTrip(s: string)
    ensures StripSlashes(AddSlashes(s)) == s
  {
    if s != [] {
      var c := s[0];
      var head := if c == '\'' || c == '"' || c == '\\' then ['\\', c] else if c == '\0' then "\\0" else [c];
      var r := head + AddSlashes(s[1..]);
      AddSlashesRoundTrip(s[1..]);
      if |head| == 2 {
        assert r[2..] == AddSlashes(s[1..]);
      } else {
        assert r[1..] == AddSlashes(s[1..]);
      }
    }
  }

  /** A value with nothing to escape is kept as it is. */
  lemma {:induction false} AddSlashesPlain(s: string)
    requires forall i :: 0 <= i < |s| ==> s[i] != '\'' && s[i] != '"' && s[i] != '\\' && s[i] != '\0'
    ensures AddSlashes(s) == s
  {
    if s != [] {
      AddSlashesPlain(s[1..]);
      assert [s[0]] + s[1..] == s;
    }
  }

  /** In an escaped value every quote is preceded by a backslash, so the
      quoted literal cannot be closed early. */
  lemma {:induction false} AddSlashesGuardsQuotes(s: string, i: int)
    requires 0 <= i < |AddSlashes(s)| && AddSlashes(s)[i] == '\''
    ensures i >= 1 && AddSlashes(s)[i - 1] == '\\'
  {
    var c := s[0];
    var head := if c == '\'' || c == '"' || c == '\\' then ['\\', c] else if c == '\0' then "\\0" else [c];
    var rest := AddSlashes(s[1..]);
    assert AddSlashes(s) == head + rest;
    if i >= |head| {
      AddSlashesGuardsQuotes(s[1..], i - |head|);
    }
  }

  /** How a binding is shown: NULL, TRUE/FALSE, a quoted escaped string, or
      the value's own text. */
  function Render(v: Value): (t: string)
    requires Printable(v)
    ensures v.Null? ==> t == "NULL"
    ensures v.Bool? ==> t == (if v.b then "TRUE" else "FALSE")
    ensures v.Str? ==> t == "'" + AddSlashes(v.s) + "'"
    ensures v.Int? || v.Float? || v.Arr? ==> t == Interp(v)
  {
    match v
    case Null => "NULL"
    case Bool(b) => if b then "TRUE" else "FALSE"
    case Str(s) => "'" + AddSlashes(s) + "'"
    case Int(_) => Interp(v)
    case Float(_) => Interp(v)
    case Arr(_) => Interp(v)
  }

  function RenderAll(bindings: seq<Value>): (ts: seq<string>)
    requires forall i :: 0 <= i < |bindings| ==> Printable(bindings[i])
    ensures |ts| == |bindings|
    ensures forall i :: 0 <= i < |bindings| ==> ts[i] == Render(bindings[i])
  {
    seq(|bindings|, i requires 0 <= i < |bindings| => Render(bindings[i]))
  }

  /** str_replace(['%', '?'], ['%%', '%s'], sql): the SQL becomes a format
      string whose only directives are "%%" and "%s". */
  function Escape(sql: string): (f: string)
    ensures |f| >= |sql|
  {
    if sql == [] then ""
    else (if sql[0] == '%' then "%%" else if sql[0] == '?' then "%s" else [sql[0]]) + Escape(sql[1..])
  }

  function Prepend(p: string, o: Option<string>): (r: Option<string>)
    ensures r.Some? <==> o.Some?
    ensures r.Some? ==> r.value == p + o.value
  {
    if o.Some? then Some(p + o.value) else None
  }

  /** vsprintf over the two directives Escape can produce: "%%" is a
      percent sign, "%s" takes the next argument. Running out of arguments
      raises a ValueError in PHP 8, as does a trailing lone '%'; both are
      None. Other directives cannot occur in an escaped string and are not
      modelled (None). */
  function Vsprintf(f: string, args: seq<string>): Option<string>
    decreases |f|
  {
    if f == [] then Some("")
    else if f[0] != '%' then Prepend([f[0]], Vsprintf(f[1..], args))
    else if |f| == 1 then None
    else if f[1] == '%' then Prepend("%", Vsprintf(f[2..], args))
    else if f[1] == 's' then
      if args == [] then None else Prepend(args[0], Vsprintf(f[2..], args[1..]))
    else None
  }

  /** The reference reading: each '?' of the SQL, left to right, replaced by
      the next argument; every other character, '%' included, kept. None
      when there are more placeholders than arguments. */
  function Substitute(sql: string, args: seq<string>): Option<string>
    decreases |sql|
  {
    if sql == [] then Some("")
    else if sql[0] == '?' then
      if args == [] then None else Prepend(args[0], Substitute(sql[1..], args[1..]))
    else Prepend([sql[0]], Substitute(sql[1..], args))
  }

  /** Escaping and then formatting is substitution. */
  lemma {:induction false} EscapeThenFormat(sql: string, args: seq<string>)
    ensures Vsprintf(Escape(sql), args) == Substitute(sql, args)
    decreases |sql|
  {
    if sql != [] {
      var f := Escape(sql);
      if sql[0] == '%' {
        assert f == "%%" + Escape(sql[1..]);
        assert f[2..] == Escape(sql[1..]);
        EscapeThenFormat(sql[1..], args);
      } else if sql[0] == '?' {
        assert f == "%s" + Escape(sql[1..]);
        assert f[2..] == Escape(sql[1..]);
        if args != [] {
          EscapeThenFormat(sql[1..], args[1..]);
        }
      } else {
        assert f == [sql[0]] + Escape(sql[1..]);
        assert f[1..] == Escape(sql[1..]);
        EscapeThenFormat(sql[1..], args);
      }
    }
  }

  /** Substitution succeeds exactly when there are at least as many
      arguments as placeholders. */
  lemma {:induction false} SubstituteDefined(sql: string, args: seq<string>)
    ensures Substitute(sql, args).Some? <==> CountOccurrences(sql, "?") <= |args|
    decreases |sql|
  {
    if sql != [] {
      assert sql[..1] == [sql[0]];
      assert sql[|"?"|..] == sql[1..];
      if sql[0] == '?' {
        if args != [] {
          SubstituteDefined(sql[1..], args[1..]);
        }
      } else {
        SubstituteDefined(sql[1..], args);
      }
    }
  }

  /** A string of placeholders-free pieces with a '?' between neighbours. */
  function Weave(pieces: seq<string>, fills: seq<string>): string
    requires |pieces| == |fills| + 1
    decreases |fills|
  {
    if fills == [] then pieces[0] else pieces[0] + fills[0] + Weave(pieces[1..], fills[1..])
  }

  function Marks(n: nat): (m: seq<string>)
    ensures |m| == n && forall i :: 0 <= i < n ==> m[i] == "?"
  {
    seq(n, _ => "?")
  }

  /** Substitution puts the i-th argument in place of the i-th '?'. */
  lemma {:induction false} SubstituteWeave(pieces: seq<string>, args: seq<string>)
    requires |pieces| == |args| + 1
    requires forall i :: 0 <= i < |pieces| ==> '?' !in pieces[i]
    ensures Substitute(Weave(pieces, Marks(|args|)), args) == Some(Weave(pieces, args))
    decreases |args|
  {
    if args == [] {
      SubstitutePlain(pieces[0], []);
    } else {
      var rest := Weave(pieces[1..], Marks(|args| - 1));
      assert Marks(|args|)[1..] == Marks(|args[1..]|);
      assert Weave(pieces, Marks(|args|)) == pieces[0] + ("?" + rest);
      SubstituteWeave(pieces[1..], args[1..]);
      var w := Weave(pieces[1..], args[1..]);
      assert ("?" + rest)[0] == '?' && ("?" + rest)[1..] == rest;
      assert Substitute("?" + rest, args) == Some(args[0] + w);
      SubstituteAfterPlain(pieces[0], "?" + rest, args);
      assert pieces[0] + (args[0] + w) == Weave(pieces, args);
    }
  }

  lemma {:induction false} SubstitutePlain(p: string, args: seq<string>)
    requires '?' !in p
    ensures Substitute(p, args) == Some(p)
  {
    if p != [] {
      assert p == [p[0]] + p[1..];
      SubstitutePlain(p[1..], args);
    }
  }

  lemma {:induction false} SubstituteAfterPlain(p: string, t: string, args: seq<string>)
    requires '?' !in p
    ensures Substitute(p + t, args) == Prepend(p, Substitute(t, args))
  {
    if p != [] {
      assert p[0] != '?';
      assert (p + t)[0] == p[0] && (p + t)[1..] == p[1..] + t;
      assert '?' !in p[1..] by {
        forall i | 0 <= i < |p[1..]| ensures p[1..][i] != '?' {
          assert p[1..][i] == p[i + 1];
        }
      }
      SubstituteAfterPlain(p[1..], t, args);
      assert Substitute(p + t, args) == Prepend([p[0]], Substitute(p[1..] + t, args));
      var o := Substitute(t, args);
      if o.Some? {
        assert [p[0]] + (p[1..] + o.value) == p + o.value;
      }
    } else {
      assert p + t == t;
      if Substitute(t, args).Some? {
        assert p + Substitute(t, args).value == Substitute(t, args).value;
      }
    }
  }

  /** formatSqlWithBindings. None stands for the ValueError vsprintf raises
      when the SQL has more placeholders than there are bindings. */
  function FormatSql(sql: string, bindings: seq<Value>): (r: Option<string>)
    requires forall i :: 0 <= i < |bindings| ==> Printable(bindings[i])
    ensures r == Substitute(sql, RenderAll(bindings))
    ensures r.Some? <==> CountOccurrences(sql, "?") <= |bindings|
  {
    EscapeThenFormat(sql, RenderAll(bindings));
    SubstituteDefined(sql, RenderAll(bindings));
    Vsprintf(Escape(sql), RenderAll(bindings))
  }

  /** The i-th '?' of the SQL shows the i-th binding, left to right; '%' in
      the SQL and '?' inside binding values come out literally. */
  lemma FormatFillsPlaceholders(pieces: seq<string>, bindings: seq<Value>)
    requires |pieces| == |bindings| + 1
    requires forall i :: 0 <= i < |pieces| ==> '?' !in pieces[i]
    requires forall i :: 0 <= i < |bindings| ==> Printable(bindings[i])
    ensures FormatSql(Weave(pieces, Marks(|bindings|)), bindings) == Some(Weave(pieces, RenderAll(bindings)))
  {
    SubstituteWeave(pieces, RenderAll(bindings));
  }

  lemma WeaveOne(a: string, b: string, x: string)
    ensures Weave([a, b], [x]) == a + x + b
  {
    assert [a, b][1..] == [b];
  }

  lemma WeaveTwo(a: string, b: string, c: string, x: string, y: string)
    ensures Weave([a, b, c], [x, y]) == a + x + b + y + c
  {
    assert [a, b, c][1..] == [b, c] && [x, y][1..] == [y];
    WeaveOne(b, c, y);
  }

  /** One placeholder, one binding. */
  lemma FormatOne(a: string, b: string, v: Value)
    requires '?' !in a && '?' !in b && Printable(v)
    ensures FormatSql(a + "?" + b, [v]) == Some(a + Render(v) + b)
  {
    WeaveOne(a, b, "?");
    WeaveOne(a, b, Render(v));
    assert Marks(1) == ["?"] && RenderAll([v]) == [Render(v)];
    FormatFillsPlaceholders([a, b], [v]);
  }

  /** Two placeholders, two bindings. */
  lemma FormatTwo(a: string, b: string, c: string, v: Value, w: Value)
    requires '?' !in a && '?' !in b && '?' !in c && Printable(v) && Printable(w)
    ensures FormatSql(a + "?" + b + "?" + c, [v, w]) == Some(a + Render(v) + b + Render(w) + c)
  {
    WeaveTwo(a, b, c, "?", "?");
    WeaveTwo(a, b, c, Render(v), Render(w));
    assert Marks(2) == ["?", "?"] && RenderAll([v, w]) == [Render(v), Render(w)];
    FormatFillsPlaceholders([a, b, c], [v, w]);
  }

  /** A string binding with nothing to escape is shown between quotes. */
  lemma RenderPlainString(s: string)
    requires forall i :: 0 <= i < |s| ==> s[i] != '\'' && s[i] != '"' && s[i] != '\\' && s[i] != '\0'
    ensures Render(Str(s)) == "'" + s + "'"
  {
    AddSlashesPlain(s);
  }

  /** The repository's own examples: a null binding, then a true one. */
  lemma FormatSqlNull(sql: string)
    requires sql == "SELECT * FROM users WHERE deleted_at IS ?"
    ensures FormatSql(sql, [Null]) == Some("SELECT * FROM users WHERE deleted_at IS NULL")
  {
    var a := "SELECT * FROM users WHERE deleted_at IS ";
    assert sql == a + "?" + "";
    FormatOne(a, "", Null);
    assert a + Render(Null) + "" == "SELECT * FROM users WHERE deleted_at IS NULL";
  }

  lemma FormatSqlTrue(sql: string)
    requires sql == "SELECT * FROM users WHERE active = ?"
    ensures FormatSql(sql, [Bool(true)]) == Some("SELECT * FROM users WHERE active = TRUE")
  {
    var a := "SELECT * FROM users WHERE active = ";
    assert sql == a + "?" + "";
    FormatOne(a, "", Bool(true));
    assert a + Render(Bool(true)) + "" == "SELECT * FROM users WHERE active = TRUE";
  }

  // ------------------------------------------------------------ the entry

  /** The bindings as the list logged in the context. */
  function List(vs: seq<Value>): (items: seq<Item>)
    ensures |items| == |vs|
    ensures forall i :: 0 <= i < |vs| ==> items[i] == Item(IntKey(i), vs[i])
  {
    seq(|vs|, i requires 0 <= i < |vs| => Item(IntKey(i), vs[i]))
  }

  /** The query as reported by the database layer; `time` is the text of
      the duration float. */
  datatype Query = Query(sql: string, bindings: seq<Value>, time: string, connection: string)

  /** What one query leads to: nothing (no model context), a call to log,
      or the error vsprintf raises when the SQL has more placeholders than
      there are bindings. Nothing catches that error, so it reaches the code
      that ran the query. */
  datatype Outcome = Skipped | Logs(call: Logger.Call) | Raises

  /** processQuery when a fresh model context is present: the call made to
      log, or the raised error when formatting the SQL fails. The level is
      always debug and the section is MODEL/<model>/<verb>. */
  function QueryCall(ctx: ModelContext, q: Query): (o: Outcome)
    requires forall i :: 0 <= i < |q.bindings| ==> Printable(q.bindings[i])
    ensures !o.Skipped?
    ensures o.Raises? <==> CountOccurrences(q.sql, "?") > |q.bindings|
    ensures o.Logs? ==>
      && o.call.level == "debug"
      && o.call.section == "MODEL/" + ctx.model + "/" + ctx.verb
      && o.call.message == "Model " + ctx.model + " " + ctx.verb + " operation"
      && Keys(o.call.context) == [StrKey("sql"), StrKey("bindings")]
      && o.call.context[0].val == Str(FormatSql(q.sql, q.bindings).value)
      && o.call.context[1].val == Arr(List(q.bindings))
      && Keys(o.call.metrics) == [StrKey("duration_ms"), StrKey("record_count"), StrKey("connection")]
      && o.call.metrics[0].val == Float(q.time)
      && o.call.metrics[1].val == RecordCount(q.sql)
      && o.call.metrics[2].val == Str(q.connection)
  {
    var formatted := FormatSql(q.sql, q.bindings);
    if formatted.None? then Raises
    else
      Logs(Logger.Call(
        "debug",
        "MODEL/" + ctx.model + "/" + ctx.verb,
        "Model " + ctx.model + " " + ctx.verb + " operation",
        [Item(StrKey("sql"), Str(formatted.value)), Item(StrKey("bindings"), Arr(List(q.bindings)))],
        [ Item(StrKey("duration_ms"), Float(q.time)),
          Item(StrKey("record_count"), RecordCount(q.sql)),
          Item(StrKey("connection"), Str(q.connection)) ]))
  }

  /** The record count is a number or one of two ten-character notes. */
  lemma RecordCountShort(sql: string)
    ensures RecordCount(sql).Int? || (RecordCount(sql).Str? && |RecordCount(sql).s| == 10)
  {
  }

  /** The query entry as written to the log, when nothing in its metrics
      needs bounding and redaction is off: the duration, the record count and
      the connection name, in that order, under the MODEL section. */
  lemma QueryMetricsLogged(lg: Logger.Logger, ctx: ModelContext, q: Query, env: Logger.Env)
    requires forall i :: 0 <= i < |q.bindings| ==> Printable(q.bindings[i])
    requires CountOccurrences(q.sql, "?") <= |q.bindings|
    requires Logger.Transparent(lg.config)
    requires 10 <= Payload.MaxLength(lg.config.payload) && |q.connection| <= Payload.MaxLength(lg.config.payload)
    ensures var o := QueryCall(ctx, q);
      o.Logs? &&
      var e := Logger.Emit(lg, o.call, env).entry;
      && e[5].val == Str("[" + ("MODEL/" + ctx.model + "/" + ctx.verb) + "]")
      && e[8] == Item(StrKey("metrics"), Arr([
           Item(StrKey("duration_ms"), Float(q.time)),
           Item(StrKey("record_count"), RecordCount(q.sql)),
           Item(StrKey("connection"), Str(q.connection))]))
  {
    var o := QueryCall(ctx, q);
    var m := o.call.metrics;
    assert m == [ Item(StrKey("duration_ms"), Float(q.time)),
                  Item(StrKey("record_count"), RecordCount(q.sql)),
                  Item(StrKey("connection"), Str(q.connection)) ] by {
      assert Keys(m)[0] == m[0].key && Keys(m)[1] == m[1].key && Keys(m)[2] == m[2].key;
    }
    assert Logger.AllUntouched(lg.config.payload, m) by {
      RecordCountShort(q.sql);
    }
    var e := Logger.Emit(lg, o.call, env).entry;
    assert e[5].val == Str("[" + ("MODEL/" + ctx.model + "/" + ctx.verb) + "]") by {
      Logger.EmitHead(lg, o.call, env);
    }
    assert e[8] == Item(StrKey("metrics"), Arr(m)) by {
      Logger.EmitCarriesMetrics(lg, o.call, env);
    }
  }

  /** The outcome of processQuery and the model context left for the next
      query. */
  datatype Processed = Processed(outcome: Outcome, next: Option<ModelContext>)

  /** processQuery: without a model context nothing happens; with one, the
      query is logged and the context is forgotten, unless formatting raises
      first, in which case the context is left in place. */
  function ProcessQuery(ctx: Option<ModelContext>, q: Query): (r: Processed)
    requires forall i :: 0 <= i < |q.bindings| ==> Printable(q.bindings[i])
    ensures ctx.None? <==> r.outcome.Skipped?
    ensures ctx.Some? && CountOccurrences(q.sql, "?") <= |q.bindings| ==> r.outcome.Logs? && r.next.None?
    ensures ctx.Some? && CountOccurrences(q.sql, "?") > |q.bindings| ==> r.outcome.Raises? && r.next == ctx
    ensures ctx.None? ==> r.next.None?
  {
    if ctx.None? then Processed(Skipped, None)
    else
      var o := QueryCall(ctx.value, q);
      if o.Raises? then Processed(o, ctx) else Processed(o, None)
  }

  /** A query with a placeholder and no bindings raises, and the model
      context survives it. */
  lemma MissingBindingRaises(ctx: ModelContext, a: string, b: string, time: string, connection: string)
    ensures var r := ProcessQuery(Some(ctx), Query(a + "?" + b, [], time, connection));
      r.outcome == Raises && r.next == Some(ctx)
  {
    CountAtLeastOne(a, b);
  }

  lemma CountAtLeastOne(a: string, b: string)
    ensures CountOccurrences(a + "?" + b, "?") >= 1
  {
    var s := a + "?" + b;
    assert OccursAt(s, "?", |a|) by {
      assert s[|a|..|a| + 1] == "?";
    }
    CountPositiveIffContains(s, "?");
  }

  /** The event listener as written followed by the query: the section names
      the model class where the verb should be. */
  lemma ListenedQuerySection(e: string, cls: string, model: string, q: Query)
    requires ':' !in e
    requires forall i :: 0 <= i < |q.bindings| ==> Printable(q.bindings[i])
    requires CountOccurrences(q.sql, "?") <= |q.bindings|
    ensures var ctx := EventContext(EventPrefix + e + ": " + cls, Some(model));
      var r := ProcessQuery(ctx, q);
      r.outcome.Logs? && r.outcome.call.section == "MODEL/" + model + "/ " + cls && r.next.None?
  {
    EventContextStoresClassName(e, cls, model);
  }

  /** With the corrected listener the section carries the mapped verb. */
  lemma ListenedQuerySectionIntended(e: string, cls: string, model: string, q: Query)
    requires ':' !in e
    requires forall i :: 0 <= i < |q.bindings| ==> Printable(q.bindings[i])
    requires CountOccurrences(q.sql, "?") <= |q.bindings|
    ensures var ctx := EventContextIntended(EventPrefix + e + ": " + cls, Some(model));
      var r := ProcessQuery(ctx, q);
      r.outcome.Logs? && r.outcome.call.section == "MODEL/" + model + "/" + VerbOf(e) && r.next.None?
  {
    EventContextIntendedStoresVerb(e, cls, model);
  }
}
