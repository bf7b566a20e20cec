/** PayloadProcessor: bounds what a log entry can carry. Strings longer than
    the configured maximum are cut and marked, values nested deeper than the
    configured depth are replaced by a sentinel, resources and files are
    summarised. Only the context and metrics fields are processed. */
module Payload {
  import opened Strings
  import opened Values

  /** The `payload_handling` configuration block; missing keys are None. */
  datatype Settings = Settings(maxArrayDepth: Option<int>, maxStringLength: Option<int>)

  /** `max_array_depth ?? 10` */
  function MaxDepth(p: Settings): int {
    if p.maxArrayDepth.Some? then p.maxArrayDepth.value else 10
  }

  /** `max_string_length ?? 5000` */
  function MaxLength(p: Settings): int {
    if p.maxStringLength.Some? then p.maxStringLength.value else 5000
  }

  const TruncatedMarker: string := "[TRUNCATED]"
  const DepthSentinel: string := "[MAX_DEPTH_REACHED]"
  const ResourcePlaceholder: string := "[RESOURCE]"

  /** truncateString: a string within the limit is kept; a longer one is cut
      to the limit and marked. A negative limit marks every string, after
      dropping that many characters from its end, as substr does. */
  function TruncateString(p: Settings, s: string): (t: string)
    ensures |s| <= MaxLength(p) ==> t == s
    ensures |s| > MaxLength(p) >= 0 ==> t == s[..MaxLength(p)] + TruncatedMarker
    ensures MaxLength(p) >= 0 ==> |t| <= MaxLength(p) + |TruncatedMarker|
    ensures MaxLength(p) < 0 ==>
      t == s[..if |s| + MaxLength(p) > 0 then |s| + MaxLength(p) else 0] + TruncatedMarker
  {
    if |s| > MaxLength(p) then Head(s, MaxLength(p)) + TruncatedMarker else s
  }

  /** With a non-negative limit, truncating a truncated string changes
      nothing. */
  lemma TruncateIdempotent(p: Settings, s: string)
    requires MaxLength(p) >= 0
    ensures TruncateString(p, TruncateString(p, s)) == TruncateString(p, s)
  {
    var n := MaxLength(p);
    var t := TruncateString(p, s);
    if |s| > n {
      assert t[..n] == s[..n];
    }
  }

  /** summarizeFile: the shape of the summary that replaces a file. */
  function FileSummary(name: string, sizeKb: string, mime: Option<string>): seq<Item> {
    [ Item(StrKey("type"), Str("file")),
      Item(StrKey("name"), Str(name)),
      Item(StrKey("size_kb"), Float(sizeKb)),
      Item(StrKey("mime"), if mime.Some? then Str(mime.value) else Null) ]
  }

  const UnknownResourceSummary: seq<Item> := [Item(StrKey("type"), Str("unknown_resource"))]

  /** processValue at a given depth. */
  function ProcessValue(p: Settings, v: Value, depth: int): (w: Value)
    decreases v, 1
    ensures depth > MaxDepth(p) ==> w == Str(DepthSentinel)
    ensures depth <= MaxDepth(p) && v.Str? ==> w == Str(TruncateString(p, v.s))
    ensures depth <= MaxDepth(p) && v.Arr? ==> w == Arr(ProcessArray(p, v.items, depth + 1)) && Keys(w.items) == Keys(v.items)
    ensures depth <= MaxDepth(p) && v.Resource? ==> w == Str(ResourcePlaceholder)
    ensures depth <= MaxDepth(p) && v.File? ==> w == Arr(FileSummary(v.name, v.sizeKb, v.mime))
    ensures depth <= MaxDepth(p) && v.Traversable? ==> w == Arr(UnknownResourceSummary)
    ensures depth <= MaxDepth(p) && (v.Null? || v.Bool? || v.Int? || v.Float? || v.Object?) ==> w == v
  {
    if depth > MaxDepth(p) then Str(DepthSentinel)
    else match v
      case Str(s) => Str(TruncateString(p, s))
      case Arr(items) => Arr(ProcessArray(p, items, depth + 1))
      case Resource => Str(ResourcePlaceholder)
      case File(name, sizeKb, mime) => Arr(FileSummary(name, sizeKb, mime))
      case Traversable => Arr(UnknownResourceSummary)
      case _ => v
  }

  /** The children of an array, each processed one level deeper. */
  function ProcessArray(p: Settings, items: seq<Item>, depth: int): (out: seq<Item>)
    decreases Arr(items), 0
    ensures |out| == |items| && Keys(out) == Keys(items)
    ensures forall i :: 0 <= i < |items| ==> out[i].val == ProcessValue(p, items[i].val, depth)
  {
    seq(|items|, i requires 0 <= i < |items| => Item(items[i].key, ProcessValue(p, items[i].val, depth)))
  }

  /** Values processValue hands back as they are below the depth limit:
      scalars, objects, and strings within the length limit. */
  predicate Untouched(p: Settings, v: Value) {
    v.Null? || v.Bool? || v.Int? || v.Float? || v.Object? || (v.Str? && |v.s| <= MaxLength(p))
  }

  /** An array of such values, within the depth limit, is kept as it is. */
  lemma ProcessArrayKeepsUntouched(p: Settings, items: seq<Item>, depth: int)
    requires depth <= MaxDepth(p)
    requires forall i :: 0 <= i < |items| ==> Untouched(p, items[i].val)
    ensures ProcessArray(p, items, depth) == items
  {
    var out := ProcessArray(p, items, depth);
    forall i | 0 <= i < |items| ensures out[i] == items[i] {
      assert Keys(out)[i] == Keys(items)[i];
    }
  }

  /** `v` holds arrays nested at most `levels` deep (a scalar holds none). */
  ghost predicate NestedWithin(v: Value, levels: int)
    decreases v
  {
    v.Arr? ==> levels >= 1 && forall i :: 0 <= i < |v.items| ==> NestedWithin(v.items[i].val, levels - 1)
  }

  /** Whatever the input (cyclic data is unfolded to arbitrary depth in the
      source), a value processed at depth d holds arrays nested at most
      max_array_depth + 1 - d deep: nothing below the depth limit survives. */
  lemma {:induction false} ProcessValueBoundsNesting(p: Settings, v: Value, depth: int)
    ensures NestedWithin(ProcessValue(p, v, depth), MaxDepth(p) + 1 - depth)
    decreases v
  {
    var w := ProcessValue(p, v, depth);
    if depth > MaxDepth(p) {
      assert w == Str(DepthSentinel);
    } else if v.Arr? {
      var out := ProcessArray(p, v.items, depth + 1);
      forall i | 0 <= i < |out|
        ensures NestedWithin(out[i].val, MaxDepth(p) - depth)
      {
        ProcessValueBoundsNesting(p, v.items[i].val, depth + 1);
      }
      assert w == Arr(out);
    } else if v.File? {
      assert w == Arr(FileSummary(v.name, v.sizeKb, v.mime));
      assert forall i :: 0 <= i < |w.items| ==> !w.items[i].val.Arr?;
    } else if v.Traversable? {
      assert w == Arr(UnknownResourceSummary);
      assert forall i :: 0 <= i < |w.items| ==> !w.items[i].val.Arr?;
    } else {
      assert !w.Arr?;
    }
  }

  /** processValue replaces a key's value in place when it is set. */
  function ProcessField(p: Settings, entry: seq<Item>, name: string): (out: seq<Item>)
    ensures Keys(out) == Keys(entry)
    ensures forall i :: 0 <= i < |entry| && entry[i].key != StrKey(name) ==> out[i] == entry[i]
  {
    if IsSet(entry, StrKey(name))
    then Replace(entry, StrKey(name), ProcessValue(p, Get(entry, StrKey(name)).value, 0))
    else entry
  }

  /** The top-level fields that are processed. */
  const ProcessedFields: set<string> := {"context", "metrics"}

  /** process: context and metrics, when set, are processed from depth 0;
      every other field, the correlation block included, is left as it was. */
  function Process(p: Settings, entry: seq<Item>): (out: seq<Item>)
    ensures Keys(out) == Keys(entry)
    ensures forall i :: 0 <= i < |entry| && !(entry[i].key.StrKey? && entry[i].key.s in ProcessedFields) ==>
      out[i] == entry[i]
  {
    ProcessField(p, ProcessField(p, entry, "context"), "metrics")
  }

  /** Position by position, a set context or metrics value is replaced by
      its processed form, starting from depth 0. */
  lemma ProcessAt(p: Settings, entry: seq<Item>, i: int)
    requires UniqueKeys(entry) && 0 <= i < |entry|
    ensures Process(p, entry)[i] ==
      if entry[i].key.StrKey? && entry[i].key.s in ProcessedFields && entry[i].val != Null
      then Item(entry[i].key, ProcessValue(p, entry[i].val, 0))
      else entry[i]
  {
    var e1 := ProcessField(p, entry, "context");
    GetAt(entry, i);
    if entry[i].key == StrKey("metrics") {
      assert Keys(e1) == Keys(entry);
      assert UniqueKeys(e1) by {
        forall a, b | 0 <= a < b < |e1| ensures e1[a].key != e1[b].key {
          assert Keys(e1)[a] == Keys(entry)[a] && Keys(e1)[b] == Keys(entry)[b];
        }
      }
      GetAt(e1, i);
    }
  }
}
