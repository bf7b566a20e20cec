/** RedactionProcessor: masks sensitive values inside the context, metrics
    and correlation blocks of a log entry. A pair is masked when its key
    contains a configured pattern, or (with smart detection) starts with a
    well-known secret prefix, or (with smart detection) holds a string that
    looks like an email address, a card number or a bearer token. Nested
    arrays under other keys are rewritten recursively. */
module Redaction {
  import opened Strings
  import opened Values

  /** The `redaction` configuration block as given; keys that may be missing
      are options. */
  datatype Settings = Settings(
    enabled: bool,
    mode: Option<string>,
    maskChar: Option<string>,
    smartDetection: bool,
    patterns: Option<seq<string>>,
    customKeys: Option<seq<string>>)

  /** A constructed processor. `isEmail` stands for PHP's
      FILTER_VALIDATE_EMAIL filter, which is not modelled. */
  datatype Redactor = Redactor(
    settings: Settings,
    maskChar: string,
    patterns: seq<string>,
    isEmail: string -> bool)

  function OrEmpty(ps: Option<seq<string>>): seq<string> {
    if ps.Some? then ps.value else []
  }

  /** The constructor: mask character defaults to '*', and the key patterns
      are the configured patterns followed by the custom keys. */
  function New(s: Settings, isEmail: string -> bool): (r: Redactor)
    ensures r.settings == s
    ensures s.maskChar.None? ==> r.maskChar == "*"
    ensures s.maskChar.Some? ==> r.maskChar == s.maskChar.value
    ensures forall p :: p in OrEmpty(s.patterns) || p in OrEmpty(s.customKeys) <==> p in r.patterns
  {
    Redactor(s, if s.maskChar.Some? then s.maskChar.value else "*",
             OrEmpty(s.patterns) + OrEmpty(s.customKeys), isEmail)
  }

  /** The default `custom_keys` entry: the comma-separated list read from an
      environment variable that defaults to the empty string. */
  function DefaultCustomKeys(): seq<string> {
    Explode(',', "")
  }

  /** The constructor with empty patterns dropped, so that an unset custom
      key list contributes nothing. */
  function NewSkippingEmpty(s: Settings, isEmail: string -> bool): (r: Redactor)
    ensures r.settings == s
    ensures s.maskChar.None? ==> r.maskChar == "*"
    ensures s.maskChar.Some? ==> r.maskChar == s.maskChar.value
    ensures forall p :: p in r.patterns <==> p != "" && (p in OrEmpty(s.patterns) || p in OrEmpty(s.customKeys))
  {
    Redactor(s, if s.maskChar.Some? then s.maskChar.value else "*",
             NonEmpty(OrEmpty(s.patterns) + OrEmpty(s.customKeys)), isEmail)
  }

  function NonEmpty(ps: seq<string>): (r: seq<string>)
    ensures forall p :: p in r <==> p in ps && p != ""
  {
    if ps == [] then []
    else (if ps[0] == "" then [] else [ps[0]]) + NonEmpty(ps[1..])
  }

  // ---------------------------------------------------------------- keys

  /** Reference meaning of a key matching a pattern: the lower-cased pattern
      occurs in the lower-cased key. */
  ghost predicate KeyMatches(key: Key, p: string) {
    Contains(Lower(KeyText(key)), Lower(p))
  }

  /** The pattern loop of isSensitiveKey (stripos on the lower-cased key). */
  predicate AnyPatternIn(lowerKey: string, ps: seq<string>) {
    ps != [] && (HasSubstringIgnoringCase(lowerKey, ps[0]) || AnyPatternIn(lowerKey, ps[1..]))
  }

  /** The key-prefix list used by smart detection. */
  const SmartPrefixes: seq<string> :=
    ["password", "passwd", "pwd", "secret", "token", "auth", "api_key", "key"]

  predicate HasSmartPrefix(lowerKey: string) {
    exists p :: p in SmartPrefixes && StartsWith(lowerKey, p)
  }

  predicate IsSensitiveKey(r: Redactor, key: Key) {
    var lowerKey := Lower(KeyText(key));
    AnyPatternIn(lowerKey, r.patterns)
    || (r.settings.smartDetection && HasSmartPrefix(lowerKey))
  }

  /** A key is sensitive exactly when one of the patterns occurs in it, or
      smart detection is on and it starts with one of the fixed prefixes. */
  lemma SensitiveKeyMeaning(r: Redactor, key: Key)
    ensures IsSensitiveKey(r, key) <==>
      (exists j :: 0 <= j < |r.patterns| && KeyMatches(key, r.patterns[j]))
      || (r.settings.smartDetection && exists p :: p in SmartPrefixes && p <= Lower(KeyText(key)))
  {
    LowerIdempotent(KeyText(key));
    AnyPatternMeaning(Lower(KeyText(key)), r.patterns);
  }

  lemma {:induction false} AnyPatternMeaning(lowerKey: string, ps: seq<string>)
    ensures AnyPatternIn(lowerKey, ps) <==>
      exists j :: 0 <= j < |ps| && Contains(Lower(lowerKey), Lower(ps[j]))
  {
    if ps != [] {
      AnyPatternMeaning(lowerKey, ps[1..]);
      if exists j :: 0 <= j < |ps| && Contains(Lower(lowerKey), Lower(ps[j])) {
        var j :| 0 <= j < |ps| && Contains(Lower(lowerKey), Lower(ps[j]));
        if j > 0 {
          assert ps[1..][j - 1] == ps[j];
        }
      }
      if exists j :: 0 <= j < |ps[1..]| && Contains(Lower(lowerKey), Lower(ps[1..][j])) {
        var j :| 0 <= j < |ps[1..]| && Contains(Lower(lowerKey), Lower(ps[1..][j]));
        assert ps[j + 1] == ps[1..][j];
      }
    }
  }

  /** The shipped default list of custom keys is [""], and the empty pattern
      occurs in every key: every key of every array is treated as sensitive. */
  lemma DefaultCustomKeysMaskEveryKey(s: Settings, isEmail: string -> bool, key: Key)
    requires s.customKeys == Some(DefaultCustomKeys())
    ensures IsSensitiveKey(New(s, isEmail), key)
  {
    var r := New(s, isEmail);
    ExplodeEmpty(',');
    assert r.patterns[|r.patterns| - 1] == "";
    EmptyNeedleIsEverywhere(Lower(Lower(KeyText(key))));
    SensitiveKeyMeaning(r, key);
    assert KeyMatches(key, r.patterns[|r.patterns| - 1]) by {
      assert OccursAt(Lower(KeyText(key)), Lower(""), 0);
    }
  }

  /** With empty patterns dropped, the default custom key list adds nothing:
      a key is sensitive exactly as if no custom keys were configured. */
  lemma DefaultCustomKeysAddNothing(s: Settings, isEmail: string -> bool, key: Key)
    requires s.customKeys == Some(DefaultCustomKeys())
    ensures IsSensitiveKey(NewSkippingEmpty(s, isEmail), key)
      == IsSensitiveKey(NewSkippingEmpty(s.(customKeys := None), isEmail), key)
  {
    ExplodeEmpty(',');
    var r1 := NewSkippingEmpty(s, isEmail);
    var r2 := NewSkippingEmpty(s.(customKeys := None), isEmail);
    assert forall p :: p in r1.patterns <==> p in r2.patterns;
    SensitiveKeyMeaning(r1, key);
    SensitiveKeyMeaning(r2, key);
    if exists j :: 0 <= j < |r1.patterns| && KeyMatches(key, r1.patterns[j]) {
      var j :| 0 <= j < |r1.patterns| && KeyMatches(key, r1.patterns[j]);
      assert r1.patterns[j] in r2.patterns;
    }
    if exists j :: 0 <= j < |r2.patterns| && KeyMatches(key, r2.patterns[j]) {
      var j :| 0 <= j < |r2.patterns| && KeyMatches(key, r2.patterns[j]);
      assert r2.patterns[j] in r1.patterns;
    }
  }

  // -------------------------------------------------------------- values

  /** `\s` of a PCRE pattern. */
  predicate IsSpace(c: char) {
    c == ' ' || c == '\t' || c == '\n' || c == '\r' || c == 11 as char || c == 12 as char
  }

  /** `[a-zA-Z0-9\-_.]` */
  predicate IsTokenChar(c: char) {
    'a' <= c <= 'z' || 'A' <= c <= 'Z' || '0' <= c <= '9' || c == '-' || c == '_' || c == '.'
  }

  function DropSpaces(s: string): (r: string)
    ensures |r| <= |s| && (r == [] || !IsSpace(r[0]))
    ensures r == s[|s| - |r|..]
    ensures forall j :: 0 <= j < |s| - |r| ==> IsSpace(s[j])
  {
    if s != [] && IsSpace(s[0]) then DropSpaces(s[1..]) else s
  }

  /** `/^\d{13,19}$/`: 13 to 19 digits, where `$` also matches just before
      a final newline. */
  predicate IsCardNumber(t: string) {
    (13 <= |t| <= 19 && AllDigits(t))
    || (14 <= |t| <= 20 && t[|t| - 1] == '\n' && AllDigits(t[..|t| - 1]))
  }

  /** `/^Bearer\s+[a-zA-Z0-9\-_.]+/`: the word Bearer, at least one blank,
      then a token character (anything may follow). */
  predicate IsBearerToken(s: string) {
    StartsWith(s, "Bearer") && |s| > 6 && IsSpace(s[6])
    && var t := DropSpaces(s[6..]); t != [] && IsTokenChar(t[0])
  }

  predicate IsSensitiveValue(r: Redactor, s: string) {
    r.settings.smartDetection
    && (r.isEmail(s) || IsCardNumber(RemoveSpaces(s)) || IsBearerToken(s))
  }

  /** Reference reading of the card-number test, for text without a
      newline: nothing but digits and spaces, and 13 to 19 digits. */
  lemma CardNumberMeaning(s: string)
    ensures '\n' !in s ==>
      (IsCardNumber(RemoveSpaces(s)) <==>
        (forall i :: 0 <= i < |s| ==> s[i] == ' ' || IsDigit(s[i]))
        && 13 <= |s| - multiset(s)[' '] <= 19)
  {
    RemoveSpacesFacts(s);
  }

  lemma {:induction false} RemoveSpacesFacts(s: string)
    ensures AllDigits(RemoveSpaces(s)) <==> forall i :: 0 <= i < |s| ==> s[i] == ' ' || IsDigit(s[i])
    ensures |RemoveSpaces(s)| == |s| - multiset(s)[' ']
    ensures forall c :: c in RemoveSpaces(s) ==> c in s
  {
    if s != [] {
      RemoveSpacesFacts(s[1..]);
      assert s == [s[0]] + s[1..];
      assert multiset(s) == multiset{s[0]} + multiset(s[1..]);
      var t := RemoveSpaces(s);
      var h := if s[0] == ' ' then "" else [s[0]];
      assert t == h + RemoveSpaces(s[1..]);
      if forall i :: 0 <= i < |s| ==> s[i] == ' ' || IsDigit(s[i]) {
        assert forall i :: 0 <= i < |s[1..]| ==> s[1..][i] == ' ' || IsDigit(s[1..][i]) by {
          forall i | 0 <= i < |s[1..]| ensures s[1..][i] == ' ' || IsDigit(s[1..][i]) {
            assert s[1..][i] == s[i + 1];
          }
        }
        assert AllDigits(t);
      }
      if AllDigits(t) {
        assert AllDigits(RemoveSpaces(s[1..])) by {
          forall i | 0 <= i < |RemoveSpaces(s[1..])| ensures IsDigit(RemoveSpaces(s[1..])[i]) {
            assert RemoveSpaces(s[1..])[i] == t[|h| + i];
          }
        }
        forall i | 0 <= i < |s| ensures s[i] == ' ' || IsDigit(s[i]) {
          if i == 0 {
            if s[0] != ' ' {
              assert t[0] == s[0];
            }
          } else {
            assert s[i] == s[1..][i - 1];
          }
        }
      }
    }
  }

  /** Reference reading of the bearer test: "Bearer", then one or more
      blanks up to some position that holds a token character. */
  lemma BearerTokenMeaning(s: string)
    ensures IsBearerToken(s) <==>
      StartsWith(s, "Bearer")
      && exists k :: 7 <= k < |s| && (forall j :: 6 <= j < k ==> IsSpace(s[j])) && IsTokenChar(s[k])
  {
    if IsBearerToken(s) {
      BearerTokenWitness(s);
    }
    if StartsWith(s, "Bearer")
       && exists k :: 7 <= k < |s| && (forall j :: 6 <= j < k ==> IsSpace(s[j])) && IsTokenChar(s[k])
    {
      var k :| 7 <= k < |s| && (forall j :: 6 <= j < k ==> IsSpace(s[j])) && IsTokenChar(s[k]);
      BearerTokenFromWitness(s, k);
    }
  }

  lemma BearerTokenWitness(s: string)
    requires IsBearerToken(s)
    ensures exists k :: 7 <= k < |s| && (forall j :: 6 <= j < k ==> IsSpace(s[j])) && IsTokenChar(s[k])
  {
    var t0 := s[6..];
    var r := DropSpaces(t0);
    var n := |t0| - |r|;
    assert r[0] == t0[n] == s[6 + n];
    assert n >= 1;
    forall j | 6 <= j < 6 + n ensures IsSpace(s[j]) {
      assert s[j] == t0[j - 6];
    }
    assert 7 <= 6 + n < |s| && IsTokenChar(s[6 + n]);
  }

  lemma BearerTokenFromWitness(s: string, k: int)
    requires StartsWith(s, "Bearer") && 7 <= k < |s|
    requires forall j :: 6 <= j < k ==> IsSpace(s[j])
    requires IsTokenChar(s[k])
    ensures IsBearerToken(s)
  {
    var t0 := s[6..];
    assert IsSpace(s[6]);
    assert !IsSpace(t0[k - 6]) by {
      assert t0[k - 6] == s[k];
    }
    assert forall j :: 0 <= j < k - 6 ==> IsSpace(t0[j]) by {
      forall j | 0 <= j < k - 6 ensures IsSpace(t0[j]) {
        assert t0[j] == s[6 + j];
      }
    }
    DropSpacesStopsAt(t0, k - 6);
    assert DropSpaces(t0)[0] == s[k];
  }

  /** DropSpaces stops at the first character that is not blank. */
  lemma {:induction false} DropSpacesStopsAt(t: string, m: nat)
    requires m < |t| && !IsSpace(t[m])
    requires forall j :: 0 <= j < m ==> IsSpace(t[j])
    ensures DropSpaces(t) == t[m..]
    decreases m
  {
    if m > 0 {
      assert IsSpace(t[0]);
      forall j | 0 <= j < m - 1 ensures IsSpace(t[1..][j]) {
        assert t[1..][j] == t[j + 1];
      }
      DropSpacesStopsAt(t[1..], m - 1);
      assert t[1..][m - 1..] == t[m..];
    }
  }

  // -------------------------------------------------------------- masking

  /** `$config['mode'] ?? 'mask'` */
  function Mode(r: Redactor): string {
    if r.settings.mode.Some? then r.settings.mode.value else "mask"
  }

  /** maskValue: non-strings become the mask string; strings of at most two
      characters become that many mask strings; longer strings become the
      removal sentinel (remove mode) or keep their first and last character
      with every other character masked (any other mode). */
  function MaskValue(r: Redactor, v: Value): (m: string)
    ensures !v.Str? ==> m == r.maskChar
    ensures v.Str? && |v.s| <= 2 ==> m == Repeat(r.maskChar, |v.s|) && |m| == |r.maskChar| * |v.s|
    ensures v.Str? && |v.s| > 2 && Mode(r) == "remove" ==> m == "[REDACTED]"
    ensures v.Str? && |v.s| > 2 && Mode(r) != "remove" ==>
      && |m| == |r.maskChar| * (|v.s| - 2) + 2
      && m[0] == v.s[0] && m[|m| - 1] == v.s[|v.s| - 1]
      && m[1..|m| - 1] == Repeat(r.maskChar, |v.s| - 2)
      && (|r.maskChar| > 0 ==> forall i :: 0 < i < |m| - 1 ==> m[i] == r.maskChar[(i - 1) % |r.maskChar|])
    ensures v.Str? && |v.s| > 2 && Mode(r) != "remove" && |r.maskChar| == 1 ==>
      |m| == |v.s| && forall i :: 0 < i < |m| - 1 ==> m[i] == r.maskChar[0]
  {
    if !v.Str? then r.maskChar
    else if |v.s| <= 2 then Repeat(r.maskChar, |v.s|)
    else if Mode(r) == "remove" then "[REDACTED]"
    else
      var m := [v.s[0]] + Repeat(r.maskChar, |v.s| - 2) + [v.s[|v.s| - 1]];
      assert m[0] == v.s[0] && m[|m| - 1] == v.s[|v.s| - 1] && m[1..|m| - 1] == Repeat(r.maskChar, |v.s| - 2)
        && (|r.maskChar| > 0 ==> forall i :: 0 < i < |m| - 1 ==> m[i] == r.maskChar[(i - 1) % |r.maskChar|]) by {
        MaskedBetween(v.s[0], r.maskChar, |v.s| - 2, v.s[|v.s| - 1]);
      }
      m
  }

  /** A character, the mask repeated n times, a character: the mask string
      over and over between the two. */
  lemma MaskedBetween(first: char, c: string, n: nat, last: char)
    ensures var m := [first] + Repeat(c, n) + [last];
      && m[0] == first && m[|m| - 1] == last && m[1..|m| - 1] == Repeat(c, n)
      && (|c| > 0 ==> forall i :: 0 < i < |m| - 1 ==> m[i] == c[(i - 1) % |c|])
  {
    var inner := Repeat(c, n);
    var m := [first] + inner + [last];
    assert m[1..|m| - 1] == inner;
    if |c| > 0 {
      forall i | 0 < i < |m| - 1 ensures m[i] == c[(i - 1) % |c|] {
        assert m[i] == inner[i - 1];
        RepeatAt(c, n, i - 1);
      }
    }
  }

  /** With a one-character mask, masking a masked value changes nothing. */
  lemma MaskIdempotent(r: Redactor, v: Value)
    requires |r.maskChar| == 1
    ensures MaskValue(r, Str(MaskValue(r, v))) == MaskValue(r, v)
  {
    var m := MaskValue(r, v);
    if !v.Str? || |v.s| <= 2 {
      assert |m| <= 2;
      assert Repeat(r.maskChar, |m|) == m;
    } else if Mode(r) != "remove" {
      var m2 := MaskValue(r, Str(m));
      assert |m2| == |m|;
      assert forall i :: 0 <= i < |m| ==> m2[i] == m[i];
    }
  }

  // ---------------------------------------------------------- the rewrite

  /** redactArray: every pair keeps its key, in order; its value is
      rewritten by the per-pair rule. */
  function RedactArray(r: Redactor, items: seq<Item>): (out: seq<Item>)
    decreases Arr(items), 0
    ensures |out| == |items| && Keys(out) == Keys(items)
    ensures forall i :: 0 <= i < |items| ==> out[i].val == RedactPair(r, items[i].key, items[i].val)
  {
    seq(|items|, i requires 0 <= i < |items| => Item(items[i].key, RedactPair(r, items[i].key, items[i].val)))
  }

  /** The per-pair rule: a sensitive key masks the whole value (even an
      array); otherwise arrays are redacted recursively, sensitive-looking
      strings are masked, and everything else is kept. */
  function RedactPair(r: Redactor, key: Key, v: Value): (w: Value)
    decreases v, 1
    ensures IsSensitiveKey(r, key) ==> w == Str(MaskValue(r, v))
    ensures !IsSensitiveKey(r, key) && v.Arr? ==> w == Arr(RedactArray(r, v.items)) && Keys(w.items) == Keys(v.items)
    ensures !IsSensitiveKey(r, key) && v.Str? && IsSensitiveValue(r, v.s) ==> w == Str(MaskValue(r, v))
    ensures !IsSensitiveKey(r, key) && !v.Arr? && !(v.Str? && IsSensitiveValue(r, v.s)) ==> w == v
  {
    if IsSensitiveKey(r, key) then Str(MaskValue(r, v))
    else if v.Arr? then Arr(RedactArray(r, v.items))
    else if v.Str? && IsSensitiveValue(r, v.s) then Str(MaskValue(r, v))
    else v
  }

  /** Without smart detection a value under a non-matching key is never
      masked: scalars pass through and arrays keep their shape. */
  lemma NoSmartDetectionKeepsScalars(r: Redactor, key: Key, v: Value)
    requires !r.settings.smartDetection && !AnyPatternIn(Lower(KeyText(key)), r.patterns)
    ensures !v.Arr? ==> RedactPair(r, key, v) == v
    ensures v.Arr? ==> RedactPair(r, key, v) == Arr(RedactArray(r, v.items))
  {
  }

  /** With smart detection, a card number (digits, possibly grouped by
      spaces) is masked whatever key holds it. */
  lemma CardNumberMasked(r: Redactor, key: Key, s: string)
    requires r.settings.smartDetection && '\n' !in s
    requires forall i :: 0 <= i < |s| ==> s[i] == ' ' || IsDigit(s[i])
    requires 13 <= |s| - multiset(s)[' '] <= 19
    ensures RedactPair(r, key, Str(s)) == Str(MaskValue(r, Str(s)))
  {
    CardNumberMeaning(s);
  }

  /** With a one-character mask, redacting twice is redacting once. */
  lemma {:induction false} RedactArrayIdempotent(r: Redactor, items: seq<Item>)
    requires |r.maskChar| == 1
    ensures RedactArray(r, RedactArray(r, items)) == RedactArray(r, items)
    decreases Arr(items), 0
  {
    var once := RedactArray(r, items);
    forall i | 0 <= i < |items|
      ensures RedactPair(r, once[i].key, once[i].val) == once[i].val
    {
      RedactPairIdempotent(r, items[i].key, items[i].val);
    }
  }

  lemma {:induction false} RedactPairIdempotent(r: Redactor, key: Key, v: Value)
    requires |r.maskChar| == 1
    ensures RedactPair(r, key, RedactPair(r, key, v)) == RedactPair(r, key, v)
    decreases v, 1
  {
    if IsSensitiveKey(r, key) {
      MaskIdempotent(r, v);
    } else if v.Arr? {
      RedactArrayIdempotent(r, v.items);
    } else if v.Str? && IsSensitiveValue(r, v.s) {
      MaskIdempotent(r, v);
    }
  }

  /** The top-level fields that are rewritten. */
  const RedactedFields: set<string> := {"context", "metrics", "correlation"}

  function RedactField(r: Redactor, entry: seq<Item>, name: string): (out: seq<Item>)
    ensures Keys(out) == Keys(entry)
    ensures forall i :: 0 <= i < |entry| && entry[i].key != StrKey(name) ==> out[i] == entry[i]
  {
    var g := Get(entry, StrKey(name));
    if g.Some? && g.value.Arr? then Replace(entry, StrKey(name), Arr(RedactArray(r, g.value.items)))
    else entry
  }

  /** process: when enabled, the context, metrics and correlation arrays are
      redacted; the entry keeps its keys in order, and every other field is
      left as it was. */
  function Process(r: Redactor, entry: seq<Item>): (out: seq<Item>)
    ensures !r.settings.enabled ==> out == entry
    ensures Keys(out) == Keys(entry)
    ensures forall i :: 0 <= i < |entry| && !(entry[i].key.StrKey? && entry[i].key.s in RedactedFields) ==>
      out[i] == entry[i]
  {
    if !r.settings.enabled then entry
    else
      var e1 := RedactField(r, entry, "context");
      var e2 := RedactField(r, e1, "metrics");
      RedactField(r, e2, "correlation")
  }

  /** The rule applied at one position of an entry whose keys are unique:
      a redacted field holding an array gets the redacted array, anything
      else stays. */
  function FieldRule(r: Redactor, it: Item): Item {
    if it.key.StrKey? && it.key.s in RedactedFields && it.val.Arr?
    then Item(it.key, Arr(RedactArray(r, it.val.items)))
    else it
  }

  lemma RedactFieldAt(r: Redactor, e: seq<Item>, name: string, i: int)
    requires UniqueKeys(e) && 0 <= i < |e|
    ensures UniqueKeys(RedactField(r, e, name))
    ensures RedactField(r, e, name)[i] ==
      if e[i].key == StrKey(name) && e[i].val.Arr?
      then Item(e[i].key, Arr(RedactArray(r, e[i].val.items)))
      else e[i]
  {
    UniqueKeysSameKeys(e, RedactField(r, e, name));
    if e[i].key == StrKey(name) {
      GetAt(e, i);
    }
  }

  /** Position by position, an enabled process rewrites exactly the redacted
      fields that hold arrays. */
  lemma ProcessAt(r: Redactor, entry: seq<Item>, i: int)
    requires r.settings.enabled && UniqueKeys(entry) && 0 <= i < |entry|
    ensures UniqueKeys(Process(r, entry))
    ensures Process(r, entry)[i] == FieldRule(r, entry[i])
  {
    var e1 := RedactField(r, entry, "context");
    var e2 := RedactField(r, e1, "metrics");
    RedactFieldAt(r, entry, "context", i);
    RedactFieldAt(r, e1, "metrics", i);
    RedactFieldAt(r, e2, "correlation", i);
  }

  lemma UniqueKeysSameKeys(a: seq<Item>, b: seq<Item>)
    requires UniqueKeys(a) && Keys(a) == Keys(b)
    ensures UniqueKeys(b)
  {
    forall i, j | 0 <= i < j < |b| ensures b[i].key != b[j].key {
      assert Keys(b)[i] == b[i].key && Keys(a)[i] == a[i].key;
      assert Keys(b)[j] == b[j].key && Keys(a)[j] == a[j].key;
    }
  }

  /** With a one-character mask, processing an entry twice is processing it
      once. */
  lemma ProcessIdempotent(r: Redactor, entry: seq<Item>)
    requires |r.maskChar| == 1 && UniqueKeys(entry)
    ensures Process(r, Process(r, entry)) == Process(r, entry)
  {
    if r.settings.enabled {
      var once := Process(r, entry);
      var twice := Process(r, once);
      UniqueKeysSameKeys(entry, once);
      forall i | 0 <= i < |entry| ensures twice[i] == once[i] {
        ProcessAt(r, entry, i);
        ProcessAt(r, once, i);
        if entry[i].key.StrKey? && entry[i].key.s in RedactedFields && entry[i].val.Arr? {
          RedactArrayIdempotent(r, entry[i].val.items);
        }
      }
    }
  }
}
