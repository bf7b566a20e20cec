/** PHP values as the logging core sees them: scalars, ordered arrays of
    key/value pairs, and opaque leaves (resources, file handles, other
    objects). Also the array primitives the core uses: key lookup, `??`,
    `empty()`, string interpolation and array_merge / array_slice. */
module Values {
  import opened Strings

  datatype Option<T> = None | Some(value: T)

  /** A PHP array key: an integer or a (non-numeric) string. */
  datatype Key = IntKey(i: int) | StrKey(s: string)

  datatype Value =
    | Null
    | Bool(b: bool)
    | Int(i: int)
      /** A float, carried as the text PHP prints for it. */
    | Float(text: string)
    | Str(s: string)
    | Arr(items: seq<Item>)
    | Resource
      /** An SplFileInfo, with the results of the host calls made on it:
          the size in kilobytes rounded to two places (as PHP prints that
          float) and the detected mime type, if any. */
    | File(name: string, sizeKb: string, mime: Option<string>)
      /** A Traversable object that is not a file. */
    | Traversable
      /** Any other object. */
    | Object

  datatype Item = Item(key: Key, val: Value)

  /** The string a key is coerced to when passed where a string is expected. */
  function KeyText(k: Key): string {
    match k
    case IntKey(i) => IntToString(i)
    case StrKey(s) => s
  }

  function Keys(items: seq<Item>): (ks: seq<Key>)
    ensures |ks| == |items|
    ensures forall i :: 0 <= i < |items| ==> ks[i] == items[i].key
  {
    seq(|items|, i requires 0 <= i < |items| => items[i].key)
  }

  lemma KeysAppend(a: seq<Item>, b: seq<Item>)
    ensures Keys(a + b) == Keys(a) + Keys(b)
  {
  }

  /** The string keys of the given names, in order. */
  function StrKeys(names: seq<string>): (ks: seq<Key>)
    ensures |ks| == |names|
    ensures forall i :: 0 <= i < |names| ==> ks[i] == StrKey(names[i])
  {
    seq(|names|, i requires 0 <= i < |names| => StrKey(names[i]))
  }

  lemma StrKeysAppend(a: seq<string>, b: seq<string>)
    ensures StrKeys(a + b) == StrKeys(a) + StrKeys(b)
  {
  }

  /** Three arrays keyed by three runs of names, joined. */
  lemma KeysAppend3(a: seq<Item>, b: seq<Item>, c: seq<Item>, x: seq<string>, y: seq<string>, z: seq<string>)
    requires Keys(a) == StrKeys(x) && Keys(b) == StrKeys(y) && Keys(c) == StrKeys(z)
    ensures Keys(a + b + c) == StrKeys(x + y + z)
  {
    KeysAppend(a, b);
    KeysAppend(a + b, c);
    StrKeysAppend(x, y);
    StrKeysAppend(x + y, z);
  }

  /** `[n => $a[n] ?? d, …]` for the given names, in order. */
  function Pick(items: seq<Item>, names: seq<string>, d: Value): (r: seq<Item>)
    ensures |r| == |names| && Keys(r) == StrKeys(names)
    ensures forall i :: 0 <= i < |names| ==> r[i] == Item(StrKey(names[i]), Coalesce(items, StrKey(names[i]), d))
  {
    seq(|names|, i requires 0 <= i < |names| => Item(StrKey(names[i]), Coalesce(items, StrKey(names[i]), d)))
  }

  /** PHP arrays never hold a key twice. */
  ghost predicate UniqueKeys(items: seq<Item>) {
    forall i, j :: 0 <= i < j < |items| ==> items[i].key != items[j].key
  }

  /** `$a[k]`, or None when the key is absent. */
  function Get(items: seq<Item>, k: Key): (r: Option<Value>)
    ensures r.None? <==> forall i :: 0 <= i < |items| ==> items[i].key != k
    ensures r.Some? ==> exists i :: 0 <= i < |items| && items[i] == Item(k, r.value)
  {
    if items == [] then None
    else if items[0].key == k then Some(items[0].val)
    else Get(items[1..], k)
  }

  /** In an array with unique keys, the value stored at the position of a key
      is the one Get returns. */
  lemma {:induction false} GetAt(items: seq<Item>, i: int)
    requires UniqueKeys(items) && 0 <= i < |items|
    ensures Get(items, items[i].key) == Some(items[i].val)
  {
    if i > 0 {
      GetAt(items[1..], i - 1);
    }
  }

  /** `isset($a[k])`: present and not null. */
  predicate IsSet(items: seq<Item>, k: Key) {
    var r := Get(items, k);
    r.Some? && r.value != Null
  }

  /** `$a[k] ?? d` */
  function Coalesce(items: seq<Item>, k: Key, d: Value): (r: Value)
    ensures IsSet(items, k) ==> Some(r) == Get(items, k)
    ensures !IsSet(items, k) ==> r == d
  {
    var r := Get(items, k);
    if r.Some? && r.value != Null then r.value else d
  }

  /** `$a[k] = v` on a key that is already present: the value changes in
      place, every other pair is untouched. */
  function Replace(items: seq<Item>, k: Key, v: Value): (r: seq<Item>)
    ensures |r| == |items| && Keys(r) == Keys(items)
    ensures forall i :: 0 <= i < |items| && items[i].key != k ==> r[i] == items[i]
    ensures forall i :: 0 <= i < |items| && items[i].key == k ==> r[i].val == v
  {
    seq(|items|, i requires 0 <= i < |items| => if items[i].key == k then Item(k, v) else items[i])
  }

  /** PHP's `empty()`. */
  predicate Empty(v: Value) {
    match v
    case Null => true
    case Bool(b) => !b
    case Int(i) => i == 0
    case Float(t) => t == "0" || t == "-0"
    case Str(s) => !Truthy(s)
    case Arr(items) => items == []
    case _ => false
  }

  /** `empty($a[k])`: an absent key is empty too. */
  predicate EmptyAt(items: seq<Item>, k: Key) {
    var r := Get(items, k);
    r.None? || Empty(r.value)
  }

  /** Values that PHP can turn into a string without raising an error. */
  predicate Printable(v: Value) {
    v.Null? || v.Bool? || v.Int? || v.Float? || v.Str? || v.Arr?
  }

  /** String conversion, as in `"$v"` or `'x' . $v`. */
  function Interp(v: Value): string
    requires Printable(v)
  {
    match v
    case Null => ""
    case Bool(b) => if b then "1" else ""
    case Int(i) => IntToString(i)
    case Float(t) => t
    case Str(s) => s
    case Arr(_) => "Array"
  }

  /** Number of integer keys in an array. */
  function IntKeyCount(items: seq<Item>): nat {
    if items == [] then 0
    else (if items[0].key.IntKey? then 1 else 0) + IntKeyCount(items[1..])
  }

  /** One step of array_merge: a string key overwrites the value already
      stored under it (keeping its position) or is appended; an integer key is
      appended under the next index. `next` is that index. */
  function Put(acc: seq<Item>, next: int, it: Item): (r: seq<Item>)
  {
    match it.key
    case IntKey(_) => acc + [Item(IntKey(next), it.val)]
    case StrKey(_) =>
      if Get(acc, it.key).Some? then Replace(acc, it.key, it.val) else acc + [it]
  }

  /** Feeds `items` into `acc` in order, renumbering integer keys from `next`. */
  function PutAll(acc: seq<Item>, next: int, items: seq<Item>): seq<Item>
    decreases |items|
  {
    if items == [] then acc
    else
      var n := if items[0].key.IntKey? then next + 1 else next;
      PutAll(Put(acc, next, items[0]), n, items[1..])
  }

  /** array_merge($a, $b): the pairs of `a` then of `b`; integer keys are
      renumbered 0, 1, … in order, a string key of `b` overwrites the same key
      of `a` in place. */
  function Merge(a: seq<Item>, b: seq<Item>): seq<Item> {
    var ra := PutAll([], 0, a);
    PutAll(ra, IntKeyCount(a), b)
  }

  /** array_slice($a, 0, n): the first n pairs, integer keys renumbered. */
  function Slice(a: seq<Item>, n: nat): (r: seq<Item>)
    ensures |r| <= n
  {
    var prefix := if |a| <= n then a else a[..n];
    SliceLength(prefix);
    PutAll([], 0, prefix)
  }

  lemma SliceLength(a: seq<Item>)
    ensures |PutAll([], 0, a)| <= |a|
  {
    PutAllLength([], 0, a);
  }

  lemma {:induction false} PutAllLength(acc: seq<Item>, next: int, items: seq<Item>)
    ensures |acc| <= |PutAll(acc, next, items)| <= |acc| + |items|
    decreases |items|
  {
    if items != [] {
      var n := if items[0].key.IntKey? then next + 1 else next;
      PutAllLength(Put(acc, next, items[0]), n, items[1..]);
    }
  }

  /** array_slice on a list: the first n values, in order, under the keys
      0, 1, … */
  lemma SliceOfList(a: seq<Item>, n: nat)
    requires forall i :: 0 <= i < |a| ==> a[i].key.IntKey?
    ensures |Slice(a, n)| == if |a| < n then |a| else n
    ensures forall i :: 0 <= i < |Slice(a, n)| ==> Slice(a, n)[i] == Item(IntKey(i), a[i].val)
  {
    var prefix := if |a| <= n then a else a[..n];
    PutAllList([], 0, prefix);
  }

  /** Feeding integer-keyed pairs appends their values under consecutive
      keys. */
  lemma {:induction false} PutAllList(acc: seq<Item>, next: int, items: seq<Item>)
    requires forall i :: 0 <= i < |items| ==> items[i].key.IntKey?
    ensures PutAll(acc, next, items) ==
      acc + seq(|items|, j requires 0 <= j < |items| => Item(IntKey(next + j), items[j].val))
    decreases |items|
  {
    if items != [] {
      var acc' := acc + [Item(IntKey(next), items[0].val)];
      PutAllList(acc', next + 1, items[1..]);
      var tail := seq(|items| - 1, j requires 0 <= j < |items| - 1 => Item(IntKey(next + 1 + j), items[1..][j].val));
      var whole := seq(|items|, j requires 0 <= j < |items| => Item(IntKey(next + j), items[j].val));
      assert whole == [Item(IntKey(next), items[0].val)] + tail;
    }
  }

  /** Does any pair of `items` carry key `k`? */
  predicate HasKey(items: seq<Item>, k: Key) {
    exists i :: 0 <= i < |items| && items[i].key == k
  }

  /** array_merge's override rule: under a string key held by the second
      array, the result holds the second array's value. */
  lemma {:induction false} MergeOverrides(a: seq<Item>, b: seq<Item>, k: Key)
    requires k.StrKey? && UniqueKeys(b) && HasKey(b, k)
    ensures Get(Merge(a, b), k) == Get(b, k)
  {
    PutAllOverrides(PutAll([], 0, a), IntKeyCount(a), b, k);
  }

  /** array_merge keeps the first array's value under a string key the
      second array does not hold. */
  lemma {:induction false} MergeKeeps(a: seq<Item>, b: seq<Item>, k: Key)
    requires k.StrKey? && UniqueKeys(a) && !HasKey(b, k)
    ensures Get(Merge(a, b), k) == Get(a, k)
  {
    if HasKey(a, k) {
      PutAllOverrides([], 0, a, k);
    } else {
      PutAllKeeps([], 0, a, k);
    }
    PutAllKeeps(PutAll([], 0, a), IntKeyCount(a), b, k);
  }

  lemma {:induction false} PutAllOverrides(acc: seq<Item>, next: int, items: seq<Item>, k: Key)
    requires k.StrKey? && UniqueKeys(items) && HasKey(items, k)
    ensures Get(PutAll(acc, next, items), k) == Get(items, k)
    decreases |items|
  {
    var n := if items[0].key.IntKey? then next + 1 else next;
    var acc' := Put(acc, next, items[0]);
    if items[0].key == k {
      PutGetSame(acc, next, items[0]);
      assert !HasKey(items[1..], k);
      PutAllKeeps(acc', n, items[1..], k);
    } else {
      assert HasKey(items[1..], k) by {
        var i :| 0 <= i < |items| && items[i].key == k;
        assert items[1..][i - 1].key == k;
      }
      PutAllOverrides(acc', n, items[1..], k);
    }
  }

  lemma {:induction false} PutAllKeeps(acc: seq<Item>, next: int, items: seq<Item>, k: Key)
    requires k.StrKey? && !HasKey(items, k)
    ensures Get(PutAll(acc, next, items), k) == Get(acc, k)
    ensures Get(PutAll([], next, items), k) == None
    decreases |items|
  {
    if items != [] {
      var n := if items[0].key.IntKey? then next + 1 else next;
      assert !HasKey(items[1..], k) by {
        forall i | 0 <= i < |items[1..]| ensures items[1..][i].key != k {
          assert items[1..][i] == items[i + 1];
        }
      }
      PutGetOther(acc, next, items[0], k);
      PutGetOther([], next, items[0], k);
      PutAllKeeps(Put(acc, next, items[0]), n, items[1..], k);
      PutAllKeeps(Put([], next, items[0]), n, items[1..], k);
    }
  }

  lemma PutGetSame(acc: seq<Item>, next: int, it: Item)
    requires it.key.StrKey?
    ensures Get(Put(acc, next, it), it.key) == Some(it.val)
  {
    if Get(acc, it.key).Some? {
      GetFirst(Replace(acc, it.key, it.val), it.key, it.val);
    } else {
      GetAppend(acc, it);
    }
  }

  lemma PutGetOther(acc: seq<Item>, next: int, it: Item, k: Key)
    requires k.StrKey? && it.key != k
    ensures Get(Put(acc, next, it), k) == Get(acc, k)
  {
    match it.key
    case IntKey(_) =>
      GetAppendOther(acc, Item(IntKey(next), it.val), k);
    case StrKey(_) =>
      if Get(acc, it.key).Some? {
        GetReplaceOther(acc, it.key, it.val, k);
      } else {
        GetAppendOther(acc, it, k);
      }
  }

  /** After replacing the value under a present key, Get finds the new value. */
  lemma {:induction false} GetFirst(r: seq<Item>, k: Key, v: Value)
    requires HasKey(r, k)
    requires forall i :: 0 <= i < |r| && r[i].key == k ==> r[i].val == v
    ensures Get(r, k) == Some(v)
  {
    if r[0].key != k {
      assert HasKey(r[1..], k) by {
        var i :| 0 <= i < |r| && r[i].key == k;
        assert r[1..][i - 1].key == k;
      }
      GetFirst(r[1..], k, v);
    }
  }

  /** Get on two arrays joined: the first array's value when it has the key,
      the second's otherwise. */
  lemma {:induction false} GetConcat(a: seq<Item>, b: seq<Item>, k: Key)
    ensures Get(a + b, k) == if Get(a, k).Some? then Get(a, k) else Get(b, k)
  {
    if a == [] {
      assert a + b == b;
    } else {
      assert (a + b)[0] == a[0] && (a + b)[1..] == a[1..] + b;
      GetConcat(a[1..], b, k);
    }
  }

  lemma GetConcat3(a: seq<Item>, b: seq<Item>, c: seq<Item>, k: Key)
    ensures Get(a + b + c, k) ==
      if Get(a, k).Some? then Get(a, k) else if Get(b, k).Some? then Get(b, k) else Get(c, k)
  {
    GetConcat(a, b, k);
    GetConcat(a + b, c, k);
  }

  lemma {:induction false} GetAppend(acc: seq<Item>, it: Item)
    requires Get(acc, it.key).None?
    ensures Get(acc + [it], it.key) == Some(it.val)
  {
    if acc != [] {
      assert (acc + [it])[1..] == acc[1..] + [it];
      GetAppend(acc[1..], it);
    }
  }

  lemma {:induction false} GetAppendOther(acc: seq<Item>, it: Item, k: Key)
    requires it.key != k
    ensures Get(acc + [it], k) == Get(acc, k)
  {
    if acc != [] {
      assert (acc + [it])[1..] == acc[1..] + [it];
      GetAppendOther(acc[1..], it, k);
    }
  }

  lemma {:induction false} GetReplaceOther(acc: seq<Item>, k0: Key, v: Value, k: Key)
    requires k0 != k
    ensures Get(Replace(acc, k0, v), k) == Get(acc, k)
  {
    if acc != [] {
      assert Replace(acc, k0, v)[1..] == Replace(acc[1..], k0, v);
      GetReplaceOther(acc[1..], k0, v, k);
    }
  }
}
