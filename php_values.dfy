/**
 * PHP's dynamically typed values, as the validators receive them (`mixed`) and as the
 * inventory stores them (nested arrays with string or integer keys).
 */
module PhpValues {
  import opened Wrappers
  import opened PhpStrings

  /** An array key: PHP arrays are keyed by strings or integers. */
  datatype Key = KeyStr(name: string) | KeyInt(index: int)

  /**
   * A PHP value.  Arrays keep their insertion order, so they are sequences of key/value
   * pairs; `Other` stands for floats, objects and resources, which no modelled check accepts.
   */
  datatype Value =
    | Null
    | Bool(b: bool)
    | Int(i: int)
    | Str(s: string)
    | Arr(entries: seq<(Key, Value)>)
    | Other

  /** The value stored under `k`, if the array has that key. */
  function Lookup(entries: seq<(Key, Value)>, k: Key): (r: Option<Value>)
    decreases |entries|
  {
    if |entries| == 0 then None
    else if entries[0].0 == k then Some(entries[0].1)
    else Lookup(entries[1..], k)
  }

  /** A lookup finds a value exactly when some entry has the key, and the value it finds is stored under the key. */
  lemma {:induction false} LookupFinds(entries: seq<(Key, Value)>, k: Key)
    ensures Lookup(entries, k).Some? <==> exists i :: 0 <= i < |entries| && entries[i].0 == k
    ensures Lookup(entries, k).Some? ==> exists i :: 0 <= i < |entries| && entries[i] == (k, Lookup(entries, k).value)
    decreases |entries|
  {
    if |entries| > 0 && entries[0].0 != k {
      LookupFinds(entries[1..], k);
      if Lookup(entries, k).Some? {
        var i :| 0 <= i < |entries[1..]| && entries[1..][i] == (k, Lookup(entries, k).value);
        assert entries[i + 1] == (k, Lookup(entries, k).value);
      } else {
        forall i | 0 <= i < |entries| ensures entries[i].0 != k {
          if i > 0 {
            assert entries[i] == entries[1..][i - 1];
          }
        }
      }
    }
  }

  /** `$array[$k] ?? $default`: a missing key and a stored null both give the default. */
  function Coalesce(entries: seq<(Key, Value)>, k: Key, default: Value): (r: Value)
    ensures r == default || Lookup(entries, k) == Some(r)
    ensures Lookup(entries, k).None? ==> r == default
  {
    match Lookup(entries, k)
    case Some(v) => if v.Null? then default else v
    case None => default
  }

  /** `isset($array[$k])`: the key is present and its value is not null. */
  predicate IsSet(entries: seq<(Key, Value)>, k: Key) {
    Lookup(entries, k).Some? && !Lookup(entries, k).value.Null?
  }

  /** The value under a string key of an array value, if the value is an array that has it. */
  function Field(v: Value, name: string): Option<Value> {
    if v.Arr? then Lookup(v.entries, KeyStr(name)) else None
  }

  /** The keys of an array, in order. */
  function Keys(entries: seq<(Key, Value)>): (ks: seq<Key>)
    ensures |ks| == |entries| && forall i :: 0 <= i < |ks| ==> ks[i] == entries[i].0
  {
    seq(|entries|, i requires 0 <= i < |entries| => entries[i].0)
  }

  /** `is_string($v) ? (int) $v : $v` for a string or integer: the integer a numeric input stands for. */
  function IntOf(v: Value): int
    requires v.Str? || v.Int?
  {
    if v.Int? then v.i else IntCast(v.s)
  }

  /** A key of the first part of an array shadows the same key in the second. */
  lemma {:induction false} LookupAppend(a: seq<(Key, Value)>, b: seq<(Key, Value)>, k: Key)
    ensures Lookup(a + b, k) == if Lookup(a, k).Some? then Lookup(a, k) else Lookup(b, k)
    decreases |a|
  {
    if |a| > 0 {
      assert (a + b)[0] == a[0] && (a + b)[1..] == a[1..] + b;
      LookupAppend(a[1..], b, k);
    } else {
      assert a + b == b;
    }
  }
}
