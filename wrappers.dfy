/** Option and Outcome datatypes shared by every module of the model. */
module Wrappers {

  /** A value that may be absent (`undefined` in the source). */
  datatype Option<+T> = None | Some(value: T) {
    function GetOr(default: T): T {
      match this
      case Some(v) => v
      case None => default
    }
  }

  /** The result of an operation that may throw: `Error` carries the message. */
  datatype Outcome<+T> = Ok(value: T) | Error(message: string)

  /** No element occurs twice. */
  predicate Distinct<T(==)>(s: seq<T>) {
    forall i, j :: 0 <= i < j < |s| ==> s[i] != s[j]
  }

  /** The elements of a sequence, as a set. */
  function Elements<T(==)>(s: seq<T>): set<T> {
    set x | x in s
  }

  lemma ElementsSnoc<T>(s: seq<T>)
    requires s != []
    ensures Elements(s) == Elements(s[..|s| - 1]) + {s[|s| - 1]}
  {
    assert s == s[..|s| - 1] + [s[|s| - 1]];
  }

  /** A sequence without repetitions has as many elements as its set. */
  lemma {:induction false} DistinctCardinality<T>(s: seq<T>)
    requires Distinct(s)
    ensures |Elements(s)| == |s|
  {
    if s != [] {
      var init := s[..|s| - 1];
      var last := s[|s| - 1];
      DistinctCardinality(init);
      assert Elements(s) == Elements(init) + {last};
      assert last !in Elements(init);
    }
  }

  /**
   * `[...new Set(s)]`: the elements of `s`, each once. The definition keeps each at its first
   * occurrence, as a JavaScript Set does; the contract states only which elements and that none
   * repeats.
   */
  function Dedup<T(==,!new)>(s: seq<T>): (r: seq<T>)
    ensures Distinct(r)
    ensures forall x :: x in r <==> x in s
    ensures |r| <= |s|
  {
    if s == [] then []
    else
      var d := Dedup(s[..|s| - 1]);
      var last := s[|s| - 1];
      if last in d then d
      else
        assert forall i :: 0 <= i < |d| ==> d[i] != last;
        d + [last]
  }

  /** JavaScript truthiness of an optional string: absent and the empty string are falsy. */
  predicate IsSet(s: Option<string>) {
    s.Some? && s.value != ""
  }

  /** `order` lists every key of `m` exactly once: the iteration order of a JavaScript object. */
  ghost predicate EnumeratesKeys<V>(order: seq<string>, m: map<string, V>) {
    && Distinct(order)
    && (forall k :: k in m <==> k in order)
  }

  /** A JavaScript object with string keys, together with the order in which its keys were inserted. */
  datatype Record<V> = Record(order: seq<string>, entries: map<string, V>)

  /** Assignment to a JavaScript object: a new key goes to the end of the key order, an old one keeps its place. */
  function Store<V>(rec: Record<V>, k: string, v: V): (r: Record<V>)
    requires EnumeratesKeys(rec.order, rec.entries)
    ensures EnumeratesKeys(r.order, r.entries)
    ensures r.entries == rec.entries[k := v]
    ensures rec.order <= r.order
  {
    if k in rec.entries then Record(rec.order, rec.entries[k := v]) else Record(rec.order + [k], rec.entries[k := v])
  }

  /** Array.prototype.indexOf: the first position of `x`, or -1. */
  function IndexOf<T(==)>(s: seq<T>, x: T): (i: int)
    ensures -1 <= i < |s|
    ensures i >= 0 ==> s[i] == x && forall j :: 0 <= j < i ==> s[j] != x
    ensures i == -1 <==> x !in s
  {
    if s == [] then -1
    else if s[0] == x then 0
    else
      var r := IndexOf(s[1..], x);
      if r == -1 then -1 else r + 1
  }
}
