/** Ruby values as the services see them after `JSON.parse` or in literal
    hashes: nil, booleans, Integer, Float (a real number here), String, Array
    and Hash. A Hash keeps its entries in insertion order, as Ruby's does, and
    a key is either a String or a Symbol. */
module Values {
  import opened Wrappers
  import Text

  datatype Key = StrKey(name: string) | SymKey(name: string)

  datatype Value =
    | Nil
    | Bool(b: bool)
    | Int(i: int)
    | Float(r: real)
    | Str(s: string)
    | Arr(items: seq<Value>)
    | Hash(entries: seq<(Key, Value)>)

  /** `hash[k]`: the value stored under `k`, if any. */
  function Get(entries: seq<(Key, Value)>, k: Key): (r: Option<Value>)
    ensures r.Some? <==> exists i :: 0 <= i < |entries| && entries[i].0 == k
  {
    if entries == [] then None
    else if entries[0].0 == k then Some(entries[0].1)
    else Get(entries[1..], k)
  }

  predicate HasKey(entries: seq<(Key, Value)>, k: Key) {
    Get(entries, k).Some?
  }

  /** The value `hash[k]` finds is that of the first entry with the key. */
  lemma {:induction false} GetFirst(entries: seq<(Key, Value)>, k: Key) returns (i: nat)
    requires HasKey(entries, k)
    ensures i < |entries| && entries[i] == (k, Get(entries, k).value)
    ensures forall j :: 0 <= j < i ==> entries[j].0 != k
  {
    if entries[0].0 == k {
      i := 0;
    } else {
      var i' := GetFirst(entries[1..], k);
      i := i' + 1;
      forall j | 0 <= j < i ensures entries[j].0 != k {
        if j > 0 {
          assert entries[j] == entries[1..][j - 1];
        }
      }
    }
  }

  /** No two entries share a key, as in every Hash Ruby builds. */
  predicate DistinctKeys(entries: seq<(Key, Value)>) {
    forall i, j :: 0 <= i < j < |entries| ==> entries[i].0 != entries[j].0
  }

  /** A key absent from the hash is held by no entry. */
  lemma AbsentKey(entries: seq<(Key, Value)>, k: Key)
    requires !HasKey(entries, k)
    ensures forall i :: 0 <= i < |entries| ==> entries[i].0 != k
  {
  }

  /** Dropping the first entry keeps the keys distinct. */
  lemma TailDistinct(entries: seq<(Key, Value)>)
    requires entries != [] && DistinctKeys(entries)
    ensures DistinctKeys(entries[1..])
  {
    var tail := entries[1..];
    forall i, j | 0 <= i < j < |tail| ensures tail[i].0 != tail[j].0 {
      assert tail[i] == entries[i + 1] && tail[j] == entries[j + 1];
    }
  }

  /** An entry whose key no later entry holds keeps the keys distinct. */
  lemma ConsDistinct(e: (Key, Value), tail: seq<(Key, Value)>)
    requires DistinctKeys(tail)
    requires forall i :: 0 <= i < |tail| ==> tail[i].0 != e.0
    ensures DistinctKeys([e] + tail)
  {
    var s := [e] + tail;
    forall i, j | 0 <= i < j < |s| ensures s[i].0 != s[j].0 {
      assert s[j] == tail[j - 1];
      if i > 0 {
        assert s[i] == tail[i - 1];
      }
    }
  }

  /** Assigning a key keeps the keys distinct. */
  lemma {:induction false} HashSetDistinct(entries: seq<(Key, Value)>, k: Key, v: Value)
    requires DistinctKeys(entries)
    ensures DistinctKeys(HashSet(entries, k, v))
  {
    if entries == [] {
      return;
    }
    var tail := entries[1..];
    TailDistinct(entries);
    assert forall i :: 0 <= i < |tail| ==> tail[i].0 != entries[0].0 by {
      forall i | 0 <= i < |tail| ensures tail[i].0 != entries[0].0 {
        assert tail[i] == entries[i + 1];
      }
    }
    if entries[0].0 == k {
      assert HashSet(entries, k, v) == [(k, v)] + tail;
      ConsDistinct((k, v), tail);
    } else {
      HashSetDistinct(tail, k, v);
      var t := HashSet(tail, k, v);
      assert !HasKey(tail, entries[0].0);
      assert !HasKey(t, entries[0].0);
      AbsentKey(t, entries[0].0);
      assert HashSet(entries, k, v) == [entries[0]] + t;
      ConsDistinct(entries[0], t);
    }
  }

  /** Building a hash from distinct keys keeps them distinct. */
  lemma {:induction false} BuildHashDistinct(acc: seq<(Key, Value)>, entries: seq<(Key, Value)>)
    requires DistinctKeys(acc)
    ensures DistinctKeys(BuildHash(acc, entries))
    decreases |entries|
  {
    if entries != [] {
      HashSetDistinct(acc, entries[0].0, entries[0].1);
      BuildHashDistinct(HashSet(acc, entries[0].0, entries[0].1), entries[1..]);
    }
  }

  /** Keys that no entry assigns read as they did before. */
  lemma {:induction false} BuildHashOther(acc: seq<(Key, Value)>, entries: seq<(Key, Value)>, k: Key)
    requires forall i :: 0 <= i < |entries| ==> entries[i].0 != k
    ensures Get(BuildHash(acc, entries), k) == Get(acc, k)
    decreases |entries|
  {
    if entries != [] {
      BuildHashOther(HashSet(acc, entries[0].0, entries[0].1), entries[1..], k);
    }
  }

  /** Ruby truthiness: everything except nil and false. */
  predicate Truthy(v: Value) {
    !(v.Nil? || v == Bool(false))
  }

  /** `hash[name] || hash[name.to_sym]`, the lookup the services call `read_key`. */
  function ReadKey(entries: seq<(Key, Value)>, name: string): (r: Value)
    ensures r == Nil || Get(entries, StrKey(name)) == Some(r) || Get(entries, SymKey(name)) == Some(r)
    ensures Truthy(r) <==>
      Truthy(Get(entries, StrKey(name)).GetOr(Nil)) || Truthy(Get(entries, SymKey(name)).GetOr(Nil))
    ensures !HasKey(entries, StrKey(name)) && !HasKey(entries, SymKey(name)) ==> r == Nil
  {
    var v := Get(entries, StrKey(name)).GetOr(Nil);
    if Truthy(v) then v else Get(entries, SymKey(name)).GetOr(Nil)
  }

  /** `hash[k] = v`: an existing key keeps its position, a new one is appended. */
  function HashSet(entries: seq<(Key, Value)>, k: Key, v: Value): (r: seq<(Key, Value)>)
    ensures Get(r, k) == Some(v)
    ensures forall k' :: k' != k ==> Get(r, k') == Get(entries, k')
    ensures HasKey(entries, k) ==> |r| == |entries|
  {
    if entries == [] then [(k, v)]
    else if entries[0].0 == k then [(k, v)] + entries[1..]
    else [entries[0]] + HashSet(entries[1..], k, v)
  }

  /** The hash built by assigning the entries one after another (later
      duplicates overwrite earlier ones). */
  function BuildHash(acc: seq<(Key, Value)>, entries: seq<(Key, Value)>): seq<(Key, Value)>
    decreases |entries|
  {
    if entries == [] then acc
    else BuildHash(HashSet(acc, entries[0].0, entries[0].1), entries[1..])
  }

  /** `JSON.parse(value.to_json)`: a deep copy in which every key becomes a
      String key. */
  function DeepCopy(v: Value): (r: Value)
    ensures v.Hash? <==> r.Hash?
    ensures v.Arr? <==> r.Arr?
    ensures v.Arr? ==> |r.items| == |v.items|
    ensures !(v.Hash? || v.Arr?) ==> r == v
    decreases v
  {
    match v
    case Arr(items) => Arr(seq(|items|, i requires 0 <= i < |items| => DeepCopy(items[i])))
    case Hash(es) =>
      Hash(BuildHash([], seq(|es|, i requires 0 <= i < |es| => (StrKey(es[i].0.name), DeepCopy(es[i].1)))))
    case _ => v
  }

  /** A value as JSON can hold it: every Hash, at any depth, has distinct
      String keys. */
  predicate JsonShaped(v: Value)
    decreases v
  {
    match v
    case Arr(items) => forall i :: 0 <= i < |items| ==> JsonShaped(items[i])
    case Hash(es) => DistinctKeys(es) && forall i :: 0 <= i < |es| ==> es[i].0.StrKey? && JsonShaped(es[i].1)
    case _ => true
  }

  /** Every entry of an assignment's result is an old entry or the new one. */
  lemma {:induction false} HashSetEntries(entries: seq<(Key, Value)>, k: Key, v: Value)
    ensures forall e :: e in HashSet(entries, k, v) ==> e in entries || e == (k, v)
  {
    if entries != [] && entries[0].0 != k {
      HashSetEntries(entries[1..], k, v);
    }
  }

  lemma {:induction false} BuildHashEntries(acc: seq<(Key, Value)>, entries: seq<(Key, Value)>)
    ensures forall e :: e in BuildHash(acc, entries) ==> e in acc || e in entries
    decreases |entries|
  {
    if entries != [] {
      HashSetEntries(acc, entries[0].0, entries[0].1);
      BuildHashEntries(HashSet(acc, entries[0].0, entries[0].1), entries[1..]);
    }
  }

  /** Assigning a key the hash does not have appends it. */
  lemma {:induction false} HashSetNew(entries: seq<(Key, Value)>, k: Key, v: Value)
    requires !HasKey(entries, k)
    ensures HashSet(entries, k, v) == entries + [(k, v)]
  {
    if entries != [] {
      HashSetNew(entries[1..], k, v);
    }
  }

  /** Building a hash from entries with distinct keys keeps them as they are. */
  lemma {:induction false} BuildHashFresh(acc: seq<(Key, Value)>, entries: seq<(Key, Value)>)
    requires DistinctKeys(acc + entries)
    ensures BuildHash(acc, entries) == acc + entries
    decreases |entries|
  {
    if entries != [] {
      var all := acc + entries;
      assert !HasKey(acc, entries[0].0) by {
        forall i | 0 <= i < |acc| ensures acc[i].0 != entries[0].0 {
          assert acc[i] == all[i] && entries[0] == all[|acc|];
        }
      }
      HashSetNew(acc, entries[0].0, entries[0].1);
      assert acc + [entries[0]] + entries[1..] == all;
      BuildHashFresh(acc + [entries[0]], entries[1..]);
    }
  }

  /** A deep copy has the shape JSON gives it: distinct String keys at every
      depth. */
  lemma {:induction false} DeepCopyShaped(v: Value)
    ensures JsonShaped(DeepCopy(v))
    decreases v
  {
    match v
    case Arr(items) =>
      forall i | 0 <= i < |items| ensures JsonShaped(DeepCopy(items[i])) {
        DeepCopyShaped(items[i]);
      }
    case Hash(es) =>
      var copied := seq(|es|, i requires 0 <= i < |es| => (StrKey(es[i].0.name), DeepCopy(es[i].1)));
      var r := BuildHash([], copied);
      BuildHashDistinct([], copied);
      BuildHashEntries([], copied);
      forall i | 0 <= i < |r| ensures r[i].0.StrKey? && JsonShaped(r[i].1) {
        assert r[i] in copied;
        var j :| 0 <= j < |copied| && copied[j] == r[i];
        DeepCopyShaped(es[j].1);
      }
    case _ =>
  }

  /** Copying a value JSON can already hold gives the same value. */
  lemma {:induction false} DeepCopyOfShaped(v: Value)
    requires JsonShaped(v)
    ensures DeepCopy(v) == v
    decreases v
  {
    match v
    case Arr(items) =>
      forall i | 0 <= i < |items| ensures DeepCopy(items[i]) == items[i] {
        DeepCopyOfShaped(items[i]);
      }
      assert DeepCopy(v).items == items;
    case Hash(es) =>
      var copied := seq(|es|, i requires 0 <= i < |es| => (StrKey(es[i].0.name), DeepCopy(es[i].1)));
      forall i | 0 <= i < |es| ensures copied[i] == es[i] {
        DeepCopyOfShaped(es[i].1);
      }
      assert copied == es;
      assert [] + es == es;
      BuildHashFresh([], es);
    case _ =>
  }

  /** `JSON.parse(x.to_json)` twice is once. */
  lemma DeepCopyIdempotent(v: Value)
    ensures DeepCopy(DeepCopy(v)) == DeepCopy(v)
  {
    DeepCopyShaped(v);
    DeepCopyOfShaped(DeepCopy(v));
  }

  /** ActiveSupport `blank?` on a value. */
  predicate BlankValue(v: Value) {
    match v
    case Nil => true
    case Bool(b) => !b
    case Str(s) => Text.Blank(s)
    case Arr(items) => items == []
    case Hash(es) => es == []
    case _ => false
  }

  /** `value.to_s` for the values whose text the model needs: nil, booleans,
      integers and strings (None for the others). */
  function ScalarText(v: Value): Option<string> {
    match v
    case Nil => Some("")
    case Bool(b) => Some(if b then "true" else "false")
    case Int(n) => Some(Text.IntToString(n))
    case Str(s) => Some(s)
    case _ => None
  }

  /** `value.to_s`, given as `inspect` the text of the values the model does
      not print (floats, arrays and hashes). */
  function ToS(v: Value, inspect: Value -> string): string {
    match ScalarText(v)
    case Some(s) => s
    case None => inspect(v)
  }

  /** `Array(value)`: nil is empty, an array is itself, a hash its
      [key, value] pairs (keys as strings), anything else a one-element
      array. */
  function ToArray(v: Value): seq<Value> {
    match v
    case Nil => []
    case Arr(items) => items
    case Hash(es) => seq(|es|, i requires 0 <= i < |es| => Arr([Str(es[i].0.name), es[i].1]))
    case _ => [v]
  }

  /** `Float#to_i`: truncation toward zero. */
  function TruncateReal(r: real): (n: int)
    ensures r >= 0.0 ==> n as real <= r < n as real + 1.0
    ensures r < 0.0 ==> n as real - 1.0 < r <= n as real
  {
    if r >= 0.0 then r.Floor else -((-r).Floor)
  }

  /** `value.to_i`, with `String#to_i` given as `strToI`; booleans, arrays
      and hashes have no `to_i` and raise. */
  function ToI(v: Value, strToI: string -> int): (r: Result<int>)
    ensures r.Ok? <==> v.Int? || v.Float? || v.Str? || v.Nil?
    ensures v.Nil? ==> r == Ok(0)
    ensures v.Int? ==> r == Ok(v.i)
  {
    match v
    case Int(n) => Ok(n)
    case Float(x) => Ok(TruncateReal(x))
    case Str(s) => Ok(strToI(s))
    case Nil => Ok(0)
    case _ => Err("undefined method 'to_i'")
  }
}
