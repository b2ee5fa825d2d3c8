/** The key-set rules that both action catalogs apply to a proposed action's
    payload: a lookup of the action by type, the check that every required
    key is present (as a String or a Symbol key) and that no key lies outside
    the required and optional ones, and the filter that keeps the allowed keys
    as String keys. */
module ActionPayloads {
  import opened Wrappers
  import opened Text
  import opened Values

  /** An entry of a catalog; titles, descriptions and examples only feed the
      prompt text and are not modelled. */
  datatype Action = Action(kind: string, required: seq<string>, optional: seq<string>)

  function Kinds(catalog: seq<Action>): (r: seq<string>)
    ensures |r| == |catalog|
    ensures forall i :: 0 <= i < |catalog| ==> r[i] == catalog[i].kind
  {
    seq(|catalog|, i requires 0 <= i < |catalog| => catalog[i].kind)
  }

  /** `CATALOG.find { |a| a.type == type.to_s }`. */
  function Find(catalog: seq<Action>, kind: string): (r: Option<Action>)
    ensures r.Some? <==> kind in Kinds(catalog)
    ensures r.Some? ==> r.value.kind == kind && r.value in catalog
  {
    if catalog == [] then None
    else if catalog[0].kind == kind then Some(catalog[0])
    else
      assert Kinds(catalog) == [catalog[0].kind] + Kinds(catalog[1..]);
      Find(catalog[1..], kind)
  }

  function Allowed(a: Action): seq<string> {
    a.required + a.optional
  }

  /** `payload.key?(k) || payload.key?(k.to_sym)`. */
  predicate Present(entries: seq<(Key, Value)>, name: string) {
    HasKey(entries, StrKey(name)) || HasKey(entries, SymKey(name))
  }

  /** `required.reject { |k| present }`, in catalog order. */
  function Missing(required: seq<string>, entries: seq<(Key, Value)>): (r: seq<string>)
    ensures forall k :: k in r <==> k in required && !Present(entries, k)
    ensures |r| <= |required|
  {
    if required == [] then []
    else if Present(entries, required[0]) then Missing(required[1..], entries)
    else [required[0]] + Missing(required[1..], entries)
  }

  /** `payload.keys.map(&:to_s)`. */
  function KeyNames(entries: seq<(Key, Value)>): (r: seq<string>)
    ensures |r| == |entries|
    ensures forall i :: 0 <= i < |entries| ==> r[i] == entries[i].0.name
  {
    seq(|entries|, i requires 0 <= i < |entries| => entries[i].0.name)
  }

  /** `keys - allowed`: the names outside `allowed`, in order and with repeats. */
  function Unexpected(names: seq<string>, allowed: seq<string>): (r: seq<string>)
    ensures forall k :: k in r <==> k in names && k !in allowed
    ensures |r| <= |names|
  {
    if names == [] then []
    else if names[0] in allowed then Unexpected(names[1..], allowed)
    else [names[0]] + Unexpected(names[1..], allowed)
  }

  /** The checks `validate!` makes in both catalogs before any per-type rule. */
  function CheckKeys(kind: string, a: Action, payload: Value): (r: Result<bool>)
    ensures r.Ok? <==> (payload.Hash? && Missing(a.required, payload.entries) == [] &&
      Unexpected(KeyNames(payload.entries), Allowed(a)) == [])
    ensures r.Ok? ==> r.value
  {
    if !payload.Hash? then Err(KeyError(kind, "expected Hash"))
    else
      var missing := Missing(a.required, payload.entries);
      if missing != [] then Err(KeyError(kind, "missing " + Join(missing, ", ")))
      else
        var unexpected := Unexpected(KeyNames(payload.entries), Allowed(a));
        if unexpected != [] then Err(KeyError(kind, "unexpected " + Join(unexpected, ", ")))
        else Ok(true)
  }

  /** The text of the `ArgumentError` the key checks raise. */
  function KeyError(kind: string, detail: string): string {
    "Invalid payload for " + kind + ": " + detail
  }

  /** The same checks stated entry by entry. */
  predicate KeysValid(a: Action, payload: Value) {
    payload.Hash? &&
    (forall k :: k in a.required ==> Present(payload.entries, k)) &&
    (forall i :: 0 <= i < |payload.entries| ==> payload.entries[i].0.name in Allowed(a))
  }

  lemma CheckKeysIsKeysValid(kind: string, a: Action, payload: Value)
    ensures CheckKeys(kind, a, payload).Ok? <==> KeysValid(a, payload)
  {
    if payload.Hash? {
      var names := KeyNames(payload.entries);
      if Unexpected(names, Allowed(a)) != [] {
        var k := Unexpected(names, Allowed(a))[0];
        assert k in names;
      }
      if Missing(a.required, payload.entries) != [] {
        assert Missing(a.required, payload.entries)[0] in a.required;
      }
    }
  }

  /** `payload.each_with_object({}) { |(k, v), acc| acc[k.to_s] = v if allowed }`:
      a later entry for the same name overwrites an earlier one. */
  function Filtered(acc: seq<(Key, Value)>, entries: seq<(Key, Value)>, allowed: seq<string>): seq<(Key, Value)>
    decreases |entries|
  {
    if entries == [] then acc
    else
      var name := entries[0].0.name;
      Filtered(if name in allowed then HashSet(acc, StrKey(name), entries[0].1) else acc, entries[1..], allowed)
  }

  /** The value of the last entry named `name`, whatever its kind of key. */
  function LastNamed(entries: seq<(Key, Value)>, name: string): Option<Value>
  {
    if entries == [] then None
    else if entries[|entries| - 1].0.name == name then Some(entries[|entries| - 1].1)
    else LastNamed(entries[..|entries| - 1], name)
  }

  /** Every key of the filtered hash is a String key of an allowed name. */
  predicate StringKeysIn(entries: seq<(Key, Value)>, allowed: seq<string>) {
    forall i :: 0 <= i < |entries| ==> entries[i].0.StrKey? && entries[i].0.name in allowed
  }

  lemma {:induction false} HashSetKeys(entries: seq<(Key, Value)>, k: Key, v: Value)
    ensures forall i :: 0 <= i < |HashSet(entries, k, v)| ==>
      HashSet(entries, k, v)[i].0 == k || exists j :: 0 <= j < |entries| && entries[j].0 == HashSet(entries, k, v)[i].0
  {
    if entries != [] && entries[0].0 != k {
      HashSetKeys(entries[1..], k, v);
      var r := HashSet(entries, k, v);
      forall i | 0 <= i < |r|
        ensures r[i].0 == k || exists j :: 0 <= j < |entries| && entries[j].0 == r[i].0
      {
        if i == 0 {
          assert entries[0].0 == r[0].0;
        } else {
          assert r[i] == HashSet(entries[1..], k, v)[i - 1];
          if r[i].0 != k {
            var j :| 0 <= j < |entries[1..]| && entries[1..][j].0 == r[i].0;
            assert entries[j + 1].0 == r[i].0;
          }
        }
      }
    }
  }

  lemma HashSetKeepsStringKeys(entries: seq<(Key, Value)>, name: string, v: Value, allowed: seq<string>)
    requires StringKeysIn(entries, allowed) && name in allowed
    ensures StringKeysIn(HashSet(entries, StrKey(name), v), allowed)
  {
    HashSetKeys(entries, StrKey(name), v);
  }

  /** The filter keeps only allowed names, as String keys, each holding the
      value of the last entry of that name. */
  lemma {:induction false} FilteredSpec(acc: seq<(Key, Value)>, entries: seq<(Key, Value)>, allowed: seq<string>)
    requires StringKeysIn(acc, allowed)
    ensures StringKeysIn(Filtered(acc, entries, allowed), allowed)
    ensures forall name :: name in allowed ==>
      Get(Filtered(acc, entries, allowed), StrKey(name)) ==
        (if LastNamed(entries, name).Some? then LastNamed(entries, name) else Get(acc, StrKey(name)))
    ensures forall name :: name !in allowed ==> Get(Filtered(acc, entries, allowed), StrKey(name)) == Get(acc, StrKey(name))
    decreases |entries|
  {
    if entries != [] {
      var name := entries[0].0.name;
      var acc' := if name in allowed then HashSet(acc, StrKey(name), entries[0].1) else acc;
      if name in allowed {
        HashSetKeepsStringKeys(acc, name, entries[0].1, allowed);
      }
      FilteredSpec(acc', entries[1..], allowed);
      forall n | n in allowed
        ensures LastNamed(entries, n) ==
          (if LastNamed(entries[1..], n).Some? then LastNamed(entries[1..], n)
           else if name == n then Some(entries[0].1) else None)
      {
        LastNamedCons(entries, n);
      }
    }
  }

  lemma {:induction false} LastNamedCons(entries: seq<(Key, Value)>, name: string)
    requires entries != []
    ensures LastNamed(entries, name) ==
      (if LastNamed(entries[1..], name).Some? then LastNamed(entries[1..], name)
       else if entries[0].0.name == name then Some(entries[0].1) else None)
    decreases |entries|
  {
    if |entries| > 1 && entries[|entries| - 1].0.name != name {
      var init := entries[..|entries| - 1];
      LastNamedCons(init, name);
      assert init[1..] == entries[1..][..|entries[1..]| - 1];
    } else if |entries| == 1 {
      assert entries[1..] == [];
    }
  }
}
