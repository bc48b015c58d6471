/**
 * A JavaScript object read as the list of its own (key, value) entries in
 * enumeration order: `for...in` walks this list from the front and `obj[key]`
 * finds the entry with that key.  A JavaScript object has at most one entry
 * per key (a literal that repeats a key keeps the last value, at the first
 * key's position), so the lists this model builds have distinct keys, and on
 * those, reading the first entry with a key is reading the object.
 */
module Entries {
  import opened Wrappers

  /** `obj[key]`: the value stored under `key`, or None (`undefined`) when no entry has that key. */
  function Lookup<V>(entries: seq<(string, V)>, key: string): (r: Option<V>)
    ensures r.None? <==> forall i :: 0 <= i < |entries| ==> entries[i].0 != key
    ensures r.Some? ==> exists i :: 0 <= i < |entries| && entries[i] == (key, r.value)
  {
    if entries == [] then None
    else if entries[0].0 == key then Some(entries[0].1)
    else
      var r := Lookup(entries[1..], key);
      assert r.Some? ==> exists i :: 0 <= i < |entries| && entries[i] == (key, r.value) by {
        if r.Some? {
          var j :| 0 <= j < |entries[1..]| && entries[1..][j] == (key, r.value);
          assert entries[j + 1] == (key, r.value);
        }
      }
      r
  }

  /** `obj[key]` is the value of the first entry holding `key`, whatever later entries hold. */
  lemma {:induction false} LookupFirst<V>(entries: seq<(string, V)>, i: nat)
    requires i < |entries|
    requires forall j :: 0 <= j < i ==> entries[j].0 != entries[i].0
    ensures Lookup(entries, entries[i].0) == Some(entries[i].1)
  {
    if i > 0 {
      assert entries[1..][i - 1] == entries[i];
      LookupFirst(entries[1..], i - 1);
    }
  }
}
