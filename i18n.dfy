/**
 * The client's translation lookup `t(key)` and the `useLanguage` guard
 * (client/src/i18n/LanguageContext.jsx).
 *
 * The translation tables are a parameter: one object per language code,
 * each mapping keys (flat, possibly containing dots) to strings or to nested
 * objects.  The value `t` carries from stage to stage is `undefined` (None),
 * a string or an object.
 */
module LanguageContext {
  import opened Wrappers
  import opened Text
  import opened Entries

  /** A table value: a string or a nested object. */
  datatype Val = Str(s: string) | Obj(entries: seq<(string, Val)>)

  /** One language's table. */
  type Table = seq<(string, Val)>

  /** The `translations` object: language code to table. */
  type Tables = seq<(string, Table)>

  /** JavaScript truthiness of the running value: `undefined` and "" are falsy, objects are truthy. */
  predicate Truthy(v: Option<Val>)
  {
    match v
    case None => false
    case Some(Str(s)) => s != []
    case Some(Obj(_)) => true
  }

  /**
   * The dotted-path walk: each segment indexes the current value while it is
   * an object; reaching anything else with segments left gives `undefined`.
   */
  function Walk(v: Option<Val>, path: seq<string>): (r: Option<Val>)
    ensures path == [] ==> r == v
    ensures path != [] && !(v.Some? && v.value.Obj?) ==> r.None?
    decreases |path|
  {
    if path == [] then v
    else match v
      case Some(Obj(es)) => Walk(Lookup(es, path[0]), path[1..])
      case _ => None
  }

  /** Walking `a + b` is walking `a`, then `b` from where `a` ended. */
  lemma {:induction false} WalkAppend(v: Option<Val>, a: seq<string>, b: seq<string>)
    ensures Walk(v, a + b) == Walk(Walk(v, a), b)
    decreases |a|
  {
    if a != [] {
      match v
      case Some(Obj(es)) =>
        assert (a + b)[0] == a[0] && (a + b)[1..] == a[1..] + b;
        WalkAppend(Lookup(es, a[0]), a[1..], b);
        assert Walk(v, a) == Walk(Lookup(es, a[0]), a[1..]);
        assert Walk(v, a + b) == Walk(Lookup(es, a[0]), a[1..] + b);
      case _ =>
        assert Walk(v, a) == None;
    } else {
      assert a + b == b;
    }
  }

  /** The entry at `i` is a last-segment hit: its key's final dotted segment is `key` and `entries[fullKey]` is truthy. */
  predicate SuffixHit(table: Table, i: nat, key: string)
    requires i < |table|
  {
    LastSegment(table[i].0) == key && Truthy(Lookup(table, table[i].0))
  }

  /** The position of the first last-segment hit, in enumeration order. */
  function FirstSuffix(table: Table, key: string): (r: Option<nat>)
    ensures r.None? <==> forall i :: 0 <= i < |table| ==> !SuffixHit(table, i, key)
    ensures r.Some? ==> r.value < |table| && SuffixHit(table, r.value, key)
    ensures r.Some? ==> forall j :: 0 <= j < r.value ==> !SuffixHit(table, j, key)
  {
    FirstSuffixFrom(table, key, 0)
  }

  function FirstSuffixFrom(table: Table, key: string, from: nat): (r: Option<nat>)
    requires from <= |table|
    ensures r.None? <==> forall i :: from <= i < |table| ==> !SuffixHit(table, i, key)
    ensures r.Some? ==> from <= r.value < |table| && SuffixHit(table, r.value, key)
    ensures r.Some? ==> forall j :: from <= j < r.value ==> !SuffixHit(table, j, key)
    decreases |table| - from
  {
    if from == |table| then None
    else if SuffixHit(table, from, key) then Some(from)
    else FirstSuffixFrom(table, key, from + 1)
  }

  /** The first hit is at `k` when the entry at `k` is a hit and none before it is. */
  lemma FirstSuffixAt(table: Table, key: string, k: nat)
    requires k < |table| && SuffixHit(table, k, key)
    requires forall j :: 0 <= j < k ==> !SuffixHit(table, j, key)
    ensures FirstSuffix(table, key) == Some(k)
  {
    var r := FirstSuffix(table, key);
    assert r.Some?;
    assert !(r.value < k) && !(r.value > k);
  }

  /** The last-segment stage: the value of the first hit, or `undefined`. */
  function BySuffix(table: Table, key: string): (r: Option<Val>)
    ensures r.Some? ==> Truthy(r)
  {
    match FirstSuffix(table, key)
    case None => None
    case Some(i) => Lookup(table, table[i].0)
  }

  /**
   * The three stages on one language's table (`undefined` when the table is
   * missing): the flat key, then the dotted walk, then the last-segment
   * search, each tried only while the value is still `undefined`.
   */
  function Stages(table: Option<Table>, key: string): (r: Option<Val>)
    ensures table.None? ==> r.None?
    ensures table.Some? && Lookup(table.value, key).Some? ==> r == Lookup(table.value, key)
  {
    var flat := if table.Some? then Lookup(table.value, key) else None;
    if flat.Some? then flat
    else
      var root := if table.Some? then Some(Obj(table.value)) else None;
      var nested := Walk(root, Split(key));
      if nested.Some? then nested
      else if table.Some? then BySuffix(table.value, key)
      else None
  }

  /**
   * `t(key)` for the current language: its stages, then English's when still
   * `undefined`, then `value || key`.  It is never `undefined` or "": it is
   * something truthy, or the key itself.
   */
  function Resolved(tables: Tables, language: string, key: string): (r: Val)
    ensures Truthy(Some(r)) || r == Str(key)
    ensures key != [] ==> Truthy(Some(r))
  {
    var current := Stages(Lookup(tables, language), key);
    var value := if current.Some? then current else Stages(Lookup(tables, "en"), key);
    if Truthy(value) then value.value else Str(key)
  }

  /** The three stages with the source's own loops: the segment walk and the `for...in` over the table, each with `break`. */
  method StagesIn(table: Option<Table>, key: string) returns (value: Option<Val>)
    ensures value == Stages(table, key)
  {
    value := if table.Some? then Lookup(table.value, key) else None;
    if value.None? {
      var keys := Split(key);
      var root := if table.Some? then Some(Obj(table.value)) else None;
      value := root;
      var i := 0;
      while i < |keys|
        invariant 0 <= i <= |keys|
        invariant Walk(value, keys[i..]) == Walk(root, keys)
        decreases |keys| - i
      {
        if value.Some? && value.value.Obj? {
          value := Lookup(value.value.entries, keys[i]);
          assert keys[i..][1..] == keys[i + 1..];
          i := i + 1;
        } else {
          value := None;
          break;
        }
      }
      assert value == Walk(root, keys);
    }
    if value.None? && table.Some? {
      var entries := table.value;
      for i := 0 to |entries|
        invariant value.None?
        invariant forall j :: 0 <= j < i ==> !SuffixHit(entries, j, key)
      {
        var parts := Split(entries[i].0);
        var hit := Lookup(entries, entries[i].0);
        assert parts[|parts| - 1] == LastSegment(entries[i].0);
        if parts[|parts| - 1] == key && Truthy(hit) {
          value := hit;
          FirstSuffixAt(entries, key, i);
          break;
        }
      }
    }
  }

  /** `t(key)`. */
  method T(tables: Tables, language: string, key: string) returns (r: Val)
    ensures r == Resolved(tables, language, key)
  {
    var value := StagesIn(Lookup(tables, language), key);
    if value.None? {
      value := StagesIn(Lookup(tables, "en"), key);
    }
    r := if Truthy(value) then value.value else Str(key);
  }

  /** The provider's context: `t` and the state it reads (the setter is not modelled). */
  datatype Context = Context(language: string, tables: Tables)

  const OutsideProvider := "useLanguage must be used within LanguageProvider"

  /** `useLanguage()`: the provider's context, or the error thrown outside a provider. */
  function UseLanguage(context: Option<Context>): (r: Result<Context, string>)
    ensures context.None? <==> r == Err(OutsideProvider)
    ensures context.Some? ==> r == Ok(context.value)
  {
    if context.None? then Err(OutsideProvider) else Ok(context.value)
  }

  // ---------------------------------------------------------------------
  // What `t` promises

  /** A truthy flat entry of the current language is returned as it is. */
  lemma FlatEntryWins(tables: Tables, language: string, key: string, table: Table, v: Val)
    requires Lookup(tables, language) == Some(table) && Lookup(table, key) == Some(v)
    requires Truthy(Some(v))
    ensures Resolved(tables, language, key) == v
  {
  }

  /** Without a flat entry, the dotted walk through the current table decides when it reaches something truthy. */
  lemma NestedEntryWins(tables: Tables, language: string, key: string, table: Table, v: Val)
    requires Lookup(tables, language) == Some(table) && Lookup(table, key).None?
    requires Walk(Some(Obj(table)), Split(key)) == Some(v) && Truthy(Some(v))
    ensures Resolved(tables, language, key) == v
  {
  }

  /** A walk that meets a string (or nothing) before its last segment yields `undefined`. */
  lemma WalkStopsAtNonObject(v: Option<Val>, path: seq<string>, i: nat)
    requires i < |path|
    requires !(Walk(v, path[..i]).Some? && Walk(v, path[..i]).value.Obj?)
    ensures Walk(v, path) == None
  {
    assert path == path[..i] + path[i..];
    WalkAppend(v, path[..i], path[i..]);
  }

  /**
   * When neither the flat key nor the walk finds anything, the first entry in
   * enumeration order whose last dotted segment is `key` and whose value is
   * truthy is returned.
   */
  lemma SuffixEntryWins(tables: Tables, language: string, key: string, table: Table, i: nat)
    requires Lookup(tables, language) == Some(table) && Lookup(table, key).None?
    requires Walk(Some(Obj(table)), Split(key)).None?
    requires i < |table| && SuffixHit(table, i, key)
    requires forall j :: 0 <= j < i ==> !SuffixHit(table, j, key)
    ensures Resolved(tables, language, key) == Lookup(table, table[i].0).value
  {
    FirstSuffixAt(table, key, i);
  }

  /** A key with a dot never matches by last segment, since no last segment holds a dot. */
  lemma DottedKeyNeverMatchesBySuffix(table: Table, key: string)
    requires '.' in key
    ensures BySuffix(table, key).None?
  {
    assert forall i :: 0 <= i < |table| ==> !SuffixHit(table, i, key);
  }

  /** When the current language's stages find anything at all, the English table plays no part. */
  lemma EnglishOnlyWhenUndefined(tables: Tables, tables': Tables, language: string, key: string)
    requires Lookup(tables, language) == Lookup(tables', language)
    requires Stages(Lookup(tables, language), key).Some?
    ensures Resolved(tables, language, key) == Resolved(tables', language, key)
  {
  }

  /**
   * A language whose stages leave the value `undefined` (it has no table, or
   * its table has no flat, nested or last-segment hit for the key) resolves
   * exactly as English does.
   */
  lemma UndefinedResolvesThroughEnglish(tables: Tables, language: string, key: string)
    requires Stages(Lookup(tables, language), key).None?
    ensures Resolved(tables, language, key) == Resolved(tables, "en", key)
  {
  }

  /** An entry holding "" stops the search: `t` returns the key, whatever the English table holds. */
  lemma EmptyEntryYieldsKey(tables: Tables, language: string, key: string, table: Table)
    requires Lookup(tables, language) == Some(table) && Lookup(table, key) == Some(Str([]))
    ensures Resolved(tables, language, key) == Str(key)
  {
  }
}
