/**
 The aggregate cache of app/core/aggregate_cache.py: a call looks up its key under the lock, loads outside of it and
 stores under the lock again, so that calls of many threads interleave between the two.
 */
module AggregateCache {
  import opened Options
  import opened Collections

  const MAX_ENTRIES := 64

  type Value = seq<map<string, string>>

  datatype Entry = Entry(value: Value, createdAt: real, expiresAt: real)

  type Cache = map<string, Entry>

  function Lifetime(ttl: int): real {
    if ttl > 1 then ttl as real else 1.0
  }

  /** The lookup under the lock. */
  predicate Hits(cache: Cache, key: string, now: real) {
    key in cache && cache[key].expiresAt > now
  }

  function Unexpired(cache: Cache, now: real): Cache {
    map k | k in cache && !(cache[k].expiresAt <= now) :: cache[k]
  }

  function Trimmed(cache: Cache, now: real): Cache {
    if |cache| >= MAX_ENTRIES then Unexpired(cache, now) else cache
  }

  predicate IsOldest(cache: Cache, key: string) {
    key in cache && forall k :: k in cache ==> cache[key].createdAt <= cache[k].createdAt
  }

  /** A full cache gives up one of its oldest entries. */
  predicate IsVictim(cache: Cache, now: real, victim: Option<string>) {
    if |Trimmed(cache, now)| >= MAX_ENTRIES then victim.Some? && IsOldest(Trimmed(cache, now), victim.value)
    else victim.None?
  }

  function Room(cache: Cache, now: real, victim: Option<string>): Cache {
    if victim.Some? then Trimmed(cache, now) - {victim.value} else Trimmed(cache, now)
  }

  /** The store under the lock; `start` is the time of the call's lookup. */
  function Stored(cache: Cache, key: string, ttl: int, start: real, value: Value, victim: Option<string>): Cache {
    Room(cache, start, victim)[key := Entry(value, start, start + Lifetime(ttl))]
  }

  // ----- the cache in memory

  /** A loaded row, a mutable dictionary. */
  class Row {
    var fields: map<string, string>

    constructor (fields: map<string, string>)
      ensures this.fields == fields
    {
      this.fields := fields;
    }
  }

  /** A loaded aggregate, a mutable list of rows. */
  class Rows {
    var items: seq<Row>

    constructor (items: seq<Row>)
      ensures this.items == items
    {
      this.items := items;
    }

    ghost predicate Within(repr: set<object>)
      reads this
    {
      this in repr && forall r :: r in items ==> r in repr
    }

    ghost predicate Outside(repr: set<object>)
      reads this
    {
      this !in repr && forall r :: r in items ==> r !in repr
    }

    ghost function Value(): Value
      reads this, items
    {
      seq(|items|, i requires 0 <= i < |items| reads this, items => items[i].fields)
    }
  }

  /** copy.deepcopy of a list of dictionaries */
  method DeepCopy(rows: Rows) returns (copy: Rows)
    ensures fresh(copy) && fresh(copy.items) && copy.Value() == rows.Value()
  {
    var items: seq<Row> := [];
    for i := 0 to |rows.items|
      invariant |items| == i
      invariant forall j :: 0 <= j < i ==> fresh(items[j]) && items[j].fields == rows.items[j].fields
    {
      var row := new Row(rows.items[i].fields);
      items := items + [row];
    }
    copy := new Rows(items);
  }

  datatype Slot = Slot(rows: Rows, createdAt: real, expiresAt: real)

  class ProcessCache {
    var entries: map<string, Slot>
    /** What is cached, by value. */
    ghost var contents: Cache
    ghost var Repr: set<object>

    ghost predicate Holds(k: string)
      reads this, Repr
    {
      k in entries && k in contents && (
        var slot := entries[k];
        && slot.rows in Repr && slot.rows.Within(Repr)
        && contents[k] == Entry(slot.rows.Value(), slot.createdAt, slot.expiresAt))
    }

    ghost predicate Valid()
      reads this, Repr
    {
      && this !in Repr
      && entries.Keys == contents.Keys
      && forall k :: k in entries ==> Holds(k)
    }

    constructor ()
      ensures Valid() && fresh(Repr) && contents == map[]
    {
      entries, contents, Repr := map[], map[], {};
    }

    method Lookup(key: string, now: real) returns (hit: Option<Rows>)
      requires Valid()
      ensures hit.Some? <==> Hits(contents, key, now)
      ensures hit.Some? ==> fresh(hit.value) && fresh(hit.value.items) && hit.value.Value() == contents[key].value
    {
      assert key in entries ==> Holds(key);
      if key in entries && entries[key].expiresAt > now {
        var copy := DeepCopy(entries[key].rows);
        return Some(copy);
      }
      return None;
    }

    method Store(key: string, ttl: int, start: real, rows: Rows) returns (victim: Option<string>)
      requires Valid()
      modifies this
      ensures Valid() && fresh(Repr - old(Repr))
      ensures IsVictim(old(contents), start, victim)
      ensures contents == Stored(old(contents), key, ttl, start, old(rows.Value()), victim)
    {
      victim := MakeRoom(start);
      PutCopy(key, rows, start, start + Lifetime(ttl));
    }

    method PutCopy(key: string, rows: Rows, createdAt: real, expiresAt: real)
      requires Valid()
      modifies this
      ensures Valid() && fresh(Repr - old(Repr))
      ensures contents == old(contents)[key := Entry(old(rows.Value()), createdAt, expiresAt)]
    {
      var copy := DeepCopy(rows);
      Put(key, Slot(copy, createdAt, expiresAt));
    }

    /** The assignment to the dictionary. */
    method Put(key: string, slot: Slot)
      requires Valid() && slot.rows.Outside({this})
      modifies this
      ensures Valid() && Repr == old(Repr) + {slot.rows} + set r: Row | r in slot.rows.items :: r as object
      ensures contents == old(contents)[key := Entry(slot.rows.Value(), slot.createdAt, slot.expiresAt)]
    {
      entries := entries[key := slot];
      contents := contents[key := Entry(slot.rows.Value(), slot.createdAt, slot.expiresAt)];
      Repr := Repr + {slot.rows} + set r: Row | r in slot.rows.items :: r as object;
      forall k | k in entries ensures Holds(k) {
        if k != key {
          assert old(Holds(k)) && entries[k] == old(entries[k]) && contents[k] == old(contents[k]);
        }
      }
    }

    /** Keeps only the given keys. */
    method KeepOnly(keys: set<string>)
      requires Valid()
      modifies this`entries, this`contents
      ensures Valid()
      ensures contents == map k | k in old(contents) && k in keys :: old(contents)[k]
    {
      entries := map k | k in entries && k in keys :: entries[k];
      contents := map k | k in contents && k in keys :: contents[k];
      forall k | k in entries ensures Holds(k) {
        assert old(Holds(k));
      }
    }

    method Trim(start: real)
      requires Valid()
      modifies this`entries, this`contents
      ensures Valid()
      ensures contents == Trimmed(old(contents), start)
    {
      SizeOfKeys(entries, contents);
      if |entries| >= MAX_ENTRIES {
        assert forall k :: k in entries ==> Holds(k);
        KeepOnly(set k | k in entries && !(entries[k].expiresAt <= start));
      }
    }

    method MakeRoom(start: real) returns (victim: Option<string>)
      requires Valid()
      modifies this`entries, this`contents
      ensures Valid()
      ensures IsVictim(old(contents), start, victim)
      ensures contents == Room(old(contents), start, victim)
    {
      victim := None;
      Trim(start);
      SizeOfKeys(entries, contents);
      if |entries| >= MAX_ENTRIES {
        var oldest := Oldest();
        victim := Some(oldest);
        Evict(oldest);
      }
    }

    method Evict(key: string)
      requires Valid()
      modifies this`entries, this`contents
      ensures Valid() && contents == old(contents) - {key}
    {
      KeepOnly(entries.Keys - {key});
    }

    method Oldest() returns (oldest: string)
      requires Valid() && |entries| > 0
      ensures IsOldest(contents, oldest)
    {
      assert exists k :: k in entries by {
        HasKey(entries);
      }
      oldest :| oldest in entries;
      var todo := entries.Keys;
      while todo != {}
        invariant todo <= entries.Keys && oldest in entries
        invariant forall k :: k in entries && k !in todo ==> entries[oldest].createdAt <= entries[k].createdAt
        decreases |todo|
      {
        assert exists k :: k in todo by {
          var member := Member(todo);
        }
        var k :| k in todo;
        if entries[k].createdAt < entries[oldest].createdAt {
          oldest := k;
        }
        todo := todo - {k};
      }
      assert forall k :: k in entries ==> Holds(k);
    }

    method ClearAggregateCache()
      requires Valid()
      modifies this
      ensures Valid() && contents == map[] && Repr == old(Repr)
    {
      entries, contents := map[], map[];
    }

    /** A whole call without interleaving; `loaded` is what its loader returns if it is called. */
    method CachedAggregate(key: string, ttl: int, now: real, loaded: Rows)
      returns (rows: Rows, ghost victim: Option<string>)
      requires Valid()
      modifies this
      ensures Valid() && fresh(Repr - old(Repr))
      ensures fresh(rows) && fresh(rows.items) && rows.Outside(Repr)
      ensures if Hits(old(contents), key, now)
              then rows.Value() == old(contents)[key].value && contents == old(contents)
              else && rows.Value() == old(loaded.Value()) && IsVictim(old(contents), now, victim)
                   && contents == Stored(old(contents), key, ttl, now, old(loaded.Value()), victim)
    {
      victim := None;
      var hit := Lookup(key, now);
      if hit.Some? {
        return hit.value, None;
      }
      victim := Store(key, ttl, now, loaded);
      rows := DeepCopy(loaded);
    }
  }

  lemma SizeOfKeys<V, W>(a: map<string, V>, b: map<string, W>)
    requires a.Keys == b.Keys
    ensures |a| == |b|
  {
    assert |a| == |a.Keys| && |b| == |b.Keys|;
  }

  /** Whatever a caller does to the rows it was given, and to those it loaded, the cache keeps its contents. */
  method CallersOwnTheirCopy(cache: ProcessCache, key: string, ttl: int, now: real, loaded: Rows,
                             fields: map<string, string>)
    returns (rows: Rows)
    requires cache.Valid() && loaded.Outside(cache.Repr + {cache})
    modifies cache, loaded, loaded.items
    ensures cache.Valid() && Hits(cache.contents, key, now)
    ensures cache.contents[key].value
            == if Hits(old(cache.contents), key, now) then old(cache.contents)[key].value else old(loaded.Value())
  {
    ghost var victim;
    rows, victim := cache.CachedAggregate(key, ttl, now, loaded);
    OverwriteBoth(cache, rows, loaded, fields);
  }

  method OverwriteBoth(ghost cache: ProcessCache, rows: Rows, loaded: Rows, fields: map<string, string>)
    requires cache.Valid() && rows.Outside(cache.Repr + {cache}) && loaded.Outside(cache.Repr + {cache})
    modifies rows, rows.items, loaded, loaded.items
    ensures cache.Valid() && cache.contents == old(cache.contents)
  {
    ghost var before := loaded.items;
    Overwrite(rows, fields);
    Overwrite(loaded, fields);
  }

  /** Changes every row in place and empties the list. */
  method Overwrite(rows: Rows, fields: map<string, string>)
    modifies rows, rows.items
    ensures rows.items == []
  {
    for i := 0 to |rows.items|
      invariant rows.items == old(rows.items)
    {
      rows.items[i].fields := fields;
    }
    rows.items := [];
  }
}
