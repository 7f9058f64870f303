/** The relational store behind every repository: a table of rows keyed by id, and the identity
    counter from which the database draws the id of a row saved without one. */
module Tables {
  import opened Common

  /** Every stored record carries the id it is stored under: the services stamp the key they
      save under onto the record. */
  ghost predicate Keyed<T>(rows: map<int, T>, idOf: T -> Option<int>)
  {
    forall k :: k in rows ==> idOf(rows[k]) == Some(k)
  }

  /** A table with keys has a key to pick. */
  lemma SomeKey<T>(rows: map<int, T>)
    ensures rows.Keys == {} || exists k :: k in rows
  {
    assert (forall j :: j !in rows.Keys) ==> rows.Keys == {};
  }

  /** Records that carry their own keys are all distinct: the stored records are as many as the
      keys. */
  lemma {:induction false} KeyedRecordsDistinct<T>(rows: map<int, T>, idOf: T -> Option<int>)
    requires Keyed(rows, idOf)
    ensures |set k | k in rows :: rows[k]| == |rows|
    decreases |rows|
  {
    if rows.Keys != {} {
      SomeKey(rows);
      var k :| k in rows;
      var rest := rows - {k};
      assert rest.Keys + {k} == rows.Keys;
      KeyedRecordsDistinct(rest, idOf);
      var others := set j | j in rest :: rest[j];
      assert (set j | j in rows :: rows[j]) == others + {rows[k]};
      assert rows[k] !in others;
    }
  }

  class Table<T(==,!new)> {
    var rows: map<int, T>
    var nextId: int

    /** Every key in use lies below the counter, so the counter always names a free key. */
    ghost predicate Valid()
      reads this
    {
      forall k :: k in rows ==> k < nextId
    }

    constructor ()
      ensures Valid() && rows == map[]
    {
      rows := map[];
      nextId := 1;
    }

    /** Draws a key that no row uses (the identity column of an insert). */
    method Allocate() returns (key: int)
      requires Valid()
      modifies this
      ensures Valid() && rows == old(rows)
      ensures key !in rows
    {
      key := nextId;
      nextId := nextId + 1;
    }

    /** The key a save writes to in this model: the row's own id when it has one, stored or not,
        else a fresh key from the counter. */
    method KeyForSave(id: Option<int>) returns (key: int)
      requires Valid()
      modifies this
      ensures Valid() && rows == old(rows)
      ensures id.Some? ==> key == id.value
      ensures id.None? ==> key !in rows
    {
      if id.Some? {
        key := id.value;
      } else {
        key := Allocate();
      }
    }

    /** Stores `e` under `key`, inserting or overwriting (the write half of JPA's save). */
    method Put(key: int, e: T)
      requires Valid()
      modifies this
      ensures Valid() && rows == old(rows)[key := e]
    {
      rows := rows[key := e];
      if nextId <= key {
        nextId := key + 1;
      }
    }

    /** deleteById: removes the row if there is one; an absent key is not an error. When the
        database fails (`fails`), nothing is removed and the failure is reported. */
    method DeleteById(key: int, fails: bool) returns (ok: bool)
      requires Valid()
      modifies this
      ensures Valid()
      ensures ok == !fails
      ensures rows == if fails then old(rows) else old(rows) - {key}
    {
      if fails {
        ok := false;
      } else {
        rows := rows - {key};
        ok := true;
      }
    }

    /** findById. */
    function FindById(key: int): (r: Option<T>)
      reads this
      ensures r.Some? <==> key in rows
      ensures r.Some? ==> r.value == rows[key]
    {
      if key in rows then Some(rows[key]) else None
    }

    /** existsById: true exactly when a row is stored under the key, the row findById gives. */
    predicate ExistsById(key: int)
      reads this
      ensures ExistsById(key) <==> FindById(key).Some?
    {
      key in rows
    }

    /** findAll: every stored row. */
    function FindAll(): (all: set<T>)
      reads this
      ensures forall e :: e in all <==> exists k :: k in rows && rows[k] == e
    {
      set k | k in rows :: rows[k]
    }
  }
}
