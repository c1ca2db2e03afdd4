/** The `customers` table: names, each at most once (`UNIQUE NOT NULL`),
    in the order they were inserted. */
module Customers {

  predicate NoDuplicates(s: seq<string>) {
    forall i, j :: 0 <= i < j < |s| ==> s[i] != s[j]
  }

  /** The table after `INSERT INTO customers (name) VALUES (?)`: the
      uniqueness constraint turns a second insertion of a name into no
      change. */
  function Inserted(names: seq<string>, name: string): seq<string> {
    if name in names then names else names + [name]
  }

  lemma InsertedKeepsUnique(names: seq<string>, name: string)
    requires NoDuplicates(names)
    ensures NoDuplicates(Inserted(names, name))
    ensures name in Inserted(names, name)
    ensures forall n :: n in names ==> n in Inserted(names, name)
  {
  }

  /** Inserting a name twice changes nothing the second time. */
  lemma InsertedTwice(names: seq<string>, name: string)
    ensures Inserted(Inserted(names, name), name) == Inserted(names, name)
  {
  }

  /** In a table without duplicates a stored name occurs exactly once. */
  lemma {:induction false} StoredOnce(names: seq<string>, name: string)
    requires NoDuplicates(names) && name in names
    ensures multiset(names)[name] == 1
    decreases |names|
  {
    assert names == [names[0]] + names[1..];
    if names[0] == name {
      assert name !in names[1..];
    } else {
      StoredOnce(names[1..], name);
    }
  }

  class CustomerStore {
    /** The `name` column, in row-id order. */
    var names: seq<string>

    ghost predicate Valid()
      reads this
    {
      NoDuplicates(names)
    }

    /** `CREATE TABLE IF NOT EXISTS`: an existing table is kept. */
    constructor (existing: seq<string>)
      requires NoDuplicates(existing)
      ensures Valid() && names == existing
    {
      names := existing;
    }

    /** `add_customer`: `true` when the name was new and is now stored,
        `false` (an `IntegrityError`) when it was already there. */
    method AddCustomer(name: string) returns (added: bool)
      requires Valid()
      modifies this
      ensures Valid()
      ensures added <==> name !in old(names)
      ensures names == Inserted(old(names), name)
    {
      InsertedKeepsUnique(names, name);
      if name in names {
        added := false;
      } else {
        names := names + [name];
        added := true;
      }
    }

    /** `get_customers`: every stored name once; with no `ORDER BY` the
        order is not promised. */
    method GetCustomers() returns (list: seq<string>)
      requires Valid()
      ensures multiset(list) == multiset(names)
      ensures NoDuplicates(list)
    {
      list := names;
    }
  }
}
