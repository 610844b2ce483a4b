/** Redundant indexes over a table: lists of ids by owner, and ids by key. */
module Indexes {
  import opened Order

  function ListOf(lists: map<string, seq<string>>, key: string): seq<string> {
    if key in lists then lists[key] else []
  }

  /** The lists partition the ids: each id once, in the list of its own owner, and no list is empty. */
  ghost predicate Partitions(lists: map<string, seq<string>>, owners: map<string, string>) {
    && (forall id | id in owners :: owners[id] in lists)
    && (forall k | k in lists :: lists[k] != [] && NoDup(lists[k]))
    && (forall k, id | k in lists :: id in lists[k] <==> id in owners && owners[id] == k)
  }

  lemma PartitionAdd(lists: map<string, seq<string>>, owners: map<string, string>, id: string, owner: string)
    requires Partitions(lists, owners) && id !in owners
    ensures Partitions(lists[owner := ListOf(lists, owner) + [id]], owners[id := owner])
  {
    var before, after := ListOf(lists, owner), ListOf(lists, owner) + [id];
    var lists1, owners1 := lists[owner := after], owners[id := owner];
    assert id !in before;
    forall k, x | k in lists1 ensures x in lists1[k] <==> x in owners1 && owners1[x] == k {
      if k == owner {
        assert x in after <==> x in before || x == id;
      }
    }
  }

  /** The index is the inverse of the key function: keys and ids correspond one to one. */
  ghost predicate Inverts(index: map<string, string>, keys: map<string, string>) {
    && (forall id | id in keys :: keys[id] in index && index[keys[id]] == id)
    && (forall k | k in index :: index[k] in keys && keys[index[k]] == k)
  }

  lemma InvertsAdd(index: map<string, string>, keys: map<string, string>, id: string, key: string)
    requires Inverts(index, keys) && id !in keys && key !in index
    ensures Inverts(index[key := id], keys[id := key])
  {
  }
}
