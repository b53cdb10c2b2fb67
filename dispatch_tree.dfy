/**
 * The dispatch tree of a protocol: a finite map from message id to the message's
 * alias and the optional tree of the protocol reached after that message.
 * `dispatch_tree_t` is a value type; its constructors and assignments copy or move
 * the whole mapping, and `operator[]` followed by an assignment inserts or replaces
 * one entry.
 */
module DispatchTrees {
  import opened Wrappers

  datatype DispatchTree = DispatchTree(entries: map<int, Entry>)

  /** One entry: the alias of the message and the tree it leads to, if any. */
  datatype Entry = Entry(alias: string, next: Option<DispatchTree>)

  /** The default constructor: an empty mapping. */
  function Empty(): (t: DispatchTree)
    ensures |t.entries| == 0
    ensures forall id :: id !in t.entries
  {
    DispatchTree(map[])
  }

  /**
   * The copy and move constructors and the copy and move assignments: the target
   * maps every id exactly as the source did.  What remains in a moved-from source
   * is unspecified in C++; the model gives it no further use.
   */
  function Copy(o: DispatchTree): (t: DispatchTree)
    ensures t.entries.Keys == o.entries.Keys
    ensures forall id :: id in o.entries ==> t.entries[id] == o.entries[id]
    ensures t == o
  {
    DispatchTree(o.entries)
  }

  /** `object[id] = (alias, next)`: inserts or overwrites the entry for `id`, and nothing else. */
  function Put(t: DispatchTree, id: int, alias: string, next: Option<DispatchTree>): (r: DispatchTree)
    ensures r.entries.Keys == t.entries.Keys + {id}
    ensures r.entries[id] == Entry(alias, next)
    ensures forall k :: k in t.entries && k != id ==> r.entries[k] == t.entries[k]
  {
    DispatchTree(t.entries[id := Entry(alias, next)])
  }
}
