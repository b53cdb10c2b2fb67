/**
 * Building the dispatch tree of a protocol tag.  `traverse<Tag>()` folds over the
 * tag's event list in order; each event stores `id -> (alias, traverse<transition>())`.
 * The `recursive_tag` sentinel yields no tree at all, which is how a protocol that
 * loops back on itself is described without infinite expansion.
 *
 * The C++ protocol description is a compile-time list; here it is a map from tag
 * name to event list.  The compiler rejects a description that recurses without the
 * sentinel; here that well-formedness is a depth for every tag that strictly
 * decreases along each transition (`Acyclic`).
 */
module Traverse {
  import opened Wrappers
  import opened DispatchTrees

  datatype Tag = RecursiveTag | Named(name: string)

  /** One event of a protocol: its message id, its alias and the tag it leads to. */
  datatype EventDecl = EventDecl(id: int, alias: string, transition: Tag)

  /** Event lists per tag, and the depth that witnesses the absence of cycles. */
  datatype Protocol = Protocol(events: map<string, seq<EventDecl>>, depth: map<string, nat>)

  /** The event list of a named tag; a tag without a declared list has no events. */
  function Events(p: Protocol, name: string): seq<EventDecl>
  {
    if name in p.events then p.events[name] else []
  }

  /** The termination measure: the sentinel is below every named tag. */
  function Rank(p: Protocol, t: Tag): nat
  {
    match t
    case RecursiveTag => 0
    case Named(n) => 1 + (if n in p.depth then p.depth[n] else 0)
  }

  /** Every transition leads to a tag of smaller rank, or to the sentinel. */
  predicate Acyclic(p: Protocol)
  {
    forall n, i :: n in p.events && 0 <= i < |p.events[n]| ==>
      Rank(p, p.events[n][i].transition) < Rank(p, Named(n))
  }

  /** Every event of `evs` leads below `tag`. */
  predicate Below(p: Protocol, tag: Tag, evs: seq<EventDecl>)
  {
    forall i :: 0 <= i < |evs| ==> Rank(p, evs[i].transition) < Rank(p, tag)
  }

  /** The set of message ids of an event list. */
  function Ids(evs: seq<EventDecl>): set<int>
  {
    set i | 0 <= i < |evs| :: evs[i].id
  }

  /** `traverse<Tag>()`: the sentinel gives no tree; every other tag gives a tree. */
  function TraverseTag(p: Protocol, t: Tag): (r: Option<DispatchTree>)
    requires Acyclic(p)
    ensures r.None? <==> t == RecursiveTag
    decreases Rank(p, t), 1, 0
  {
    match t
    case RecursiveTag => None
    case Named(n) =>
      assert Below(p, t, Events(p, n));
      Some(Fill(p, t, Events(p, n), Empty()))
  }

  /** `traverse_impl<It, End>::invoke`: stores each remaining event, first to last, into `acc`. */
  function Fill(p: Protocol, tag: Tag, evs: seq<EventDecl>, acc: DispatchTree): DispatchTree
    requires Acyclic(p) && Below(p, tag, evs)
    decreases Rank(p, tag), 0, |evs|
  {
    if evs == [] then acc
    else
      Fill(p, tag, evs[1..], Put(acc, evs[0].id, evs[0].alias, TraverseTag(p, evs[0].transition)))
  }

  /** `evs[j]` is the last event of `evs` with its id. */
  predicate LastWithId(evs: seq<EventDecl>, j: int)
  {
    0 <= j < |evs| && forall i :: j < i < |evs| ==> evs[i].id != evs[j].id
  }

  /** The entry an event contributes to the tree. */
  function EntryOf(p: Protocol, e: EventDecl): Entry
    requires Acyclic(p)
  {
    Entry(e.alias, TraverseTag(p, e.transition))
  }

  /** The tree's ids are those already in `acc` and those of the events. */
  lemma {:induction false} FillKeys(p: Protocol, tag: Tag, evs: seq<EventDecl>, acc: DispatchTree)
    requires Acyclic(p) && Below(p, tag, evs)
    ensures Fill(p, tag, evs, acc).entries.Keys == acc.entries.Keys + Ids(evs)
    decreases |evs|
  {
    if evs != [] {
      var acc' := Put(acc, evs[0].id, evs[0].alias, TraverseTag(p, evs[0].transition));
      FillKeys(p, tag, evs[1..], acc');
      IdsCons(evs);
    }
  }

  /** The ids of a non-empty event list: the first one's and those of the rest. */
  lemma IdsCons(evs: seq<EventDecl>)
    requires evs != []
    ensures Ids(evs) == {evs[0].id} + Ids(evs[1..])
  {
    forall x | x in Ids(evs) ensures x in {evs[0].id} + Ids(evs[1..]) {
      var i :| 0 <= i < |evs| && evs[i].id == x;
      if i > 0 { assert evs[1..][i - 1] == evs[i]; }
    }
    forall x | x in Ids(evs[1..]) ensures x in Ids(evs) {
      var i :| 0 <= i < |evs[1..]| && evs[1..][i].id == x;
      assert evs[i + 1] == evs[1..][i];
    }
  }

  /** An id that no event carries keeps the entry it had in `acc`. */
  lemma {:induction false} FillKeeps(p: Protocol, tag: Tag, evs: seq<EventDecl>, acc: DispatchTree, k: int)
    requires Acyclic(p) && Below(p, tag, evs)
    requires k in acc.entries && forall i :: 0 <= i < |evs| ==> evs[i].id != k
    ensures k in Fill(p, tag, evs, acc).entries
    ensures Fill(p, tag, evs, acc).entries[k] == acc.entries[k]
    decreases |evs|
  {
    if evs != [] {
      var acc' := Put(acc, evs[0].id, evs[0].alias, TraverseTag(p, evs[0].transition));
      assert evs[0].id != k;
      forall i | 0 <= i < |evs[1..]| ensures evs[1..][i].id != k {
        assert evs[1..][i] == evs[i + 1];
      }
      FillKeeps(p, tag, evs[1..], acc', k);
    }
  }

  /**
   * Events are stored in list order, so the entry of an id comes from the LAST event
   * carrying that id: a later event overwrites an earlier one with the same id.
   */
  lemma {:induction false} FillLastWins(p: Protocol, tag: Tag, evs: seq<EventDecl>, acc: DispatchTree, j: int)
    requires Acyclic(p) && Below(p, tag, evs)
    requires LastWithId(evs, j)
    ensures evs[j].id in Fill(p, tag, evs, acc).entries
    ensures Fill(p, tag, evs, acc).entries[evs[j].id] == EntryOf(p, evs[j])
    decreases |evs|
  {
    var acc' := Put(acc, evs[0].id, evs[0].alias, TraverseTag(p, evs[0].transition));
    if j == 0 {
      forall i | 0 <= i < |evs[1..]| ensures evs[1..][i].id != evs[0].id {
        assert evs[1..][i] == evs[i + 1];
      }
      FillKeeps(p, tag, evs[1..], acc', evs[0].id);
    } else {
      forall i | j - 1 < i < |evs[1..]| ensures evs[1..][i].id != evs[1..][j - 1].id {
        assert evs[1..][i] == evs[i + 1];
      }
      FillLastWins(p, tag, evs[1..], acc', j - 1);
      assert evs[1..][j - 1] == evs[j];
    }
  }

  /** `traverse<recursive_tag>()` is none. */
  lemma RecursiveTagHasNoTree(p: Protocol)
    requires Acyclic(p)
    ensures TraverseTag(p, RecursiveTag) == None
  {
  }

  /**
   * For a named tag the tree is present; its ids are exactly the ids of the tag's
   * events; each id maps to the alias of the last event with that id and to the
   * tree of that event's transition tag.
   */
  lemma TraverseNamed(p: Protocol, n: string)
    requires Acyclic(p)
    ensures TraverseTag(p, Named(n)).Some?
    ensures TraverseTag(p, Named(n)).value.entries.Keys == Ids(Events(p, n))
    ensures forall j :: LastWithId(Events(p, n), j) ==>
      TraverseTag(p, Named(n)).value.entries[Events(p, n)[j].id] == EntryOf(p, Events(p, n)[j])
  {
    var evs := Events(p, n);
    assert Below(p, Named(n), evs);
    FillKeys(p, Named(n), evs, Empty());
    forall j | LastWithId(evs, j)
      ensures TraverseTag(p, Named(n)).value.entries[evs[j].id] == EntryOf(p, evs[j])
    {
      FillLastWins(p, Named(n), evs, Empty(), j);
    }
  }

  /** A tag with no events gives a present, empty tree. */
  lemma NoEventsEmptyTree(p: Protocol, n: string)
    requires Acyclic(p) && Events(p, n) == []
    ensures TraverseTag(p, Named(n)) == Some(Empty())
  {
  }

  /** A two-state example: `invoke` leads to a streaming tag whose `chunk` recurses. */
  lemma ExampleTree()
    ensures var p := Protocol(
              map["app" := [EventDecl(0, "invoke", Named("stream"))],
                  "stream" := [EventDecl(0, "chunk", RecursiveTag), EventDecl(1, "choke", Named("done"))]],
              map["app" := 2, "stream" := 1, "done" := 0]);
      Acyclic(p) &&
      TraverseTag(p, Named("app")) ==
        Some(DispatchTree(map[0 := Entry("invoke", Some(DispatchTree(map[
          0 := Entry("chunk", None),
          1 := Entry("choke", Some(DispatchTree(map[])))])))]))
  {
    var p := Protocol(
              map["app" := [EventDecl(0, "invoke", Named("stream"))],
                  "stream" := [EventDecl(0, "chunk", RecursiveTag), EventDecl(1, "choke", Named("done"))]],
              map["app" := 2, "stream" := 1, "done" := 0]);
    assert Acyclic(p);
    assert TraverseTag(p, Named("done")) == Some(DispatchTree(map[]));
    assert TraverseTag(p, Named("stream")) == Some(DispatchTree(map[
          0 := Entry("chunk", None),
          1 := Entry("choke", Some(DispatchTree(map[])))]));
  }
}
