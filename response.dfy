/**
 * The aggregated response of one request: a JSON document whose member "results"
 * collects, per key, the results pushed for that key.  The first result for a key
 * is stored as it is; a second one turns the slot into a list; later ones are
 * appended.  Aborting replaces the whole document by an error, or pushes an error
 * object under one key.  The route the response goes back on is fixed at construction.
 */
module Responses {
  import opened Json

  /** The document shape that `push` can index: the root and its "results" are null or objects. */
  predicate Shaped(root: Value)
  {
    Indexable(root) && Indexable(Member(root, "results"))
  }

  /** The current value of `results[key]` (null when absent). */
  function Slot(root: Value, key: string): Value
    requires Shaped(root)
  {
    Member(Member(root, "results"), key)
  }

  /** What the slot becomes when `result` is pushed onto it. */
  function Combine(slot: Value, result: Value): Value
  {
    match slot
    case Null => result
    case Array(items) => Array(items + [result])
    case _ => Array([slot, result])
  }

  /** The document after `push(key, result)`. */
  function Pushed(root: Value, key: string, result: Value): Value
    requires Shaped(root)
  {
    var results := Member(root, "results");
    SetMember(root, "results", SetMember(results, key, Combine(Member(results, key), result)))
  }

  /** The object `{"error": error}`. */
  function ErrorObject(error: string): (v: Value)
    ensures v.Object? && v.members.Keys == {"error"} && v.members["error"] == Str(error)
  {
    SetMember(Null, "error", Str(error))
  }

  /** The three cases of `push`, on the slot for `key`. */
  lemma PushCases(root: Value, key: string, result: Value)
    requires Shaped(root)
    ensures Shaped(Pushed(root, key, result))
    ensures Slot(root, key).Null? ==> Slot(Pushed(root, key, result), key) == result
    ensures Slot(root, key).Array? ==>
      Slot(Pushed(root, key, result), key) == Array(Slot(root, key).items + [result])
    ensures !Slot(root, key).Null? && !Slot(root, key).Array? ==>
      Slot(Pushed(root, key, result), key) == Array([Slot(root, key), result])
  {
  }

  /**
   * `push` changes only `results[key]`: every other key of "results" and every other
   * member of the document keeps its value (a null document becomes an object).
   */
  lemma PushChangesOnlyItsSlot(root: Value, key: string, result: Value)
    requires Shaped(root)
    ensures var r := Pushed(root, key, result);
      && r.Object? && "results" in r.members && r.members["results"].Object?
      && (root.Object? ==> r.members.Keys == root.members.Keys + {"results"})
      && (root.Object? ==> forall m :: m in root.members && m != "results" ==> r.members[m] == root.members[m])
      && (root.Null? ==> r.members.Keys == {"results"})
      && r.members["results"].members.Keys == Keys(Member(root, "results")) + {key}
      && (forall k :: k != key ==> Slot(r, k) == Slot(root, k))
  {
  }

  /** The keys of a null-or-object value. */
  function Keys(v: Value): set<string>
    requires Indexable(v)
  {
    if v.Object? then v.members.Keys else {}
  }

  /** The document after pushing every result of `rs` under `key`, first to last. */
  function PushAll(root: Value, key: string, rs: seq<Value>): (r: Value)
    requires Shaped(root)
    ensures Shaped(r)
    decreases |rs|
  {
    if rs == [] then root
    else
      PushCases(root, key, rs[0]);
      PushAll(Pushed(root, key, rs[0]), key, rs[1..])
  }

  /**
   * List-if-multiple: pushing two or more results under a fresh key, the first of
   * which is neither null nor a list, leaves exactly the list of those results, in order.
   */
  lemma {:induction false} PushManyMakesList(root: Value, key: string, rs: seq<Value>)
    requires Shaped(root) && Slot(root, key).Null?
    requires |rs| >= 2 && !rs[0].Null? && !rs[0].Array?
    ensures Slot(PushAll(root, key, rs), key) == Array(rs)
  {
    PushCases(root, key, rs[0]);
    var r1 := Pushed(root, key, rs[0]);
    PushCases(r1, key, rs[1]);
    var r2 := Pushed(r1, key, rs[1]);
    assert rs[1..][1..] == rs[2..];
    AppendAll(r2, key, [rs[0], rs[1]], rs[2..]);
    assert [rs[0], rs[1]] + rs[2..] == rs;
  }

  /** Once the slot holds a list, each further push appends at the end. */
  lemma {:induction false} AppendAll(root: Value, key: string, items: seq<Value>, rs: seq<Value>)
    requires Shaped(root) && Slot(root, key) == Array(items)
    ensures Slot(PushAll(root, key, rs), key) == Array(items + rs)
    decreases |rs|
  {
    if rs == [] {
      assert items + rs == items;
    } else {
      PushCases(root, key, rs[0]);
      AppendAll(Pushed(root, key, rs[0]), key, items + [rs[0]], rs[1..]);
      assert items + [rs[0]] + rs[1..] == items + rs;
    }
  }

  /** `response_t`: the route it answers on and the document being aggregated. */
  class Response {
    const route: seq<string>
    var root: Value

    ghost predicate Valid()
      reads this
    {
      Shaped(root)
    }

    /** A new response holds the given route and a null document. */
    constructor (route: seq<string>)
      ensures Valid()
      ensures this.route == route && root == Null
    {
      this.route := route;
      root := Null;
    }

    /** `push(key, result)`. */
    method Push(key: string, result: Value)
      requires Valid()
      modifies this
      ensures Valid()
      ensures root == Pushed(old(root), key, result)
    {
      var results := Member(root, "results");
      var slot := Member(results, key);
      match slot {
        case Null =>
          // the first or the only result for this key
          results := SetMember(results, key, result);
        case Array(items) =>
          results := SetMember(results, key, Array(items + [result]));
        case _ =>
          // the key turns out to hold a list: convert it
          var list := Array([]);
          list := Array(list.items + [slot]);
          list := Array(list.items + [result]);
          assert list == Combine(slot, result);
          results := SetMember(results, key, list);
      }
      root := SetMember(root, "results", results);
      PushCases(old(root), key, result);
    }

    /** `abort(error)`: the document becomes exactly `{"error": error}`. */
    method Abort(error: string)
      requires Valid()
      modifies this
      ensures Valid()
      ensures root == ErrorObject(error)
      ensures root.members.Keys == {"error"} && root.members["error"] == Str(error)
    {
      root := if root.Object? then Object(map[]) else Null;
      root := SetMember(root, "error", Str(error));
    }

    /** `abort(key, error)`: pushes `{"error": error}` under `key`. */
    method AbortKey(key: string, error: string)
      requires Valid()
      modifies this
      ensures Valid()
      ensures root == Pushed(old(root), key, ErrorObject(error))
    {
      var errorObject := ErrorObject(error);
      Push(key, errorObject);
    }

    /** `root()`. */
    function Root(): (v: Value)
      reads this
      requires Valid()
      ensures Shaped(v) && v == root
    {
      root
    }

    /** `route()`: the route given at construction. */
    function Route(): (r: seq<string>)
      ensures r == route
    {
      route
    }
  }
}
