/**
 * The JSON values the response document is built from.  Real numbers are not
 * modelled; integers are unbounded.
 */
module Json {

  datatype Value =
    | Null
    | Bool(b: bool)
    | Int(i: int)
    | Str(s: string)
    | Array(items: seq<Value>)
    | Object(members: map<string, Value>)

  /** A value that `operator[]` with a string key accepts: null converts to an object. */
  predicate Indexable(v: Value)
  {
    v.Null? || v.Object?
  }

  /**
   * Reading `v[key]`: the member if present, otherwise null (the non-const
   * `operator[]` inserts a null member, which every caller here overwrites).
   */
  function Member(v: Value, key: string): (r: Value)
    requires Indexable(v)
    ensures v.Object? && key in v.members ==> r == v.members[key]
    ensures !(v.Object? && key in v.members) ==> r == Null
  {
    if v.Object? && key in v.members then v.members[key] else Null
  }

  /** Assigning `v[key] = x`: a null value becomes an object first. */
  function SetMember(v: Value, key: string, x: Value): (r: Value)
    requires Indexable(v)
    ensures r.Object? && key in r.members && r.members[key] == x
    ensures v.Null? ==> r.members.Keys == {key}
    ensures v.Object? ==> r.members.Keys == v.members.Keys + {key}
    ensures v.Object? ==> forall k :: k in v.members && k != key ==> r.members[k] == v.members[k]
  {
    match v
    case Null => Object(map[key := x])
    case Object(m) => Object(m[key := x])
  }
}
