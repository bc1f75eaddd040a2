/** Identifiers, optional values, request replies and query results shared by every component. */
module Common {
  type OrgId = nat
  type UserId = nat
  type DeptId = nat
  type TaskId = nat
  type CycleId = nat
  type Time = int

  datatype Option<+T> = None | Some(value: T)

  /** What a request does: it either takes effect, or throws and leaves everything as it was. */
  datatype Reply<+S, +E> = Ok(state: S) | Err(error: E)

  datatype Role = Member | Supervisor | Admin | Owner

  function Rank(r: Role): nat {
    match r
    case Member => 0
    case Supervisor => 1
    case Admin => 2
    case Owner => 3
  }

  predicate Outranks(acting: Role, target: Role) {
    Rank(acting) > Rank(target)
  }

  predicate Unique<T(==)>(xs: seq<T>) {
    forall a, b :: 0 <= a < b < |xs| ==> xs[a] != xs[b]
  }

  /** The rows, each once, in some order. */
  ghost predicate Lists<T(!new)>(order: seq<T>, rows: set<T>) {
    Unique(order) && forall x :: x in order <==> x in rows
  }

  /** A query returns the matching rows, each once, in no particular order. */
  method Rows<T(==, !new)>(ids: set<T>) returns (rows: seq<T>)
    ensures Lists(rows, ids)
  {
    rows := [];
    var rest := ids;
    while rest != {}
      invariant rest <= ids && Lists(rows, ids - rest)
    {
      var id :| id in rest;
      ghost var before := rows;
      rows, rest := rows + [id], rest - {id};
      assert forall x :: x in rows <==> x in before || x == id;
    }
  }

  /** A loop over a set takes one element from what is left to what is done. */
  lemma MoveOne<T>(rest: set<T>, done: set<T>, x: T)
    requires x in rest && rest !! done
    ensures (rest - {x}) !! (done + {x}) && (rest - {x}) + (done + {x}) == rest + done
    ensures |done + {x}| == |done| + 1
  {
  }
}
