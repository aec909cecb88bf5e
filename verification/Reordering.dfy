/** reorderedIDs: a space's channels in the order a request asks for. */
module Reordering {
  import opened Options

  type Id = nat

  datatype Listed = Listed(id: Id, joined: bool)

  function Ids(rows: seq<Listed>): (ids: seq<Id>)
    ensures |ids| == |rows| && forall k :: 0 <= k < |rows| ==> ids[k] == rows[k].id
  {
    seq(|rows|, k requires 0 <= k < |rows| => rows[k].id)
  }

  /** The request names channels of the space, each once, and every one its
      caller has joined. */
  ghost predicate Acceptable(rows: seq<Listed>, requested: seq<Id>) {
    && Distinct(requested)
    && (forall id :: id in requested ==> id in Ids(rows))
    && forall k :: 0 <= k < |rows| && rows[k].joined ==> rows[k].id in requested
  }

  /** The ids of `order` that the request names, in the order they stand. */
  function Named(order: seq<Id>, requested: seq<Id>): seq<Id> {
    if |order| == 0 then []
    else
      var last := order[|order| - 1];
      Named(order[..|order| - 1], requested) + if last in requested then [last] else []
  }

  function Elements(ids: seq<Id>): set<Id> {
    set id | id in ids
  }

  lemma {:induction false} CountDistinct(ids: seq<Id>)
    requires Distinct(ids)
    ensures |Elements(ids)| == |ids|
  {
    if |ids| > 0 {
      var init, last := ids[..|ids| - 1], ids[|ids| - 1];
      CountDistinct(init);
      assert Elements(ids) == Elements(init) + {last};
      assert last !in Elements(init);
    }
  }

  lemma {:induction false} SameElements(a: seq<Id>, b: seq<Id>)
    requires Distinct(a) && Distinct(b) && Elements(a) == Elements(b)
    ensures multiset(a) == multiset(b)
  {
    forall id ensures multiset(a)[id] == multiset(b)[id] {
      OnceEach(a, id);
      OnceEach(b, id);
      assert id in Elements(a) <==> id in Elements(b);
    }
  }

  /** The named among the first n rows. */
  function NamedRows(rows: seq<Listed>, requested: seq<Id>, n: nat): set<Id>
    requires n <= |rows|
  {
    set k | 0 <= k < n && rows[k].id in requested :: rows[k].id
  }

  lemma NamedMore(rows: seq<Listed>, requested: seq<Id>, n: nat)
    requires n < |rows| && Distinct(Ids(rows))
    ensures var id := rows[n].id;
            && id !in NamedRows(rows, requested, n)
            && NamedRows(rows, requested, n + 1)
               == NamedRows(rows, requested, n) + if id in requested then {id} else {}
  {
    assert forall k :: 0 <= k < n ==> Ids(rows)[k] != Ids(rows)[n];
  }

  lemma NamedFit(rows: seq<Listed>, requested: seq<Id>, n: nat)
    requires n <= |rows| && Distinct(requested)
    ensures |NamedRows(rows, requested, n)| <= |requested|
    ensures n == |rows| && (forall id :: id in requested ==> id in Ids(rows)) ==>
      |NamedRows(rows, requested, n)| == |requested|
  {
    CountDistinct(requested);
    SubsetSize(NamedRows(rows, requested, n), Elements(requested));
    if n == |rows| && forall id :: id in requested ==> id in Ids(rows) {
      forall id | id in requested ensures id in NamedRows(rows, requested, n) {
        var k :| 0 <= k < |rows| && Ids(rows)[k] == id;
        assert rows[k].id in requested;
      }
      assert NamedRows(rows, requested, n) == Elements(requested);
    }
  }

  /** What the first n places of the new order hold. */
  ghost predicate Placed(rows: seq<Listed>, requested: seq<Id>, order: seq<Id>, next: nat) {
    && |order| <= |rows| && next <= |requested|
    && Distinct(order)
    && (forall k :: 0 <= k < |order| ==>
          if rows[k].id in requested then order[k] in requested[..next] else order[k] == rows[k].id)
    && Named(order, requested) == requested[..next]
  }

  lemma PlaceNext(rows: seq<Listed>, requested: seq<Id>, order: seq<Id>, next: nat)
    requires Placed(rows, requested, order, next) && |order| < |rows|
    requires Distinct(Ids(rows)) && Distinct(requested)
    requires rows[|order|].id in requested ==> next < |requested|
    ensures var n := |order|;
            if rows[n].id in requested then Placed(rows, requested, order + [requested[next]], next + 1)
            else Placed(rows, requested, order + [rows[n].id], next)
  {
    var n := |order|;
    var named := rows[n].id in requested;
    var id := if named then requested[next] else rows[n].id;
    var longer := order + [id];
    assert longer[..n] == order;
    assert Ids(rows)[n] == rows[n].id;
    forall k | 0 <= k < n ensures order[k] != id {
      assert Ids(rows)[k] != Ids(rows)[n];
    }
    if named {
      assert requested[..next + 1] == requested[..next] + [id];
    }
  }

  /** The answer is a permutation of the space's channels in which the named
      ones stand in the requested order and every other keeps its place. */
  ghost predicate IsReordering(rows: seq<Listed>, requested: seq<Id>, order: seq<Id>) {
    && multiset(order) == multiset(Ids(rows)) && |order| == |rows|
    && Named(order, requested) == requested
    && forall k :: 0 <= k < |rows| && rows[k].id !in requested ==> order[k] == rows[k].id
  }

  lemma PlacedAll(rows: seq<Listed>, requested: seq<Id>, order: seq<Id>)
    requires Placed(rows, requested, order, |requested|) && |order| == |rows|
    requires Distinct(Ids(rows)) && forall id :: id in requested ==> id in Ids(rows)
    ensures IsReordering(rows, requested, order)
  {
    assert requested[..|requested|] == requested;
    forall k | 0 <= k < |order| ensures order[k] in Elements(Ids(rows)) {
      assert Ids(rows)[k] == rows[k].id;
      assert order[k] in requested || order[k] == rows[k].id;
    }
    CountDistinct(order);
    CountDistinct(Ids(rows));
    SubsetSize(Elements(order), Elements(Ids(rows)));
    SameElements(order, Ids(rows));
  }

  /** Exactly the acceptable requests are granted. */
  method ReorderedIds(rows: seq<Listed>, requested: seq<Id>) returns (answer: Option<seq<Id>>)
    requires Distinct(Ids(rows))
    ensures answer.Some? <==> Acceptable(rows, requested)
    ensures answer.Some? ==> IsReordering(rows, requested, answer.value)
  {
    hide Named, IsReordering, NamedRows;
    var known := set k | 0 <= k < |rows| :: rows[k].id;
    assert forall id :: id in known <==> id in Ids(rows) by {
      forall id | id in Ids(rows) ensures id in known {
        var k :| 0 <= k < |rows| && Ids(rows)[k] == id;
        assert rows[k].id == id;
      }
      assert forall id | id in known :: id in Ids(rows) by {
        forall k | 0 <= k < |rows| ensures rows[k].id in Ids(rows) {
          assert Ids(rows)[k] == rows[k].id;
        }
      }
    }
    var named: set<Id> := {};
    for k := 0 to |requested|
      invariant named == Elements(requested[..k]) && named <= known && Distinct(requested[..k])
    {
      var id := requested[k];
      assert requested[..k + 1] == requested[..k] + [id];
      if id !in known || id in named {
        return None;
      }
      named := named + {id};
    }
    assert requested[..|requested|] == requested;
    var order := new Id[|rows|];
    var next := 0;
    StartPlaced(rows, requested);
    for index := 0 to |rows|
      invariant Placed(rows, requested, order[..index], next)
      invariant next == |NamedRows(rows, requested, index)|
      invariant forall k :: 0 <= k < index && rows[k].joined ==> rows[k].id in requested
    {
      var id := rows[index].id;
      NamedMore(rows, requested, index);
      NamedFit(rows, requested, index + 1);
      PlaceNext(rows, requested, order[..index], next);
      if id !in named {
        if rows[index].joined {
          return None;
        }
        order[index] := id;
      } else {
        order[index] := requested[next];
        next := next + 1;
      }
      assert order[..index + 1] == order[..index] + [order[index]];
    }
    NamedFit(rows, requested, |rows|);
    assert order[..|rows|] == order[..];
    PlacedAll(rows, requested, order[..]);
    return Some(order[..]);
  }

  lemma StartPlaced(rows: seq<Listed>, requested: seq<Id>)
    ensures Placed(rows, requested, [], 0) && NamedRows(rows, requested, 0) == {}
  {
  }
}
