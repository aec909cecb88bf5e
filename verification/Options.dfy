/** A value that may be absent, and what sets and sequences of ids share:
    their extremes, their ends, and having no repeats. */
module Options {
  datatype Option<T> = None | Some(value: T)

  // ---- Sets ----------------------------------------------------------------------

  ghost predicate IsMax(s: set<nat>, m: nat) {
    m in s && forall x :: x in s ==> x <= m
  }

  lemma {:induction false} MaxExists(s: set<nat>)
    requires s != {}
    ensures exists m :: IsMax(s, m)
    decreases |s|
  {
    var x :| x in s;
    if s == {x} {
      assert IsMax(s, x);
    } else {
      var rest := s - {x};
      assert s == rest + {x};
      MaxExists(rest);
      var m :| IsMax(rest, m);
      var top := if x > m then x else m;
      forall y | y in s ensures y <= top {
        assert y == x || y in rest;
      }
      assert IsMax(s, top);
    }
  }

  function Max(s: set<nat>): (m: nat)
    requires s != {}
    ensures IsMax(s, m)
  {
    MaxExists(s);
    var m :| m in s && forall x :: x in s ==> x <= m;
    m
  }

  /** A part of a set is no larger, and as large only when it is the whole. */
  lemma SubsetSize<T>(a: set<T>, b: set<T>)
    requires a <= b
    ensures |a| <= |b| && (|a| == |b| <==> a == b)
  {
    assert b == a + (b - a);
  }

  // ---- Sequences ------------------------------------------------------------------

  ghost predicate Distinct<T>(s: seq<T>) {
    forall j, k :: 0 <= j < k < |s| ==> s[j] != s[k]
  }

  ghost predicate Increasing(s: seq<nat>) {
    forall j, k :: 0 <= j < k < |s| ==> s[j] < s[k]
  }

  lemma {:induction false} OnceEach<T>(s: seq<T>, x: T)
    requires Distinct(s)
    ensures multiset(s)[x] == if x in s then 1 else 0
  {
    if |s| > 0 {
      var init, last := s[..|s| - 1], s[|s| - 1];
      OnceEach(init, x);
      assert s == init + [last];
    }
  }

  lemma AppendMax(all: seq<nat>, m: nat)
    requires Increasing(all) && forall x :: x in all ==> x < m
    ensures Increasing(all + [m])
  {
    forall k | 0 <= k < |all| ensures all[k] < m {
      assert all[k] in all;
    }
  }

  /** The ids of a set, oldest first. */
  function Ascending(s: set<nat>): (all: seq<nat>)
    ensures forall x :: x in all <==> x in s
    ensures |all| == |s|
    ensures Increasing(all)
    decreases |s|
  {
    if s == {} then []
    else
      var m := Max(s);
      AppendMax(Ascending(s - {m}), m);
      Ascending(s - {m}) + [m]
  }

  /** The first of a sequence, at most limit of them. */
  function FirstOf<T>(limit: nat, all: seq<T>): (some: seq<T>)
    ensures |some| == if |all| < limit then |all| else limit
    ensures forall k :: 0 <= k < |some| ==> some[k] == all[k]
  {
    if |all| <= limit then all else all[..limit]
  }

  /** The last of a sequence, at most limit of them. */
  function LastOf<T>(limit: nat, all: seq<T>): (some: seq<T>)
    ensures |some| == if |all| < limit then |all| else limit
    ensures forall k :: 0 <= k < |some| ==> some[k] == all[|all| - |some| + k]
  {
    if |all| <= limit then all else all[|all| - limit..]
  }

  lemma LastIs(all: seq<nat>, limit: nat)
    requires Increasing(all)
    ensures var ids := LastOf(limit, all);
            && Increasing(ids)
            && (forall id :: id in ids ==> id in all)
            && (forall id :: id in all ==> id in ids || (|ids| == limit && (limit > 0 ==> id < ids[0])))
  {
    hide LastOf;
    var ids := LastOf(limit, all);
    var skipped := |all| - |ids|;
    forall j, k | 0 <= j < k < |ids| ensures ids[j] < ids[k] {
      assert ids[j] == all[skipped + j] && ids[k] == all[skipped + k];
    }
    forall id | id in all ensures id in ids || (|ids| == limit && (limit > 0 ==> id < ids[0])) {
      var k :| 0 <= k < |all| && all[k] == id;
      if k >= skipped {
        assert ids[k - skipped] == id;
      } else if |ids| > 0 {
        assert ids[0] == all[skipped + 0];
      }
    }
    forall id | id in ids ensures id in all {
      var k :| 0 <= k < |ids| && ids[k] == id;
      assert all[skipped + k] == id;
    }
  }

  lemma FirstIs(all: seq<nat>, limit: nat)
    requires Increasing(all)
    ensures var ids := FirstOf(limit, all);
            && Increasing(ids)
            && (forall id :: id in ids ==> id in all)
            && (forall id :: id in all ==> id in ids || (|ids| == limit && (limit > 0 ==> id > ids[|ids| - 1])))
  {
    hide FirstOf;
    var ids := FirstOf(limit, all);
    forall id | id in all ensures id in ids || (|ids| == limit && (limit > 0 ==> id > ids[|ids| - 1])) {
      var k :| 0 <= k < |all| && all[k] == id;
      if k < |ids| {
        assert ids[k] == id;
      }
    }
    forall id | id in ids ensures id in all {
      var k :| 0 <= k < |ids| && ids[k] == id;
      assert all[k] == id;
    }
  }
}
