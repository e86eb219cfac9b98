/** SELECT ... ORDER BY, and the loop that fetches rows until the output is full. */
module Listing {
  predicate IsLeast(m: int, ns: set<int>) {
    m in ns && forall n :: n in ns ==> m <= n
  }

  lemma {:induction false} LeastExists(ns: set<int>)
    requires ns != {}
    ensures exists m :: IsLeast(m, ns)
    decreases |ns|
  {
    assert (forall x :: x !in ns) ==> ns == {};
    var x :| x in ns;
    if ns == {x} {
      assert IsLeast(x, ns);
    } else {
      LeastExists(ns - {x});
      var m :| IsLeast(m, ns - {x});
      var k := if x < m then x else m;
      assert forall n :: n in ns ==> n == x || n in ns - {x};
      assert IsLeast(k, ns);
    }
  }

  function Least(ns: set<int>): (m: int)
    requires ns != {}
    ensures IsLeast(m, ns)
  {
    LeastExists(ns);
    var m :| IsLeast(m, ns);
    m
  }

  /** The numbers in ascending order. */
  function Ascending(ns: set<int>): seq<int>
    decreases |ns|
  {
    if ns == {} then []
    else [Least(ns)] + Ascending(ns - {Least(ns)})
  }

  lemma {:induction false} AscendingIsListing(ns: set<int>)
    ensures var q := Ascending(ns);
            && |q| == |ns| && (forall n :: n in q <==> n in ns)
            && forall i, j :: 0 <= i < j < |q| ==> q[i] < q[j]
    decreases |ns|
  {
    if ns != {} {
      var m := Least(ns);
      var q := Ascending(ns - {m});
      AscendingIsListing(ns - {m});
      assert Ascending(ns) == [m] + q;
      hide Ascending, Least;
      assert forall i :: 0 <= i < |q| ==> q[i] in q && m < q[i];
    }
  }

  function FirstOf(ns: set<int>, max: nat): seq<int> {
    var q := Ascending(ns);
    if |q| <= max then q else q[..max]
  }

  lemma InPrefix(q: seq<int>, max: nat, j: nat)
    requires j < max <= |q|
    ensures q[j] in q[..max]
  {
    assert q[..max][j] == q[j];
  }

  /** A place in the cut listing is before a place that was cut off. */
  lemma InFront(q: seq<int>, max: nat, i: nat, j: nat)
    requires i < max <= |q| && j < |q| && (forall k, l :: 0 <= k < l < |q| ==> q[k] < q[l])
    requires q[j] !in q[..max]
    ensures q[i] < q[j]
  {
    if j < max {
      InPrefix(q, max, j);
    }
  }

  /** The listing has as many numbers as fit, each once and in ascending order, all of them from the
      set, and below everything it leaves out. */
  lemma FirstOnes(ns: set<int>, max: nat)
    ensures var out := FirstOf(ns, max);
            && |out| == (if |ns| <= max then |ns| else max)
            && (forall n :: n in out ==> n in ns)
            && (forall i, j :: 0 <= i < j < |out| ==> out[i] < out[j])
            && (forall m, n :: m in out && n in ns && n !in out ==> m < n)
  {
    var q := Ascending(ns);
    AscendingIsListing(ns);
    hide Ascending;
    if |q| > max {
      forall m, n | m in q[..max] && n in ns && n !in q[..max]
        ensures m < n
      {
        var i :| 0 <= i < max && q[..max][i] == m;
        var j :| 0 <= j < |q| && q[j] == n;
        InFront(q, max, i, j);
      }
    }
  }

  /** while (*out_count < max && sqlite3_step(stmt) == SQLITE_ROW) */
  method Fetch(ns: set<int>, max: nat) returns (out: seq<int>)
    ensures out == FirstOf(ns, max)
  {
    var cursor := Ascending(ns);
    hide Ascending;
    var count: nat := 0;
    out := [];
    while count < max && count < |cursor|
      invariant count <= |cursor| && count <= max && out == cursor[..count]
    {
      assert cursor[..count + 1] == cursor[..count] + [cursor[count]];
      out := out + [cursor[count]];
      count := count + 1;
    }
  }
}
