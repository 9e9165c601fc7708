/** Small vocabulary shared by the models: options, string joining, sorted keys. */
module Prelude {
  datatype Option<+T> = None | Some(value: T) {
    function GetOr(default: T): T {
      match this
      case Some(v) => v
      case None => default
    }
  }

  /** `"".join(parts)`. */
  function Join(parts: seq<string>): string {
    if parts == [] then "" else Join(parts[..|parts| - 1]) + parts[|parts| - 1]
  }

  lemma JoinSnoc(parts: seq<string>, s: string)
    ensures Join(parts + [s]) == Join(parts) + s
  {
    assert (parts + [s])[..|parts|] == parts;
  }

  /** Flattening of a sequence of sequences, by its last element. */
  function Concat<T>(parts: seq<seq<T>>): seq<T> {
    if parts == [] then [] else Concat(parts[..|parts| - 1]) + parts[|parts| - 1]
  }

  lemma ConcatSnoc<T>(parts: seq<seq<T>>, p: seq<T>)
    ensures Concat(parts + [p]) == Concat(parts) + p
  {
    assert (parts + [p])[..|parts|] == parts;
  }

  lemma {:induction false} ConcatAppend<T>(a: seq<seq<T>>, b: seq<seq<T>>)
    ensures Concat(a + b) == Concat(a) + Concat(b)
  {
    if b == [] {
      assert a + b == a;
    } else {
      var i := b[..|b| - 1];
      assert a + b == (a + i) + [b[|b| - 1]];
      ConcatSnoc(a + i, b[|b| - 1]);
      ConcatAppend(a, i);
    }
  }

  ghost predicate Ascending(q: seq<int>) {
    forall i, j :: 0 <= i < j < |q| ==> q[i] < q[j]
  }

  lemma HasElement(s: set<int>)
    requires s != {}
    ensures exists x :: x in s
  {
    if forall x :: x !in s { assert false; }
  }

  /** Extensionality for sets of integers, pointwise. */
  lemma SameInts(a: set<int>, b: set<int>)
    requires forall x :: x in a ==> x in b
    requires forall x :: x in b ==> x in a
    ensures a == b
  {
    if a - b != {} { HasElement(a - b); }
    if b - a != {} { HasElement(b - a); }
    assert a <= b && b <= a;
  }

  ghost predicate IsMinimum(m: int, s: set<int>) {
    m in s && forall y :: y in s ==> m <= y
  }

  lemma HasMinimum(s: set<int>)
    requires s != {}
    ensures exists m :: IsMinimum(m, s)
  {
    HasElement(s);
    var m :| m in s;
    var t := s - {m};
    if t == {} {
      assert forall y :: y in s ==> y == m || y in t;
      assert IsMinimum(m, s);
    } else {
      HasMinimum(t);
      var k :| IsMinimum(k, t);
      assert forall y :: y in s ==> y == m || y in t;
      assert IsMinimum(if k < m then k else m, s);
    }
  }

  /** `sorted(s)` for a set of integer keys. */
  function SortedSet(s: set<int>): seq<int> {
    if s == {} then []
    else
      HasMinimum(s);
      assert exists m :: m in s && forall y :: y in s ==> m <= y by {
        var m :| IsMinimum(m, s);
      }
      var m :| m in s && forall y :: y in s ==> m <= y;
      [m] + SortedSet(s - {m})
  }

  lemma SortedSetHead(s: set<int>, m: int)
    requires IsMinimum(m, s)
    ensures SortedSet(s) == [m] + SortedSet(s - {m})
  {
    var q := SortedSet(s);
    assert q[0] in s && forall y :: y in s ==> q[0] <= y;
    assert q[0] == m;
  }

  /** The elements of a sequence. */
  function Members(q: seq<int>): set<int> {
    if q == [] then {} else Members(q[..|q| - 1]) + {q[|q| - 1]}
  }

  lemma MembersSnoc(q: seq<int>, x: int)
    ensures Members(q + [x]) == Members(q) + {x}
  {
    assert (q + [x])[..|q|] == q;
  }

  lemma {:induction false} MembersAt(q: seq<int>)
    ensures forall k :: 0 <= k < |q| ==> q[k] in Members(q)
  {
    if q != [] {
      MembersAt(q[..|q| - 1]);
      assert forall k :: 0 <= k < |q| - 1 ==> q[k] == q[..|q| - 1][k];
    }
  }

  lemma {:induction false} MembersHead(q: seq<int>)
    requires q != []
    ensures Members(q) == {q[0]} + Members(q[1..])
  {
    if |q| == 1 {
      assert q[..0] == [] && q[1..] == [];
    } else {
      var init := q[..|q| - 1];
      MembersHead(init);
      assert q[1..][..|q| - 2] == init[1..];
    }
  }

  lemma {:induction false} AscendingMembers(q: seq<int>, low: int)
    requires Ascending(q) && (q != [] ==> low <= q[0])
    ensures forall x :: x in Members(q) ==> low <= x
  {
    if q != [] { AscendingMembers(q[..|q| - 1], low); }
  }

  /** An ascending listing of a set is the sorted one: sorting has one answer. */
  lemma {:induction false} SortedSetUnique(q: seq<int>)
    requires Ascending(q)
    ensures SortedSet(Members(q)) == q
  {
    if q != [] {
      var rest := q[1..];
      MembersHead(q);
      AscendingMembers(rest, q[0] + 1);
      SortedSetHead(Members(q), q[0]);
      assert Members(q) - {q[0]} == Members(rest);
      SortedSetUnique(rest);
      assert q == [q[0]] + rest;
    }
  }
}
