/** Options, identifiers and the sorted key lists used throughout the model. */
module Common {

  datatype Option<+T> = None | Some(value: T)

  /** Client action ids are free text. Two forms of text are the heartbeat's, but anybody may
      send them. */
  datatype ActionId = Text(n: nat) | TimeoutOf(target: PlayerId, deadline: int) | ReopenOf(target: PlayerId, cooldown: int)

  /** Player ids are compared for equality and sorted; nothing else is done with them. */
  type PlayerId = nat

  function SetOf<T>(s: seq<T>): set<T> {
    set x | x in s
  }

  ghost predicate Increasing(s: seq<nat>) {
    forall i, j :: 0 <= i < j < |s| ==> s[i] < s[j]
  }

  predicate NoDup<T(==)>(s: seq<T>) {
    forall i, j :: 0 <= i < j < |s| ==> s[i] != s[j]
  }

  lemma {:induction false} LeastExists(s: set<nat>)
    requires s != {}
    ensures exists m :: m in s && forall x | x in s :: m <= x
  {
    var a :| a in s;
    var rest := s - {a};
    if rest == {} {
      assert forall x | x in s :: a <= x by {
        forall x | x in s ensures a <= x { assert x == a || x in rest; }
      }
    } else {
      LeastExists(rest);
      var m :| m in rest && forall x | x in rest :: m <= x;
      var least := if a <= m then a else m;
      assert forall x | x in s :: least <= x by {
        forall x | x in s ensures least <= x { assert x == a || x in rest; }
      }
      assert least in s;
    }
  }

  function Least(s: set<nat>): (m: nat)
    requires s != {}
    ensures m in s && forall x | x in s :: m <= x
  {
    LeastExists(s);
    var m :| m in s && forall x | x in s :: m <= x;
    m
  }

  /** The keys of a map in the order sort.Strings gives them. */
  function SortedIds(s: set<nat>): (r: seq<nat>)
    ensures Increasing(r)
    ensures SetOf(r) == s
  {
    if s == {} then []
    else
      var m := Least(s);
      var rest := SortedIds(s - {m});
      assert forall x | x in rest :: x in SetOf(rest);
      assert SetOf([m] + rest) == s by {
        assert forall x :: x in [m] + rest <==> x == m || x in rest;
        assert forall x :: x in SetOf(rest) <==> x in rest;
      }
      [m] + rest
  }

  lemma IncreasingIsNoDup(s: seq<nat>)
    requires Increasing(s)
    ensures NoDup(s)
  {}

  /** A duplicate-free list is as long as its set of elements. */
  lemma {:induction false} NoDupLength<T>(s: seq<T>)
    requires NoDup(s)
    ensures |SetOf(s)| == |s|
  {
    if s == [] {
      assert SetOf(s) == {};
    } else {
      var n := |s| - 1;
      NoDupLength(s[..n]);
      assert s == s[..n] + [s[n]];
      assert SetOf(s) == SetOf(s[..n]) + {s[n]} by {
        assert forall x :: x in s <==> x in s[..n] || x == s[n];
      }
      assert s[n] !in SetOf(s[..n]);
    }
  }
}
