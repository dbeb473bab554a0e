// Sequence helpers shared by the tables of the store: selection (a WHERE
// clause) and primary-key predicates parameterised by a key function.
module Seqs {

  /** The elements of `s` that satisfy `p`, in their original order. */
  function Filter<T(==,!new)>(s: seq<T>, p: T -> bool): (r: seq<T>)
    ensures |r| <= |s|
    ensures forall x :: x in r <==> x in s && p(x)
  {
    if s == [] then []
    else if p(s[0]) then [s[0]] + Filter(s[1..], p)
    else Filter(s[1..], p)
  }

  /** No two positions of `rows` carry the same key (a primary key). */
  predicate KeysUnique<T, K(==)>(rows: seq<T>, key: T -> K) {
    forall i, j :: 0 <= i < j < |rows| ==> key(rows[i]) != key(rows[j])
  }

  /** Every key is a positive id strictly below the table's auto-increment counter. */
  predicate KeysBelow<T(==,!new)>(rows: seq<T>, key: T -> nat, next: nat) {
    forall x :: x in rows ==> 0 < key(x) < next
  }

  /** Selecting rows keeps the keys unique. */
  lemma {:induction false} FilterKeysUnique<T(!new), K>(s: seq<T>, p: T -> bool, key: T -> K)
    requires KeysUnique(s, key)
    ensures KeysUnique(Filter(s, p), key)
  {
    if s != [] {
      var tail := s[1..];
      assert KeysUnique(tail, key) by {
        forall i, j | 0 <= i < j < |tail| ensures key(tail[i]) != key(tail[j]) {
          assert tail[i] == s[i + 1] && tail[j] == s[j + 1];
        }
      }
      FilterKeysUnique(tail, p, key);
      var rest := Filter(tail, p);
      if p(s[0]) {
        forall y | y in rest ensures key(y) != key(s[0]) {
          var j :| 0 <= j < |tail| && tail[j] == y;
          assert s[j + 1] == y;
        }
        var r := [s[0]] + rest;
        assert Filter(s, p) == r;
        forall i, j | 0 <= i < j < |r| ensures key(r[i]) != key(r[j]) {
          if i == 0 {
            assert r[j] == rest[j - 1] && rest[j - 1] in rest;
          } else {
            assert r[i] == rest[i - 1] && r[j] == rest[j - 1];
          }
        }
      }
    }
  }

  /** Appending a row whose key no existing row has keeps the keys unique. */
  lemma AppendKeysUnique<T(!new), K>(rows: seq<T>, key: T -> K, x: T)
    requires KeysUnique(rows, key)
    requires forall y :: y in rows ==> key(y) != key(x)
    ensures KeysUnique(rows + [x], key)
  {
    var r := rows + [x];
    forall i, j | 0 <= i < j < |r| ensures key(r[i]) != key(r[j]) {
      if j == |rows| {
        assert r[i] == rows[i] && rows[i] in rows;
      } else {
        assert r[i] == rows[i] && r[j] == rows[j];
      }
    }
  }

  /** Appending a row that takes the counter's value as its id keeps the table's
      keys unique and below the incremented counter: an auto-increment id is fresh. */
  lemma AppendFresh<T(!new)>(rows: seq<T>, key: T -> nat, next: nat, x: T)
    requires KeysUnique(rows, key) && KeysBelow(rows, key, next)
    requires key(x) == next && 0 < next
    ensures forall y :: y in rows ==> key(y) != key(x)
    ensures KeysUnique(rows + [x], key) && KeysBelow(rows + [x], key, next + 1)
  {
    AppendKeysUnique(rows, key, x);
  }
}
