/**
 * The orders the list routes ask SQLite for: `ORDER BY createdAt DESC` over
 * TEXT (byte-wise, see `Common.LexLe`) and `ORDER BY id DESC` over the
 * audit table's increasing row ids.
 */
module Ordering {
  import opened Common

  /** Non-increasing by `key`: every element sorts no earlier than the ones after it. */
  ghost predicate SortedDesc<T>(s: seq<T>, key: T -> string) {
    forall i, j :: 0 <= i < j < |s| ==> LexLe(key(s[j]), key(s[i]))
  }

  function InsertDesc<T(==)>(x: T, s: seq<T>, key: T -> string): (r: seq<T>)
    requires SortedDesc(s, key)
    ensures multiset(r) == multiset(s) + multiset{x}
    ensures SortedDesc(r, key)
    decreases |s|
  {
    if s == [] then [x]
    else if LexLe(key(s[0]), key(x)) then
      assert SortedDesc([x] + s, key) by {
        forall j | 0 <= j < |s| ensures LexLe(key(s[j]), key(x)) {
          if j > 0 { LexLeTransitive(key(s[j]), key(s[0]), key(x)); }
        }
      }
      assert s == [s[0]] + s[1..];
      [x] + s
    else
      var t := InsertDesc(x, s[1..], key);
      assert s == [s[0]] + s[1..];
      assert forall j :: 0 <= j < |t| ==> LexLe(key(t[j]), key(s[0])) by {
        forall j | 0 <= j < |t| ensures LexLe(key(t[j]), key(s[0])) {
          assert t[j] in multiset(t);
          if t[j] == x {
            LexLeTotal(key(s[0]), key(x));
          } else {
            assert t[j] in multiset(s[1..]);
            var k :| 0 <= k < |s[1..]| && s[1..][k] == t[j];
            assert s[k + 1] == t[j];
          }
        }
      }
      [s[0]] + t
  }

  /**
   * A non-increasing rearrangement of `s`. Among equal keys it keeps no
   * particular order, as SQLite promises none.
   */
  function SortDesc<T(==)>(s: seq<T>, key: T -> string): (r: seq<T>)
    ensures multiset(r) == multiset(s)
    ensures SortedDesc(r, key)
  {
    if s == [] then []
    else
      assert s == [s[0]] + s[1..];
      InsertDesc(s[0], SortDesc(s[1..], key), key)
  }

  function Reverse<T>(s: seq<T>): (r: seq<T>)
    ensures |r| == |s|
    ensures forall k :: 0 <= k < |s| ==> r[k] == s[|s| - 1 - k]
  {
    if s == [] then [] else Reverse(s[1..]) + [s[0]]
  }

  function Min(a: int, b: int): int {
    if a < b then a else b
  }
}
