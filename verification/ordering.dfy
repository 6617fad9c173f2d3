/**
 * `findMany({ orderBy: { field: "asc" } })`: the rows of a table, ascending by one string
 * column, under code-point (binary) collation. Ties come out in an order the database does
 * not promise, and the model promises none either.
 */
module Ordering {
  import opened Text

  /** Ascending by `key`, characters compared by code point (`Text.Below`). */
  predicate Sorted<T>(s: seq<T>, key: T -> string) {
    forall i, j :: 0 <= i < j < |s| ==> Below(key(s[i]), key(s[j]))
  }

  /** Places `x` after every element ordered strictly before it. */
  function InsertSorted<T>(s: seq<T>, x: T, key: T -> string): (r: seq<T>)
    requires Sorted(s, key)
    ensures Sorted(r, key)
    ensures multiset(r) == multiset(s) + multiset{x}
  {
    if s == [] then [x]
    else if Below(key(x), key(s[0])) then
      forall j | 0 < j < |s| ensures Below(key(x), key(s[j])) {
        BelowTransitive(key(x), key(s[0]), key(s[j]));
      }
      [x] + s
    else
      var rest := InsertSorted(s[1..], x, key);
      BelowTotal(key(x), key(s[0]));
      assert s == [s[0]] + s[1..];
      forall j | 0 <= j < |rest| ensures Below(key(s[0]), key(rest[j])) {
        assert rest[j] in multiset(rest);
      }
      [s[0]] + rest
  }

  /**
   * The values of a table keyed by id, listed ascending by `key`: every row exactly once
   * (each row carries its own id, so rows are pairwise distinct).
   */
  method SortedRows<T>(table: map<string, T>, key: T -> string) returns (rows: seq<T>)
    ensures Sorted(rows, key)
    ensures |rows| == |table|
    ensures forall id :: id in table ==> table[id] in rows
    ensures forall i :: 0 <= i < |rows| ==> exists id :: id in table && table[id] == rows[i]
  {
    rows := [];
    var pending := table.Keys;
    while pending != {}
      invariant pending <= table.Keys
      invariant Sorted(rows, key)
      invariant |rows| + |pending| == |table|
      invariant forall id :: id in table && id !in pending ==> table[id] in rows
      invariant forall i :: 0 <= i < |rows| ==>
                  exists id :: id in table && id !in pending && table[id] == rows[i]
      decreases |pending|
    {
      var id :| id in pending;
      var next := InsertSorted(rows, table[id], key);
      forall i | 0 <= i < |next|
        ensures exists k :: k in table && k !in pending - {id} && table[k] == next[i]
      {
        assert next[i] in multiset(next);
        if next[i] != table[id] {
          assert next[i] in rows;
        }
      }
      forall k | k in table && k !in pending - {id} ensures table[k] in next {
        assert table[k] in multiset(next);
      }
      rows, pending := next, pending - {id};
    }
  }
}
