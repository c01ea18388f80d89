/** The grouping of input lines by the raw order id in column 32, as a
    pandas `groupby` with its defaults does it: keys compared as they are,
    groups in ascending key order, lines with a null key dropped, lines in
    input order within a group. */
module Grouping {
  import opened Wrappers
  import opened Records

  /** The lines sharing one order id. */
  datatype OrderGroup = OrderGroup(orderId: string, lines: seq<Row>)

  /** Every line has an order id column. */
  predicate Keyed(rows: seq<Row>) {
    forall r :: r in rows ==> |r| > OrderIdColumn
  }

  /** True when some line carries order id `k`. */
  ghost predicate HasKey(rows: seq<Row>, k: string)
    requires Keyed(rows)
  {
    exists j :: 0 <= j < |rows| && rows[j][OrderIdColumn] == Some(k)
  }

  /** Python's ordering of strings: lexicographic by code point. */
  predicate Less(a: string, b: string) {
    if a == [] then b != []
    else if b == [] then false
    else if a[0] != b[0] then a[0] < b[0]
    else Less(a[1..], b[1..])
  }

  lemma {:induction false} LessIrreflexive(a: string)
    ensures !Less(a, a)
  {
    if a != [] {
      LessIrreflexive(a[1..]);
    }
  }

  lemma {:induction false} LessTransitive(a: string, b: string, c: string)
    requires Less(a, b) && Less(b, c)
    ensures Less(a, c)
  {
    if a != [] && b != [] && c != [] && a[0] == b[0] && b[0] == c[0] {
      LessTransitive(a[1..], b[1..], c[1..]);
    }
  }

  lemma {:induction false} LessTotal(a: string, b: string)
    requires a != b
    ensures Less(a, b) || Less(b, a)
  {
    if a != [] && b != [] && a[0] == b[0] {
      assert a == [a[0]] + a[1..] && b == [b[0]] + b[1..];
      LessTotal(a[1..], b[1..]);
    }
  }

  /** Keys in strictly ascending order, hence without repetition. */
  ghost predicate Sorted(ks: seq<string>) {
    forall i, j :: 0 <= i < j < |ks| ==> Less(ks[i], ks[j])
  }

  /** `k` put into its place among the sorted keys `ks`, unless present. */
  function Insert(k: string, ks: seq<string>): (r: seq<string>)
    requires Sorted(ks)
    ensures Sorted(r)
    ensures forall x :: x in r <==> x == k || x in ks
  {
    if ks == [] then [k]
    else if k == ks[0] then ks
    else if Less(k, ks[0]) then
      assert forall j :: 0 <= j < |ks| ==> Less(k, ks[j]) by {
        forall j | 0 <= j < |ks| ensures Less(k, ks[j]) {
          if j > 0 { LessTransitive(k, ks[0], ks[j]); }
        }
      }
      [k] + ks
    else
      LessTotal(k, ks[0]);
      var rest := Insert(k, ks[1..]);
      assert forall x :: x in rest ==> Less(ks[0], x) by {
        forall x | x in rest ensures Less(ks[0], x) {
          if x != k {
            var j :| 0 <= j < |ks[1..]| && ks[1..][j] == x;
            assert ks[j + 1] == x;
          }
        }
      }
      assert ks == [ks[0]] + ks[1..];
      [ks[0]] + rest
  }

  /** The distinct non-null order ids of `rows`, in ascending order. */
  function Keys(rows: seq<Row>): (ks: seq<string>)
    requires Keyed(rows)
    ensures Sorted(ks)
  {
    if rows == [] then []
    else
      match rows[0][OrderIdColumn]
      case None => Keys(rows[1..])
      case Some(k) => Insert(k, Keys(rows[1..]))
  }

  /** The keys are exactly the order ids that occur. */
  lemma {:induction false} KeysExact(rows: seq<Row>)
    requires Keyed(rows)
    ensures forall k :: k in Keys(rows) <==> HasKey(rows, k)
  {
    if rows != [] {
      var tail := rows[1..];
      KeysExact(tail);
      forall k ensures HasKey(rows, k) <==> rows[0][OrderIdColumn] == Some(k) || HasKey(tail, k) {
        if HasKey(tail, k) {
          var j :| 0 <= j < |tail| && tail[j][OrderIdColumn] == Some(k);
          assert rows[j + 1] == tail[j];
        }
        if HasKey(rows, k) && rows[0][OrderIdColumn] != Some(k) {
          var j :| 0 <= j < |rows| && rows[j][OrderIdColumn] == Some(k);
          assert tail[j - 1] == rows[j];
        }
      }
    }
  }

  /** The lines whose order id is `key`, in input order. */
  function Filter(rows: seq<Row>, key: string): (ls: seq<Row>)
    requires Keyed(rows)
    ensures forall r :: r in ls ==> r in rows && r[OrderIdColumn] == Some(key)
    ensures HasKey(rows, key) ==> ls != []
  {
    if rows == [] then []
    else
      var rest := Filter(rows[1..], key);
      assert HasKey(rows, key) && rows[0][OrderIdColumn] != Some(key) ==> HasKey(rows[1..], key) by {
        if HasKey(rows, key) && rows[0][OrderIdColumn] != Some(key) {
          var j :| 0 <= j < |rows| && rows[j][OrderIdColumn] == Some(key);
          assert rows[1..][j - 1] == rows[j];
        }
      }
      if rows[0][OrderIdColumn] == Some(key) then [rows[0]] + rest else rest
  }

  /** Filtering keeps the input order: it distributes over concatenation. */
  lemma {:induction false} FilterAppend(a: seq<Row>, b: seq<Row>, key: string)
    requires Keyed(a) && Keyed(b)
    ensures Keyed(a + b) && Filter(a + b, key) == Filter(a, key) + Filter(b, key)
  {
    assert Keyed(a + b);
    if a == [] {
      assert a + b == b;
    } else {
      assert (a + b)[0] == a[0];
      assert (a + b)[1..] == a[1..] + b;
      FilterAppend(a[1..], b, key);
    }
  }

  /** A line is kept by the filter of its own order id. */
  lemma {:induction false} FilterKeeps(rows: seq<Row>, j: nat)
    requires Keyed(rows) && j < |rows| && rows[j][OrderIdColumn].Some?
    ensures rows[j] in Filter(rows, rows[j][OrderIdColumn].value)
  {
    if j > 0 {
      assert rows[1..][j - 1] == rows[j];
      FilterKeeps(rows[1..], j - 1);
    }
  }

  /** `input_df.groupby(input_df[32])`: one group per distinct non-null
      order id, keys ascending, each holding its lines in input order. */
  function Group(rows: seq<Row>): (gs: seq<OrderGroup>)
    requires Keyed(rows)
    ensures forall i, j :: 0 <= i < j < |gs| ==> Less(gs[i].orderId, gs[j].orderId)
    ensures forall k :: HasKey(rows, k) <==> exists i :: 0 <= i < |gs| && gs[i].orderId == k
    ensures forall i :: 0 <= i < |gs| ==> gs[i].lines != [] && gs[i].lines == Filter(rows, gs[i].orderId)
  {
    var ks := Keys(rows);
    KeysExact(rows);
    var gs := seq(|ks|, i requires 0 <= i < |ks| => OrderGroup(ks[i], Filter(rows, ks[i])));
    assert forall k :: k in ks <==> exists i :: 0 <= i < |gs| && gs[i].orderId == k by {
      forall k | k in ks ensures exists i :: 0 <= i < |gs| && gs[i].orderId == k {
        var i :| 0 <= i < |ks| && ks[i] == k;
        assert gs[i].orderId == k;
      }
    }
    gs
  }

  /** Every line with a non-null order id lands in the group of its id, and
      that group is the only one with that id; lines with a null id are in
      no group. */
  lemma GroupPartition(rows: seq<Row>, j: nat)
    requires Keyed(rows) && j < |rows|
    ensures var gs := Group(rows);
      match rows[j][OrderIdColumn]
      case None => forall i :: 0 <= i < |gs| ==> rows[j] !in gs[i].lines
      case Some(k) =>
        exists i :: (0 <= i < |gs| && gs[i].orderId == k && rows[j] in gs[i].lines
                     && forall i' :: 0 <= i' < |gs| && i' != i ==> gs[i'].orderId != k)
  {
    var gs := Group(rows);
    match rows[j][OrderIdColumn]
    case None =>
    case Some(k) =>
      assert HasKey(rows, k);
      var i :| 0 <= i < |gs| && gs[i].orderId == k;
      FilterKeeps(rows, j);
      forall i' | 0 <= i' < |gs| && i' != i ensures gs[i'].orderId != k {
        LessIrreflexive(k);
      }
  }
}
