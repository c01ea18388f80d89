/** The collect phase (app.py:20-56) as functions: one output row per order,
    built from its first line, merchandise slots filled from its lines, and
    an error item for every line whose product name is missing. ScanFrom and
    CollectFrom follow the source loops step by step, so that the loops can
    be proved against them; SlotRow, MissingItems, ReadyRows and PendingItems
    are the independent description they are proved equal to. */
module Collect {
  import opened Wrappers
  import opened Records
  import opened Grouping

  /** A line whose product name must be supplied: its order id, its product
      code, its position in the order, and a copy of the order's output row
      as it stood when the line was reached. */
  datatype ErrorItem = ErrorItem(orderId: string, productCode: string, index: nat, row: seq<string>)

  /** Every snapshot row is wide enough to hold both merchandise slots. */
  predicate SnapshotsWide(items: seq<ErrorItem>) {
    forall e :: e in items ==> |e.row| >= MinWidth
  }

  /** Every line has at least the converter's minimum width. */
  predicate Wide(lines: seq<Row>) {
    forall l :: l in lines ==> |l| >= MinWidth
  }

  /** The product code and product name of one line, stripped, "" for null
      (app.py:33-34). */
  datatype Merchandise = Merchandise(code: string, name: string)

  function MerchandiseOf(line: Row): Merchandise
    requires |line| >= MinWidth
  {
    Merchandise(Field(line[CodeColumn]), Field(line[NameColumn]))
  }

  /** The merchandise of every line of an order, in line order. */
  function Merchandises(lines: seq<Row>): (ms: seq<Merchandise>)
    requires Wide(lines)
    ensures |ms| == |lines|
  {
    seq(|lines|, i requires 0 <= i < |lines| => assert lines[i] in lines; MerchandiseOf(lines[i]))
  }

  /** True when line `j` carries a product name. */
  predicate Named(ms: seq<Merchandise>, j: nat)
    requires j < |ms|
  {
    !IsMissingName(ms[j].name)
  }

  /** The state of the scan of one order: its row, the session's error items,
      and whether a third named line raised. */
  datatype Scan = Scan(row: seq<string>, errors: seq<ErrorItem>, tooMany: bool)

  /** One iteration of the line loop (app.py:36-53) for the line at index `i`. */
  function ScanLine(orderId: string, s: Scan, m: Merchandise, i: nat): (s': Scan)
    requires |s.row| >= MinWidth
    ensures |s'.row| == |s.row|
  {
    if IsMissingName(m.name) then Scan(s.row, s.errors + [ErrorItem(orderId, m.code, i, s.row)], false)
    else if i == 0 then Scan(s.row[CodeColumn := m.code][NameColumn := m.name], s.errors, false)
    else if i == 1 then Scan(s.row[Code2Column := m.code][Name2Column := m.name], s.errors, false)
    else Scan(s.row, s.errors, true)
  }

  /** The line loop from index `i` on; it stops at the line that raises. */
  function ScanFrom(orderId: string, ms: seq<Merchandise>, i: nat, s: Scan): (s': Scan)
    requires i <= |ms| && |s.row| >= MinWidth
    ensures |s'.row| == |s.row|
    decreases |ms| - i
  {
    if i == |ms| then s
    else
      var s1 := ScanLine(orderId, s, ms[i], i);
      if s1.tooMany then s1 else ScanFrom(orderId, ms, i + 1, s1)
  }

  /** Groups fit for the collect loop: each non-empty, all lines of one width. */
  ghost predicate WellFormed(groups: seq<OrderGroup>, width: nat) {
    width >= MinWidth
    && forall g :: g in groups ==> g.lines != [] && forall l :: l in g.lines ==> |l| == width
  }

  lemma WellFormedAt(groups: seq<OrderGroup>, width: nat, k: nat)
    requires WellFormed(groups, width) && k < |groups|
    ensures groups[k].lines != [] && Wide(groups[k].lines) && |groups[k].lines[0]| == width
  {
    assert groups[k] in groups;
    assert groups[k].lines[0] in groups[k].lines;
  }

  /** The scan of a whole order, starting from the base copy of its first
      line and the session's error items. */
  function ScanGroup(g: OrderGroup, errors: seq<ErrorItem>): Scan
    requires g.lines != [] && Wide(g.lines)
  {
    assert g.lines[0] in g.lines;
    ScanFrom(g.orderId, Merchandises(g.lines), 0, Scan(BaseRow(g.lines[0]), errors, false))
  }

  /** True when the session already holds an error item for `orderId`. */
  predicate HasErrorFor(errors: seq<ErrorItem>, orderId: string) {
    exists e :: e in errors && e.orderId == orderId
  }

  /** The state of the group loop: the ready rows, the session's error
      items, and whether a ValueError was raised. */
  datatype Collected = Collected(ready: seq<seq<string>>, errors: seq<ErrorItem>, failed: bool)

  /** The group loop (app.py:21-56) from group `k` on. */
  function CollectFrom(groups: seq<OrderGroup>, width: nat, k: nat, c: Collected): (c': Collected)
    requires WellFormed(groups, width) && k <= |groups|
    decreases |groups| - k
  {
    if k == |groups| then c
    else
      WellFormedAt(groups, width, k);
      var g := groups[k];
      var s := ScanGroup(g, c.errors);
      if s.tooMany then Collected(c.ready, s.errors, true)
      else
        var ready := if HasErrorFor(s.errors, g.orderId) then c.ready else c.ready + [s.row];
        CollectFrom(groups, width, k + 1, Collected(ready, s.errors, false))
  }

  // ---------------------------------------------------------------------
  // The reference description of one order.

  /** The order's row once its first `k` lines are processed (SlotRowAt
      states it field by field). */
  function SlotRow(base: seq<string>, ms: seq<Merchandise>, k: nat): (r: seq<string>)
    requires |base| >= MinWidth && k <= |ms|
    ensures |r| == |base|
  {
    var r0 := if k > 0 && Named(ms, 0)
              then base[CodeColumn := ms[0].code][NameColumn := ms[0].name]
              else base;
    if k > 1 && Named(ms, 1)
    then r0[Code2Column := ms[1].code][Name2Column := ms[1].name]
    else r0
  }

  /** Slot 0 (columns 26/27) holds line 0's code and name when line 0 is
      named, slot 1 (columns 28/29) those of line 1 when line 1 is named;
      every other field, and an unfilled slot, is the base copy. */
  lemma SlotRowAt(base: seq<string>, ms: seq<Merchandise>, k: nat, c: nat)
    requires |base| >= MinWidth && k <= |ms| && c < |base|
    ensures SlotRow(base, ms, k)[c] ==
      if c == CodeColumn && k > 0 && Named(ms, 0) then ms[0].code
      else if c == NameColumn && k > 0 && Named(ms, 0) then ms[0].name
      else if c == Code2Column && k > 1 && Named(ms, 1) then ms[1].code
      else if c == Name2Column && k > 1 && Named(ms, 1) then ms[1].name
      else base[c]
  {
  }

  /** The error item line `i` contributes: one when its name is missing,
      holding the row as it stood when that line was reached. */
  function ItemAt(orderId: string, base: seq<string>, ms: seq<Merchandise>, i: nat): seq<ErrorItem>
    requires |base| >= MinWidth && i < |ms|
  {
    if Named(ms, i) then [] else [ErrorItem(orderId, ms[i].code, i, SlotRow(base, ms, i))]
  }

  /** One error item per line from `i` on whose name is missing, in line order. */
  function MissingItems(orderId: string, base: seq<string>, ms: seq<Merchandise>, i: nat): seq<ErrorItem>
    requires |base| >= MinWidth && i <= |ms|
    decreases |ms| - i
  {
    if i == |ms| then []
    else ItemAt(orderId, base, ms, i) + MissingItems(orderId, base, ms, i + 1)
  }

  /** Some line from `i` on, at index 2 or later, is named: the source raises. */
  predicate Overfull(ms: seq<Merchandise>, i: nat)
    requires i <= |ms|
    decreases |ms| - i
  {
    i < |ms| && ((i >= 2 && Named(ms, i)) || Overfull(ms, i + 1))
  }

  /** Every line from `i` on is named. */
  predicate AllNamed(ms: seq<Merchandise>, i: nat)
    requires i <= |ms|
    decreases |ms| - i
  {
    i == |ms| || (Named(ms, i) && AllNamed(ms, i + 1))
  }

  /** Overfull is the existence of a named line at index 2 or later. */
  lemma {:induction false} OverfullIff(ms: seq<Merchandise>, i: nat)
    requires i <= |ms|
    ensures Overfull(ms, i) <==> exists j :: i <= j < |ms| && j >= 2 && Named(ms, j)
    decreases |ms| - i
  {
    if i < |ms| {
      OverfullIff(ms, i + 1);
    }
  }

  /** AllNamed is the absence of an unnamed line. */
  lemma {:induction false} AllNamedIff(ms: seq<Merchandise>, i: nat)
    requires i <= |ms|
    ensures AllNamed(ms, i) <==> forall j :: i <= j < |ms| ==> Named(ms, j)
    decreases |ms| - i
  {
    if i < |ms| {
      AllNamedIff(ms, i + 1);
    }
  }

  /** The error items of one order all carry its order id and the width of
      its row, and there are none exactly when every line is named. */
  lemma {:induction false} MissingItemsShape(orderId: string, base: seq<string>, ms: seq<Merchandise>, i: nat)
    requires |base| >= MinWidth && i <= |ms|
    ensures forall e :: e in MissingItems(orderId, base, ms, i) ==> e.orderId == orderId && |e.row| == |base|
    ensures MissingItems(orderId, base, ms, i) == [] <==> AllNamed(ms, i)
    decreases |ms| - i
  {
    if i < |ms| {
      MissingItemsShape(orderId, base, ms, i + 1);
    }
  }

  /** One step of the scan agrees with the reference description. */
  lemma ScanLineSpec(orderId: string, base: seq<string>, ms: seq<Merchandise>, i: nat, errors: seq<ErrorItem>)
    requires |base| >= MinWidth && i < |ms|
    ensures var s := ScanLine(orderId, Scan(SlotRow(base, ms, i), errors, false), ms[i], i);
      && s.tooMany == (i >= 2 && Named(ms, i))
      && (!s.tooMany ==> s == Scan(SlotRow(base, ms, i + 1), errors + ItemAt(orderId, base, ms, i), false))
  {
  }

  /** The scan agrees with the reference description: it raises exactly
      when a line at index 2 or later is named, and otherwise ends with the
      slot row and one error item per unnamed line. */
  lemma {:induction false} ScanFromSpec(orderId: string, base: seq<string>, ms: seq<Merchandise>, i: nat, errors: seq<ErrorItem>)
    requires |base| >= MinWidth && i <= |ms|
    ensures var s := ScanFrom(orderId, ms, i, Scan(SlotRow(base, ms, i), errors, false));
      && s.tooMany == Overfull(ms, i)
      && (!s.tooMany ==> s.row == SlotRow(base, ms, |ms|)
                         && s.errors == errors + MissingItems(orderId, base, ms, i))
    decreases |ms| - i
  {
    if i < |ms| {
      var s0 := Scan(SlotRow(base, ms, i), errors, false);
      var s1 := ScanLine(orderId, s0, ms[i], i);
      ScanLineSpec(orderId, base, ms, i, errors);
      if !s1.tooMany {
        var errors' := errors + ItemAt(orderId, base, ms, i);
        assert s1 == Scan(SlotRow(base, ms, i + 1), errors', false);
        assert ScanFrom(orderId, ms, i, s0) == ScanFrom(orderId, ms, i + 1, s1);
        ScanFromSpec(orderId, base, ms, i + 1, errors');
        assert errors' + MissingItems(orderId, base, ms, i + 1) == errors + MissingItems(orderId, base, ms, i);
      }
    }
  }

  /** The scan, also when it raises, only appends to the session's error
      items, and every item it appends carries the order's id and a snapshot
      of the order's width. */
  lemma {:induction false} ScanFromWide(orderId: string, ms: seq<Merchandise>, i: nat, s: Scan)
    requires i <= |ms| && |s.row| >= MinWidth && SnapshotsWide(s.errors)
    ensures var r := ScanFrom(orderId, ms, i, s);
      && s.errors <= r.errors
      && (forall p :: |s.errors| <= p < |r.errors| ==> r.errors[p].orderId == orderId && |r.errors[p].row| == |s.row|)
      && SnapshotsWide(r.errors)
    decreases |ms| - i
  {
    if i < |ms| {
      var s1 := ScanLine(orderId, s, ms[i], i);
      assert s.errors <= s1.errors;
      assert SnapshotsWide(s1.errors);
      if !s1.tooMany {
        ScanFromWide(orderId, ms, i + 1, s1);
        var r := ScanFrom(orderId, ms, i + 1, s1);
        forall p | |s.errors| <= p < |r.errors|
          ensures r.errors[p].orderId == orderId && |r.errors[p].row| == |s.row|
        {
          if p < |s1.errors| {
            assert r.errors[p] == s1.errors[p];
          }
        }
      }
    }
  }

  /** The error items a scan from line `i` that raises leaves behind: one per
      unnamed line before the named line, at index 2 or later, that raises. */
  function RaisedItems(orderId: string, base: seq<string>, ms: seq<Merchandise>, i: nat): seq<ErrorItem>
    requires |base| >= MinWidth && i <= |ms| && Overfull(ms, i)
    decreases |ms| - i
  {
    if i >= 2 && Named(ms, i) then []
    else ItemAt(orderId, base, ms, i) + RaisedItems(orderId, base, ms, i + 1)
  }

  /** The items left by a raise are the first of those the order's lines
      would give without it. */
  lemma {:induction false} RaisedItemsPrefix(orderId: string, base: seq<string>, ms: seq<Merchandise>, i: nat)
    requires |base| >= MinWidth && i <= |ms| && Overfull(ms, i)
    ensures RaisedItems(orderId, base, ms, i) <= MissingItems(orderId, base, ms, i)
    decreases |ms| - i
  {
    if !(i >= 2 && Named(ms, i)) {
      RaisedItemsPrefix(orderId, base, ms, i + 1);
    }
  }

  /** A scan from line `i` that meets a named line at index 2 or later
      raises, and leaves in the session the earlier items followed by those
      of the unnamed lines it passed. */
  lemma {:induction false} ScanFromRaise(orderId: string, base: seq<string>, ms: seq<Merchandise>, i: nat, errors: seq<ErrorItem>)
    requires |base| >= MinWidth && i <= |ms| && Overfull(ms, i)
    ensures var s := ScanFrom(orderId, ms, i, Scan(SlotRow(base, ms, i), errors, false));
      s.tooMany && s.errors == errors + RaisedItems(orderId, base, ms, i)
    decreases |ms| - i
  {
    var s0 := Scan(SlotRow(base, ms, i), errors, false);
    var s1 := ScanLine(orderId, s0, ms[i], i);
    ScanLineSpec(orderId, base, ms, i, errors);
    if s1.tooMany {
      assert s1.errors == errors;
      assert errors + [] == errors;
    } else {
      var errors' := errors + ItemAt(orderId, base, ms, i);
      assert s1 == Scan(SlotRow(base, ms, i + 1), errors', false);
      assert ScanFrom(orderId, ms, i, s0) == ScanFrom(orderId, ms, i + 1, s1);
      ScanFromRaise(orderId, base, ms, i + 1, errors');
      assert errors' + RaisedItems(orderId, base, ms, i + 1) == errors + RaisedItems(orderId, base, ms, i);
    }
  }

  // ---------------------------------------------------------------------
  // The reference description of the whole collect phase.

  /** The row an order gets. */
  function GroupRow(g: OrderGroup): seq<string>
    requires g.lines != [] && Wide(g.lines)
  {
    assert g.lines[0] in g.lines;
    var ms := Merchandises(g.lines);
    SlotRow(BaseRow(g.lines[0]), ms, |ms|)
  }

  /** The error items an order produces. */
  function GroupErrors(g: OrderGroup): seq<ErrorItem>
    requires g.lines != [] && Wide(g.lines)
  {
    assert g.lines[0] in g.lines;
    MissingItems(g.orderId, BaseRow(g.lines[0]), Merchandises(g.lines), 0)
  }

  /** Every line of the order is named. */
  predicate Complete(g: OrderGroup)
    requires Wide(g.lines)
  {
    AllNamed(Merchandises(g.lines), 0)
  }

  /** The order has a named line at index 2 or later. */
  predicate TooManyItems(g: OrderGroup)
    requires Wide(g.lines)
  {
    Overfull(Merchandises(g.lines), 0)
  }

  /** The rows of the orders from `k` on whose lines are all named, in group order. */
  function ReadyRows(groups: seq<OrderGroup>, width: nat, k: nat): seq<seq<string>>
    requires WellFormed(groups, width) && k <= |groups|
    decreases |groups| - k
  {
    if k == |groups| then []
    else
      WellFormedAt(groups, width, k);
      (if Complete(groups[k]) then [GroupRow(groups[k])] else [])
      + ReadyRows(groups, width, k + 1)
  }

  /** The error items of the orders from `k` on, in group order. */
  function PendingItems(groups: seq<OrderGroup>, width: nat, k: nat): seq<ErrorItem>
    requires WellFormed(groups, width) && k <= |groups|
    decreases |groups| - k
  {
    if k == |groups| then []
    else
      WellFormedAt(groups, width, k);
      GroupErrors(groups[k]) + PendingItems(groups, width, k + 1)
  }

  /** Some order from `k` on has a named line at index 2 or later. */
  predicate AnyTooMany(groups: seq<OrderGroup>, width: nat, k: nat)
    requires WellFormed(groups, width) && k <= |groups|
    decreases |groups| - k
  {
    k < |groups| && (WellFormedAt(groups, width, k); TooManyItems(groups[k]) || AnyTooMany(groups, width, k + 1))
  }

  /** Every order from `k` on has all its lines named. */
  predicate AllComplete(groups: seq<OrderGroup>, width: nat, k: nat)
    requires WellFormed(groups, width) && k <= |groups|
    decreases |groups| - k
  {
    k == |groups| || (WellFormedAt(groups, width, k); Complete(groups[k]) && AllComplete(groups, width, k + 1))
  }

  /** The order ids of the groups are pairwise distinct. */
  ghost predicate DistinctIds(groups: seq<OrderGroup>) {
    forall i, j :: 0 <= i < j < |groups| ==> groups[i].orderId != groups[j].orderId
  }

  /** Adding one order's ready row and then those of the later orders is
      adding those of all orders from `k` on. */
  lemma ReadyRowsStep(groups: seq<OrderGroup>, width: nat, k: nat, ready: seq<seq<string>>)
    requires WellFormed(groups, width) && k < |groups|
    ensures groups[k].lines != [] && Wide(groups[k].lines)
    ensures (ready + (if Complete(groups[k]) then [GroupRow(groups[k])] else [])) + ReadyRows(groups, width, k + 1)
            == ready + ReadyRows(groups, width, k)
  {
    WellFormedAt(groups, width, k);
    var head := if Complete(groups[k]) then [GroupRow(groups[k])] else [];
    var rest := ReadyRows(groups, width, k + 1);
    assert ReadyRows(groups, width, k) == head + rest;
    assert (ready + head) + rest == ready + (head + rest);
  }

  /** Adding one order's error items and then those of the later orders is
      adding those of all orders from `k` on. */
  lemma PendingItemsStep(groups: seq<OrderGroup>, width: nat, k: nat, errors: seq<ErrorItem>)
    requires WellFormed(groups, width) && k < |groups|
    ensures groups[k].lines != [] && Wide(groups[k].lines)
    ensures (errors + GroupErrors(groups[k])) + PendingItems(groups, width, k + 1)
            == errors + PendingItems(groups, width, k)
  {
    WellFormedAt(groups, width, k);
    var head := GroupErrors(groups[k]);
    var rest := PendingItems(groups, width, k + 1);
    assert PendingItems(groups, width, k) == head + rest;
    assert (errors + head) + rest == errors + (head + rest);
  }

  /** The scan of a whole order agrees with the reference description. */
  lemma ScanGroupSpec(g: OrderGroup, errors: seq<ErrorItem>)
    requires g.lines != [] && Wide(g.lines)
    ensures var s := ScanGroup(g, errors);
      && s.tooMany == TooManyItems(g)
      && (!s.tooMany ==> s.row == GroupRow(g) && s.errors == errors + GroupErrors(g))
  {
    assert g.lines[0] in g.lines;
    var base := BaseRow(g.lines[0]);
    var ms := Merchandises(g.lines);
    assert SlotRow(base, ms, 0) == base;
    ScanFromSpec(g.orderId, base, ms, 0, errors);
  }

  /** The test of app.py:55, "the session holds an error item with this
      order id", holds after an order's scan exactly when the order has an
      unnamed line, provided the earlier items belong to other orders. */
  lemma ReadyTest(g: OrderGroup, errors: seq<ErrorItem>)
    requires g.lines != [] && Wide(g.lines)
    requires forall e :: e in errors ==> e.orderId != g.orderId
    ensures HasErrorFor(errors + GroupErrors(g), g.orderId) <==> !Complete(g)
    ensures forall e :: e in GroupErrors(g) ==> e.orderId == g.orderId
  {
    assert g.lines[0] in g.lines;
    var mine := GroupErrors(g);
    MissingItemsShape(g.orderId, BaseRow(g.lines[0]), Merchandises(g.lines), 0);
    if mine != [] {
      assert mine[0] in errors + mine;
    }
  }

  /** One iteration of the group loop: an order with too many items raises,
      any other order adds its row when complete and its error items in any case. */
  lemma CollectStep(groups: seq<OrderGroup>, width: nat, k: nat, ready: seq<seq<string>>, errors: seq<ErrorItem>)
    requires WellFormed(groups, width) && k < |groups|
    requires forall e :: e in errors ==> e.orderId != groups[k].orderId
    ensures groups[k].lines != [] && Wide(groups[k].lines)
    ensures var c := CollectFrom(groups, width, k, Collected(ready, errors, false));
      if TooManyItems(groups[k]) then c.failed
      else c == CollectFrom(groups, width, k + 1,
                            Collected(ready + (if Complete(groups[k]) then [GroupRow(groups[k])] else []),
                                      errors + GroupErrors(groups[k]), false))
  {
    WellFormedAt(groups, width, k);
    var g := groups[k];
    ScanGroupSpec(g, errors);
    if !TooManyItems(g) {
      ReadyTest(g, errors);
      assert ready + [] == ready;
    }
  }

  /** The collect loop agrees with the reference: it raises exactly when some
      order has a third named line, and otherwise yields the rows of the
      complete orders and the error items of all orders, in group order. The
      session's "any error item with this order id" test (app.py:55) amounts
      to "this order has an unnamed line" because the ids are distinct. */
  lemma {:induction false} CollectFromSpec(groups: seq<OrderGroup>, width: nat, k: nat, ready: seq<seq<string>>, errors: seq<ErrorItem>)
    requires WellFormed(groups, width) && k <= |groups| && DistinctIds(groups)
    requires forall e, j :: e in errors && k <= j < |groups| ==> e.orderId != groups[j].orderId
    ensures var c := CollectFrom(groups, width, k, Collected(ready, errors, false));
      && c.failed == AnyTooMany(groups, width, k)
      && (!c.failed ==> c.ready == ready + ReadyRows(groups, width, k)
                        && c.errors == errors + PendingItems(groups, width, k))
    decreases |groups| - k
  {
    if k < |groups| {
      var g := groups[k];
      CollectStep(groups, width, k, ready, errors);
      if !TooManyItems(g) {
        var errors' := errors + GroupErrors(g);
        var ready' := ready + (if Complete(g) then [GroupRow(g)] else []);
        assert CollectFrom(groups, width, k, Collected(ready, errors, false))
            == CollectFrom(groups, width, k + 1, Collected(ready', errors', false));
        ReadyTest(g, errors);
        forall e, j | e in errors' && k + 1 <= j < |groups| ensures e.orderId != groups[j].orderId {
          if e !in errors {
            assert e.orderId == groups[k].orderId;
          }
        }
        CollectFromSpec(groups, width, k + 1, ready', errors');
        ReadyRowsStep(groups, width, k, ready);
        PendingItemsStep(groups, width, k, errors);
      }
    }
  }

  /** Every error item the collect loop leaves in the session, also when it
      raises, has a row of the table's width. */
  lemma {:induction false} CollectFromWide(groups: seq<OrderGroup>, width: nat, k: nat, c: Collected)
    requires WellFormed(groups, width) && k <= |groups| && SnapshotsWide(c.errors)
    ensures SnapshotsWide(CollectFrom(groups, width, k, c).errors)
    decreases |groups| - k
  {
    if k < |groups| {
      WellFormedAt(groups, width, k);
      var g := groups[k];
      assert g.lines[0] in g.lines;
      ScanFromWide(g.orderId, Merchandises(g.lines), 0, Scan(BaseRow(g.lines[0]), c.errors, false));
      var s := ScanGroup(g, c.errors);
      if !s.tooMany {
        var ready := if HasErrorFor(s.errors, g.orderId) then c.ready else c.ready + [s.row];
        CollectFromWide(groups, width, k + 1, Collected(ready, s.errors, false));
      }
    }
  }

  /** The error items an order with too many items leaves when its scan raises. */
  function GroupRaisedErrors(g: OrderGroup): seq<ErrorItem>
    requires g.lines != [] && Wide(g.lines) && TooManyItems(g)
  {
    assert g.lines[0] in g.lines;
    RaisedItems(g.orderId, BaseRow(g.lines[0]), Merchandises(g.lines), 0)
  }

  /** The error items the group loop from group `k` on leaves in the session
      when it raises: those of every order before the first one with too
      many items, then those that order's scan passed before it raised. */
  function FailedItems(groups: seq<OrderGroup>, width: nat, k: nat): seq<ErrorItem>
    requires WellFormed(groups, width) && k <= |groups| && AnyTooMany(groups, width, k)
    decreases |groups| - k
  {
    WellFormedAt(groups, width, k);
    if TooManyItems(groups[k]) then GroupRaisedErrors(groups[k])
    else GroupErrors(groups[k]) + FailedItems(groups, width, k + 1)
  }

  /** The items left by a raise are the first of those all orders would give
      without it. */
  lemma {:induction false} FailedItemsPrefix(groups: seq<OrderGroup>, width: nat, k: nat)
    requires WellFormed(groups, width) && k <= |groups| && AnyTooMany(groups, width, k)
    ensures FailedItems(groups, width, k) <= PendingItems(groups, width, k)
    decreases |groups| - k
  {
    WellFormedAt(groups, width, k);
    var g := groups[k];
    if TooManyItems(g) {
      assert g.lines[0] in g.lines;
      RaisedItemsPrefix(g.orderId, BaseRow(g.lines[0]), Merchandises(g.lines), 0);
    } else {
      FailedItemsPrefix(groups, width, k + 1);
    }
  }

  /** The scan of an order with too many items raises and leaves its raised items. */
  lemma ScanGroupRaise(g: OrderGroup, errors: seq<ErrorItem>)
    requires g.lines != [] && Wide(g.lines) && TooManyItems(g)
    ensures ScanGroup(g, errors).tooMany && ScanGroup(g, errors).errors == errors + GroupRaisedErrors(g)
  {
    assert g.lines[0] in g.lines;
    var base := BaseRow(g.lines[0]);
    var ms := Merchandises(g.lines);
    assert SlotRow(base, ms, 0) == base;
    ScanFromRaise(g.orderId, base, ms, 0, errors);
  }

  /** When some order from `k` on has too many items, the group loop raises
      and leaves in the session the earlier items followed by FailedItems;
      nothing removes what was appended before the raise. */
  lemma {:induction false} CollectFromRaise(groups: seq<OrderGroup>, width: nat, k: nat, ready: seq<seq<string>>, errors: seq<ErrorItem>)
    requires WellFormed(groups, width) && k <= |groups| && AnyTooMany(groups, width, k)
    ensures var c := CollectFrom(groups, width, k, Collected(ready, errors, false));
      c.failed && c.errors == errors + FailedItems(groups, width, k)
    decreases |groups| - k
  {
    WellFormedAt(groups, width, k);
    var g := groups[k];
    if TooManyItems(g) {
      ScanGroupRaise(g, errors);
      var s := ScanGroup(g, errors);
      assert CollectFrom(groups, width, k, Collected(ready, errors, false)) == Collected(ready, s.errors, true);
    } else {
      ScanGroupSpec(g, errors);
      var s := ScanGroup(g, errors);
      var ready' := if HasErrorFor(s.errors, g.orderId) then ready else ready + [s.row];
      assert CollectFrom(groups, width, k, Collected(ready, errors, false))
          == CollectFrom(groups, width, k + 1, Collected(ready', s.errors, false));
      CollectFromRaise(groups, width, k + 1, ready', s.errors);
      FailedItemsStep(groups, width, k, errors);
    }
  }

  /** Adding the items of one order that does not raise and then the failed
      items of the later orders is adding the failed items from `k` on. */
  lemma FailedItemsStep(groups: seq<OrderGroup>, width: nat, k: nat, errors: seq<ErrorItem>)
    requires WellFormed(groups, width) && k < |groups| && AnyTooMany(groups, width, k)
    requires groups[k].lines != [] && Wide(groups[k].lines) && !TooManyItems(groups[k])
    ensures AnyTooMany(groups, width, k + 1)
    ensures (errors + GroupErrors(groups[k])) + FailedItems(groups, width, k + 1)
            == errors + FailedItems(groups, width, k)
  {
    var head := GroupErrors(groups[k]);
    var rest := FailedItems(groups, width, k + 1);
    assert FailedItems(groups, width, k) == head + rest;
    assert (errors + head) + rest == errors + (head + rest);
  }

  /** The collect loop over all orders, starting from an empty session. */
  lemma CollectAll(groups: seq<OrderGroup>, width: nat)
    requires WellFormed(groups, width) && DistinctIds(groups)
    ensures var c := CollectFrom(groups, width, 0, Collected([], [], false));
      && c.failed == AnyTooMany(groups, width, 0)
      && (!c.failed ==> c.ready == ReadyRows(groups, width, 0) && c.errors == PendingItems(groups, width, 0))
      && (c.failed ==> c.errors == FailedItems(groups, width, 0))
  {
    CollectFromSpec(groups, width, 0, [], []);
    if AnyTooMany(groups, width, 0) {
      CollectFromRaise(groups, width, 0, [], []);
      assert [] + FailedItems(groups, width, 0) == FailedItems(groups, width, 0);
    }
    assert [] + ReadyRows(groups, width, 0) == ReadyRows(groups, width, 0);
    assert [] + PendingItems(groups, width, 0) == PendingItems(groups, width, 0);
  }
}
