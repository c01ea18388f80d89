/** What the converter promises, stated over Run and the collect phase's
    reference description. */
module Properties {
  import opened Wrappers
  import opened Records
  import opened Grouping
  import opened Collect
  import opened Correction
  import opened Converter

  // ---------------------------------------------------------------------
  // The rows and error items of one order.

  /** Filling slot 0 writes back what the base copy already holds there, so
      an order's row at any stage is its first line's fields, stripped,
      except that columns 28/29 hold the second line's code and name once
      that line has been passed with a name (app.py:23-29, 46-51). */
  lemma SlotRowFromLines(lines: seq<Row>, k: nat, c: nat)
    requires lines != [] && Wide(lines) && k <= |lines| && c < |lines[0]|
    ensures var ms := Merchandises(lines);
      SlotRow(BaseRow(lines[0]), ms, k)[c] ==
        if c == Code2Column && k > 1 && Named(ms, 1) then Field(lines[1][CodeColumn])
        else if c == Name2Column && k > 1 && Named(ms, 1) then Field(lines[1][NameColumn])
        else Field(lines[0][c])
  {
    assert lines[0] in lines;
    if k > 1 {
      assert lines[1] in lines;
    }
    SlotRowAt(BaseRow(lines[0]), Merchandises(lines), k, c);
  }

  /** The row of an order has one field per column: the stripped first-line
      value ("" for null), except the second merchandise slot, which holds
      the second line's code and name when that line is named. */
  lemma GroupRowAt(g: OrderGroup, c: nat)
    requires g.lines != [] && Wide(g.lines) && c < |g.lines[0]|
    ensures |GroupRow(g)| == |g.lines[0]|
    ensures GroupRow(g)[c] ==
      if (c == Code2Column || c == Name2Column) && |g.lines| > 1 && !IsMissingName(Field(g.lines[1][NameColumn]))
      then Field(g.lines[1][c - 2])
      else Field(g.lines[0][c])
  {
    assert g.lines[0] in g.lines;
    SlotRowFromLines(g.lines, |g.lines|, c);
    if |g.lines| > 1 {
      assert g.lines[1] in g.lines;
    }
  }

  /** The error items of one order from line `i` on are exactly one per
      unnamed line, holding its code, its index and the row as it stood
      when that line was reached. */
  lemma {:induction false} MissingItemsIff(orderId: string, base: seq<string>, ms: seq<Merchandise>, i: nat, e: ErrorItem)
    requires |base| >= MinWidth && i <= |ms|
    ensures e in MissingItems(orderId, base, ms, i) <==>
      exists j :: i <= j < |ms| && !Named(ms, j) && e == ErrorItem(orderId, ms[j].code, j, SlotRow(base, ms, j))
    decreases |ms| - i
  {
    if i < |ms| {
      var head := ItemAt(orderId, base, ms, i);
      var rest := MissingItems(orderId, base, ms, i + 1);
      assert MissingItems(orderId, base, ms, i) == head + rest;
      MissingItemsIff(orderId, base, ms, i + 1, e);
      if e in head {
        assert i <= i < |ms| && !Named(ms, i) && e == ErrorItem(orderId, ms[i].code, i, SlotRow(base, ms, i));
      }
    }
  }

  /** The error items of one order, in terms of its lines (app.py:33-44):
      one per line whose stripped name is "" or "nan". */
  lemma GroupErrorsIff(g: OrderGroup, e: ErrorItem)
    requires g.lines != [] && Wide(g.lines)
    ensures e in GroupErrors(g) <==>
      exists j :: 0 <= j < |g.lines| && IsMissingName(Field(g.lines[j][NameColumn]))
        && e == ErrorItem(g.orderId, Field(g.lines[j][CodeColumn]), j,
                          SlotRow(BaseRow(g.lines[0]), Merchandises(g.lines), j))
  {
    assert g.lines[0] in g.lines;
    MissingItemsIff(g.orderId, BaseRow(g.lines[0]), Merchandises(g.lines), 0, e);
  }

  // ---------------------------------------------------------------------
  // The collect phase as a whole.

  /** No error items are pending exactly when every order is complete. */
  lemma {:induction false} PendingItemsEmpty(groups: seq<OrderGroup>, width: nat, k: nat)
    requires WellFormed(groups, width) && k <= |groups|
    ensures PendingItems(groups, width, k) == [] <==> AllComplete(groups, width, k)
    decreases |groups| - k
  {
    if k < |groups| {
      WellFormedAt(groups, width, k);
      var g := groups[k];
      assert g.lines[0] in g.lines;
      MissingItemsShape(g.orderId, BaseRow(g.lines[0]), Merchandises(g.lines), 0);
      PendingItemsEmpty(groups, width, k + 1);
    }
  }

  /** When every order is complete there is one ready row per order. */
  lemma {:induction false} ReadyRowsAll(groups: seq<OrderGroup>, width: nat, k: nat)
    requires WellFormed(groups, width) && k <= |groups|
    requires AllComplete(groups, width, k)
    ensures |ReadyRows(groups, width, k)| == |groups| - k
    decreases |groups| - k
  {
    if k < |groups| {
      WellFormedAt(groups, width, k);
      assert Complete(groups[k]);
      var head := [GroupRow(groups[k])];
      var rest := ReadyRows(groups, width, k + 1);
      assert ReadyRows(groups, width, k) == head + rest;
      ReadyRowsAll(groups, width, k + 1);
    }
  }

  /** Every ready row has the table's width. */
  lemma {:induction false} ReadyRowsWide(groups: seq<OrderGroup>, width: nat, k: nat)
    requires WellFormed(groups, width) && k <= |groups|
    ensures forall r :: r in ReadyRows(groups, width, k) ==> |r| == width
    decreases |groups| - k
  {
    if k < |groups| {
      WellFormedAt(groups, width, k);
      assert groups[k].lines[0] in groups[k].lines;
      ReadyRowsWide(groups, width, k + 1);
    }
  }

  // ---------------------------------------------------------------------
  // One call of the converter.

  /** The collect phase of a fresh call raises exactly when some order has
      a named line past the second, and otherwise yields the rows of the
      complete orders and the error items of all orders, in order-id order. */
  lemma FreshCollect(t: Table)
    requires t.Rectangular() && t.width >= MinWidth
    ensures (GroupWellFormed(t); var gs := Group(t.rows); var c := CollectPhase([], t);
      && c.failed == AnyTooMany(gs, t.width, 0)
      && (!c.failed ==> c.ready == ReadyRows(gs, t.width, 0) && c.errors == PendingItems(gs, t.width, 0))
      && (c.failed ==> c.errors == FailedItems(gs, t.width, 0)))
  {
    GroupWellFormed(t);
    CollectAll(Group(t.rows), t.width);
  }

  /** A table narrower than 33 columns yields nothing and leaves the session
      as it was. */
  lemma RunNarrow(items: seq<ErrorItem>, names: map<string, string>, t: Table, submitted: bool, entered: map<string, string>)
    requires SnapshotsWide(items) && t.Rectangular() && t.width < MinWidth
    ensures Run(items, names, t, submitted, entered) == Outcome(None, items, names)
  {
  }

  /** A fresh call on a table with an order whose line past the second is
      named yields nothing, whatever the other orders hold, and leaves the
      stored names alone; the error items appended before the raise stay in
      the session, since neither the loop nor the handler removes them
      (app.py:38-43, 52-53, 114-116). */
  lemma RunTooMany(names: map<string, string>, t: Table, submitted: bool, entered: map<string, string>)
    requires t.Rectangular() && t.width >= MinWidth
    requires (GroupWellFormed(t); AnyTooMany(Group(t.rows), t.width, 0))
    ensures (GroupWellFormed(t); var o := Run([], names, t, submitted, entered);
      o.result == None && o.productNames == names && o.errorItems == FailedItems(Group(t.rows), t.width, 0))
  {
    FreshCollect(t);
  }

  /** When the first order has an unnamed line and no named line past its
      second, and a later order raises, the call yields nothing but keeps
      the first order's error items: they are among the items the call
      leaves, all of which are items of the table's orders, so the next call
      skips the collect loop and shows the form for them (app.py:20,
      38-43, 53, 114-116). */
  lemma RaiseKeepsItems(names: map<string, string>, t: Table, submitted: bool, entered: map<string, string>)
    requires t.Rectangular() && t.width >= MinWidth
    requires (GroupWellFormed(t); var gs := Group(t.rows);
              |gs| > 0 && AnyTooMany(gs, t.width, 0)
              && (WellFormedAt(gs, t.width, 0); !TooManyItems(gs[0]) && !Complete(gs[0])))
    ensures (GroupWellFormed(t); var gs := Group(t.rows);
      WellFormedAt(gs, t.width, 0);
      var o := Run([], names, t, submitted, entered);
      && o.result == None
      && GroupErrors(gs[0]) != [] && GroupErrors(gs[0]) <= o.errorItems
      && o.errorItems <= PendingItems(gs, t.width, 0))
  {
    GroupWellFormed(t);
    var gs := Group(t.rows);
    WellFormedAt(gs, t.width, 0);
    var g := gs[0];
    assert g.lines[0] in g.lines;
    MissingItemsShape(g.orderId, BaseRow(g.lines[0]), Merchandises(g.lines), 0);
    RunTooMany(names, t, submitted, entered);
    FailedItemsPrefix(gs, t.width, 0);
    assert FailedItems(gs, t.width, 0) == GroupErrors(g) + FailedItems(gs, t.width, 1);
  }

  /** A fresh call on a table whose every line is named outputs one row per
      order, in order-id order, behind the empty row, and stores nothing; a
      table without order ids yields nothing (app.py:55-56, 102-112). */
  lemma RunComplete(names: map<string, string>, t: Table, submitted: bool, entered: map<string, string>)
    requires t.Rectangular() && t.width >= MinWidth
    requires (GroupWellFormed(t);
              !AnyTooMany(Group(t.rows), t.width, 0) && AllComplete(Group(t.rows), t.width, 0))
    ensures var o := Run([], names, t, submitted, entered);
      && o.errorItems == [] && o.productNames == names
      && (o.result.None? <==> Group(t.rows) == [])
      && (o.result.Some? ==> o.result.value == [EmptyRow(t.width)] + ReadyRows(Group(t.rows), t.width, 0)
                             && |o.result.value| == 1 + |Group(t.rows)|)
  {
    GroupWellFormed(t);
    var gs := Group(t.rows);
    FreshCollect(t);
    PendingItemsEmpty(gs, t.width, 0);
    ReadyRowsAll(gs, t.width, 0);
  }

  /** A fresh call that finds unnamed lines stores their error items and the
      form's values, and yields a result only when the form was submitted
      with every stored name non-blank; that result is the empty row, the
      complete orders' rows and the corrected snapshots, and the session is
      then emptied (app.py:55-100). */
  lemma RunPending(names: map<string, string>, t: Table, submitted: bool, entered: map<string, string>)
    requires t.Rectangular() && t.width >= MinWidth
    requires (GroupWellFormed(t);
              !AnyTooMany(Group(t.rows), t.width, 0) && !AllComplete(Group(t.rows), t.width, 0))
    ensures (GroupWellFormed(t); var gs := Group(t.rows);
      var pending := PendingItems(gs, t.width, 0);
      var names' := FormUpdate(pending, 0, names, entered);
      var o := Run([], names, t, submitted, entered);
      && (o.result.Some? <==> submitted && AllFilled(names'))
      && (o.result.None? ==> o.errorItems == pending && o.productNames == names')
      && (o.result.Some? ==> Correctable(pending, names')
                             && o.result.value == [EmptyRow(t.width)] + ReadyRows(gs, t.width, 0) + Corrections(pending, names')
                             && o.errorItems == [] && o.productNames == map[]))
  {
    GroupWellFormed(t);
    var gs := Group(t.rows);
    FreshCollect(t);
    PendingItemsEmpty(gs, t.width, 0);
    ResumeGate(CollectPhase([], t), names, t.width, submitted, entered);
  }

  /** A call with pending error items skips the collect loop: it yields a
      result only when the form was submitted with every stored name
      non-blank, and that result holds the corrected snapshots alone, so the
      rows of the orders that were complete on the first call are not part
      of it; without a result the items stay and the names hold the form's
      values (app.py:17-20, 59-100). */
  lemma RunResume(items: seq<ErrorItem>, names: map<string, string>, t: Table, submitted: bool, entered: map<string, string>)
    requires SnapshotsWide(items) && items != [] && t.Rectangular() && t.width >= MinWidth
    ensures var names' := FormUpdate(items, 0, names, entered);
      var o := Run(items, names, t, submitted, entered);
      && (o.result.Some? <==> submitted && AllFilled(names'))
      && (o.result.None? ==> o.errorItems == items && o.productNames == names')
      && (o.result.Some? ==> Correctable(items, names')
                             && o.result.value == [EmptyRow(t.width)] + Corrections(items, names')
                             && o.errorItems == [] && o.productNames == map[])
  {
    var c := CollectPhase(items, t);
    ResumeGate(c, names, t.width, submitted, entered);
    assert [EmptyRow(t.width)] + c.ready == [EmptyRow(t.width)];
  }

  /** Every successful call puts one all-empty row of the input's width in
      front of at least one row. */
  lemma RunShape(items: seq<ErrorItem>, names: map<string, string>, t: Table, submitted: bool, entered: map<string, string>)
    requires SnapshotsWide(items) && t.Rectangular()
    requires Run(items, names, t, submitted, entered).result.Some?
    ensures var rows := Run(items, names, t, submitted, entered).result.value;
      |rows| >= 2 && |rows[0]| == t.width && forall c :: 0 <= c < t.width ==> rows[0][c] == ""
  {
  }

  /** The usual two calls on one table with an unnamed line: the first shows
      the form without a submit, yields nothing and stores the error items;
      the second, submitted, yields exactly the empty row and one corrected
      snapshot per item, if it yields anything, so the rows of the orders that were complete are
      never output (app.py:20, 55-56, 83-90, 99-100). */
  lemma ReadyRowsDroppedOnResume(names: map<string, string>, t: Table,
                                 entered: map<string, string>, entered': map<string, string>)
    requires t.Rectangular() && t.width >= MinWidth
    requires (GroupWellFormed(t);
              !AnyTooMany(Group(t.rows), t.width, 0) && !AllComplete(Group(t.rows), t.width, 0))
    ensures (GroupWellFormed(t);
      var pending := PendingItems(Group(t.rows), t.width, 0);
      var o := Run([], names, t, false, entered);
      && o == Outcome(None, pending, FormUpdate(pending, 0, names, entered))
      && var o' := Run(o.errorItems, o.productNames, t, true, entered');
      o'.result.Some? ==> |o'.result.value| == 1 + |pending|)
  {
    GroupWellFormed(t);
    PendingItemsEmpty(Group(t.rows), t.width, 0);
    RunPending(names, t, false, entered);
    var o := Run([], names, t, false, entered);
    RunResume(o.errorItems, o.productNames, t, true, entered');
  }
}
