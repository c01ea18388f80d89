/** convert_to_hatabarai (app.py:1-116): the whole conversion as a function
    of the session state and the call's inputs (Run), and the session object
    whose methods carry it out step by step (Session). */
module Converter {
  import opened Wrappers
  import opened Text
  import opened Records
  import opened Grouping
  import opened Collect
  import opened Correction

  /** What one call returns and the session state it leaves behind. */
  datatype Outcome = Outcome(result: Option<seq<seq<string>>>,
                             errorItems: seq<ErrorItem>,
                             productNames: map<string, string>)

  /** The groups of a data frame are fit for the collect loop and carry
      distinct order ids. */
  lemma GroupWellFormed(t: Table)
    requires t.Rectangular() && t.width >= MinWidth
    ensures Keyed(t.rows)
    ensures WellFormed(Group(t.rows), t.width) && DistinctIds(Group(t.rows))
  {
    var gs := Group(t.rows);
    forall g | g in gs ensures g.lines != [] && forall l :: l in g.lines ==> |l| == t.width {
      var i :| 0 <= i < |gs| && gs[i] == g;
    }
    forall i, j | 0 <= i < j < |gs| ensures gs[i].orderId != gs[j].orderId {
      LessIrreflexive(gs[i].orderId);
    }
  }

  /** The end of a call (app.py:102-112): no rows is an error, otherwise an
      all-empty row of the input's width goes in front of them. */
  function Finish(rows: seq<seq<string>>, width: nat, items: seq<ErrorItem>, names: map<string, string>): (o: Outcome)
    ensures o.errorItems == items && o.productNames == names
    ensures o.result.None? <==> rows == []
    ensures o.result.Some? ==> |o.result.value| == 1 + |rows| && o.result.value[1..] == rows
    ensures o.result.Some? ==> |o.result.value[0]| == width && forall c :: 0 <= c < width ==> o.result.value[0][c] == ""
  {
    Outcome(if rows == [] then None else Some([EmptyRow(width)] + rows), items, names)
  }

  /** The collect phase of a call (app.py:13-56): it runs only when no
      error items are pending; otherwise there are no ready rows and the
      stored items stand. */
  function CollectPhase(items: seq<ErrorItem>, t: Table): (c: Collected)
    requires SnapshotsWide(items) && t.Rectangular() && t.width >= MinWidth
    ensures SnapshotsWide(c.errors)
    ensures items != [] ==> c == Collected([], items, false)
  {
    GroupWellFormed(t);
    var groups := Group(t.rows);
    CollectFromWide(groups, t.width, 0, Collected([], items, false));
    if items == [] then CollectFrom(groups, t.width, 0, Collected([], items, false))
    else Collected([], items, false)
  }

  /** The rest of a call once the collect phase is over (app.py:58-112): a
      raised ValueError yields nothing; with no error items the ready rows
      are output; otherwise the form stores its values, and only a submitted
      form whose every stored name is non-blank lets the corrected snapshots
      join the ready rows and empties the session. */
  function ResumePhase(c: Collected, names: map<string, string>, width: nat,
                       submitted: bool, entered: map<string, string>): (o: Outcome)
    requires SnapshotsWide(c.errors)
    ensures SnapshotsWide(o.errorItems)
    ensures o.result.Some? ==> |o.result.value| >= 2 && o.result.value[0] == EmptyRow(width)
  {
    if c.failed then Outcome(None, c.errors, names)
    else if c.errors == [] then Finish(c.ready, width, c.errors, names)
    else
      var names' := FormUpdate(c.errors, 0, names, entered);
      if !submitted || !AllFilled(names') then Outcome(None, c.errors, names')
      else
        FormUpdateCorrectable(c.errors, names, entered);
        Finish(c.ready + Corrections(c.errors, names'), width, [], map[])
  }

  /** The resume gate: with error items pending after the collect phase, a
      call yields rows exactly when the form is submitted and every stored
      name is non-blank; then the rows are the ready rows and the corrected
      snapshots and the session is emptied, otherwise the items stay and the
      names hold the form's values. */
  lemma ResumeGate(c: Collected, names: map<string, string>, width: nat,
                   submitted: bool, entered: map<string, string>)
    requires SnapshotsWide(c.errors) && !c.failed && c.errors != []
    ensures var names' := FormUpdate(c.errors, 0, names, entered);
      var o := ResumePhase(c, names, width, submitted, entered);
      && (o.result.Some? <==> submitted && AllFilled(names'))
      && (o.result.None? ==> o.errorItems == c.errors && o.productNames == names')
      && (o.result.Some? ==> Correctable(c.errors, names')
                             && o.result.value == [EmptyRow(width)] + c.ready + Corrections(c.errors, names')
                             && o.errorItems == [] && o.productNames == map[])
  {
    var names' := FormUpdate(c.errors, 0, names, entered);
    FormUpdateCorrectable(c.errors, names, entered);
    if submitted && AllFilled(names') {
      var rows := c.ready + Corrections(c.errors, names');
      assert |rows| > 0;
      assert [EmptyRow(width)] + rows == [EmptyRow(width)] + c.ready + Corrections(c.errors, names');
    }
  }

  /** One call of the converter with session state (items, names), the
      uploaded table, whether the form was submitted, and the values typed
      into its fields (app.py:1-116). A table narrower than 33 columns
      raises an IndexError at app.py:14, which the handler turns into None. */
  function Run(items: seq<ErrorItem>, names: map<string, string>, t: Table,
               submitted: bool, entered: map<string, string>): (o: Outcome)
    requires SnapshotsWide(items) && t.Rectangular()
    ensures SnapshotsWide(o.errorItems)
    ensures o.result.Some? ==> |o.result.value| >= 2 && o.result.value[0] == EmptyRow(t.width)
  {
    if t.width < MinWidth then Outcome(None, items, names)
    else ResumePhase(CollectPhase(items, t), names, t.width, submitted, entered)
  }

  /** The session state the converter keeps between calls: the pending
      error items and the names stored by the form. */
  class Session {
    var errorItems: seq<ErrorItem>
    var productNames: map<string, string>

    /** Every stored snapshot has room for both merchandise slots. */
    ghost predicate Valid()
      reads this
    {
      SnapshotsWide(errorItems)
    }

    /** A fresh session (app.py:8-11). */
    constructor ()
      ensures Valid() && errorItems == [] && productNames == map[]
    {
      errorItems := [];
      productNames := map[];
    }

    /** The output row of an order before its lines are scanned: one field
        per column, the stripped first-line value or "" (app.py:23-29). */
    static method CopyBase(first: Row) returns (row: array<string>)
      ensures fresh(row) && row[..] == BaseRow(first)
    {
      row := new string[|first|](_ => "");
      for i := 0 to |first|
        invariant forall j :: 0 <= j < i ==> row[j] == Field(first[j])
        invariant forall j :: i <= j < |first| ==> row[j] == ""
      {
        if first[i].Some? {
          row[i] := Strip(first[i].value);
        }
      }
    }

    /** The line loop of one order (app.py:32-53): fills the slots of `row`,
        records an error item for every unnamed line, and stops with
        `tooMany` at a named line past the second. */
    method ScanLines(orderId: string, lines: seq<Row>, row: array<string>) returns (tooMany: bool)
      requires Valid() && Wide(lines) && row.Length >= MinWidth
      modifies this, row
      ensures Valid()
      ensures var s := ScanFrom(orderId, Merchandises(lines), 0, Scan(old(row[..]), old(errorItems), false));
        row[..] == s.row && errorItems == s.errors && tooMany == s.tooMany
      ensures productNames == old(productNames)
    {
      ghost var ms := Merchandises(lines);
      ScanFromWide(orderId, ms, 0, Scan(row[..], errorItems, false));
      for i := 0 to |lines|
        invariant ScanFrom(orderId, ms, i, Scan(row[..], errorItems, false))
               == ScanFrom(orderId, ms, 0, Scan(old(row[..]), old(errorItems), false))
        invariant productNames == old(productNames)
      {
        assert lines[i] in lines;
        var code := Field(lines[i][CodeColumn]);
        var name := Field(lines[i][NameColumn]);
        if IsMissingName(name) {
          errorItems := errorItems + [ErrorItem(orderId, code, i, row[..])];
          continue;
        }
        if i == 0 {
          row[CodeColumn] := code;
          row[NameColumn] := name;
        } else if i == 1 {
          row[Code2Column] := code;
          row[Name2Column] := name;
        } else {
          return true;
        }
      }
      return false;
    }

    /** The group loop (app.py:21-56): the rows of the orders without an
        error item, and whether a ValueError was raised. */
    method Collect(groups: seq<OrderGroup>, width: nat) returns (resultRows: seq<seq<string>>, failed: bool)
      requires Valid() && WellFormed(groups, width)
      modifies this
      ensures Valid()
      ensures var c := CollectFrom(groups, width, 0, Collected([], old(errorItems), false));
        resultRows == c.ready && errorItems == c.errors && failed == c.failed
      ensures productNames == old(productNames)
    {
      CollectFromWide(groups, width, 0, Collected([], errorItems, false));
      resultRows := [];
      for k := 0 to |groups|
        invariant CollectFrom(groups, width, k, Collected(resultRows, errorItems, false))
               == CollectFrom(groups, width, 0, Collected([], old(errorItems), false))
        invariant Valid()
        invariant productNames == old(productNames)
      {
        WellFormedAt(groups, width, k);
        var g := groups[k];
        var row := CopyBase(g.lines[0]);
        var tooMany := ScanLines(g.orderId, g.lines, row);
        if tooMany {
          return resultRows, true;
        }
        if !HasErrorFor(errorItems, g.orderId) {
          resultRows := resultRows + [row[..]];
        }
      }
      return resultRows, false;
    }

    /** The form loop (app.py:65-73): stores each item's field value under
        its key. */
    method UpdateForm(entered: map<string, string>)
      requires Valid()
      modifies this
      ensures Valid()
      ensures productNames == FormUpdate(errorItems, 0, old(productNames), entered)
      ensures errorItems == old(errorItems)
    {
      for k := 0 to |errorItems|
        invariant errorItems == old(errorItems)
        invariant FormUpdate(errorItems, k, productNames, entered)
               == FormUpdate(errorItems, 0, old(productNames), entered)
      {
        var key := ItemKey(errorItems[k]);
        productNames := productNames[key := FormValue(key, productNames, entered)];
      }
    }

    /** The correction loop (app.py:83-90): every snapshot with its name
        written in, in error-item order. */
    method ApplyCorrections() returns (rows: seq<seq<string>>)
      requires Correctable(errorItems, productNames)
      ensures rows == Corrections(errorItems, productNames)
    {
      rows := [];
      for k := 0 to |errorItems|
        invariant |rows| == k
        invariant forall j :: 0 <= j < k ==> rows[j] == Correct(errorItems[j], productNames)
      {
        var e := errorItems[k];
        assert e in errorItems;
        var key := ItemKey(e);
        var row := e.row;
        if e.index == 0 {
          row := row[NameColumn := productNames[key]];
        } else if e.index == 1 {
          row := row[Name2Column := productNames[key]];
        }
        rows := rows + [row];
      }
    }

    /** One call of the converter (app.py:1-116). */
    method Convert(t: Table, submitted: bool, entered: map<string, string>) returns (r: Option<seq<seq<string>>>)
      requires Valid() && t.Rectangular()
      modifies this
      ensures Valid()
      ensures Outcome(r, errorItems, productNames) == Run(old(errorItems), old(productNames), t, submitted, entered)
    {
      if t.width < MinWidth {
        return None;
      }
      GroupWellFormed(t);
      var groups := Group(t.rows);
      CollectFromWide(groups, t.width, 0, Collected([], errorItems, false));
      var resultRows: seq<seq<string>> := [];
      if errorItems == [] {
        var failed;
        resultRows, failed := Collect(groups, t.width);
        if failed {
          return None;
        }
      }
      if errorItems != [] {
        ghost var before := productNames;
        UpdateForm(entered);
        if submitted {
          if AllFilled(productNames) {
            FormUpdateCorrectable(errorItems, before, entered);
            var corrected := ApplyCorrections();
            resultRows := resultRows + corrected;
            errorItems := [];
            productNames := map[];
          } else {
            return None;
          }
        }
        if !submitted {
          return None;
        }
      }
      if resultRows == [] {
        return None;
      }
      r := Some([EmptyRow(t.width)] + resultRows);
    }
  }
}
