# Freight-prepaid (hatabarai) converter — Dafny model

The converter `convert_to_hatabarai` (app.py:1-116) turns a headerless
shipment table into freight-prepaid rows. The table has one line per
ordered item and several lines per order. The converter produces one row
per order and keeps a small session state between calls.

- **Grouping.** Lines are grouped by the raw order id in column 32. This is
  pandas `groupby` with its defaults:
  - ids are compared without stripping;
  - groups come out in ascending id order;
  - lines with a null id are dropped;
  - lines keep their input order within a group.
- **Collect phase.** It runs only while the session holds no error items.
  - Each order's row starts as a copy of its first line. Every field is
    stripped (Python `str.strip()`), and a null cell becomes `""`.
  - Line 0's code and name go to columns 26/27. Line 1's go to columns 28/29.
  - A line whose stripped name is `""` or `"nan"` is recorded as an error
    item. The item holds the order id, the code, the line index and a copy
    of the row as it stood at that moment.
  - A named line past the second raises a `ValueError`, which yields `None`.
    The error items appended before the raise stay in the session, so the
    next call skips the collect phase and asks for their names.
  - An order's row is kept only if no error item carries its id.
- **Resume phase.** It runs when error items are pending.
  - The form stores a value for every item under
    `product_name_<order id>_<code>`.
  - Only when the form is submitted and every stored name is non-blank are
    the names written into the snapshots: column 27 for index 0, column 29
    for index 1. The snapshots are then output and the session is emptied.
- **Output.** No rows is an error. Otherwise an all-empty row goes in
  front of the rows.

Files:

- `text.dfy` — `str.strip()` over the code points `str.isspace()` accepts.
- `records.dfy` — cells, lines, tables and column constants.
- `grouping.dfy` — the `groupby` model.
- `collect.dfy` — the collect phase as functions, and lemmas tying the
  step-by-step loops to a reference description.
- `correction.dfy` — form keys, the form loop, the all-filled test and the
  corrected snapshots.
- `converter.dfy` — two layers:
  - `Run`, one call as a function of the session state and inputs;
  - class `Session`, whose methods carry out the loops on an array row and
    on the session fields. Each method is proved equal to the functions.
- `properties.dfy` — what a call promises, stated over `Run`.

The model follows the code in two places where a reader might expect otherwise:

- group keys are raw and sorted, not whitespace-normalised or in
  first-seen order;
- a correction writes only the name column, never the slot's code column;
- a raise leaves the error items found before it in the session.

Inputs that the source gets from outside become parameters:

- the uploaded table: a `Table` of `Option<string>` cells;
- whether the form was submitted: `submitted`;
- the text typed into each form field: `entered`, a map from field key to
  text. A key absent from it means that field still shows its default.

## Model

| member | source | states |
|---|---|---|
| Text.Strip | app.py:29 | Python's `str.strip()`; its contract is given by StripSpec and StripSurrounded rather than by postconditions |
| Text.StripSpec | app.py:29 | the stripped text is no longer than the input, is empty exactly when the input is all whitespace, and otherwise neither starts nor ends with whitespace |
| Text.TrimStartSpec | app.py:29 | removing leading whitespace leaves a suffix that does not start with whitespace, and what it removes is all whitespace |
| Text.TrimEndSpec | app.py:29 | removing trailing whitespace leaves a prefix that does not end with whitespace, and what it removes is all whitespace |
| Text.StripSurrounded | app.py:29 | whitespace on both sides of a text that neither starts nor ends with whitespace is removed, and nothing else is |
| Records.Field | app.py:28-29 | a cell as read: the stripped text, or "" for null; its properties are those of Strip |
| Records.BaseRow | app.py:23-29 | the base copy of an order's first line, one Field per column; its contract is given by Session.CopyBase, SlotRowFromLines and GroupRowAt |
| Grouping.LessIrreflexive | app.py:15 | no order id sorts before itself |
| Grouping.LessTransitive | app.py:15 | the code-point order of ids is transitive |
| Grouping.LessTotal | app.py:15 | of two different ids one sorts first |
| Grouping.Insert | app.py:15 | inserting an id into a strictly ascending key list keeps it strictly ascending, and adds exactly that id |
| Grouping.Keys | app.py:15 | the group keys are strictly ascending |
| Grouping.KeysExact | app.py:15 | the group keys are exactly the non-null ids that occur in column 32 |
| Grouping.Filter | app.py:15 | a group's lines are lines of the input carrying its id, and an id that occurs has at least one line |
| Grouping.FilterAppend | app.py:15 | selecting a group's lines commutes with concatenating inputs, so input order is kept |
| Grouping.FilterKeeps | app.py:15 | a line is among the lines of its own id |
| Grouping.Group | app.py:13-15 | groups come out with strictly ascending ids; an id occurs in the input exactly when it has a group; each group is non-empty and holds exactly the lines of its id, in input order |
| Grouping.GroupPartition | app.py:15 | a line with a null id is in no group; a line with id k is in the group of k, and no other group has id k |
| Collect.ScanFrom | app.py:32-53 | the line loop, step by step, stopping at the line that raises; the row keeps its width; its contract is given by ScanFromSpec, ScanFromRaise and ScanFromWide |
| Collect.ScanLineSpec | app.py:36-53 | one iteration of the line loop, started from the reference row, yields the reference row one line further and that line's error item, unless it is a named line past the second, which raises |
| Collect.SlotRowAt | app.py:46-51 | columns 26/27 hold line 0's code and name once line 0 is passed with a name, columns 28/29 those of line 1, and every other field is the base copy |
| Collect.OverfullIff | app.py:52-53 | the scan's raise condition is the existence of a named line at index 2 or later |
| Collect.AllNamedIff | app.py:37 | an order is complete exactly when no line's name is missing |
| Collect.MissingItemsShape | app.py:37-44 | every error item of an order carries that order's id and a snapshot of the order's width; there are none exactly when all lines are named |
| Collect.ScanFromSpec | app.py:32-53 | the line loop raises exactly when a line past the second is named; otherwise it ends with the reference row and one error item per unnamed line, in line order, after the earlier items |
| Collect.ScanFromWide | app.py:32-53 | the line loop, also when it raises, only appends to the session's items; every appended item carries the order's id and a snapshot as wide as the row, so every stored snapshot is at least 33 wide |
| Collect.ScanFromRaise | app.py:32-53 | a line loop that meets a named line past the second raises, and leaves the earlier items followed by one item per unnamed line before the raising line |
| Collect.RaisedItemsPrefix | app.py:38-53 | the items a raising order leaves are the first of those its lines would give without the raise |
| Collect.CollectFrom | app.py:21-56 | the group loop, step by step, stopping at the order that raises; its contract is given by CollectFromSpec, CollectFromRaise and CollectFromWide |
| Collect.ScanGroupSpec | app.py:23-53 | the scan of a whole order agrees with the reference row and error items of that order |
| Collect.ReadyTest | app.py:55 | after an order's scan, the session holds an item with its id exactly when the order has an unnamed line, provided earlier items belong to other orders |
| Collect.CollectStep | app.py:21-56 | one iteration of the group loop either raises (too many items) or adds the order's row when complete and its error items in any case |
| Collect.CollectFromSpec | app.py:21-56 | the group loop raises exactly when some order has a named line past the second; otherwise it yields the rows of the complete orders and the error items of all orders, in id order |
| Collect.CollectFromWide | app.py:42 | every error item the group loop leaves in the session has a row at least 33 wide, also when it raises |
| Collect.ScanGroupRaise | app.py:23-53 | the scan of an order with too many items raises and appends that order's raised items |
| Collect.CollectFromRaise | app.py:21-56 | when some order has too many items the group loop raises and leaves the earlier items followed by the items of every order before it and those its scan passed; nothing is removed |
| Collect.FailedItemsPrefix | app.py:21-56 | the items left by a raise are the first of those all orders would give without it |
| Collect.CollectAll | app.py:20-56 | from an empty session the group loop raises exactly when some order has too many items, leaving exactly the failed items, and otherwise yields the ready rows and pending items of all orders |
| Correction.NameKey | app.py:67 | a field key is the prefix product_name_, then the order id, then an underscore, then the code; the line index is not part of it |
| Correction.KeyCollision | app.py:67 | two different (order id, code) pairs can have the same field key |
| Correction.FormUpdate | app.py:65-73 | the form loop, step by step, storing each item's field value under its key; its contract is given by FormUpdateKeys, FormUpdateValues and Session.UpdateForm |
| Correction.FormValue | app.py:68-72 | a field yields the text entered into it, else the stored name under its key, else "" |
| Correction.FormUpdateKeys | app.py:65-73 | after the form loop the stored keys are the earlier ones plus every item's key |
| Correction.FormUpdateValues | app.py:65-73 | after the form loop each item key holds what its field yields, even when two items share it, and every other stored name is unchanged |
| Correction.KeysFromAll | app.py:65-67 | the keys the form loop visits are exactly the item keys |
| Correction.AllFilledIff | app.py:79 | all names are filled exactly when no stored name is all whitespace |
| Correction.Correct | app.py:84-89 | a corrected snapshot keeps every field except column 27, which gets the stored name for index 0, and column 29, which gets it for index 1; other indices change nothing |
| Correction.Corrections | app.py:83-90 | one corrected row per error item, in error-item order |
| Correction.FormUpdateCorrectable | app.py:85-89 | after the form loop every item's key has a stored name, so the name lookup never fails |
| Correction.CorrectedName | app.py:73-87 | the name written into an item's snapshot is what its field yielded |
| Correction.CorrectedField | app.py:83-90 | field c of corrected row i is what the form yielded for item i's key at column 27 (index 0) or 29 (index 1), and the snapshot's own field otherwise; the code is never written |
| Converter.GroupWellFormed | app.py:13-15 | the groups of a rectangular table at least 33 wide are non-empty, have lines of the table's width, and carry distinct ids |
| Converter.Finish | app.py:102-112 | the result is None exactly when there are no rows; otherwise it has one row more than it is given: an all-empty row of the input's width, followed by the given rows unchanged and in order; the session state is what it is given |
| Converter.CollectPhase | app.py:19-20 | with error items pending the collect loop is skipped: no ready rows, the items stand; every stored snapshot is at least 33 wide |
| Converter.ResumePhase | app.py:58-112 | the session keeps wide snapshots, and any result starts with the empty row and has at least one further row |
| Converter.ResumeGate | app.py:59-100 | with items pending, a call yields rows exactly when the form is submitted and every stored name is non-blank; the rows are the ready rows and the corrected snapshots, and the session is emptied; otherwise the items stay and the names hold the form's values |
| Converter.Run | app.py:1-116 | every call leaves only wide snapshots in the session, and any result starts with the empty row of the input's width followed by at least one row |
| Converter.Session.constructor | app.py:8-11 | a new session has no error items and no stored names |
| Converter.Session.CopyBase | app.py:22-29 | the new row has one field per column: the stripped first-line value, or "" for null |
| Converter.Session.ScanLines | app.py:32-53 | the line loop over the row array and the session's items ends in exactly the state of ScanFrom, including the early raise; stored names are untouched and every stored snapshot stays at least 33 wide |
| Converter.Session.Collect | app.py:21-56 | the group loop yields exactly CollectFrom's ready rows, error items and raise flag; stored names are untouched and every stored snapshot stays at least 33 wide |
| Converter.Session.UpdateForm | app.py:65-73 | the stored names become FormUpdate of the items, which stay unchanged, so the session stays valid |
| Converter.Session.ApplyCorrections | app.py:83-90 | the corrected rows are Corrections of the session's items and names |
| Converter.Session.Convert | app.py:1-116 | a call returns, and leaves in the session, exactly what Run describes, and keeps every snapshot at least 33 wide |
| Properties.SlotRowFromLines | app.py:23-51 | at any stage an order's row is its first line's stripped fields, except columns 28/29, which hold line 1's code and name once that line is passed with a name |
| Properties.GroupRowAt | app.py:23-51 | an order's row has one field per column: the stripped first-line value ("" for null), except columns 28/29, which hold the second line's stripped code and name when that line is named |
| Properties.MissingItemsIff | app.py:36-44 | an error item is produced exactly for each unnamed line, with its code, its index and the row as it stood when that line was reached |
| Properties.GroupErrorsIff | app.py:32-44 | an order's error items are exactly one per line whose stripped name is "" or "nan", stated over the input lines |
| Properties.PendingItemsEmpty | app.py:37-44 | no error items are produced exactly when every order is complete |
| Properties.ReadyRowsAll | app.py:55-56 | when every order is complete there is one ready row per order |
| Properties.ReadyRowsWide | app.py:23 | every ready row has the table's width |
| Properties.FreshCollect | app.py:20-56 | a fresh call's collect phase raises exactly when an order has too many items, leaving the failed items in the session, and otherwise yields the complete orders' rows and all orders' error items |
| Properties.RunNarrow | app.py:14 | a table narrower than 33 columns yields None and leaves the session unchanged |
| Properties.RunTooMany | app.py:38-116 | from an empty session, an order with a named line past the second makes the call yield None, whatever the other orders hold, with names unchanged and exactly the failed items left in the session |
| Properties.RaiseKeepsItems | app.py:20-116 | when the first order has an unnamed line and a later order raises, the call yields None and keeps the first order's items, among items all of which belong to the table's orders, so the next call resumes with them |
| Properties.RunComplete | app.py:55-112 | from an empty session, a table whose lines are all named and where no order has a named line past the second yields the empty row and one row per order in id order, or None when there are no orders; nothing is stored |
| Properties.RunPending | app.py:55-100 | from an empty session, when no order has a named line past the second, unnamed lines make the call store their items and the form values; it yields rows only when submitted with all names filled, namely the empty row, the complete orders' rows and the corrected snapshots, and then empties the session |
| Properties.RunResume | app.py:17-100 | with items pending, a call yields rows exactly when submitted with all names filled; those rows are the empty row and the corrected snapshots only; otherwise the items stay and the names hold the form values |
| Properties.RunShape | app.py:105-112 | any result is an all-empty row of the input's width followed by at least one row |
| Properties.ReadyRowsDroppedOnResume | app.py:17-100 | on a table with an unnamed line and no order with a named line past the second, over the usual two calls (form shown, then submitted), the first yields None and stores the pending items, and the second, when it yields rows, yields exactly the empty row and one row per pending item, so complete orders are never output |

## Left out

- Streamlit's display calls and messages (`st.write`, `st.warning`, `st.error`): they do not affect the result or the state.
- The form widgets and the button are inputs: `submitted` and the `entered` map. The value a text field returns is the function `FormValue`. Streamlit raises a duplicate-widget-key error when two error items have the same key, for example two unnamed lines of one order with the same code, or items of two orders whose id and code split at an underscore (`Correction.KeyCollision`). It is not modelled: the model stores the shared key once, so the call goes on.
- The catch-all handler (app.py:114-116) is modelled for three of its reachable causes:
  - the too-many-items `ValueError`;
  - the empty-result `ValueError`;
  - the `IndexError` of a table narrower than 33 columns.
  The duplicate-widget-key error is the fourth, left out as stated above. Other library exceptions are out of scope.
- pandas itself. The table is read with every field as a string, so a cell is `Option<string>`, with `None` standing for NaN.
- `pd.concat` would pad rows of unequal width. This can happen when a stored snapshot comes from an earlier, wider table. The model keeps the rows as they are.
- CSV decoding, CP932 encoding, file upload and download: none of this happens in the converter.
- Session.ApplyCorrections: builds new rows on values. The source writes the name into the stored snapshot list in place, which cannot be observed because the session is emptied right after.
- Behaviour the converter does not have:
  - quantity prefixes on names;
  - a warning for three or more distinct codes;
  - truncation to two items;
  - normalised order-id keys.
