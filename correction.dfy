/** The resume phase's pure parts (app.py:62-91): the form key of an error
    item, what the form stores for each item, the "all filled" test, and
    the corrected snapshot of an item. */
module Correction {
  import opened Text
  import opened Records
  import opened Collect

  /** The form key of a product name: order id and product code, not the
      line index (app.py:67, 85). */
  function NameKey(orderId: string, code: string): (key: string)
    ensures |key| == |"product_name_"| + |orderId| + 1 + |code|
    ensures key[..|"product_name_"|] == "product_name_"
    ensures key[|"product_name_"|..][..|orderId|] == orderId
    ensures key[|"product_name_"| + |orderId|] == '_'
    ensures key[|key| - |code|..] == code
  {
    "product_name_" + orderId + "_" + code
  }

  function ItemKey(e: ErrorItem): string {
    NameKey(e.orderId, e.productCode)
  }

  /** The keys of all error items. */
  function ItemKeys(items: seq<ErrorItem>): set<string> {
    set e | e in items :: ItemKey(e)
  }

  /** Items of two different orders can share a key: an underscore inside
      the order id or inside the code looks the same as the one the key puts
      between them, so the id/code boundary can fall at either underscore of
      "1_2_3". The key is not injective. */
  lemma KeyCollision()
    ensures NameKey("1_2", "3") == NameKey("1", "2_3")
  {
    assert "product_name_" + "1_2" + "_" + "3" == "product_name_1_2_3";
    assert "product_name_" + "1" + "_" + "2_3" == "product_name_1_2_3";
  }

  /** What the text field under `key` yields: the value the user entered
      into it when there is one, otherwise its default, the stored name or ""
      (app.py:68-72). */
  function FormValue(key: string, names: map<string, string>, entered: map<string, string>): (v: string)
    ensures key in entered ==> v == entered[key]
    ensures key !in entered && key in names ==> v == names[key]
    ensures key !in entered && key !in names ==> v == ""
  {
    if key in entered then entered[key] else if key in names then names[key] else ""
  }

  /** The form loop (app.py:65-73) from item `k` on: each item's field value
      is stored under its key. */
  function FormUpdate(items: seq<ErrorItem>, k: nat, names: map<string, string>, entered: map<string, string>): map<string, string>
    requires k <= |items|
    decreases |items| - k
  {
    if k == |items| then names
    else
      var key := ItemKey(items[k]);
      FormUpdate(items, k + 1, names[key := FormValue(key, names, entered)], entered)
  }

  /** The keys of the items from `k` on. */
  function KeysFrom(items: seq<ErrorItem>, k: nat): set<string>
    requires k <= |items|
  {
    set j | k <= j < |items| :: ItemKey(items[j])
  }

  /** After the form loop the stored names are the earlier ones plus one per
      item key. */
  lemma {:induction false} FormUpdateKeys(items: seq<ErrorItem>, k: nat, names: map<string, string>, entered: map<string, string>)
    requires k <= |items|
    ensures FormUpdate(items, k, names, entered).Keys == names.Keys + KeysFrom(items, k)
    decreases |items| - k
  {
    if k < |items| {
      var key := ItemKey(items[k]);
      FormUpdateKeys(items, k + 1, names[key := FormValue(key, names, entered)], entered);
      KeysFromStep(items, k);
    }
  }

  /** After the form loop an item key holds what its field yields, whether
      or not an earlier item had the same key, and every other name is
      unchanged. */
  lemma {:induction false} FormUpdateValues(items: seq<ErrorItem>, k: nat, names: map<string, string>, entered: map<string, string>)
    requires k <= |items|
    ensures var r := FormUpdate(items, k, names, entered);
      && (forall key :: key in KeysFrom(items, k) ==> key in r && r[key] == FormValue(key, names, entered))
      && (forall key :: key in names && key !in KeysFrom(items, k) ==> key in r && r[key] == names[key])
    decreases |items| - k
  {
    if k < |items| {
      var key := ItemKey(items[k]);
      var names' := names[key := FormValue(key, names, entered)];
      FormUpdateValues(items, k + 1, names', entered);
      KeysFromStep(items, k);
      forall x | x in KeysFrom(items, k + 1) ensures FormValue(x, names', entered) == FormValue(x, names, entered) {
      }
    }
  }

  lemma KeysFromStep(items: seq<ErrorItem>, k: nat)
    requires k < |items|
    ensures KeysFrom(items, k) == {ItemKey(items[k])} + KeysFrom(items, k + 1)
  {
    forall x | x in KeysFrom(items, k) ensures x in {ItemKey(items[k])} + KeysFrom(items, k + 1) {
      var j :| k <= j < |items| && x == ItemKey(items[j]);
      if j > k {
        assert x in KeysFrom(items, k + 1);
      }
    }
  }

  /** Over the whole item list, the keys touched are exactly the item keys. */
  lemma KeysFromAll(items: seq<ErrorItem>)
    ensures KeysFrom(items, 0) == ItemKeys(items)
  {
    forall x | x in ItemKeys(items) ensures x in KeysFrom(items, 0) {
      var e :| e in items && x == ItemKey(e);
      var j :| 0 <= j < |items| && items[j] == e;
      assert x == ItemKey(items[j]);
    }
  }

  /** Every stored name is non-blank after stripping (app.py:79). */
  predicate AllFilled(names: map<string, string>) {
    forall v :: v in names.Values ==> Strip(v) != ""
  }

  /** AllFilled holds exactly when no stored name consists of spaces only. */
  lemma AllFilledIff(names: map<string, string>)
    ensures AllFilled(names) <==> forall key :: key in names ==> !AllSpace(names[key])
  {
    forall v | v in names.Values ensures Strip(v) == "" <==> AllSpace(v) {
      StripSpec(v);
    }
    if !AllFilled(names) {
      var v :| v in names.Values && Strip(v) == "";
      var key :| key in names && names[key] == v;
      assert AllSpace(names[key]);
    }
  }

  /** The snapshot of an error item with its name written in: at column 27
      for index 0, at column 29 for index 1, unstripped, and nothing written
      for another index; the product code is not written (app.py:84-89). */
  function Correct(e: ErrorItem, names: map<string, string>): (r: seq<string>)
    requires |e.row| >= MinWidth && ItemKey(e) in names
    ensures |r| == |e.row|
    ensures forall c :: 0 <= c < |r| && c != NameColumn && c != Name2Column ==> r[c] == e.row[c]
    ensures r[NameColumn] == if e.index == 0 then names[ItemKey(e)] else e.row[NameColumn]
    ensures r[Name2Column] == if e.index == 1 then names[ItemKey(e)] else e.row[Name2Column]
  {
    if e.index == 0 then e.row[NameColumn := names[ItemKey(e)]]
    else if e.index == 1 then e.row[Name2Column := names[ItemKey(e)]]
    else e.row
  }

  /** Every item's snapshot is wide and its key has a stored name. */
  predicate Correctable(items: seq<ErrorItem>, names: map<string, string>) {
    forall e :: e in items ==> |e.row| >= MinWidth && ItemKey(e) in names
  }

  /** The corrected snapshots, in error-item order (app.py:83-90). */
  function Corrections(items: seq<ErrorItem>, names: map<string, string>): (rows: seq<seq<string>>)
    requires Correctable(items, names)
    ensures |rows| == |items|
    ensures forall i :: 0 <= i < |items| ==> rows[i] == Correct(items[i], names)
  {
    seq(|items|, i requires 0 <= i < |items| => assert items[i] in items; Correct(items[i], names))
  }

  /** After the form loop over the items, every item can be corrected. */
  lemma FormUpdateCorrectable(items: seq<ErrorItem>, names: map<string, string>, entered: map<string, string>)
    requires SnapshotsWide(items)
    ensures Correctable(items, FormUpdate(items, 0, names, entered))
  {
    FormUpdateKeys(items, 0, names, entered);
    forall e | e in items ensures ItemKey(e) in FormUpdate(items, 0, names, entered) {
      KeysFromAll(items);
    }
  }

  /** The name written into a corrected snapshot is what the form yielded for
      its key. */
  lemma CorrectedName(items: seq<ErrorItem>, names: map<string, string>, entered: map<string, string>, e: ErrorItem)
    requires SnapshotsWide(items) && e in items
    ensures var names' := FormUpdate(items, 0, names, entered);
      ItemKey(e) in names' && names'[ItemKey(e)] == FormValue(ItemKey(e), names, entered)
  {
    FormUpdateValues(items, 0, names, entered);
    KeysFromAll(items);
  }

  /** Each corrected row is its item's snapshot with what the form yielded
      for the item's key written at column 27 (index 0) or 29 (index 1), and
      nothing else changed; in particular a second line's product code is
      not written to column 28 (app.py:83-90). */
  lemma CorrectedField(items: seq<ErrorItem>, names: map<string, string>, entered: map<string, string>, i: nat, c: nat)
    requires SnapshotsWide(items) && i < |items| && c < |items[i].row|
    ensures var names' := FormUpdate(items, 0, names, entered);
      Correctable(items, names') &&
      var rows := Corrections(items, names');
      var e := items[i];
      var v := FormValue(ItemKey(e), names, entered);
      && |rows| == |items| && |rows[i]| == |e.row|
      && rows[i][c] == if c == NameColumn && e.index == 0 then v
                       else if c == Name2Column && e.index == 1 then v
                       else e.row[c]
  {
    FormUpdateCorrectable(items, names, entered);
    assert items[i] in items;
    CorrectedName(items, names, entered, items[i]);
  }
}
