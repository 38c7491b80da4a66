/**
 * `Spreadsheet#list` (main.rb:202-208): the titles of the sheets that are
 * not hidden, ordered by their position index.
 */
module Sheets {

  /** The properties the listing reads from each sheet of the spreadsheet. */
  datatype SheetProperties = SheetProperties(title: string, index: int, hidden: bool)

  /** `.reject { |sheet| sheet.properties.hidden }`, keeping the order of the rest. */
  function Visible(sheets: seq<SheetProperties>): (r: seq<SheetProperties>)
    ensures |r| <= |sheets|
    ensures forall i :: 0 <= i < |r| ==> !r[i].hidden
    ensures forall x :: multiset(r)[x] == if x.hidden then 0 else multiset(sheets)[x]
  {
    if sheets == [] then []
    else
      assert sheets == [sheets[0]] + sheets[1..];
      if sheets[0].hidden then Visible(sheets[1..]) else [sheets[0]] + Visible(sheets[1..])
  }

  predicate SortedByIndex(s: seq<SheetProperties>)
  {
    forall i, j :: 0 <= i < j < |s| ==> s[i].index <= s[j].index
  }

  /** Puts `x` before the first entry with a larger index. */
  function InsertByIndex(x: SheetProperties, s: seq<SheetProperties>): (r: seq<SheetProperties>)
    requires SortedByIndex(s)
    ensures SortedByIndex(r)
    ensures multiset(r) == multiset(s) + multiset{x}
    ensures |r| == |s| + 1
    ensures r[0] == if s != [] && s[0].index < x.index then s[0] else x
  {
    if s == [] then [x]
    else if x.index <= s[0].index then
      SortedCons(x, s);
      [x] + s
    else
      var rest := InsertByIndex(x, s[1..]);
      assert s == [s[0]] + s[1..];
      SortedCons(s[0], rest);
      [s[0]] + rest
  }

  lemma SortedCons(a: SheetProperties, s: seq<SheetProperties>)
    requires SortedByIndex(s) && (s != [] ==> a.index <= s[0].index)
    ensures SortedByIndex([a] + s)
  {
    var r := [a] + s;
    forall i, j | 0 <= i < j < |r| ensures r[i].index <= r[j].index {
      assert r[j] == s[j - 1];
      if i > 0 {
        assert r[i] == s[i - 1];
      } else if j > 1 {
        assert s[0].index <= s[j - 1].index;
      }
    }
  }

  /** `.sort_by { |sheet| sheet.properties.index }`, here as an insertion sort that keeps ties in input order. */
  function SortByIndex(s: seq<SheetProperties>): (r: seq<SheetProperties>)
    ensures SortedByIndex(r)
    ensures multiset(r) == multiset(s)
  {
    if s == [] then []
    else
      assert s == [s[0]] + s[1..];
      InsertByIndex(s[0], SortByIndex(s[1..]))
  }

  /** The sheets in listing order. */
  function ListedSheets(sheets: seq<SheetProperties>): seq<SheetProperties>
  {
    SortByIndex(Visible(sheets))
  }

  function Titles(s: seq<SheetProperties>): seq<string>
  {
    seq(|s|, i requires 0 <= i < |s| => s[i].title)
  }

  /** `Spreadsheet#list`: no more titles than sheets, each the title of a sheet that is not hidden. */
  function List(sheets: seq<SheetProperties>): (titles: seq<string>)
    ensures |titles| <= |sheets|
    ensures forall i :: 0 <= i < |titles| ==>
      exists k :: 0 <= k < |sheets| && !sheets[k].hidden && sheets[k].title == titles[i]
  {
    var listed := ListedSheets(sheets);
    assert |listed| == |Visible(sheets)| by {
      assert |multiset(listed)| == |multiset(Visible(sheets))|;
    }
    var titles := Titles(listed);
    forall i | 0 <= i < |titles|
      ensures exists k :: 0 <= k < |sheets| && !sheets[k].hidden && sheets[k].title == titles[i]
    {
      var x := listed[i];
      assert titles[i] == x.title;
      assert x in multiset(listed);
      assert !x.hidden && x in sheets;
      var k :| 0 <= k < |sheets| && sheets[k] == x;
    }
    titles
  }

  /** A sheet is listed if and only if it is a sheet of the spreadsheet that is not hidden. */
  lemma ListedMembers(sheets: seq<SheetProperties>)
    ensures forall x :: x in ListedSheets(sheets) <==> x in sheets && !x.hidden
  {
    var listed := ListedSheets(sheets);
    forall x ensures x in listed <==> x in sheets && !x.hidden {
      assert x in listed <==> x in multiset(listed);
      assert x in sheets <==> x in multiset(sheets);
    }
  }

  /**
   * The listing is the visible sheets, each once, in non-decreasing order of
   * index, and exactly those: a sheet is listed if and only if it is not hidden.
   */
  lemma ListSpec(sheets: seq<SheetProperties>)
    ensures var listed := ListedSheets(sheets);
      && List(sheets) == Titles(listed)
      && SortedByIndex(listed)
      && (forall x :: multiset(listed)[x] == if x.hidden then 0 else multiset(sheets)[x])
      && (forall x :: x in listed <==> x in sheets && !x.hidden)
  {
    ListedMembers(sheets);
  }

  /**
   * The first listed title, the one the run uses when no sheet name is
   * configured, belongs to a visible sheet with the lowest index of all
   * visible sheets.
   */
  lemma FirstListedHasLowestIndex(sheets: seq<SheetProperties>)
    requires List(sheets) != []
    ensures exists k ::
              && 0 <= k < |sheets| && !sheets[k].hidden && sheets[k].title == List(sheets)[0]
              && (forall j :: 0 <= j < |sheets| && !sheets[j].hidden ==> sheets[k].index <= sheets[j].index)
  {
    var listed := ListedSheets(sheets);
    assert List(sheets) == Titles(listed);
    ListedMembers(sheets);
    var first := listed[0];
    assert first in listed;
    var k :| 0 <= k < |sheets| && sheets[k] == first;
    SortedFirstIsLowest(listed);
    forall j | 0 <= j < |sheets| && !sheets[j].hidden
      ensures first.index <= sheets[j].index
    {
      assert sheets[j] in listed;
    }
    assert sheets[k].title == List(sheets)[0];
  }

  lemma SortedFirstIsLowest(s: seq<SheetProperties>)
    requires SortedByIndex(s) && s != []
    ensures forall x :: x in s ==> s[0].index <= x.index
  {
    forall x | x in s ensures s[0].index <= x.index {
      var m :| 0 <= m < |s| && s[m] == x;
      if m > 0 {
        assert s[0].index <= s[m].index;
      }
    }
  }
}
