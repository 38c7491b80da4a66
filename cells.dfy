/**
 * Reading the roster: Ruby's `String#to_i` on the raw cell strings the
 * spreadsheet service returns, `nil.to_i` for cells past the end of a row,
 * and the choice of the user's row (main.rb:54-57, 66-67).
 */
module Cells {
  import opened Optional

  /** The characters Ruby skips before a number: space, tab, newline, vertical tab, form feed, carriage return. */
  predicate IsSpace(c: char)
  {
    c == ' ' || '\t' <= c <= '\r'
  }

  predicate IsDigit(c: char)
  {
    '0' <= c <= '9'
  }

  function DigitValue(c: char): (v: nat)
    requires IsDigit(c)
    ensures v < 10
  {
    c as int - '0' as int
  }

  function DigitChar(v: nat): (c: char)
    requires v < 10
    ensures IsDigit(c) && DigitValue(c) == v
  {
    ('0' as int + v) as char
  }

  /**
   * The value of the digits that continue a number already worth `acc`. One
   * underscore between two digits is skipped; any other character ends the number.
   */
  function MoreDigits(s: string, acc: nat): nat
    decreases |s|
  {
    if s == [] then acc
    else if IsDigit(s[0]) then MoreDigits(s[1..], acc * 10 + DigitValue(s[0]))
    else if s[0] == '_' && |s| >= 2 && IsDigit(s[1]) then MoreDigits(s[1..], acc)
    else acc
  }

  /** The value of the unsigned number at the start of `s`, 0 when `s` does not start with a digit. */
  function Unsigned(s: string): nat
  {
    if s != [] && IsDigit(s[0]) then MoreDigits(s[1..], DigitValue(s[0])) else 0
  }

  /** `String#to_i`: skip leading white space, read an optional sign and the digits that follow, ignore the rest. */
  function ToI(s: string): int
  {
    if s != [] && IsSpace(s[0]) then ToI(s[1..])
    else if s != [] && s[0] == '-' then -(Unsigned(s[1..]) as int)
    else if s != [] && s[0] == '+' then Unsigned(s[1..])
    else Unsigned(s)
  }

  /** `row[i].to_i`: a cell past the end of the row is `nil`, and `nil.to_i` is 0. */
  function Cell(row: seq<string>, i: nat): int
  {
    if i < |row| then ToI(row[i]) else 0
  }

  /** Decimal notation of a natural number, without leading zeros. */
  function Decimal(n: nat): (s: string)
    ensures |s| >= 1 && forall i :: 0 <= i < |s| ==> IsDigit(s[i])
  {
    if n < 10 then [DigitChar(n)] else Decimal(n / 10) + [DigitChar(n % 10)]
  }

  /** `rest` cannot continue a number: it is empty, or starts with neither a digit nor an underscore followed by a digit. */
  predicate EndsNumber(rest: string)
  {
    rest == [] || (!IsDigit(rest[0]) && !(rest[0] == '_' && |rest| >= 2 && IsDigit(rest[1])))
  }

  lemma {:induction false} MoreDigitsAppend(s: string, rest: string, acc: nat, c: char)
    requires forall i :: 0 <= i < |s| ==> IsDigit(s[i])
    requires IsDigit(c) && EndsNumber(rest)
    ensures MoreDigits(s + [c] + rest, acc) == MoreDigits(s + rest, acc) * 10 + DigitValue(c)
  {
    if s == [] {
      assert [c] + rest == [c] + rest;
      assert ([c] + rest)[1..] == rest;
      MoreDigitsStops(rest, acc * 10 + DigitValue(c));
      MoreDigitsStops(rest, acc);
    } else {
      assert (s + [c] + rest)[1..] == s[1..] + [c] + rest;
      assert (s + rest)[1..] == s[1..] + rest;
      MoreDigitsAppend(s[1..], rest, acc * 10 + DigitValue(s[0]), c);
    }
  }

  lemma MoreDigitsStops(rest: string, acc: nat)
    requires EndsNumber(rest)
    ensures MoreDigits(rest, acc) == acc
  {
  }

  lemma {:induction false} UnsignedDecimal(n: nat, rest: string)
    requires EndsNumber(rest)
    ensures Unsigned(Decimal(n) + rest) == n
  {
    if n < 10 {
      assert (Decimal(n) + rest)[1..] == rest;
      MoreDigitsStops(rest, n);
    } else {
      var p := Decimal(n / 10);
      var c := DigitChar(n % 10);
      assert Decimal(n) + rest == p + [c] + rest;
      assert (p + [c] + rest)[1..] == p[1..] + [c] + rest;
      MoreDigitsAppend(p[1..], rest, DigitValue(p[0]), c);
      assert (p + rest)[1..] == p[1..] + rest;
      UnsignedDecimal(n / 10, rest);
    }
  }

  /**
   * A cell holding a number written in decimal, with or without a sign and
   * followed by anything that cannot continue it ("8", "-3", "4 h"), converts
   * to that number.
   */
  lemma ToIDecimal(n: nat, rest: string)
    requires EndsNumber(rest)
    ensures ToI(Decimal(n) + rest) == n
    ensures ToI("+" + Decimal(n) + rest) == n
    ensures ToI("-" + Decimal(n) + rest) == -(n as int)
  {
    UnsignedDecimal(n, rest);
    assert ("+" + Decimal(n) + rest)[1..] == Decimal(n) + rest;
    assert ("-" + Decimal(n) + rest)[1..] == Decimal(n) + rest;
  }

  /** Leading white space does not change the value. */
  lemma {:induction false} ToISkipsSpace(space: string, s: string)
    requires forall i :: 0 <= i < |space| ==> IsSpace(space[i])
    ensures ToI(space + s) == ToI(s)
  {
    if space != [] {
      assert (space + s)[0] == space[0];
      assert (space + s)[1..] == space[1..] + s;
      ToISkipsSpace(space[1..], s);
    } else {
      assert space + s == s;
    }
  }

  /** A cell without any digit (empty, "x", "-", "off") converts to 0. */
  lemma {:induction false} ToINoDigits(s: string)
    requires forall i :: 0 <= i < |s| ==> !IsDigit(s[i])
    ensures ToI(s) == 0
  {
    if s != [] && IsSpace(s[0]) {
      ToINoDigits(s[1..]);
    }
  }

  /**
   * Cells without digits at the end of a row read like the cells the service
   * leaves off the end: a row padded with such cells gives every cell the
   * same value.
   */
  lemma CellPadding(row: seq<string>, pad: seq<string>, i: nat)
    requires forall k, j :: 0 <= k < |pad| && 0 <= j < |pad[k]| ==> !IsDigit(pad[k][j])
    ensures Cell(row + pad, i) == Cell(row, i)
  {
    if |row| <= i < |row| + |pad| {
      ToINoDigits(pad[i - |row|]);
    }
  }

  datatype RowError =
    | NoValues       // the range holds no values: the service omits them and `.find` is sent to nil
    | NoMatchingRow  // no row starts with the user name: `row` is nil and `row.shift` fails

  /** Index of the first row whose first cell is `username` (main.rb:56); an empty row has a nil first cell. */
  function FindRow(values: seq<seq<string>>, username: string): (r: Option<nat>)
    ensures r.Some? ==> r.value < |values| && |values[r.value]| > 0 && values[r.value][0] == username
    ensures r.Some? ==> forall j :: 0 <= j < r.value ==> !(|values[j]| > 0 && values[j][0] == username)
    ensures r.None? ==> forall j :: 0 <= j < |values| ==> !(|values[j]| > 0 && values[j][0] == username)
  {
    if values == [] then None
    else if |values[0]| > 0 && values[0][0] == username then Some(0)
    else match FindRow(values[1..], username)
      case None => None
      case Some(k) => Some(k + 1)
  }

  /** The user's schedule row: the first row that starts with the user name, without that name cell (main.rb:54-57). */
  function SelectRow(values: Option<seq<seq<string>>>, username: string): (r: Result<seq<string>, RowError>)
    ensures values.None? <==> r == Err(NoValues)
    ensures values.Some? && r.Ok? ==>
      exists i :: 0 <= i < |values.value| && |values.value[i]| > 0 &&
        values.value[i][0] == username && r.value == values.value[i][1..] &&
        forall j :: 0 <= j < i ==> !(|values.value[j]| > 0 && values.value[j][0] == username)
    ensures values.Some? ==>
      (r == Err(NoMatchingRow) <==> forall j :: 0 <= j < |values.value| ==> !(|values.value[j]| > 0 && values.value[j][0] == username))
  {
    match values
    case None => Err(NoValues)
    case Some(rows) =>
      match FindRow(rows, username)
      case None => Err(NoMatchingRow)
      case Some(i) => Ok(rows[i][1..])
  }
}
