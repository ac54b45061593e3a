/**
 * Row rendering in `executeQuery`: each scanned row of nullable byte strings
 * is converted into a reused string buffer, NULL becoming the two characters
 * `\N`, and printed; a failed scan ends that database's output.
 */
module Rows {
  import opened Wrappers

  newtype byte = b: int | 0 <= b < 256

  /** A column value as the driver hands it over: nil for SQL NULL, otherwise its bytes. */
  type Cell = Option<seq<byte>>

  /** One step of `rows.Next()`/`rows.Scan(dest...)`. */
  datatype Scan = Scanned(cells: seq<Cell>) | ScanFailed

  /** What the program prints in place of a NULL: a backslash followed by N. */
  const Null: string := "\\N"

  /** The bytes of `Null`, i.e. of a non-NULL value that renders like a NULL. */
  const NullBytes: seq<byte> := [92, 78]

  /** Go's `string(raw)`: a Go string is its bytes; each byte is kept as the character with that code. */
  function AsString(raw: seq<byte>): (s: string)
    ensures |s| == |raw|
  {
    seq(|raw|, i requires 0 <= i < |raw| => (raw[i] as int) as char)
  }

  /** The bytes of a string whose characters all stand for bytes. */
  function AsBytes(s: string): (raw: seq<byte>)
    requires forall i :: 0 <= i < |s| ==> s[i] as int < 256
    ensures |raw| == |s|
  {
    seq(|s|, i requires 0 <= i < |s| => (s[i] as int) as byte)
  }

  /** `string(raw)` loses nothing: the bytes can be read back. */
  lemma AsStringRoundTrip(raw: seq<byte>)
    ensures forall i :: 0 <= i < |AsString(raw)| ==> AsString(raw)[i] as int < 256
    ensures AsBytes(AsString(raw)) == raw
  {
  }

  /** The text one column is rendered as. */
  function Render(cell: Cell): string
  {
    match cell
    case None => Null
    case Some(raw) => AsString(raw)
  }

  /** The converted buffer for one row: one entry per column. */
  function RenderRow(cells: seq<Cell>): (row: seq<string>)
    ensures |row| == |cells|
    ensures forall i :: 0 <= i < |cells| ==> row[i] == Render(cells[i])
  {
    seq(|cells|, i requires 0 <= i < |cells| => Render(cells[i]))
  }

  /** The rows printed for one database: the converted rows before the first failed scan. */
  function Printed(scans: seq<Scan>): seq<seq<string>>
  {
    if scans == [] then []
    else match scans[0]
      case ScanFailed => []
      case Scanned(cells) => [RenderRow(cells)] + Printed(scans[1..])
  }

  /**
   * Rendering distinguishes every pair of column values except one: a NULL and
   * a non-NULL value consisting of the two bytes `\N` print alike. In
   * particular a NULL never prints like a non-NULL empty value.
   */
  lemma RenderInjective(a: Cell, b: Cell)
    requires Render(a) == Render(b)
    ensures a == b || (a == None && b == Some(NullBytes)) || (a == Some(NullBytes) && b == None)
  {
    assert AsBytes(Null) == NullBytes;
    if a.Some? && b.Some? {
      AsStringRoundTrip(a.value);
      AsStringRoundTrip(b.value);
    } else if a.Some? {
      assert a.value == AsBytes(Null) by { AsStringRoundTrip(a.value); }
    } else if b.Some? {
      assert b.value == AsBytes(Null) by { AsStringRoundTrip(b.value); }
    }
  }

  /** The collision RenderInjective allows does happen. */
  lemma NullCollidesWithBackslashN()
    ensures Render(None) == Render(Some(NullBytes))
    ensures Render(None) != Render(Some([]))
  {
    assert AsString(NullBytes) == Null;
  }

  /**
   * What Printed is: the first |Printed(scans)| scans all succeeded and are
   * printed in order, and the output stops only at the end or at a failed scan.
   */
  lemma {:induction false} PrintedIsPrefixBeforeFailure(scans: seq<Scan>)
    ensures |Printed(scans)| <= |scans|
    ensures forall j :: 0 <= j < |Printed(scans)| ==>
              scans[j].Scanned? && Printed(scans)[j] == RenderRow(scans[j].cells)
    ensures |Printed(scans)| == |scans| || scans[|Printed(scans)|].ScanFailed?
  {
    if scans != [] && scans[0].Scanned? {
      PrintedIsPrefixBeforeFailure(scans[1..]);
    }
  }

  /** Nothing after a failed scan reaches the output. */
  lemma {:induction false} NothingAfterFailure(before: seq<Scan>, after: seq<Scan>)
    ensures Printed(before + [ScanFailed] + after) == Printed(before + [ScanFailed])
  {
    if before != [] {
      var s := before + [ScanFailed];
      assert (before + [ScanFailed] + after)[1..] == before[1..] + [ScanFailed] + after;
      assert s[1..] == before[1..] + [ScanFailed];
      NothingAfterFailure(before[1..], after);
    }
  }

  /**
   * The conversion loop at cmd/root.go:130-136: every slot of the reused
   * buffer is overwritten from the row just scanned.
   */
  method ConvertRow(result: array<string>, rawResult: seq<Cell>)
    requires result.Length == |rawResult|
    modifies result
    ensures result[..] == RenderRow(rawResult)
  {
    var i := 0;
    while i < result.Length
      invariant 0 <= i <= result.Length
      invariant forall j :: 0 <= j < i ==> result[j] == Render(rawResult[j])
    {
      if rawResult[i].None? {
        result[i] := Null;
      } else {
        result[i] := AsString(rawResult[i].value);
      }
      i := i + 1;
    }
  }

  /**
   * The row loop at cmd/root.go:108-139. `columns` is the result of
   * `rows.Columns()` (None when it fails and nothing is printed). The buffer
   * `result` is allocated once and reused for every row.
   */
  method ExecuteQuery(columns: Option<nat>, scans: seq<Scan>) returns (printed: seq<seq<string>>)
    requires columns.Some? ==>
               forall k :: 0 <= k < |scans| && scans[k].Scanned? ==> |scans[k].cells| == columns.value
    ensures columns.None? ==> printed == []
    ensures columns.Some? ==> printed == Printed(scans)
    ensures columns.Some? ==> forall row :: row in printed ==> |row| == columns.value
  {
    printed := [];
    if columns.None? {
      return;
    }
    var n := columns.value;
    var result := new string[n](_ => "");
    var k := 0;
    while k < |scans|
      invariant 0 <= k <= |scans|
      invariant Printed(scans) == printed + Printed(scans[k..])
      invariant forall j :: 0 <= j < |printed| ==> |printed[j]| == n
    {
      var scan := scans[k];
      ghost var rest := scans[k..];
      assert rest[0] == scan && rest[1..] == scans[k + 1..];
      if scan.ScanFailed? {
        assert Printed(rest) == [];
        return;
      }
      assert Printed(rest) == [RenderRow(scan.cells)] + Printed(scans[k + 1..]);
      ConvertRow(result, scan.cells);
      assert |result[..]| == n;
      printed := printed + [result[..]];
      k := k + 1;
    }
  }
}
