/**
 * The row update of docs/reference/update_firmware_csv.py: every CSV row whose
 * second column names a product in the firmware table gets that product's
 * firmware version and release date in its fourth and fifth columns, padded
 * with empty columns first when it is shorter; every other row is kept as it is.
 *
 * Rows are sequences of already-parsed CSV fields; reading and writing the file
 * and the progress messages are not part of this model.
 */
module FirmwareCsv {
  import opened Common

  /** A firmware release: its version number and its date. */
  datatype Firmware = Firmware(version: nat, date: string)

  /** The firmware table, by product id. */
  const FirmwareData: map<nat, Firmware> := map[
    4440 := Firmware(2922, "2025-11-04"),
    3843 := Firmware(2922, "2025-11-04"),
    4062 := Firmware(2922, "2025-11-04"),
    3122 := Firmware(975, "2023-03-22"),
    4061 := Firmware(2922, "2025-11-04"),
    3121 := Firmware(975, "2023-03-22"),
    4633 := Firmware(2922, "2025-11-04"),
    4634 := Firmware(2922, "2025-11-04"),
    3570 := Firmware(675, "2023-03-22"),
    2713 := Firmware(1375, "2023-03-22"),
    3558 := Firmware(300, "2023-01-19"),
    4536 := Firmware(2029, "2026-01-14"),
    4631 := Firmware(2029, "2026-01-14"),
    3906 := Firmware(2511, "2026-01-21"),
    3905 := Firmware(2511, "2026-01-21"),
    3907 := Firmware(2511, "2026-01-21"),
    3943 := Firmware(2511, "2026-01-21"),
    4315 := Firmware(2709, "2026-01-15"),
    4024 := Firmware(2709, "2026-01-15"),
    4257 := Firmware(2709, "2026-01-15"),
    3992 := Firmware(2709, "2026-01-15"),
    3113 := Firmware(1370, "2024-12-02")
  ]

  /** The number of columns an updated row has at least. */
  const MinColumns: nat := 5

  // ---------------------------------------------------------------------------
  // Strings of decimal digits

  /** The ASCII characters `str.strip()` removes. */
  predicate IsSpace(c: char)
  {
    c == ' ' || c == '\t' || c == '\n' || c == '\r' || c == '\U{000B}' || c == '\U{000C}'
    || c == '\U{001C}' || c == '\U{001D}' || c == '\U{001E}' || c == '\U{001F}'
  }

  function StripSpaceLeft(s: string): (r: string)
    ensures |r| <= |s| && r == s[|s| - |r|..]
    ensures |r| == 0 || !IsSpace(r[0])
  {
    if |s| > 0 && IsSpace(s[0]) then StripSpaceLeft(s[1..]) else s
  }

  function StripSpaceRight(s: string): (r: string)
    ensures |r| <= |s| && r == s[..|r|]
    ensures |r| == 0 || !IsSpace(r[|r| - 1])
  {
    if |s| > 0 && IsSpace(s[|s| - 1]) then StripSpaceRight(s[..|s| - 1]) else s
  }

  /** `s.strip()`: surrounding whitespace removed. */
  function StripSpace(s: string): string
  {
    StripSpaceRight(StripSpaceLeft(s))
  }

  predicate IsDigit(c: char)
  {
    '0' <= c <= '9'
  }

  function DigitValue(c: char): (r: nat)
    requires IsDigit(c)
    ensures r < 10
  {
    c as int - '0' as int
  }

  /** `s.isdigit()`: non-empty and made of digits only. */
  predicate IsDigits(s: string)
  {
    |s| > 0 && forall i | 0 <= i < |s| :: IsDigit(s[i])
  }

  /** `int(s)` for a string of digits. */
  function ParseDecimal(s: string): nat
    requires forall i | 0 <= i < |s| :: IsDigit(s[i])
  {
    if |s| == 0 then 0 else ParseDecimal(s[..|s| - 1]) * 10 + DigitValue(s[|s| - 1])
  }

  /** `str(n)`: the decimal digits of `n`, without leading zeros. */
  function ShowDecimal(n: nat): (r: string)
    ensures IsDigits(r)
  {
    if n < 10 then [('0' as int + n) as char] else ShowDecimal(n / 10) + [('0' as int + n % 10) as char]
  }

  /** Reading back a written version number gives the number. */
  lemma {:induction false} ParseShowDecimal(n: nat)
    ensures ParseDecimal(ShowDecimal(n)) == n
  {
    var s := ShowDecimal(n);
    if n >= 10 {
      ParseShowDecimal(n / 10);
      assert s[..|s| - 1] == ShowDecimal(n / 10);
    }
  }

  // ---------------------------------------------------------------------------
  // The row update

  /** The product id in a row's second column, when it is one the table knows. */
  function ProductOf(row: seq<string>): (r: Option<nat>)
    ensures r.Some? ==> r.value in FirmwareData
    ensures r.Some? <==> |row| >= 2 && IsDigits(StripSpace(row[1])) && ParseDecimal(StripSpace(row[1])) in FirmwareData
  {
    if |row| >= 2 && IsDigits(StripSpace(row[1])) then
      var id := ParseDecimal(StripSpace(row[1]));
      if id in FirmwareData then Some(id) else None
    else None
  }

  /** The row padded with empty columns up to `n` columns. */
  function Pad(row: seq<string>, n: nat): (r: seq<string>)
    ensures |r| == if |row| < n then n else |row|
    ensures r[..|row|] == row && forall i | |row| <= i < |r| :: r[i] == ""
    decreases n - |row|
  {
    if |row| < n then Pad(row + [""], n) else row
  }

  /**
   * The row as the update writes it: a row of a known product gets at least
   * five columns, its firmware version in the fourth and its date in the fifth,
   * and keeps every other column; any other row is unchanged.
   */
  function UpdatedRow(row: seq<string>): (r: seq<string>)
    ensures ProductOf(row).None? ==> r == row
    ensures ProductOf(row).Some? ==>
      var fw := FirmwareData[ProductOf(row).value];
      && |r| == (if |row| < MinColumns then MinColumns else |row|)
      && r[3] == ShowDecimal(fw.version) && r[4] == fw.date
      && (forall i | 0 <= i < |row| && i != 3 && i != 4 :: r[i] == row[i])
      && (forall i | |row| <= i < |r| && i != 3 && i != 4 :: r[i] == "")
  {
    match ProductOf(row)
    case None => row
    case Some(id) =>
      var fw := FirmwareData[id];
      var padded := Pad(row, MinColumns);
      assert forall i | 0 <= i < |row| :: padded[i] == padded[..|row|][i];
      padded[3 := ShowDecimal(fw.version)][4 := fw.date]
  }

  /** The update leaves the product column alone, so updating an updated row changes nothing. */
  lemma UpdatedRowIdempotent(row: seq<string>)
    ensures UpdatedRow(UpdatedRow(row)) == UpdatedRow(row)
  {
    var once := UpdatedRow(row);
    if ProductOf(row).Some? {
      assert once[1] == row[1];
      assert ProductOf(once) == ProductOf(row);
      var twice := UpdatedRow(once);
      assert |twice| == |once|;
      forall i | 0 <= i < |once|
        ensures twice[i] == once[i]
      {}
    }
  }

  /** The written version of an updated row reads back as the product's version. */
  lemma UpdatedVersionReadsBack(row: seq<string>)
    requires ProductOf(row).Some?
    ensures var r := UpdatedRow(row);
      IsDigits(r[3]) && ParseDecimal(r[3]) == FirmwareData[ProductOf(row).value].version
  {
    ParseShowDecimal(FirmwareData[ProductOf(row).value].version);
  }

  /** One row of the loop: pad it in place, then overwrite the two firmware columns. */
  method UpdateRow(row: seq<string>) returns (updated: seq<string>)
    ensures updated == UpdatedRow(row)
  {
    updated := row;
    if |updated| >= 2 && IsDigits(StripSpace(updated[1])) {
      var productId := ParseDecimal(StripSpace(updated[1]));
      if productId in FirmwareData {
        var fw := FirmwareData[productId];
        while |updated| < MinColumns
          invariant |row| <= |updated| && Pad(updated, MinColumns) == Pad(row, MinColumns)
          decreases MinColumns - |updated|
        {
          updated := updated + [""];
        }
        updated := updated[3 := ShowDecimal(fw.version)];
        updated := updated[4 := fw.date];
      }
    }
  }

  /** The loop over the file's rows: the same rows, in the same order, each one updated. */
  method UpdateRows(rows: seq<seq<string>>) returns (out: seq<seq<string>>)
    ensures out == Map(UpdatedRow, rows)
  {
    out := [];
    for i := 0 to |rows|
      invariant out == Map(UpdatedRow, rows[..i])
    {
      var row := UpdateRow(rows[i]);
      assert rows[..i + 1][..i] == rows[..i];
      out := out + [row];
    }
    assert rows[..|rows|] == rows;
  }
}
