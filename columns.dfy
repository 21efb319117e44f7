/** The header of the exported table: one column per value of a row, named
    v0, v1, ... in decimal, followed by the label column. */
module Columns {
  import opened Poses

  function DigitChar(d: nat): (c: char)
    requires d < 10
    ensures '0' <= c <= '9'
  {
    (48 + d) as char
  }

  predicate IsDigit(c: char) { '0' <= c <= '9' }

  /** The decimal rendering of n, most significant digit first, without
      leading zeros, as Python's f-string renders a non-negative int. */
  function Decimal(n: nat): (s: seq<char>)
    ensures |s| >= 1
    ensures forall k :: 0 <= k < |s| ==> IsDigit(s[k])
    ensures s[0] == '0' ==> n == 0
    decreases n
  {
    if n < 10 then [DigitChar(n)] else Decimal(n / 10) + [DigitChar(n % 10)]
  }

  /** Reads a string of decimal digits back as a number. */
  function ParseDecimal(s: seq<char>): nat
    requires forall k :: 0 <= k < |s| ==> IsDigit(s[k])
    decreases |s|
  {
    if s == [] then 0
    else
      var prefix := s[..|s| - 1];
      assert forall k :: 0 <= k < |prefix| ==> prefix[k] == s[k];
      assert IsDigit(s[|s| - 1]);
      ParseDecimal(prefix) * 10 + ((s[|s| - 1] as int) - 48)
  }

  /** Parsing the rendering gives the number back. */
  lemma {:induction false} DecimalRoundTrip(n: nat)
    ensures ParseDecimal(Decimal(n)) == n
    decreases n
  {
    var s := Decimal(n);
    if n >= 10 {
      DecimalRoundTrip(n / 10);
      assert s[..|s| - 1] == Decimal(n / 10);
    }
  }

  /** Different numbers are rendered differently. */
  lemma DecimalInjective(a: nat, b: nat)
    ensures Decimal(a) == Decimal(b) <==> a == b
  {
    if Decimal(a) == Decimal(b) {
      DecimalRoundTrip(a);
      DecimalRoundTrip(b);
    }
  }

  function ColumnName(i: nat): (name: string)
    ensures |name| >= 2 && name[0] == 'v'
  {
    "v" + Decimal(i)
  }

  /** The columns of a table whose rows hold seqLength frames: the values
      v0 .. v(seqLength * Features - 1), then "label". */
  function ColumnNames(seqLength: nat): (cols: seq<string>)
    ensures |cols| == seqLength * Features + 1
    ensures cols[|cols| - 1] == "label"
    ensures forall i :: 0 <= i < |cols| - 1 ==> cols[i] == ColumnName(i)
  {
    seq(seqLength * Features, i requires 0 <= i => ColumnName(i)) + ["label"]
  }

  /** No two columns share a name, so each value of a row lands in a column
      of its own. */
  lemma ColumnNamesDistinct(seqLength: nat)
    ensures var cols := ColumnNames(seqLength);
      forall i, j :: 0 <= i < j < |cols| ==> cols[i] != cols[j]
  {
    var cols := ColumnNames(seqLength);
    forall i, j | 0 <= i < j < |cols| ensures cols[i] != cols[j] {
      if j < |cols| - 1 {
        DecimalInjective(i, j);
        assert cols[i][1..] == Decimal(i);
        assert cols[j][1..] == Decimal(j);
      } else {
        assert cols[i][0] == 'v' && cols[j][0] == 'l';
      }
    }
  }
}
