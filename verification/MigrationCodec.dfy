/** The calldata of a migration: three parallel arrays of one or two rows, in one fixed layout. */
module MigrationCodec {
  import opened Words
  import opened Bytes
  import opened Migration
  import MatchCodec

  const SELECTOR: seq<Byte> := [0xae, 0xda, 0xc6, 0x20]
  const MAX_CALLDATA_BYTES: nat := 262_144

  /** A length of at most two, then so many words. */
  function ReadDynamicWords(data: seq<Byte>, offset: nat): Option<seq<U256>> {
    if offset % 32 != 0 then
      None
    else
      var length :- MatchCodec.WordUsize(data, offset);
      if length > 2 || offset + 32 + 32 * length > |data| then None
      else Some(ReadWords(data, offset + 32, length))
  }

  datatype Columns = Columns(conditions: seq<U256>, outcomes: seq<U256>, amounts: seq<U256>)

  function ReadColumns(args: seq<Byte>): Option<Columns> {
    var first :- MatchCodec.WordUsize(args, 0);
    var second :- MatchCodec.WordUsize(args, 32);
    var third :- MatchCodec.WordUsize(args, 64);
    if first != 96 then
      None
    else
      var conditions :- ReadDynamicWords(args, first);
      if conditions == [] || |conditions| > 2 || second != first + 32 + |conditions| * 32 then
        None
      else
        var outcomes :- ReadDynamicWords(args, second);
        if third != second + 32 + |outcomes| * 32 then
          None
        else
          var amounts :- ReadDynamicWords(args, third);
          if |outcomes| != |conditions| || |amounts| != |conditions| || third + 32 + |amounts| * 32 != |args| then
            None
          else
            Some(Columns(conditions, outcomes, amounts))
  }

  /** The words of a call with these columns. */
  ghost function ColumnWords(c: Columns): seq<U256>
    requires |c.conditions| <= 2 && |c.outcomes| <= 2 && |c.amounts| <= 2
  {
    [96, 128 + 32 * |c.conditions|, 160 + 32 * |c.conditions| + 32 * |c.outcomes|]
    + ([|c.conditions|] + c.conditions) + ([|c.outcomes|] + c.outcomes) + ([|c.amounts|] + c.amounts)
  }

  ghost predicate Even(c: Columns) {
    1 <= |c.conditions| <= 2 && |c.outcomes| == |c.conditions| && |c.amounts| == |c.conditions|
  }

  lemma ReadDynamicIs(data: seq<Byte>, offset: nat, ws: seq<U256>)
    requires offset % 32 == 0
    ensures ReadDynamicWords(data, offset) == Some(ws) <==> |ws| <= 2 && WordsAt(data, offset, [|ws| as nat] + ws)
  {
    hide WordAt, WordSpan;
    if |ws| <= 2 {
      var length: U256 := |ws|;
      WordsAtConcat(data, offset, [length], ws);
      WordsAtOne(data, offset, length);
      if WordsAt(data, offset, [length] + ws) {
        WordsAtInside(data, offset, [length] + ws);
        ReadWordsIs(data, offset + 32, ws);
      }
    }
  }

  /** The parts of the layout, each where it must be. */
  ghost predicate LaidOut(args: seq<Byte>, c: Columns)
    requires Even(c)
  {
    var n := |c.conditions|;
    && |args| == 192 + 96 * n
    && WordAt(args, 0) == Some(96) && WordAt(args, 32) == Some(128 + 32 * n) && WordAt(args, 64) == Some(160 + 64 * n)
    && WordsAt(args, 96, [n] + c.conditions) && WordsAt(args, 128 + 32 * n, [n] + c.outcomes)
    && WordsAt(args, 160 + 64 * n, [n] + c.amounts)
  }

  lemma LaidOutIsWritten(args: seq<Byte>, c: Columns)
    requires Even(c)
    ensures LaidOut(args, c) <==> args == WriteWords(ColumnWords(c))
  {
    hide WordAt, WordsAt, WordSpan, WriteWords;
    var n: U256 := |c.conditions|;
    var head: seq<U256> := [96, 128 + 32 * n, 160 + 64 * n];
    var x, y, z := [n] + c.conditions, [n] + c.outcomes, [n] + c.amounts;
    assert ColumnWords(c) == head + x + y + z;
    RunIsWordByWord(args, 0, [96, 128 + 32 * n, 160 + 64 * n], 3);
    WordsAtConcat(args, 0, head, x);
    WordsAtConcat(args, 0, head + x, y);
    WordsAtConcat(args, 0, head + x + y, z);
    if |args| == 32 * |ColumnWords(c)| {
      WordsAtIsSlice(args, 0, ColumnWords(c));
      assert args[0..|args|] == args;
    }
  }

  /** The columns are read exactly from their one layout. */
  lemma ReadColumnsIs(args: seq<Byte>, c: Columns)
    ensures ReadColumns(args) == Some(c) <==> Even(c) && LaidOut(args, c)
  {
    hide WordAt, WordsAt, WordSpan, ReadDynamicWords;
    if Even(c) {
      var n := |c.conditions|;
      ReadDynamicIs(args, 96, c.conditions);
      ReadDynamicIs(args, 128 + 32 * n, c.outcomes);
      ReadDynamicIs(args, 160 + 64 * n, c.amounts);
    }
  }

  // ----- rows

  /** One or two rows, of different outcomes, of more than nothing. */
  ghost predicate ValidRows(rows: seq<Row>) {
    && 1 <= |rows| <= 2
    && (forall k :: 0 <= k < |rows| ==> rows[k].amount > 0)
    && (|rows| == 2 ==> rows[0].outcome != rows[1].outcome)
  }

  ghost function ColumnsOf(rows: seq<Row>, setup: Setup): Columns {
    Columns(seq(|rows|, i => setup.legacyCondition),
            seq(|rows|, i requires 0 <= i < |rows| => rows[i].outcome),
            seq(|rows|, i requires 0 <= i < |rows| => rows[i].amount))
  }

  /** The one encoding of some rows; the selector is checked before the rows are read. */
  ghost predicate Encodes(input: seq<Byte>, rows: seq<Row>, setup: Setup) {
    ValidRows(rows) && |input| >= 4 && input[4..] == WriteWords(ColumnWords(ColumnsOf(rows, setup)))
  }

  /** Row k of the columns, if it may stand there. */
  function RowAt(c: Columns, k: nat, setup: Setup): Option<Row>
    requires k < |c.conditions| == |c.outcomes| == |c.amounts|
  {
    if c.conditions[k] != setup.legacyCondition || c.amounts[k] == 0 || c.outcomes[k] >= 2 then None
    else Some(Row(c.outcomes[k], c.amounts[k]))
  }

  method RowsFrom(c: Columns, setup: Setup) returns (r: Option<seq<Row>>)
    requires Even(c)
    ensures forall rows :: r == Some(rows) <==> ValidRows(rows) && ColumnsOf(rows, setup) == c
  {
    hide WordSpan;
    var rows: seq<Row> := [];
    var seen := [false, false];
    for k := 0 to |c.conditions|
      invariant |rows| == k && |seen| == 2
      invariant forall j :: 0 <= j < k ==> RowAt(c, j, setup) == Some(rows[j])
      invariant k == 2 ==> rows[0].outcome != rows[1].outcome
      invariant k == 1 ==> seen == [rows[0].outcome == 0, rows[0].outcome == 1]
      invariant k == 0 ==> seen == [false, false]
    {
      var row := RowAt(c, k, setup);
      if row.None? || seen[row.value.outcome] {
        forall rows' | ValidRows(rows')
          ensures ColumnsOf(rows', setup) != c
        {
          if ColumnsOf(rows', setup) == c { SameColumnsSameRows(c, rows', setup); }
        }
        return None;
      }
      seen := seen[row.value.outcome := true];
      rows := rows + [row.value];
    }
    RowsHaveColumns(c, rows, setup);
    forall rows' | ValidRows(rows') && ColumnsOf(rows', setup) == c
      ensures rows' == rows
    {
      SameColumnsSameRows(c, rows', setup);
    }
    r := Some(rows);
  }

  lemma SameColumnsSameRows(c: Columns, rows: seq<Row>, setup: Setup)
    requires ValidRows(rows) && ColumnsOf(rows, setup) == c
    ensures |rows| == |c.conditions| == |c.outcomes| == |c.amounts|
    ensures forall j :: 0 <= j < |rows| ==> RowAt(c, j, setup) == Some(rows[j])
  {
    hide WordSpan;
    forall j | 0 <= j < |rows|
      ensures RowAt(c, j, setup) == Some(rows[j])
    {
      assert c.conditions[j] == setup.legacyCondition;
      assert c.outcomes[j] == rows[j].outcome && c.amounts[j] == rows[j].amount;
    }
  }

  lemma RowsHaveColumns(c: Columns, rows: seq<Row>, setup: Setup)
    requires Even(c) && |rows| == |c.conditions|
    requires forall j :: 0 <= j < |rows| ==> RowAt(c, j, setup) == Some(rows[j])
    ensures ColumnsOf(rows, setup) == c
  {
    hide WordSpan;
    var x := ColumnsOf(rows, setup);
    forall j | 0 <= j < |rows|
      ensures x.conditions[j] == c.conditions[j] && x.outcomes[j] == c.outcomes[j] && x.amounts[j] == c.amounts[j]
    {
      assert RowAt(c, j, setup) == Some(rows[j]);
    }
    assert x.conditions == c.conditions && x.outcomes == c.outcomes && x.amounts == c.amounts;
  }

  /** Decodes the rows of a call; the result is some rows exactly when the bytes encode them. */
  method DecodeRows(input: seq<Byte>, setup: Setup) returns (r: Option<seq<Row>>)
    ensures forall rows :: r == Some(rows) <==> Encodes(input, rows, setup)
  {
    hide WriteWords, ColumnWords, ReadColumns, ColumnsOf, WordSpan;
    forall rows | Encodes(input, rows, setup)
      ensures 100 <= |input| <= MAX_CALLDATA_BYTES && |input| % 32 == 4
      ensures ReadColumns(input[4..]) == Some(ColumnsOf(rows, setup))
    {
      EncodedReads(input, rows, setup);
    }
    if |input| < 4 + 96 || |input| > MAX_CALLDATA_BYTES || |input| % 32 != 4 { return None; }
    var columns := ReadColumns(input[4..]);
    if columns.None? { return None; }
    ReadColumnsIs(input[4..], columns.value);
    LaidOutIsWritten(input[4..], columns.value);
    r := RowsFrom(columns.value, setup);
  }

  lemma EncodedReads(input: seq<Byte>, rows: seq<Row>, setup: Setup)
    requires Encodes(input, rows, setup)
    ensures 100 <= |input| <= MAX_CALLDATA_BYTES && |input| % 32 == 4
    ensures ReadColumns(input[4..]) == Some(ColumnsOf(rows, setup))
  {
    hide WordSpan, ReadColumns, WriteWords, ColumnWords, WordAt, WordsAt;
    var c := ColumnsOf(rows, setup);
    LaidOutIsWritten(input[4..], c);
    ReadColumnsIs(input[4..], c);
  }

  /** No input encodes two different lists of rows. */
  lemma EncodingIsUnique(input: seq<Byte>, a: seq<Row>, b: seq<Row>, setup: Setup)
    requires Encodes(input, a, setup) && Encodes(input, b, setup)
    ensures a == b
  {
    hide WordSpan, Encodes, ReadColumns;
    EncodedReads(input, a, setup);
    EncodedReads(input, b, setup);
    RowsAreInColumns(a, b, setup);
  }

  lemma RowsAreInColumns(a: seq<Row>, b: seq<Row>, setup: Setup)
    requires ColumnsOf(a, setup) == ColumnsOf(b, setup)
    ensures a == b
  {
    hide WordSpan;
    var x, y := ColumnsOf(a, setup), ColumnsOf(b, setup);
    forall j | 0 <= j < |a|
      ensures a[j] == b[j]
    {
      assert x.outcomes[j] == a[j].outcome && y.outcomes[j] == b[j].outcome;
      assert x.amounts[j] == a[j].amount && y.amounts[j] == b[j].amount;
    }
  }
}
