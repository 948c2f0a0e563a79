/** Where every argument of the other calls stands in their calldata, as the number that its bytes
    write: what the decoders read, whatever an encoder would write. */
module CallReading {
  import opened Words
  import opened Bytes
  import Migration
  import MigrationCodec
  import ModuleCalls
  import CtfCalls

  /** The first four bytes of a call. */
  ghost predicate StartsWith(input: seq<Byte>, selector: seq<Byte>) { |input| >= 4 && input[..4] == selector }

  /** These numbers and nothing else, one word after the other. */
  ghost predicate Consists(args: seq<Byte>, numbers: seq<nat>) {
    |args| == 32 * |numbers| && forall i :: 0 <= i < |numbers| ==> Number(args, 32 * i) == numbers[i]
  }

  lemma ConsistsOf(args: seq<Byte>, numbers: seq<nat>)
    requires 2 <= |numbers| <= 6
    ensures Consists(args, numbers) <==>
      && |args| == 32 * |numbers| && Number(args, 0) == numbers[0] && Number(args, 32) == numbers[1]
      && (|numbers| > 2 ==> Number(args, 64) == numbers[2]) && (|numbers| > 3 ==> Number(args, 96) == numbers[3])
      && (|numbers| > 4 ==> Number(args, 128) == numbers[4]) && (|numbers| > 5 ==> Number(args, 160) == numbers[5])
  {
    hide Number;
    if Consists(args, numbers) {
      assert Number(args, 32 * 0) == numbers[0] && Number(args, 32 * 1) == numbers[1];
      assert |numbers| > 2 ==> Number(args, 32 * 2) == numbers[2];
      assert |numbers| > 3 ==> Number(args, 32 * 3) == numbers[3];
      assert |numbers| > 4 ==> Number(args, 32 * 4) == numbers[4];
      assert |numbers| > 5 ==> Number(args, 32 * 5) == numbers[5];
    }
  }

  // ----- the module

  /** A call of the module, by its selector and the numbers of its arguments. */
  ghost predicate ModuleCallStands(input: seq<Byte>, call: ModuleCalls.ModuleCall, p: ModuleCalls.Parties) {
    call.amount > 0 && |input| >= 4
    && var args := input[4..];
       match call
       case Split(amount) =>
         && StartsWith(input, [0x2d, 0x20, 0xcf, 0xfd]) && p.condition % 256 == 0
         && Consists(args, [96, p.condition, amount, 2, p.owner, p.owner])
       case Merge(amount) =>
         && StartsWith(input, [0x1d, 0x47, 0x9a, 0x82]) && p.condition % 256 == 0
         && Consists(args, [p.owner, p.condition, amount])
       case Redeem(id, amount) =>
         && StartsWith(input, [0x2b, 0x83, 0xcc, 0xcd]) && (id == p.idA || id == p.idB)
         && Consists(args, [p.owner, id, amount])
  }

  lemma ModuleCallReads(input: seq<Byte>, call: ModuleCalls.ModuleCall, p: ModuleCalls.Parties)
    ensures ModuleCalls.ParseModuleCall(input, p) == Some(call) <==> ModuleCallStands(input, call, p)
  {
    hide WordSpan, AddressSpan, FromBytes, Consists;
    if |input| >= 4 {
      var args := input[4..];
      match call
      case Split(amount) => ConsistsOf(args, [96, p.condition, amount, 2, p.owner, p.owner]);
      case Merge(amount) => ConsistsOf(args, [p.owner, p.condition, amount]);
      case Redeem(id, amount) => ConsistsOf(args, [p.owner, id, amount]);
    }
  }

  ghost predicate FundingStands(input: seq<Byte>, call: ModuleCalls.FundingCall, p: ModuleCalls.Parties) {
    call.amount > 0 && |input| >= 4
    && var args := input[4..];
       match call
       case FundPusd(amount) =>
         StartsWith(input, [0xa9, 0x05, 0x9c, 0xbb]) && Consists(args, [p.module_, amount])
       case FundPosition(id, amount) =>
         && StartsWith(input, [0xf2, 0x42, 0x43, 0x2a]) && (id == p.idA || id == p.idB)
         && Consists(args, [p.owner, p.module_, id, amount, 160, 0])
  }

  lemma FundingReads(input: seq<Byte>, call: ModuleCalls.FundingCall, p: ModuleCalls.Parties)
    ensures ModuleCalls.ParsePusdFunding(input, p) == Some(call) <==> call.FundPusd? && FundingStands(input, call, p)
    ensures ModuleCalls.ParsePositionFunding(input, p) == Some(call)
      <==> call.FundPosition? && FundingStands(input, call, p)
  {
    hide WordSpan, AddressSpan, FromBytes, Consists;
    if |input| >= 4 {
      var args := input[4..];
      match call
      case FundPusd(amount) => ConsistsOf(args, [p.module_, amount]);
      case FundPosition(id, amount) => ConsistsOf(args, [p.owner, p.module_, id, amount, 160, 0]);
    }
  }

  // ----- the conditional tokens

  /** A length, so many numbers, and the end. */
  ghost predicate EndsWith(args: seq<Byte>, at: nat, numbers: seq<nat>) {
    && |args| == at + 32 + 32 * |numbers| && Number(args, at) == |numbers|
    && forall i :: 0 <= i < |numbers| ==> Number(args, at + 32 + 32 * i) == numbers[i]
  }

  lemma DecodedWordsEnd(args: seq<Byte>, at: nat, max: nat, ws: seq<U256>)
    requires max < TWO_64
    ensures CtfCalls.DecodeWords(args, at, max) == Some(ws) <==> |ws| <= max && EndsWith(args, at, ws)
    ensures EndsWith(args, at, ws) ==> |args| == at + 32 + 32 * |ws|
  {
    hide WordSpan, FromBytes;
    CtfCalls.DecodeWordsIs(args, at, max, ws);
    if |ws| <= max && |args| == at + 32 + 32 * |ws| {
      var length: U256 := |ws|;
      var all := [length] + ws;
      assert forall i :: 0 <= i < |all| ==> all[i] == if i == 0 then |ws| else ws[i - 1];
      if EndsWith(args, at, ws) {
        forall i | 0 <= i < |all|
          ensures WordAt(args, at + 32 * i) == Some(all[i])
        {
          if i > 0 { assert Number(args, at + 32 + 32 * (i - 1)) == ws[i - 1]; }
        }
      }
      if WordsAt(args, at, all) {
        forall i | 0 <= i < |ws|
          ensures Number(args, at + 32 + 32 * i) == ws[i]
        {
          assert WordAt(args, at + 32 * (i + 1)) == Some(all[i + 1]);
        }
        assert WordAt(args, at + 32 * 0) == Some(all[0]);
      }
    }
  }

  ghost predicate CtfCallStands(input: seq<Byte>, call: CtfCalls.OperationCall) {
    |input| >= 4
    && var args := input[4..];
       match call
       case Prepare(oracle, question, count) =>
         StartsWith(input, [0xd9, 0x6e, 0xe7, 0x54]) && Consists(args, [oracle, question, count])
       case Resolve(question, numerators) =>
         && StartsWith(input, [0xc4, 0x92, 0x98, 0xac]) && |numerators| <= 256
         && EndsWith(args, 64, numerators) && Number(args, 0) == question && Number(args, 32) == 64
       case Split(collateral, parent, condition, partition, amount) =>
         && StartsWith(input, [0x72, 0xce, 0x42, 0x75])
         && SetStands(args, collateral, parent, condition, partition, amount)
       case Merge(collateral, parent, condition, partition, amount) =>
         && StartsWith(input, [0x9e, 0x72, 0x12, 0xad])
         && SetStands(args, collateral, parent, condition, partition, amount)
       case Redeem(collateral, parent, condition, sets) =>
         && StartsWith(input, [0x01, 0xb7, 0x03, 0x7c]) && |sets| <= 128
         && (forall i :: 0 <= i < |sets| ==> sets[i] == 1 || sets[i] == 2)
         && EndsWith(args, 128, sets) && Number(args, 0) == collateral && Number(args, 32) == parent
         && Number(args, 64) == condition && Number(args, 96) == 128
  }

  /** The arguments of a split or a merge of a binary condition. */
  ghost predicate SetStands(args: seq<Byte>, collateral: nat, parent: nat, condition: nat, partition: seq<nat>,
                            amount: nat) {
    && (partition == [1, 2] || partition == [2, 1]) && EndsWith(args, 160, partition)
    && Number(args, 0) == collateral && Number(args, 32) == parent && Number(args, 64) == condition
    && Number(args, 96) == 160 && Number(args, 128) == amount
  }

  lemma SlotsByIndex(sets: seq<U256>)
    ensures CtfCalls.AreSlots(sets) <==> forall i :: 0 <= i < |sets| ==> sets[i] == 1 || sets[i] == 2
  {
    assert forall i :: 0 <= i < |sets| ==> sets[i] in sets;
  }

  /** The calls of the conditional tokens decode exactly from these bytes. */
  lemma CtfCallReads(input: seq<Byte>, call: CtfCalls.OperationCall)
    ensures CtfCalls.DecodeCall(input) == Some(call) <==> CtfCallStands(input, call)
  {
    hide WordSpan, AddressSpan, FromBytes, CtfCalls.DecodeWords, EndsWith, Consists;
    if |input| >= 4 {
      var args := input[4..];
      match call
      case Prepare(oracle, question, count) => ConsistsOf(args, [oracle, question, count]);
      case Resolve(_, numerators) => DecodedWordsEnd(args, 64, 256, numerators);
      case Split(_, _, _, partition, _) => DecodedWordsEnd(args, 160, 2, partition);
      case Merge(_, _, _, partition, _) => DecodedWordsEnd(args, 160, 2, partition);
      case Redeem(_, _, _, sets) =>
        DecodedWordsEnd(args, 128, 128, sets);
        SlotsByIndex(sets);
    }
  }

  // ----- migrations

  /** The numbers of a column: its length, then its entries. */
  ghost predicate ColumnStands(args: seq<Byte>, at: nat, numbers: seq<nat>) {
    && at + 32 + 32 * |numbers| <= |args| && Number(args, at) == |numbers|
    && forall i :: 0 <= i < |numbers| ==> Number(args, at + 32 + 32 * i) == numbers[i]
  }

  ghost predicate RowsStand(input: seq<Byte>, rows: seq<Migration.Row>, condition: Hash) {
    var n := |rows|;
    && |input| == 196 + 96 * n && 1 <= n <= 2
    && (forall i :: 0 <= i < n ==> rows[i].amount > 0) && (n == 2 ==> rows[0].outcome != rows[1].outcome)
    && var args := input[4..];
       && Number(args, 0) == 96 && Number(args, 32) == 128 + 32 * n && Number(args, 64) == 160 + 64 * n
       && ColumnStands(args, 96, seq(n, _ => condition))
       && ColumnStands(args, 128 + 32 * n, seq(n, i requires 0 <= i < n => rows[i].outcome))
       && ColumnStands(args, 160 + 64 * n, seq(n, i requires 0 <= i < n => rows[i].amount))
  }

  lemma ColumnIs(args: seq<Byte>, at: nat, ws: seq<U256>)
    requires |ws| <= 2
    ensures ColumnStands(args, at, ws) <==> WordsAt(args, at, [|ws| as nat] + ws)
  {
    hide WordSpan, FromBytes;
    var length: U256 := |ws|;
    WordsAtConcat(args, at, [length], ws);
    WordsAtOne(args, at, length);
    if WordsAt(args, at + 32, ws) {
      forall i | 0 <= i < |ws|
        ensures at + 64 + 32 * i <= |args| && Number(args, at + 32 + 32 * i) == ws[i]
      {
        assert WordAt(args, at + 32 + 32 * i) == Some(ws[i]);
      }
      if ws != [] { assert WordAt(args, at + 32 + 32 * (|ws| - 1)) == Some(ws[|ws| - 1]); }
    }
  }

  /** The rows of a migration are encoded exactly by these numbers. */
  lemma RowsRead(input: seq<Byte>, rows: seq<Migration.Row>, setup: Migration.Setup)
    ensures MigrationCodec.Encodes(input, rows, setup) <==> RowsStand(input, rows, setup.legacyCondition)
  {
    hide WordSpan, FromBytes, WriteWords, ColumnStands, WordsAt, MigrationCodec.ColumnWords;
    if 1 <= |rows| <= 2 && |input| >= 4 {
      var args, c, n := input[4..], MigrationCodec.ColumnsOf(rows, setup), |rows|;
      MigrationCodec.LaidOutIsWritten(args, c);
      ColumnIs(args, 96, c.conditions);
      ColumnIs(args, 128 + 32 * n, c.outcomes);
      ColumnIs(args, 160 + 64 * n, c.amounts);
    }
  }
}
