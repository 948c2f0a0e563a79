/** The evidence of an interval: blocks of transactions with their receipt logs, and the
    balances that are authenticated at the end of each block. */
module Receipts {
  import opened Words
  import opened Ledger

  datatype Transaction = Transaction(
    hash: Hash, index: U64, succeeded: bool, to: Option<Address>, input: Option<seq<Byte>>,
    recoveredFrom: Option<Address>, replayProtected: bool, value: U256,
    logs: seq<Log>, logIndexes: seq<U64>)
  {
    ghost predicate Valid() { |logIndexes| == |logs| }
  }

  /** An owner's balances of the two positions and of cash. */
  datatype Balances = Balances(a: U256, b: U256, cash: U256)

  datatype Block = Block(number: U64, hash: Hash, transactions: seq<Transaction>, authenticated: Balances)

  /** The logs of the first n transactions of a block. */
  ghost function TransactionsLogs(txs: seq<Transaction>, n: nat): seq<Log>
    requires n <= |txs|
  {
    if n == 0 then [] else TransactionsLogs(txs, n - 1) + txs[n - 1].logs
  }

  ghost function BlockLogs(block: Block): seq<Log> { TransactionsLogs(block.transactions, |block.transactions|) }

  /** The logs of the first n blocks. */
  ghost function BlocksLogs(blocks: seq<Block>, n: nat): seq<Log>
    requires n <= |blocks|
  {
    if n == 0 then [] else BlocksLogs(blocks, n - 1) + BlockLogs(blocks[n - 1])
  }
}
