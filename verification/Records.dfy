/**
 Node records: the five fields of a node entry as values, and the amounts that the
 ledger is built on.
 */
module Records {
  import opened Bytes

  /** Writing keys, bootstraps, hashes and nonces are 32 bytes long. */
  type Key = k: seq<byte> | |k| == 32 witness ZERO_WK

  const EIGHT_ZEROS: seq<byte> := [0, 0, 0, 0, 0, 0, 0, 0]
  const ZERO_WK: seq<byte> := EIGHT_ZEROS + EIGHT_ZEROS + EIGHT_ZEROS + EIGHT_ZEROS

  /** Every amount is a 16-byte number. */
  type Amount = v: nat | v < AMOUNT_LIMIT

  const AMOUNT_LIMIT: nat := 0x1_0000_0000_0000_0000_0000_0000_0000_0000

  /** Addresses: the text and its ASCII buffer stand for one value. */
  type Address = string

  datatype Role = Reader | Whitelisted | Writer | Indexer {
    /** The isWriter flag: bit 1 of the role mask, set for writers and indexers. */
    predicate IsActive() {
      Writer? || Indexer?
    }
  }

  datatype Entry = Entry(role: Role, wk: Key, balance: nat, license: nat, stake: nat) {
    /** What the entry adds to the money in the system. */
    function Worth(): nat {
      balance + stake
    }
  }

  const FEE: nat := 30_000_000_000_000_000
  const STAKE: nat := 10 * FEE
  const ADMIN_INITIAL_BALANCE: nat := 1_000_000_000_000_000_000_000
  const LICENSE_LIMIT: nat := 0x1_0000_0000

  /** The pool publishes at most as many operations at once as one call of apply takes. */
  const BATCH_SIZE: nat := 10
}
