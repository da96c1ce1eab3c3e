/** The records the token monitor reads from the ledger client (token balance
    snapshots and transaction records) and the transfer records it derives from them. */
module Ledger {

  datatype Option<+T> = None | Some(value: T)

  datatype Result<+T, +E> = Ok(value: T) | Err(error: E)

  /** An account address. Its base58 text form is not modelled: addresses are opaque. */
  datatype Address = Address(key: seq<bv8>)

  /** One entry of a transaction's pre- or post-token-balance list. `amount` is the raw
      amount (the decimal string `uiTokenAmount.amount` read as an unbounded integer, as
      `BigInt` reads it) and `decimals` is `uiTokenAmount.decimals`. */
  datatype TokenBalance = TokenBalance(accountIndex: nat, mint: string, amount: int, decimals: nat)

  /** The join key `${accountIndex}-${mint}`. The index is a non-negative integer written
      in decimal, so it never contains `-`: distinct pairs give distinct strings, and the
      pair stands for the string exactly. */
  datatype Key = Key(accountIndex: nat, mint: string)

  function KeyOf(b: TokenBalance): Key {
    Key(b.accountIndex, b.mint)
  }

  /** `transaction.meta`; either balance list may be missing. */
  datatype Meta = Meta(preTokenBalances: Option<seq<TokenBalance>>, postTokenBalances: Option<seq<TokenBalance>>)

  /** The part of a fetched transaction record the monitor reads. */
  datatype Transaction = Transaction(
    slot: int,
    blockTime: Option<int>,
    signatures: seq<string>,
    staticAccountKeys: seq<Address>,
    meta: Option<Meta>)

  /** The `type` field: `'receive'` or `'send'`. */
  datatype Direction = Receive | Send

  /** One transfer record handed to the transfer handler. `signature` is `signatures[0]`
      (absent when the list is empty) and `mint` is absent when it resolves to `undefined`. */
  datatype Transfer = Transfer(
    signature: Option<string>,
    mint: Option<string>,
    account: Address,
    amount: int,
    decimals: nat,
    slot: int,
    blockTime: Option<int>,
    direction: Direction)
}
