/** The balance-diff engine: joins a transaction's pre- and post-token-balance lists on
    (account index, mint) and turns every changed balance into a transfer record.

    The functions below define the result; ParseTokenTransfers computes it the way the
    source does, building the map in place and pushing records in a loop. The lists are
    folded from their last element so that a loop over a prefix `s[..i]` meets the
    definition at every step. */
module BalanceDiff {
  import opened Ledger

  /** The value stored under a key: the snapshots seen before and after the transaction. */
  datatype Entry = Entry(pre: Option<TokenBalance>, post: Option<TokenBalance>)

  /** A JavaScript `Map` from keys to entries: `keys` lists the keys in the order they were
      first inserted, `entries` holds each key's current value. */
  datatype BalanceMap = BalanceMap(keys: seq<Key>, entries: map<Key, Entry>)

  /** The TypeError raised by `account.toBase58()` when the resolved account index (or
      `undefined`) does not name an entry of `staticAccountKeys`. */
  datatype ParseError = UnresolvedAccount(accountIndex: Option<nat>)

  predicate Distinct<T(==)>(s: seq<T>) {
    forall i, j :: 0 <= i < j < |s| ==> s[i] != s[j]
  }

  /** Every key is listed once, and the listed keys are exactly the stored ones. */
  ghost predicate WellFormed(m: BalanceMap) {
    Distinct(m.keys) && forall k :: k in m.entries <==> k in m.keys
  }

  /** `Map.prototype.set`: a new key goes to the end, an existing key keeps its place. */
  function Set(m: BalanceMap, k: Key, e: Entry): (r: BalanceMap)
    requires WellFormed(m)
    ensures WellFormed(r)
  {
    BalanceMap(if k in m.entries then m.keys else m.keys + [k], m.entries[k := e])
  }

  /** The map after `preBalances.forEach(b => balanceMap.set(key, { pre: b, post: null }))`
      on a new map. */
  function SeedPres(bs: seq<TokenBalance>): (m: BalanceMap)
    ensures WellFormed(m)
    decreases |bs|
  {
    if bs == [] then BalanceMap([], map[])
    else
      var b := bs[|bs| - 1];
      Set(SeedPres(bs[..|bs| - 1]), KeyOf(b), Entry(Some(b), None))
  }

  /** One step of the post-balance pass: an existing entry has its `post` replaced in
      place; a new key gets `{ pre: null, post: b }`. */
  function OverlayPost(m: BalanceMap, b: TokenBalance): (r: BalanceMap)
    requires WellFormed(m)
    ensures WellFormed(r)
  {
    var k := KeyOf(b);
    if k in m.entries then m.(entries := m.entries[k := m.entries[k].(post := Some(b))])
    else Set(m, k, Entry(None, Some(b)))
  }

  function OverlayPosts(m: BalanceMap, bs: seq<TokenBalance>): (r: BalanceMap)
    requires WellFormed(m)
    ensures WellFormed(r)
    decreases |bs|
  {
    if bs == [] then m
    else OverlayPost(OverlayPosts(m, bs[..|bs| - 1]), bs[|bs| - 1])
  }

  /** `balanceMap` once both passes are done. */
  function Merge(pre: seq<TokenBalance>, post: seq<TokenBalance>): (m: BalanceMap)
    ensures WellFormed(m)
  {
    OverlayPosts(SeedPres(pre), post)
  }

  /** `pre?.mint || post?.mint`: an empty mint is falsy and falls through to `post`. */
  function ResolveMint(e: Entry): Option<string> {
    if e.pre.Some? && e.pre.value.mint != "" then Some(e.pre.value.mint)
    else if e.post.Some? then Some(e.post.value.mint)
    else None
  }

  /** `pre?.accountIndex || post?.accountIndex`: index 0 is falsy and falls through, so a
      pre-only entry at index 0 resolves to `undefined`. */
  function ResolveIndex(e: Entry): Option<nat> {
    if e.pre.Some? && e.pre.value.accountIndex != 0 then Some(e.pre.value.accountIndex)
    else if e.post.Some? then Some(e.post.value.accountIndex)
    else None
  }

  /** `pre?.uiTokenAmount.decimals || post?.uiTokenAmount.decimals || 0`. */
  function ResolveDecimals(e: Entry): nat {
    if e.pre.Some? && e.pre.value.decimals != 0 then e.pre.value.decimals
    else if e.post.Some? && e.post.value.decimals != 0 then e.post.value.decimals
    else 0
  }

  /** A raw amount, with an absent snapshot counting as `0n`. */
  function Raw(b: Option<TokenBalance>): int {
    if b.Some? then b.value.amount else 0
  }

  function Difference(e: Entry): int {
    Raw(e.post) - Raw(e.pre)
  }

  /** The filter `if (targetTokenMint && mint !== targetTokenMint) continue`: no target,
      or an empty one, lets every mint through. */
  predicate PassesFilter(target: Option<string>, mint: Option<string>) {
    !(target.Some? && target.value != "" && mint != Some(target.value))
  }

  /** `transaction.transaction.signatures[0]`. */
  function FirstSignature(tx: Transaction): Option<string> {
    if |tx.signatures| > 0 then Some(tx.signatures[0]) else None
  }

  /** The record pushed for a changed entry, or the error its account lookup raises. */
  function TransferOf(tx: Transaction, e: Entry): Result<Transfer, ParseError> {
    var index := ResolveIndex(e);
    if index.None? || index.value >= |tx.staticAccountKeys| then Err(UnresolvedAccount(index))
    else
      var difference := Difference(e);
      Ok(Transfer(FirstSignature(tx), ResolveMint(e), tx.staticAccountKeys[index.value],
                  difference, ResolveDecimals(e), tx.slot, tx.blockTime,
                  if difference > 0 then Receive else Send))
  }

  /** The third pass over the keys `ks`, in order: skip filtered and unchanged entries,
      push a record for each other one, and stop at the first error. */
  function Emit(tx: Transaction, entries: map<Key, Entry>, target: Option<string>, ks: seq<Key>)
    : Result<seq<Transfer>, ParseError>
    requires forall i :: 0 <= i < |ks| ==> ks[i] in entries
    decreases |ks|
  {
    if ks == [] then Ok([])
    else
      match Emit(tx, entries, target, ks[..|ks| - 1])
      case Err(err) => Err(err)
      case Ok(ts) =>
        var e := entries[ks[|ks| - 1]];
        if !PassesFilter(target, ResolveMint(e)) || Difference(e) == 0 then Ok(ts)
        else
          match TransferOf(tx, e)
          case Err(err) => Err(err)
          case Ok(t) => Ok(ts + [t])
  }

  /** `!transaction.meta || !meta.preTokenBalances || !meta.postTokenBalances`. */
  predicate MetaMissing(tx: Transaction) {
    tx.meta.None? || tx.meta.value.preTokenBalances.None? || tx.meta.value.postTokenBalances.None?
  }

  /** The balance lists the diff reads; empty when the metadata is missing. */
  function PreBalances(tx: Transaction): seq<TokenBalance> {
    if MetaMissing(tx) then [] else tx.meta.value.preTokenBalances.value
  }

  function PostBalances(tx: Transaction): seq<TokenBalance> {
    if MetaMissing(tx) then [] else tx.meta.value.postTokenBalances.value
  }

  /** What `parseTokenTransfers(transaction, targetTokenMint)` resolves to, or the error it
      rejects with. */
  function TokenTransfers(tx: Transaction, target: Option<string>): Result<seq<Transfer>, ParseError> {
    if MetaMissing(tx) then Ok([])
    else
      var m := Merge(PreBalances(tx), PostBalances(tx));
      Emit(tx, m.entries, target, m.keys)
  }

  /** Once a prefix of the keys fails, the whole pass fails with the same error. */
  lemma {:induction false} EmitErrorPersists(tx: Transaction, entries: map<Key, Entry>, target: Option<string>,
                                             ks: seq<Key>, n: nat)
    requires forall i :: 0 <= i < |ks| ==> ks[i] in entries
    requires n <= |ks| && Emit(tx, entries, target, ks[..n]).Err?
    ensures Emit(tx, entries, target, ks) == Emit(tx, entries, target, ks[..n])
    decreases |ks| - n
  {
    if n < |ks| {
      var longer := ks[..n + 1];
      assert longer[..n] == ks[..n];
      EmitErrorPersists(tx, entries, target, ks, n + 1);
    } else {
      assert ks[..n] == ks;
    }
  }

  /** The pre-balance pass: `balanceMap.set(key, { pre: balance, post: null })` for each
      pre-balance, on a new map. */
  method SeedBalanceMap(pre: seq<TokenBalance>) returns (keys: seq<Key>, entries: map<Key, Entry>)
    ensures BalanceMap(keys, entries) == SeedPres(pre)
  {
    keys, entries := [], map[];
    var i := 0;
    while i < |pre|
      invariant 0 <= i <= |pre|
      invariant BalanceMap(keys, entries) == SeedPres(pre[..i])
    {
      var balance := pre[i];
      var key := KeyOf(balance);
      assert pre[..i + 1][..i] == pre[..i];
      if key !in entries {
        keys := keys + [key];
      }
      entries := entries[key := Entry(Some(balance), None)];
      i := i + 1;
    }
    assert pre[..i] == pre;
  }

  /** The post-balance pass: an existing entry gets its `post` set in place, a new key is
      set to `{ pre: null, post: balance }`. */
  method OverlayBalanceMap(keys0: seq<Key>, entries0: map<Key, Entry>, post: seq<TokenBalance>)
    returns (keys: seq<Key>, entries: map<Key, Entry>)
    requires WellFormed(BalanceMap(keys0, entries0))
    ensures BalanceMap(keys, entries) == OverlayPosts(BalanceMap(keys0, entries0), post)
  {
    keys, entries := keys0, entries0;
    var i := 0;
    while i < |post|
      invariant 0 <= i <= |post|
      invariant BalanceMap(keys, entries) == OverlayPosts(BalanceMap(keys0, entries0), post[..i])
    {
      var balance := post[i];
      var key := KeyOf(balance);
      assert post[..i + 1][..i] == post[..i];
      if key in entries {
        entries := entries[key := entries[key].(post := Some(balance))];
      } else {
        keys := keys + [key];
        entries := entries[key := Entry(None, Some(balance))];
      }
      i := i + 1;
    }
    assert post[..i] == post;
  }

  /** The pass over the merged keys, pushing one record per changed, unfiltered entry. */
  method EmitTransfers(tx: Transaction, keys: seq<Key>, entries: map<Key, Entry>, target: Option<string>)
    returns (r: Result<seq<Transfer>, ParseError>)
    requires forall j :: 0 <= j < |keys| ==> keys[j] in entries
    ensures r == Emit(tx, entries, target, keys)
  {
    var transfers: seq<Transfer> := [];
    var i := 0;
    while i < |keys|
      invariant 0 <= i <= |keys|
      invariant Emit(tx, entries, target, keys[..i]) == Ok(transfers)
    {
      ghost var done := keys[..i + 1];
      assert done[..i] == keys[..i];
      var entry := entries[keys[i]];
      var mint := ResolveMint(entry);
      if target.Some? && target.value != "" && mint != Some(target.value) {
        assert Emit(tx, entries, target, done) == Ok(transfers);
        i := i + 1;
        continue;
      }
      var difference := Raw(entry.post) - Raw(entry.pre);
      if difference != 0 {
        var accountIndex := ResolveIndex(entry);
        if accountIndex.None? || accountIndex.value >= |tx.staticAccountKeys| {
          r := Err(UnresolvedAccount(accountIndex));
          assert done[i] == keys[i] && TransferOf(tx, entry) == Err(UnresolvedAccount(accountIndex));
          assert Emit(tx, entries, target, done) == r;
          EmitErrorPersists(tx, entries, target, keys, i + 1);
          return;
        }
        var account := tx.staticAccountKeys[accountIndex.value];
        var transfer := Transfer(FirstSignature(tx), mint, account, difference,
                                 ResolveDecimals(entry), tx.slot, tx.blockTime,
                                 if difference > 0 then Receive else Send);
        assert TransferOf(tx, entry) == Ok(transfer);
        transfers := transfers + [transfer];
      }
      assert Emit(tx, entries, target, done) == Ok(transfers);
      i := i + 1;
    }
    assert keys[..i] == keys;
    r := Ok(transfers);
  }

  /** parseTokenTransfers: the two passes that build `balanceMap`, then the pass that pushes
      the records. */
  method ParseTokenTransfers(tx: Transaction, target: Option<string>) returns (r: Result<seq<Transfer>, ParseError>)
    ensures r == TokenTransfers(tx, target)
  {
    if tx.meta.None? || tx.meta.value.preTokenBalances.None? || tx.meta.value.postTokenBalances.None? {
      return Ok([]);
    }
    var keys, entries := SeedBalanceMap(tx.meta.value.preTokenBalances.value);
    keys, entries := OverlayBalanceMap(keys, entries, tx.meta.value.postTokenBalances.value);
    r := EmitTransfers(tx, keys, entries, target);
  }
}
