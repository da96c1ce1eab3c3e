/** What the balance-diff engine promises, stated against reference definitions that do
    not mention the map: the last snapshot for each key, the first-occurrence order of the
    keys, and the set of keys whose balance changed. */
module BalanceDiffProperties {
  import opened Ledger
  import opened BalanceDiff

  /** The keys of a balance list, in list order (repeats included). */
  function KeysOf(bs: seq<TokenBalance>): (ks: seq<Key>)
    decreases |bs|
  {
    if bs == [] then [] else KeysOf(bs[..|bs| - 1]) + [KeyOf(bs[|bs| - 1])]
  }

  /** The last snapshot for key k in a balance list: the one a repeated `set` leaves behind. */
  function LastFor(bs: seq<TokenBalance>, k: Key): Option<TokenBalance>
    decreases |bs|
  {
    if bs == [] then None
    else if KeyOf(bs[|bs| - 1]) == k then Some(bs[|bs| - 1])
    else LastFor(bs[..|bs| - 1], k)
  }

  /** The position of the first occurrence of x in s. */
  function FirstIndex<T(==)>(s: seq<T>, x: T): (i: nat)
    requires x in s
    ensures i < |s| && s[i] == x && x !in s[..i]
  {
    if s[0] == x then 0
    else
      var j := FirstIndex(s[1..], x);
      assert s[..j + 1] == [s[0]] + s[1..][..j];
      j + 1
  }

  /** Each element of `out` comes strictly earlier in `all` than the ones after it. */
  ghost predicate OrderedBy(out: seq<Key>, all: seq<Key>) {
    && (forall i :: 0 <= i < |out| ==> out[i] in all)
    && (forall i, j :: 0 <= i < j < |out| ==> FirstIndex(all, out[i]) < FirstIndex(all, out[j]))
  }

  /** `out` lists each element of `all` once, in the order of its first occurrence. */
  ghost predicate FirstOccurrenceOrder(out: seq<Key>, all: seq<Key>) {
    (forall x :: x in out <==> x in all) && OrderedBy(out, all)
  }

  /** The entry the merge should hold for key k: the last pre- and post-snapshot for it. */
  function EntryFor(pre: seq<TokenBalance>, post: seq<TokenBalance>, k: Key): Entry {
    Entry(LastFor(pre, k), LastFor(post, k))
  }

  /** Whether key k yields a transfer record: its balance changed and its mint passes. */
  predicate Emits(pre: seq<TokenBalance>, post: seq<TokenBalance>, target: Option<string>, k: Key) {
    var e := EntryFor(pre, post, k);
    Difference(e) != 0 && PassesFilter(target, ResolveMint(e))
  }

  /** The keys of ks that yield a record, in the order of ks. */
  function SelectKeys(ks: seq<Key>, pre: seq<TokenBalance>, post: seq<TokenBalance>, target: Option<string>)
    : (r: seq<Key>)
    ensures forall k :: k in r <==> k in ks && Emits(pre, post, target, k)
    decreases |ks|
  {
    if ks == [] then []
    else
      var rest := SelectKeys(ks[..|ks| - 1], pre, post, target);
      var k := ks[|ks| - 1];
      assert ks == ks[..|ks| - 1] + [k];
      if Emits(pre, post, target, k) then rest + [k] else rest
  }

  /** The keys that yield a record, in merge order. */
  function Selected(pre: seq<TokenBalance>, post: seq<TokenBalance>, target: Option<string>): seq<Key> {
    SelectKeys(Merge(pre, post).keys, pre, post, target)
  }

  /** The account lookup succeeds: the index is not a falsy 0 on a pre-only entry, and it
      is inside `staticAccountKeys`. */
  predicate AccountResolves(tx: Transaction, post: seq<TokenBalance>, k: Key) {
    !(k.accountIndex == 0 && LastFor(post, k).None?) && k.accountIndex < |tx.staticAccountKeys|
  }

  /** Record t is the one the source promises for key k. */
  predicate MatchesKey(tx: Transaction, pre: seq<TokenBalance>, post: seq<TokenBalance>,
                       target: Option<string>, k: Key, t: Transfer)
  {
    && t.amount == Raw(LastFor(post, k)) - Raw(LastFor(pre, k))
    && t.amount != 0
    && (t.direction == Receive <==> t.amount > 0)
    && k.accountIndex < |tx.staticAccountKeys|
    && t.account == tx.staticAccountKeys[k.accountIndex]
    && t.mint == ResolveMint(EntryFor(pre, post, k))
    && (k.mint != "" ==> t.mint == Some(k.mint))
    && PassesFilter(target, t.mint)
    && t.decimals == ResolveDecimals(EntryFor(pre, post, k))
    && t.signature == FirstSignature(tx)
    && t.slot == tx.slot
    && t.blockTime == tx.blockTime
  }

  // ----- the last snapshot per key -----

  lemma {:induction false} LastForHasKey(bs: seq<TokenBalance>, k: Key)
    ensures LastFor(bs, k).Some? <==> k in KeysOf(bs)
    ensures LastFor(bs, k).Some? ==> KeyOf(LastFor(bs, k).value) == k && LastFor(bs, k).value in bs
    decreases |bs|
  {
    if bs != [] {
      LastForHasKey(bs[..|bs| - 1], k);
    }
  }

  lemma {:induction false} SeedPresEntries(bs: seq<TokenBalance>)
    ensures forall k :: k in SeedPres(bs).entries <==> LastFor(bs, k).Some?
    ensures forall k :: k in SeedPres(bs).entries ==> SeedPres(bs).entries[k] == Entry(LastFor(bs, k), None)
    decreases |bs|
  {
    if bs != [] {
      SeedPresEntries(bs[..|bs| - 1]);
    }
  }

  lemma {:induction false} OverlayPostsEntries(pre: seq<TokenBalance>, bs: seq<TokenBalance>)
    ensures forall k :: k in OverlayPosts(SeedPres(pre), bs).entries <==> LastFor(pre, k).Some? || LastFor(bs, k).Some?
    ensures forall k :: k in OverlayPosts(SeedPres(pre), bs).entries ==>
      OverlayPosts(SeedPres(pre), bs).entries[k] == EntryFor(pre, bs, k)
    decreases |bs|
  {
    if bs == [] {
      SeedPresEntries(pre);
    } else {
      OverlayPostsEntries(pre, bs[..|bs| - 1]);
    }
  }

  /** The merged map holds exactly the keys seen in either list, and under each key the
      last pre-snapshot and the last post-snapshot for it (absent when there is none). */
  lemma MergeEntries(pre: seq<TokenBalance>, post: seq<TokenBalance>)
    ensures forall k :: k in Merge(pre, post).entries <==> k in KeysOf(pre) || k in KeysOf(post)
    ensures forall k :: k in Merge(pre, post).entries ==> Merge(pre, post).entries[k] == EntryFor(pre, post, k)
  {
    OverlayPostsEntries(pre, post);
    forall k ensures LastFor(pre, k).Some? <==> k in KeysOf(pre)
      ensures LastFor(post, k).Some? <==> k in KeysOf(post) {
      LastForHasKey(pre, k);
      LastForHasKey(post, k);
    }
  }

  // ----- the order of the keys -----

  lemma FirstIndexUnique<T>(s: seq<T>, x: T, j: nat)
    requires j < |s| && s[j] == x && x !in s[..j]
    ensures FirstIndex(s, x) == j
  {
    var i := FirstIndex(s, x);
  }

  lemma FirstIndexAppend<T>(s: seq<T>, y: T, x: T)
    requires x in s
    ensures FirstIndex(s + [y], x) == FirstIndex(s, x)
  {
    var i := FirstIndex(s, x);
    assert (s + [y])[..i] == s[..i];
    FirstIndexUnique(s + [y], x, i);
  }

  lemma FirstIndexAppendNew<T>(s: seq<T>, y: T)
    requires y !in s
    ensures FirstIndex(s + [y], y) == |s|
  {
    assert (s + [y])[..|s|] == s;
    FirstIndexUnique(s + [y], y, |s|);
  }

  lemma OrderedByAppendAll(out: seq<Key>, all: seq<Key>, k: Key)
    requires OrderedBy(out, all)
    ensures OrderedBy(out, all + [k])
  {
    forall i | 0 <= i < |out| ensures FirstIndex(all + [k], out[i]) == FirstIndex(all, out[i]) {
      FirstIndexAppend(all, k, out[i]);
    }
  }

  lemma OrderedByExtend(out: seq<Key>, all: seq<Key>, k: Key)
    requires OrderedBy(out, all) && k !in all
    ensures OrderedBy(out + [k], all + [k])
  {
    OrderedByAppendAll(out, all, k);
    FirstIndexAppendNew(all, k);
    var out' := out + [k];
    forall i | 0 <= i < |out'| ensures out'[i] in all + [k] {
      if i < |out| {
        assert out'[i] == out[i];
      }
    }
    forall i, j | 0 <= i < j < |out'|
      ensures FirstIndex(all + [k], out'[i]) < FirstIndex(all + [k], out'[j])
    {
      assert out'[i] == out[i];
      if j < |out| {
        assert out'[j] == out[j];
      }
    }
  }

  /** Inserting a key into the order list as `Map.set` does keeps the list in
      first-occurrence order of the inserted keys. */
  lemma InsertKeepsOrder(out: seq<Key>, all: seq<Key>, k: Key)
    requires FirstOccurrenceOrder(out, all)
    ensures FirstOccurrenceOrder(if k in out then out else out + [k], all + [k])
  {
    if k in out {
      OrderedByAppendAll(out, all, k);
    } else {
      OrderedByExtend(out, all, k);
    }
  }

  lemma {:induction false} SeedPresOrder(bs: seq<TokenBalance>)
    ensures FirstOccurrenceOrder(SeedPres(bs).keys, KeysOf(bs))
    decreases |bs|
  {
    if bs != [] {
      var m := SeedPres(bs[..|bs| - 1]);
      SeedPresOrder(bs[..|bs| - 1]);
      InsertKeepsOrder(m.keys, KeysOf(bs[..|bs| - 1]), KeyOf(bs[|bs| - 1]));
    }
  }

  lemma {:induction false} OverlayPostsOrder(pre: seq<TokenBalance>, bs: seq<TokenBalance>)
    ensures FirstOccurrenceOrder(OverlayPosts(SeedPres(pre), bs).keys, KeysOf(pre) + KeysOf(bs))
    decreases |bs|
  {
    if bs == [] {
      SeedPresOrder(pre);
      assert KeysOf(pre) + KeysOf(bs) == KeysOf(pre);
    } else {
      var front := bs[..|bs| - 1];
      var k := KeyOf(bs[|bs| - 1]);
      var m := OverlayPosts(SeedPres(pre), front);
      var all := KeysOf(pre) + KeysOf(front);
      var out := if k in m.keys then m.keys else m.keys + [k];
      OverlayPostsOrder(pre, front);
      InsertKeepsOrder(m.keys, all, k);
      assert OverlayPosts(SeedPres(pre), bs).keys == out;
      assert KeysOf(pre) + KeysOf(bs) == all + [k];
    }
  }

  /** The merged keys are the keys of the pre-balances in their order, then the keys seen
      only in the post-balances in theirs, each once: a repeated key stays where it was
      first inserted. */
  lemma MergeOrder(pre: seq<TokenBalance>, post: seq<TokenBalance>)
    ensures FirstOccurrenceOrder(Merge(pre, post).keys, KeysOf(pre) + KeysOf(post))
  {
    OverlayPostsOrder(pre, post);
  }

  lemma {:induction false} SelectKeysOrdered(ks: seq<Key>, all: seq<Key>, pre: seq<TokenBalance>,
                                             post: seq<TokenBalance>, target: Option<string>)
    requires OrderedBy(ks, all)
    ensures OrderedBy(SelectKeys(ks, pre, post, target), all)
    decreases |ks|
  {
    if ks != [] {
      var front := ks[..|ks| - 1];
      var k := ks[|ks| - 1];
      var rest := SelectKeys(front, pre, post, target);
      assert OrderedBy(front, all) by {
        forall i | 0 <= i < |front| ensures front[i] in all {
          assert front[i] == ks[i];
        }
        forall i, j | 0 <= i < j < |front|
          ensures FirstIndex(all, front[i]) < FirstIndex(all, front[j])
        {
          assert front[i] == ks[i] && front[j] == ks[j];
        }
      }
      SelectKeysOrdered(front, all, pre, post, target);
      if Emits(pre, post, target, k) {
        var r := rest + [k];
        forall i | 0 <= i < |r| ensures r[i] in all {
          if i < |rest| {
            assert r[i] == rest[i];
          } else {
            assert r[i] == ks[|ks| - 1];
          }
        }
        forall i, j | 0 <= i < j < |r|
          ensures FirstIndex(all, r[i]) < FirstIndex(all, r[j])
        {
          if j < |rest| {
            assert r[i] == rest[i] && r[j] == rest[j];
          } else {
            assert r[i] == rest[i] && rest[i] in front;
            var m :| 0 <= m < |front| && front[m] == rest[i];
            assert ks[m] == rest[i] && ks[|ks| - 1] == k;
          }
        }
      }
    }
  }

  /** The keys that yield a record: exactly the keys seen in either list whose post amount
      minus pre amount (an absent side counting as 0) is non-zero and whose mint passes the
      filter, each once, in first-insertion order. */
  lemma SelectedKeys(pre: seq<TokenBalance>, post: seq<TokenBalance>, target: Option<string>)
    ensures forall k :: k in Selected(pre, post, target) <==>
      (k in KeysOf(pre) || k in KeysOf(post)) &&
      Raw(LastFor(post, k)) - Raw(LastFor(pre, k)) != 0 &&
      PassesFilter(target, ResolveMint(EntryFor(pre, post, k)))
    ensures OrderedBy(Selected(pre, post, target), KeysOf(pre) + KeysOf(post))
  {
    MergeOrder(pre, post);
    SelectKeysOrdered(Merge(pre, post).keys, KeysOf(pre) + KeysOf(post), pre, post, target);
  }

  // ----- the records -----

  /** The record built for a changed entry, in terms of its key. */
  lemma TransferOfKey(tx: Transaction, pre: seq<TokenBalance>, post: seq<TokenBalance>,
                      target: Option<string>, k: Key)
    requires Emits(pre, post, target, k)
    ensures TransferOf(tx, EntryFor(pre, post, k)).Ok? <==> AccountResolves(tx, post, k)
    ensures TransferOf(tx, EntryFor(pre, post, k)).Ok? ==>
      MatchesKey(tx, pre, post, target, k, TransferOf(tx, EntryFor(pre, post, k)).value)
  {
    LastForHasKey(pre, k);
    LastForHasKey(post, k);
  }

  lemma {:induction false} EmitSelected(tx: Transaction, entries: map<Key, Entry>, target: Option<string>,
                                        ks: seq<Key>, pre: seq<TokenBalance>, post: seq<TokenBalance>)
    requires forall i :: 0 <= i < |ks| ==> ks[i] in entries && entries[ks[i]] == EntryFor(pre, post, ks[i])
    ensures var r := Emit(tx, entries, target, ks);
            var sel := SelectKeys(ks, pre, post, target);
            && (r.Ok? <==> forall i :: 0 <= i < |sel| ==> AccountResolves(tx, post, sel[i]))
            && (r.Ok? ==>
                  && |r.value| == |sel|
                  && forall i :: 0 <= i < |sel| ==> MatchesKey(tx, pre, post, target, sel[i], r.value[i]))
    decreases |ks|
  {
    if ks != [] {
      var front := ks[..|ks| - 1];
      var k := ks[|ks| - 1];
      assert forall i :: 0 <= i < |front| ==> front[i] == ks[i];
      EmitSelected(tx, entries, target, front, pre, post);
      var rest := SelectKeys(front, pre, post, target);
      var e := EntryFor(pre, post, k);
      assert entries[k] == e;
      var before := Emit(tx, entries, target, front);
      if Emits(pre, post, target, k) {
        TransferOfKey(tx, pre, post, target, k);
        var sel := rest + [k];
        assert SelectKeys(ks, pre, post, target) == sel;
        assert sel[|sel| - 1] == k;
        assert forall i :: 0 <= i < |rest| ==> sel[i] == rest[i];
        assert Emit(tx, entries, target, ks) ==
          if before.Err? then before
          else if TransferOf(tx, e).Err? then Err(TransferOf(tx, e).error)
          else Ok(before.value + [TransferOf(tx, e).value]);
        assert (forall i :: 0 <= i < |sel| ==> AccountResolves(tx, post, sel[i])) <==>
          (forall i :: 0 <= i < |rest| ==> AccountResolves(tx, post, rest[i])) && AccountResolves(tx, post, k);
      } else {
        assert SelectKeys(ks, pre, post, target) == rest;
        assert Emit(tx, entries, target, ks) == before;
      }
    }
  }

  /** The transfer list of a transaction. It fails exactly when some key that yields a
      record has no account: a pre-only key at the falsy index 0, or an index past the end
      of `staticAccountKeys`. Otherwise it holds one record per selected key, in order, and
      each record carries the key's unbounded difference post minus pre (an absent side
      counting as 0), never 0, with direction Receive exactly when it is positive, the key's
      own account, the mint `pre?.mint || post?.mint` resolves to (the key's mint whenever
      that is non-empty), and the transaction's first signature, slot and block time. With
      a target mint every record carries that mint. */
  lemma TransfersAreBalanceDiffs(tx: Transaction, target: Option<string>)
    ensures var pre, post := PreBalances(tx), PostBalances(tx);
            var sel := Selected(pre, post, target);
            var r := TokenTransfers(tx, target);
            && (r.Ok? <==> forall i :: 0 <= i < |sel| ==> AccountResolves(tx, post, sel[i]))
            && (r.Ok? ==>
                  && |r.value| == |sel|
                  && forall i :: 0 <= i < |sel| ==> MatchesKey(tx, pre, post, target, sel[i], r.value[i]))
            && (r.Ok? && target.Some? && target.value != "" ==>
                  forall i :: 0 <= i < |r.value| ==> r.value[i].mint == target)
  {
    var pre, post := PreBalances(tx), PostBalances(tx);
    var m := Merge(pre, post);
    var r := TokenTransfers(tx, target);
    MergeEntries(pre, post);
    if MetaMissing(tx) {
      assert pre == [] && post == [];
      assert m == BalanceMap([], map[]);
    }
    assert r == Emit(tx, m.entries, target, m.keys);
    EmitSelected(tx, m.entries, target, m.keys, pre, post);
    var sel := Selected(pre, post, target);
    if r.Ok? && target.Some? && target.value != "" {
      forall i | 0 <= i < |r.value|
        ensures r.value[i].mint == target
      {
        assert MatchesKey(tx, pre, post, target, sel[i], r.value[i]);
      }
    }
  }

  /** A transaction whose metadata or either balance list is missing yields no transfers
      and no error. */
  lemma MissingMetaYieldsNothing(tx: Transaction, target: Option<string>)
    requires MetaMissing(tx)
    ensures TokenTransfers(tx, target) == Ok([])
  {
  }

  /** Filtering on a mint that no balance of the transaction carries yields no transfers
      and no error. */
  lemma AbsentMintYieldsNothing(tx: Transaction, mint: string)
    requires mint != ""
    requires forall b :: b in PreBalances(tx) + PostBalances(tx) ==> b.mint != mint
    ensures TokenTransfers(tx, Some(mint)) == Ok([])
  {
    var pre, post := PreBalances(tx), PostBalances(tx);
    var sel := Selected(pre, post, Some(mint));
    SelectedKeys(pre, post, Some(mint));
    if sel != [] {
      var k := sel[0];
      LastForHasKey(pre, k);
      LastForHasKey(post, k);
      assert false;
    }
    TransfersAreBalanceDiffs(tx, Some(mint));
  }

  // ----- one balance, one account -----

  /** The transaction's metadata holds exactly the given balance lists. */
  predicate HasBalances(tx: Transaction, pre: seq<TokenBalance>, post: seq<TokenBalance>) {
    tx.meta == Some(Meta(Some(pre), Some(post)))
  }

  lemma SeedOne(b: TokenBalance)
    ensures SeedPres([b]) == BalanceMap([KeyOf(b)], map[KeyOf(b) := Entry(Some(b), None)])
  {
    assert [b][..0] == [];
    assert SeedPres([]) == BalanceMap([], map[]);
  }

  lemma OverlayOne(m: BalanceMap, b: TokenBalance)
    requires WellFormed(m)
    ensures OverlayPosts(m, [b]) == OverlayPost(m, b)
  {
    assert [b][..0] == [];
    assert OverlayPosts(m, []) == m;
  }

  /** Merging lists that each hold at most one balance, all of one key. */
  lemma SingleKeyMerge(k: Key, pre: seq<TokenBalance>, post: seq<TokenBalance>)
    requires |pre| <= 1 && |post| <= 1 && 0 < |pre| + |post|
    requires forall b :: b in pre + post ==> KeyOf(b) == k
    ensures Merge(pre, post) ==
      BalanceMap([k], map[k := Entry(if pre == [] then None else Some(pre[0]), if post == [] then None else Some(post[0]))])
  {
    var seeded := SeedPres(pre);
    if pre == [] {
      assert seeded == BalanceMap([], map[]);
    } else {
      assert pre == [pre[0]] && pre[0] in pre + post;
      SeedOne(pre[0]);
    }
    if post == [] {
      assert OverlayPosts(seeded, post) == seeded;
    } else {
      assert post == [post[0]] && post[0] in pre + post;
      OverlayOne(seeded, post[0]);
    }
  }

  /** The transfer list of a transaction whose merged map holds a single changed entry:
      nothing when the entry's mint does not pass the filter, and otherwise that entry's
      record or its lookup error. */
  lemma SingleKeyTransfers(tx: Transaction, target: Option<string>, k: Key, e: Entry)
    requires !MetaMissing(tx)
    requires Merge(PreBalances(tx), PostBalances(tx)) == BalanceMap([k], map[k := e])
    requires Difference(e) != 0
    ensures TokenTransfers(tx, target) ==
      if !PassesFilter(target, ResolveMint(e)) then Ok([])
      else if TransferOf(tx, e).Ok? then Ok([TransferOf(tx, e).value])
      else Err(TransferOf(tx, e).error)
  {
    assert TokenTransfers(tx, target) == Emit(tx, map[k := e], target, [k]);
    assert [k][..0] == [];
    if TransferOf(tx, e).Ok? {
      var t := TransferOf(tx, e).value;
      assert [] + [t] == [t];
    }
  }

  /** One balance of a mint at account index i that goes from before to after gives one
      record of after - before: a receive when it grew and a send when it shrank, for the
      account at index i (index 0 included, as the post side supplies it). An index outside
      `staticAccountKeys` makes the parse fail instead. A target mint the balance's mint does
      not pass skips the key first: no record and no failure. */
  lemma BalanceChangeIsOneTransfer(tx: Transaction, target: Option<string>, i: nat, mint: string, before: int, after: int, decimals: nat)
    requires HasBalances(tx, [TokenBalance(i, mint, before, decimals)], [TokenBalance(i, mint, after, decimals)])
    requires before != after
    ensures TokenTransfers(tx, target) ==
      if !PassesFilter(target, Some(mint)) then Ok([])
      else if i < |tx.staticAccountKeys| then
        Ok([Transfer(FirstSignature(tx), Some(mint), tx.staticAccountKeys[i], after - before, decimals,
                     tx.slot, tx.blockTime, if before < after then Receive else Send)])
      else Err(UnresolvedAccount(Some(i)))
  {
    var b0, b1 := TokenBalance(i, mint, before, decimals), TokenBalance(i, mint, after, decimals);
    var k := Key(i, mint);
    var e := Entry(Some(b0), Some(b1));
    assert PreBalances(tx) == [b0] && PostBalances(tx) == [b1];
    SingleKeyMerge(k, [b0], [b1]);
    SingleKeyTransfers(tx, target, k, e);
    assert ResolveIndex(e) == Some(i) && ResolveMint(e) == Some(mint) && ResolveDecimals(e) == decimals;
  }

  /** A balance present only before the transaction, at a non-zero account index i, gives a
      send of its whole amount for the account at index i, or fails when i is outside
      `staticAccountKeys`. An empty mint is falsy and nothing follows it, so the record's
      mint is then undefined. A target mint that resolved mint does not pass skips the key
      first: no record and no failure. */
  lemma PreOnlyBalanceIsSend(tx: Transaction, target: Option<string>, i: nat, mint: string, amount: int, decimals: nat)
    requires HasBalances(tx, [TokenBalance(i, mint, amount, decimals)], [])
    requires 0 < i && 0 < amount
    ensures TokenTransfers(tx, target) ==
      if !PassesFilter(target, if mint == "" then None else Some(mint)) then Ok([])
      else if i < |tx.staticAccountKeys| then
        Ok([Transfer(FirstSignature(tx), if mint == "" then None else Some(mint), tx.staticAccountKeys[i],
                     -amount, decimals, tx.slot, tx.blockTime, Send)])
      else Err(UnresolvedAccount(Some(i)))
  {
    var b := TokenBalance(i, mint, amount, decimals);
    var k := Key(i, mint);
    var e := Entry(Some(b), None);
    assert PreBalances(tx) == [b] && PostBalances(tx) == [];
    SingleKeyMerge(k, [b], []);
    SingleKeyTransfers(tx, target, k, e);
    assert ResolveIndex(e) == Some(i) && ResolveDecimals(e) == decimals;
    assert ResolveMint(e) == if mint == "" then None else Some(mint);
  }

  /** The same at account index 0: the falsy index leaves the account undefined and the
      whole parse fails instead of reporting a send, whatever the transaction's accounts,
      unless a target mint skips the key before its account is looked up. */
  lemma PreOnlyBalanceAtIndexZeroFails(tx: Transaction, target: Option<string>, mint: string, amount: int, decimals: nat)
    requires HasBalances(tx, [TokenBalance(0, mint, amount, decimals)], [])
    requires amount != 0
    ensures TokenTransfers(tx, target) ==
      if !PassesFilter(target, if mint == "" then None else Some(mint)) then Ok([])
      else Err(UnresolvedAccount(None))
  {
    var b := TokenBalance(0, mint, amount, decimals);
    var k := Key(0, mint);
    var e := Entry(Some(b), None);
    assert PreBalances(tx) == [b] && PostBalances(tx) == [];
    SingleKeyMerge(k, [b], []);
    SingleKeyTransfers(tx, target, k, e);
    assert ResolveIndex(e) == None;
  }

  /** A balance present only after the transaction, at any account index i (0 included, as
      the post side supplies it), gives a receive of its whole amount for the account at
      index i, or fails when i is outside `staticAccountKeys`; a target mint the balance's mint
      does not pass skips the key first. */
  lemma PostOnlyBalanceIsReceive(tx: Transaction, target: Option<string>, i: nat, mint: string, amount: int, decimals: nat)
    requires HasBalances(tx, [], [TokenBalance(i, mint, amount, decimals)])
    requires 0 < amount
    ensures TokenTransfers(tx, target) ==
      if !PassesFilter(target, Some(mint)) then Ok([])
      else if i < |tx.staticAccountKeys| then
        Ok([Transfer(FirstSignature(tx), Some(mint), tx.staticAccountKeys[i], amount, decimals,
                     tx.slot, tx.blockTime, Receive)])
      else Err(UnresolvedAccount(Some(i)))
  {
    var b := TokenBalance(i, mint, amount, decimals);
    var k := Key(i, mint);
    var e := Entry(None, Some(b));
    assert PreBalances(tx) == [] && PostBalances(tx) == [b];
    SingleKeyMerge(k, [], [b]);
    SingleKeyTransfers(tx, target, k, e);
    assert ResolveIndex(e) == Some(i) && ResolveMint(e) == Some(mint) && ResolveDecimals(e) == decimals;
  }
}
