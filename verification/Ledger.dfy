/** The append-only double-entry ledger: idempotent posting, balances derived by summation. */
module Ledger {

  /** A single amount moved from the credit account to the debit account. */
  datatype JournalEntry = JournalEntry(key: string, debit: string, credit: string, amountPaise: int, memo: string)

  // ----- The ledger as a function of what was delivered to it -----

  function Keys(log: seq<JournalEntry>): set<string> {
    set e | e in log :: e.key
  }

  /** The log after delivering one more entry: a key that was seen before changes nothing. */
  function Posted(log: seq<JournalEntry>, e: JournalEntry): seq<JournalEntry> {
    if e.key in Keys(log) then log else log + [e]
  }

  /** The log that a sequence of deliveries leaves behind, on top of `log`. */
  function Delivered(log: seq<JournalEntry>, deliveries: seq<JournalEntry>): seq<JournalEntry> {
    if deliveries == [] then log
    else Posted(Delivered(log, deliveries[..|deliveries| - 1]), deliveries[|deliveries| - 1])
  }

  /** What one entry adds to the balance of an account; a self-transfer adds nothing. */
  function Effect(e: JournalEntry, account: string): int {
    (if e.debit == account then e.amountPaise else 0) - (if e.credit == account then e.amountPaise else 0)
  }

  function Balance(log: seq<JournalEntry>, account: string): int {
    if log == [] then 0 else Balance(log[..|log| - 1], account) + Effect(log[|log| - 1], account)
  }

  function Accounts(log: seq<JournalEntry>): set<string> {
    (set e | e in log :: e.debit) + (set e | e in log :: e.credit)
  }

  class Ledger {
    var entries: seq<JournalEntry>
    var seenKeys: set<string>

    /** The seen keys are exactly the keys of the entries, and no key occurs twice. */
    ghost predicate Valid()
      reads this
    {
      seenKeys == Keys(entries) && DistinctKeys(entries)
    }

    constructor ()
      ensures Valid() && entries == []
    {
      entries, seenKeys := [], {};
    }

    /** True if the entry was newly posted, false if its key was seen before. */
    method Post(entry: JournalEntry) returns (posted: bool)
      requires Valid()
      modifies this
      ensures Valid() && entries == Posted(old(entries), entry)
      ensures posted <==> forall e :: e in old(entries) ==> e.key != entry.key
    {
      if entry.key in seenKeys {
        return false;
      }
      entries := entries + [entry];
      seenKeys := seenKeys + {entry.key};
      return true;
    }

    method GetBalance(account: string) returns (total: int)
      ensures total == Balance(entries, account)
    {
      total := 0;
      for i := 0 to |entries|
        invariant total == Balance(entries[..i], account)
      {
        assert entries[..i + 1][..i] == entries[..i];
        var e := entries[i];
        if e.debit == account {
          total := total + e.amountPaise;
        }
        if e.credit == account {
          total := total - e.amountPaise;
        }
      }
      assert entries[..|entries|] == entries;
    }

    /** Sums every account's balance; the answer is yes for every ledger. */
    method IsBalanced() returns (balanced: bool)
      ensures balanced
    {
      var todo := Accounts(entries);
      var total := 0;
      ghost var done: seq<string> := [];
      while todo != {}
        invariant total == BalanceSum(entries, done)
        invariant NoRepeats(done) && (forall a :: a in done ==> a !in todo)
        invariant forall a :: a in Accounts(entries) ==> a in done || a in todo
        decreases |todo|
      {
        var account :| account in todo;
        var balance := GetBalance(account);
        total := total + balance;
        todo := todo - {account};
        assert (done + [account])[..|done|] == done;
        done := done + [account];
      }
      BalancesCancel(entries, done);
      balanced := total == 0;
    }
  }

  // ----- Conservation -----

  ghost predicate DistinctKeys(log: seq<JournalEntry>) {
    forall i, j :: 0 <= i < j < |log| ==> log[i].key != log[j].key
  }

  ghost predicate NoRepeats(accounts: seq<string>) {
    forall i, j :: 0 <= i < j < |accounts| ==> accounts[i] != accounts[j]
  }

  function BalanceSum(log: seq<JournalEntry>, accounts: seq<string>): int {
    if accounts == [] then 0
    else BalanceSum(log, accounts[..|accounts| - 1]) + Balance(log, accounts[|accounts| - 1])
  }

  function EffectSum(e: JournalEntry, accounts: seq<string>): int {
    if accounts == [] then 0
    else EffectSum(e, accounts[..|accounts| - 1]) + Effect(e, accounts[|accounts| - 1])
  }

  /** Over accounts without repetition, an entry moves its amount from one of them to another, or to itself. */
  lemma {:induction false} EffectSumIs(e: JournalEntry, accounts: seq<string>)
    requires NoRepeats(accounts)
    ensures EffectSum(e, accounts)
         == (if e.debit in accounts then e.amountPaise else 0) - (if e.credit in accounts then e.amountPaise else 0)
  {
    if accounts != [] {
      var init, last := accounts[..|accounts| - 1], accounts[|accounts| - 1];
      assert accounts == init + [last];
      EffectSumIs(e, init);
      assert last !in init;
    }
  }

  lemma {:induction false} BalanceSumAppend(log: seq<JournalEntry>, e: JournalEntry, accounts: seq<string>)
    ensures BalanceSum(log + [e], accounts) == BalanceSum(log, accounts) + EffectSum(e, accounts)
  {
    if accounts != [] {
      BalanceSumAppend(log, e, accounts[..|accounts| - 1]);
      assert (log + [e])[..|log|] == log;
    }
  }

  lemma {:induction false} NoEntriesNoBalance(accounts: seq<string>)
    ensures BalanceSum([], accounts) == 0
  {
    if accounts != [] {
      NoEntriesNoBalance(accounts[..|accounts| - 1]);
    }
  }

  /** The derived balances of any accounts that include every touched one, each taken once, sum to zero. */
  lemma {:induction false} BalancesCancel(log: seq<JournalEntry>, accounts: seq<string>)
    requires NoRepeats(accounts) && forall a :: a in Accounts(log) ==> a in accounts
    ensures BalanceSum(log, accounts) == 0
  {
    if log == [] {
      NoEntriesNoBalance(accounts);
    } else {
      var init, last := log[..|log| - 1], log[|log| - 1];
      assert log == init + [last];
      assert last in log && last.debit in Accounts(log) && last.credit in Accounts(log);
      forall a | a in Accounts(init) ensures a in accounts {
        assert a in Accounts(log);
      }
      BalancesCancel(init, accounts);
      BalanceSumAppend(init, last, accounts);
      EffectSumIs(last, accounts);
    }
  }

  /** A new entry debits one account and credits another with its amount, and touches no other; a known key changes nothing. */
  lemma PostingMovesAmount(log: seq<JournalEntry>, e: JournalEntry, account: string)
    ensures Balance(Posted(log, e), account) - Balance(log, account)
         == if e.key in Keys(log) || e.debit == e.credit then 0
            else if account == e.debit then e.amountPaise
            else if account == e.credit then -e.amountPaise
            else 0
  {
    if e.key !in Keys(log) {
      assert (log + [e])[..|log|] == log;
    }
  }

  // ----- At-least-once, out-of-order delivery -----

  function EntrySet(deliveries: seq<JournalEntry>): set<JournalEntry> {
    set e | e in deliveries
  }

  ghost predicate IsFirst(deliveries: seq<JournalEntry>, e: JournalEntry) {
    exists i :: 0 <= i < |deliveries| && deliveries[i] == e && forall j :: 0 <= j < i ==> deliveries[j].key != e.key
  }

  lemma KeysAppend(log: seq<JournalEntry>, e: JournalEntry)
    ensures Keys(log + [e]) == Keys(log) + {e.key}
  {
    assert e in log + [e];
    forall k | k in Keys(log) ensures k in Keys(log + [e]) {
      var d :| d in log && d.key == k;
      assert d in log + [e];
    }
  }

  /** Every delivered key is in the log, once. */
  lemma {:induction false} DeliveredKeys(deliveries: seq<JournalEntry>)
    ensures DistinctKeys(Delivered([], deliveries)) && Keys(Delivered([], deliveries)) == Keys(deliveries)
  {
    if deliveries != [] {
      var init, last := deliveries[..|deliveries| - 1], deliveries[|deliveries| - 1];
      DeliveredKeys(init);
      assert deliveries == init + [last];
      KeysAppend(init, last);
      KeysAppend(Delivered([], init), last);
    }
  }

  /** The log keeps distinct keys, and keeps exactly the first delivery of every key. */
  lemma {:induction false} DeliveredKeepsFirst(deliveries: seq<JournalEntry>)
    ensures forall e :: e in Delivered([], deliveries) <==> IsFirst(deliveries, e)
  {
    if deliveries != [] {
      var n := |deliveries| - 1;
      var init, last := deliveries[..n], deliveries[n];
      DeliveredKeepsFirst(init);
      DeliveredKeys(init);
      var before, log := Delivered([], init), Delivered([], deliveries);
      forall e ensures e in log <==> IsFirst(deliveries, e) {
        FirstOfPrefix(deliveries, n, e);
        assert e in log <==> e in before || (e == last && last.key !in Keys(init));
      }
    }
  }

  lemma FirstOfPrefix(deliveries: seq<JournalEntry>, n: nat, e: JournalEntry)
    requires n == |deliveries| - 1
    ensures IsFirst(deliveries, e)
       <==> IsFirst(deliveries[..n], e) || (e == deliveries[n] && e.key !in Keys(deliveries[..n]))
  {
    var init := deliveries[..n];
    if IsFirst(init, e) {
      var i :| 0 <= i < n && init[i] == e && forall j :: 0 <= j < i ==> init[j].key != e.key;
      assert deliveries[i] == e && forall j :: 0 <= j < i ==> deliveries[j] == init[j];
    }
    if e == deliveries[n] && e.key !in Keys(init) {
      forall j | 0 <= j < n ensures deliveries[j].key != e.key {
        assert init[j] in init;
      }
    }
    if IsFirst(deliveries, e) {
      var i :| 0 <= i < |deliveries| && deliveries[i] == e && forall j :: 0 <= j < i ==> deliveries[j].key != e.key;
      if i < n {
        assert init[i] == e && forall j :: 0 <= j < i ==> init[j] == deliveries[j];
      }
    }
  }

  lemma {:induction false} BalanceRemove(log: seq<JournalEntry>, k: nat, account: string)
    requires k < |log|
    ensures Balance(log, account) == Balance(log[..k] + log[k + 1..], account) + Effect(log[k], account)
  {
    var n := |log| - 1;
    var rest := log[..k] + log[k + 1..];
    if k == n {
      assert rest == log[..n];
    } else {
      BalanceRemove(log[..n], k, account);
      assert rest[..n - 1] == log[..n][..k] + log[..n][k + 1..];
    }
  }

  lemma KeysRemove(log: seq<JournalEntry>, k: nat)
    requires k < |log| && DistinctKeys(log)
    ensures DistinctKeys(log[..k] + log[k + 1..]) && Keys(log[..k] + log[k + 1..]) == Keys(log) - {log[k].key}
  {
    var rest := log[..k] + log[k + 1..];
    forall x | x in Keys(log) && x != log[k].key ensures x in Keys(rest) {
      var j :| 0 <= j < |log| && log[j].key == x;
      assert rest[if j < k then j else j - 1] in rest;
    }
    forall e | e in rest ensures e in log && e.key != log[k].key {
      var j :| 0 <= j < |rest| && rest[j] == e;
      assert e == log[if j < k then j else j + 1];
    }
  }

  /** Entries of one key in two logs move the same amount in or out of the account. */
  ghost predicate Agree(one: seq<JournalEntry>, other: seq<JournalEntry>, account: string) {
    forall d, e :: d in one && e in other && d.key == e.key ==> Effect(d, account) == Effect(e, account)
  }

  lemma NoKeysNoEntries(log: seq<JournalEntry>)
    ensures Keys(log) == {} ==> log == []
  {
    if log != [] {
      assert log[0] in log && log[0].key in Keys(log);
    }
  }

  /** Logs of the same keys, each once, have the same balance wherever they agree, in whatever order they were posted. */
  lemma {:induction false} BalanceOfKeys(one: seq<JournalEntry>, other: seq<JournalEntry>, account: string)
    requires DistinctKeys(one) && DistinctKeys(other) && Keys(one) == Keys(other) && Agree(one, other, account)
    ensures Balance(one, account) == Balance(other, account)
  {
    if one == [] {
      NoKeysNoEntries(other);
    } else {
      var n := |one| - 1;
      assert one[n] in one && one[n].key in Keys(other);
      var e :| e in other && e.key == one[n].key;
      var k: nat :| k < |other| && other[k] == e;
      var init, rest := one[..n], other[..k] + other[k + 1..];
      assert init == one[..n] + one[n + 1..];
      KeysRemove(one, n);
      KeysRemove(other, k);
      assert forall x :: x in rest ==> x in other;
      BalanceOfKeys(init, rest, account);
      BalanceRemove(other, k, account);
    }
  }

  /** Every replica of the entries in `entries` derives the same balances. */
  ghost predicate Converges(entries: set<JournalEntry>) {
    forall one, other, account :: EntrySet(one) == entries && EntrySet(other) == entries ==>
      Balance(Delivered([], one), account) == Balance(Delivered([], other), account)
  }

  /** Entries that share a key have the same effect on every account. */
  ghost predicate KeysFixEffects(entries: set<JournalEntry>) {
    forall d, e, account :: d in entries && e in entries && d.key == e.key ==> Effect(d, account) == Effect(e, account)
  }

  lemma KeysOfSet(one: seq<JournalEntry>, other: seq<JournalEntry>)
    requires EntrySet(one) == EntrySet(other)
    ensures Keys(one) == Keys(other)
  {
    assert forall e :: e in one <==> e in EntrySet(one);
    assert forall e :: e in other <==> e in EntrySet(other);
  }

  lemma SameKeysConverge(one: seq<JournalEntry>, other: seq<JournalEntry>, account: string)
    requires EntrySet(one) == EntrySet(other) && KeysFixEffects(EntrySet(one))
    ensures Balance(Delivered([], one), account) == Balance(Delivered([], other), account)
  {
    DeliveredKeys(one);
    DeliveredKeys(other);
    DeliveredKeepsFirst(one);
    DeliveredKeepsFirst(other);
    KeysOfSet(one, other);
    forall d, e | d in Delivered([], one) && e in Delivered([], other) && d.key == e.key
      ensures Effect(d, account) == Effect(e, account)
    {
      assert IsFirst(one, d) && IsFirst(other, e);
      assert d in EntrySet(one) && e in EntrySet(other);
    }
    BalanceOfKeys(Delivered([], one), Delivered([], other), account);
  }

  lemma {:induction false} SomeDelivery(entries: set<JournalEntry>) returns (deliveries: seq<JournalEntry>)
    ensures EntrySet(deliveries) == entries
  {
    if entries == {} {
      return [];
    }
    var e :| e in entries;
    var rest := SomeDelivery(entries - {e});
    deliveries := rest + [e];
    assert EntrySet(deliveries) == EntrySet(rest) + {e};
  }

  /** Behind two entries of one key, the same deliveries post the same entries. */
  lemma {:induction false} SamePosted(d: JournalEntry, e: JournalEntry, rest: seq<JournalEntry>)
    returns (posted: seq<JournalEntry>)
    requires d.key == e.key
    ensures Delivered([d], rest) == [d] + posted && Delivered([e], rest) == [e] + posted
  {
    if rest == [] {
      return [];
    }
    var init, last := rest[..|rest| - 1], rest[|rest| - 1];
    var before := SamePosted(d, e, init);
    KeysBehind(d, before);
    KeysBehind(e, before);
    posted := if last.key in Keys([d] + before) then before else before + [last];
    assert [d] + before + [last] == [d] + (before + [last]) && [e] + before + [last] == [e] + (before + [last]);
  }

  lemma KeysBehind(e: JournalEntry, log: seq<JournalEntry>)
    ensures Keys([e] + log) == {e.key} + Keys(log)
  {
    var whole := [e] + log;
    assert forall x :: x in whole <==> x == e || x in log;
    assert e in whole;
    forall k | k in Keys(log) ensures k in Keys(whole) {
      var x :| x in log && x.key == k;
      assert x in whole;
    }
  }

  lemma {:induction false} DeliveredInTwo(log: seq<JournalEntry>, one: seq<JournalEntry>, other: seq<JournalEntry>)
    ensures Delivered(log, one + other) == Delivered(Delivered(log, one), other)
  {
    if other == [] {
      assert one + other == one;
    } else {
      assert (one + other)[..|one + other| - 1] == one + other[..|other| - 1];
      DeliveredInTwo(log, one, other[..|other| - 1]);
    }
  }

  /** Of two deliveries of one key the first counts; what follows does not matter to the difference. */
  lemma FirstOfTwo(d: JournalEntry, e: JournalEntry, rest: seq<JournalEntry>, account: string)
    requires d.key == e.key
    ensures Balance(Delivered([], [d, e] + rest), account) - Balance(Delivered([], [e, d] + rest), account)
         == Effect(d, account) - Effect(e, account)
  {
    DeliveredInTwo([], [d, e], rest);
    DeliveredInTwo([], [e, d], rest);
    SecondIsIgnored(d, e);
    SecondIsIgnored(e, d);
    var posted := SamePosted(d, e, rest);
    BalanceBehind(d, posted, account);
    BalanceBehind(e, posted, account);
  }

  lemma BalanceBehind(e: JournalEntry, log: seq<JournalEntry>, account: string)
    ensures Balance([e] + log, account) == Effect(e, account) + Balance(log, account)
  {
    var whole := [e] + log;
    BalanceRemove(whole, 0, account);
    assert whole[..0] + whole[1..] == log;
  }

  lemma SecondIsIgnored(d: JournalEntry, e: JournalEntry)
    requires d.key == e.key
    ensures Delivered([], [d, e]) == [d]
  {
    assert [d, e][..1] == [d] && [d][..0] == [];
    assert Delivered([], []) == [];
    assert Delivered([], [d]) == Posted([], d) == [d];
    assert d in [d] && d.key in Keys([d]);
  }

  /**
    Convergence, exactly: all replicas that receive the same entries, each at least once and in any order,
    agree on the balance of every account if and only if entries that share a key have the same effect on
    every account.
   */
  lemma ConvergesIffKeysFixEffects(entries: set<JournalEntry>)
    ensures Converges(entries) <==> KeysFixEffects(entries)
  {
    if KeysFixEffects(entries) {
      forall one, other, account | EntrySet(one) == entries && EntrySet(other) == entries
        ensures Balance(Delivered([], one), account) == Balance(Delivered([], other), account)
      {
        SameKeysConverge(one, other, account);
      }
    }
    if Converges(entries) {
      forall d, e, account | d in entries && e in entries && d.key == e.key
        ensures Effect(d, account) == Effect(e, account)
      {
        ConvergingEffects(entries, d, e, account);
      }
    }
  }

  lemma ConvergingEffects(entries: set<JournalEntry>, d: JournalEntry, e: JournalEntry, account: string)
    requires Converges(entries) && d in entries && e in entries && d.key == e.key
    ensures Effect(d, account) == Effect(e, account)
  {
    var rest := SomeDelivery(entries);
    TwoMoreDeliveries(d, e, rest);
    TwoMoreDeliveries(e, d, rest);
    SameBalance(entries, [d, e] + rest, [e, d] + rest, account);
    FirstOfTwo(d, e, rest, account);
  }

  lemma SameBalance(entries: set<JournalEntry>, one: seq<JournalEntry>, other: seq<JournalEntry>, account: string)
    requires Converges(entries) && EntrySet(one) == entries && EntrySet(other) == entries
    ensures Balance(Delivered([], one), account) == Balance(Delivered([], other), account)
  {
  }

  lemma TwoMoreDeliveries(d: JournalEntry, e: JournalEntry, rest: seq<JournalEntry>)
    requires d in EntrySet(rest) && e in EntrySet(rest)
    ensures EntrySet([d, e] + rest) == EntrySet(rest)
  {
    assert forall x :: x in [d, e] + rest <==> x == d || x == e || x in rest;
  }

  /** An entry that changes no balance: nothing moves, or it moves back to where it came from. */
  predicate MovesNothing(e: JournalEntry) {
    e.amountPaise == 0 || e.debit == e.credit
  }

  /** Equal up to the memo, or one written as the other's negative, or neither moving anything. */
  predicate SameMovement(d: JournalEntry, e: JournalEntry) {
    || (MovesNothing(d) && MovesNothing(e))
    || (d.debit == e.debit && d.credit == e.credit && d.amountPaise == e.amountPaise)
    || (d.debit == e.credit && d.credit == e.debit && d.amountPaise == -e.amountPaise)
  }

  /** What a sender has to check of two entries under one key. */
  lemma SameEffectIffSameMovement(d: JournalEntry, e: JournalEntry)
    ensures (forall account :: Effect(d, account) == Effect(e, account)) <==> SameMovement(d, e)
  {
    if forall account :: Effect(d, account) == Effect(e, account) {
      assert Effect(d, d.debit) == Effect(e, d.debit);
      assert Effect(d, d.credit) == Effect(e, d.credit);
      assert Effect(d, e.debit) == Effect(e, e.debit);
      assert Effect(d, e.credit) == Effect(e, e.credit);
    }
  }

  /** One key, one entry: what idempotency keys promise of the sender. */
  ghost predicate KeyFunctional(entries: set<JournalEntry>) {
    forall d, e :: d in entries && e in entries && d.key == e.key ==> d == e
  }

  /** With one entry per key, two replicas agree on the balance of every account. */
  lemma ReplicasConverge(one: seq<JournalEntry>, other: seq<JournalEntry>, account: string)
    requires EntrySet(one) == EntrySet(other) && KeyFunctional(EntrySet(one))
    ensures Balance(Delivered([], one), account) == Balance(Delivered([], other), account)
  {
    ConvergesIffKeysFixEffects(EntrySet(one));
  }

  /** A key used for two amounts: the first delivery wins. */
  lemma ReusedKeyDiverges()
    ensures var d, e := JournalEntry("k", "a", "b", 1, ""), JournalEntry("k", "a", "b", 2, "");
            && EntrySet([d, e]) == EntrySet([e, d]) && !SameMovement(d, e)
            && Balance(Delivered([], [d, e]), "a") == 1
            && Balance(Delivered([], [e, d]), "a") == 2
  {
    var d, e := JournalEntry("k", "a", "b", 1, ""), JournalEntry("k", "a", "b", 2, "");
    FirstWins(d, e);
    FirstWins(e, d);
  }

  lemma FirstWins(d: JournalEntry, e: JournalEntry)
    requires d.key == e.key && d.debit != d.credit
    ensures Balance(Delivered([], [d, e]), d.debit) == d.amountPaise
  {
    SecondIsIgnored(d, e);
    assert [d][..0] == [];
  }

  /** Replaying entries whose keys are all known already, such as a whole log, changes nothing. */
  lemma {:induction false} ReplayChangesNothing(log: seq<JournalEntry>, replayed: seq<JournalEntry>)
    requires Keys(replayed) <= Keys(log)
    ensures Delivered(log, replayed) == log
  {
    if replayed != [] {
      var init, last := replayed[..|replayed| - 1], replayed[|replayed| - 1];
      assert replayed == init + [last];
      forall k | k in Keys(init) ensures k in Keys(replayed) {
        var e :| e in init && e.key == k;
        assert e in replayed;
      }
      ReplayChangesNothing(log, init);
      assert last in replayed && last.key in Keys(replayed);
    }
  }

  /** The invariant of every reachable ledger: distinct keys, and balances that cancel over its accounts. */
  lemma ReachableLedgersBalance(deliveries: seq<JournalEntry>, accounts: seq<string>)
    requires NoRepeats(accounts) && forall a :: a in Accounts(Delivered([], deliveries)) ==> a in accounts
    ensures DistinctKeys(Delivered([], deliveries)) && BalanceSum(Delivered([], deliveries), accounts) == 0
  {
    DeliveredKeys(deliveries);
    BalancesCancel(Delivered([], deliveries), accounts);
  }
}
