/** What the transaction store answers and what its records add up to:
    the records of one account, those records in date-descending order
    (the ORDER BY of TransactionRepository), and the running balance that
    the records' signed amounts reproduce. */
module Ledger {
  import opened Wrappers
  import opened Model

  // ----- Selecting one account's records -----

  /** The records of s whose owning account is a, in the order of s. */
  function Owned(s: seq<Transaction>, a: BankAccount): (r: seq<Transaction>)
    reads set t | t in s
    ensures forall t :: t in r ==> t in s && t.account == a
    ensures forall t :: t in s && t.account == a ==> t in r
    ensures |r| <= |s|
  {
    if s == [] then []
    else Owned(s[..|s| - 1], a) + (if s[|s| - 1].account == a then [s[|s| - 1]] else [])
  }

  /** The records of s whose owning account is not a, in the order of s. */
  function Discard(s: seq<Transaction>, a: BankAccount): (r: seq<Transaction>)
    reads set t | t in s
    ensures forall t :: t in r ==> t in s && t.account != a
    ensures forall t :: t in s && t.account != a ==> t in r
  {
    if s == [] then []
    else Discard(s[..|s| - 1], a) + (if s[|s| - 1].account != a then [s[|s| - 1]] else [])
  }

  /** t's account has the id accountId: the path t.account.accountId of
      TransactionRepository's queries, an inner join that passes over a
      record without an account. */
  predicate OfAccount(t: Transaction, accountId: string)
    reads t, t.account
  {
    t.account != null && t.account.accountId == Some(accountId)
  }

  /** The records of s whose account has the id accountId, in the order of s. */
  function ById(s: seq<Transaction>, accountId: string): (r: seq<Transaction>)
    reads set t | t in s, set t | t in s && t.account != null :: t.account
    ensures forall t :: t in r ==> t in s && OfAccount(t, accountId)
    ensures forall t :: t in s && OfAccount(t, accountId) ==> t in r
  {
    if s == [] then []
    else ById(s[..|s| - 1], accountId) + (if OfAccount(s[|s| - 1], accountId) then [s[|s| - 1]] else [])
  }

  /** Appending one record adds it to its owner's records and to nobody else's. */
  lemma OwnedAppend(s: seq<Transaction>, t: Transaction, a: BankAccount)
    ensures Owned(s + [t], a) == Owned(s, a) + (if t.account == a then [t] else [])
  {
    assert (s + [t])[..|s|] == s;
  }

  /** Discarding a's records leaves the records of every other account id
      as they were. */
  lemma {:induction false} DiscardKeepsOthers(s: seq<Transaction>, a: BankAccount, accountId: string)
    requires a.accountId != Some(accountId)
    ensures ById(Discard(s, a), accountId) == ById(s, accountId)
  {
    if s != [] {
      var init, last := s[..|s| - 1], s[|s| - 1];
      DiscardKeepsOthers(init, a, accountId);
      if last.account != a {
        assert Discard(s, a) == Discard(init, a) + [last];
        assert (Discard(init, a) + [last])[..|Discard(init, a)|] == Discard(init, a);
      } else {
        assert Discard(s, a) == Discard(init, a);
      }
    }
  }

  /** After discarding a's records, a owns none. */
  lemma {:induction false} DiscardLeavesNone(s: seq<Transaction>, a: BankAccount)
    ensures Owned(Discard(s, a), a) == []
  {
    if s != [] {
      var init, last := s[..|s| - 1], s[|s| - 1];
      DiscardLeavesNone(init, a);
      if last.account != a {
        assert Discard(s, a) == Discard(init, a) + [last];
        OwnedAppend(Discard(init, a), last, a);
      } else {
        assert Discard(s, a) == Discard(init, a);
      }
    }
  }

  // ----- Date-descending order -----

  /** t is no earlier than u; a record without a date sorts as the earliest. */
  predicate NotBefore(t: Transaction, u: Transaction)
    reads t, u
  {
    u.transactionDate.None?
    || (t.transactionDate.Some? && t.transactionDate.value >= u.transactionDate.value)
  }

  predicate NewestFirst(h: seq<Transaction>)
    reads set t | t in h
  {
    forall i, j :: 0 <= i < j < |h| ==> NotBefore(h[i], h[j])
  }

  /** A record no earlier than every record of a newest-first sequence
      can go in front of it. */
  lemma SortedCons(x: Transaction, h: seq<Transaction>)
    requires NewestFirst(h)
    requires forall k :: 0 <= k < |h| ==> NotBefore(x, h[k])
    ensures NewestFirst([x] + h)
  {
    forall i, j | 0 <= i < j < |[x] + h| ensures NotBefore(([x] + h)[i], ([x] + h)[j]) {
      if i > 0 {
        assert ([x] + h)[i] == h[i - 1];
      }
    }
  }

  /** The first record of a newest-first sequence is no earlier than any
      record after it. */
  lemma HeadNotBeforeRest(h: seq<Transaction>)
    requires NewestFirst(h) && h != []
    ensures forall u :: u in h[1..] ==> NotBefore(h[0], u)
  {
    forall u | u in h[1..] ensures NotBefore(h[0], u) {
      var m :| 0 <= m < |h[1..]| && h[1..][m] == u;
      assert h[m + 1] == u;
    }
  }

  /** Places t in front of the first record of h that is not later than it. */
  function Insert(t: Transaction, h: seq<Transaction>): (r: seq<Transaction>)
    reads t, set u | u in h
    ensures |r| == |h| + 1
    ensures forall u :: u in r ==> u == t || u in h
  {
    if h == [] then [t]
    else if NotBefore(t, h[0]) then [t] + h
    else [h[0]] + Insert(t, h[1..])
  }

  /** Inserting into a newest-first sequence keeps it newest first. */
  lemma {:induction false} InsertSorted(t: Transaction, h: seq<Transaction>)
    requires NewestFirst(h)
    ensures NewestFirst(Insert(t, h))
  {
    if h == [] {
    } else if NotBefore(t, h[0]) {
      SortedCons(t, h);
    } else {
      var rest := Insert(t, h[1..]);
      InsertSorted(t, h[1..]);
      HeadNotBeforeRest(h);
      forall k | 0 <= k < |rest| ensures NotBefore(h[0], rest[k]) {
        assert rest[k] in rest;
      }
      SortedCons(h[0], rest);
    }
  }

  /** Inserting adds exactly t to the records. */
  lemma {:induction false} InsertPermutes(t: Transaction, h: seq<Transaction>)
    ensures multiset(Insert(t, h)) == multiset(h) + multiset{t}
  {
    if h != [] && !NotBefore(t, h[0]) {
      InsertPermutes(t, h[1..]);
      assert h == [h[0]] + h[1..];
    }
  }

  /** ORDER BY transactionDate DESC: insertion sort, newest first; of two
      records with the same date the later one in h comes first. */
  function ByDateDesc(h: seq<Transaction>): (r: seq<Transaction>)
    reads set t | t in h
    ensures |r| == |h|
    ensures forall t :: t in r ==> t in h
  {
    if h == [] then []
    else Insert(h[|h| - 1], ByDateDesc(h[..|h| - 1]))
  }

  /** The sorted records are newest first and are the same records. */
  lemma {:induction false} ByDateDescSortsAndPermutes(h: seq<Transaction>)
    ensures NewestFirst(ByDateDesc(h))
    ensures multiset(ByDateDesc(h)) == multiset(h)
  {
    if h != [] {
      var init := h[..|h| - 1];
      ByDateDescSortsAndPermutes(init);
      InsertSorted(h[|h| - 1], ByDateDesc(init));
      InsertPermutes(h[|h| - 1], ByDateDesc(init));
      assert h == init + [h[|h| - 1]];
    }
  }

  /** findByAccountIdOrderByTransactionDateDesc: the records of the
      account id, newest first. */
  function History(s: seq<Transaction>, accountId: string): (r: seq<Transaction>)
    reads set t | t in s, set t | t in s && t.account != null :: t.account
    ensures |r| == |ById(s, accountId)|
    ensures forall t :: t in r ==> t in s && OfAccount(t, accountId)
  {
    ByDateDesc(ById(s, accountId))
  }

  /** The history of an account id is newest first and holds each record
      of that id once, and nothing else. */
  lemma HistoryIsNewestFirst(s: seq<Transaction>, accountId: string)
    ensures NewestFirst(History(s, accountId))
    ensures multiset(History(s, accountId)) == multiset(ById(s, accountId))
    ensures forall t :: t in History(s, accountId) ==> t in s && OfAccount(t, accountId)
    ensures forall t :: t in s && OfAccount(t, accountId) ==> t in History(s, accountId)
  {
    var h := ById(s, accountId);
    ByDateDescSortsAndPermutes(h);
    forall t | t in s && OfAccount(t, accountId) ensures t in History(s, accountId) {
      assert t in multiset(h);
    }
  }

  // ----- Running balances -----

  /** What the ledger looks at in one record: its owner, type, amount,
      balance snapshot, date, external id and surrogate id. */
  datatype Entry = Entry(owner: BankAccount?, kind: Option<string>, amount: Option<int>,
                         balanceAfter: Option<int>, date: Option<Time>, externalId: Option<string>,
                         id: Option<int>)

  function EntryOf(t: Transaction): Entry
    reads t
  {
    Entry(t.account, t.transactionType, t.amount, t.balanceAfter, t.transactionDate, t.transactionId, t.id)
  }

  /** The signed effect of one entry: credits add, debits subtract, other
      types leave the balance alone. */
  function Change(e: Entry): int
  {
    var a := if e.amount.Some? then e.amount.value else 0;
    if CreditType(e.kind) then a else if DebitType(e.kind) then -a else 0
  }

  /** es views the records of s, one entry per record, in the order of s. */
  ghost predicate Recorded(s: seq<Transaction>, es: seq<Entry>)
    reads set t | t in s
  {
    |es| == |s| && forall i {:trigger EntryOf(s[i])} :: 0 <= i < |s| ==> es[i] == EntryOf(s[i])
  }

  /** Saving one more record adds its entry at the end. */
  lemma RecordedAppend(s: seq<Transaction>, es: seq<Entry>, t: Transaction)
    requires Recorded(s, es)
    ensures Recorded(s + [t], es + [EntryOf(t)])
  {
    assert forall i :: 0 <= i < |s| ==> (s + [t])[i] == s[i];
  }

  /** The entries owned by a, in order. */
  function OwnedEntries(es: seq<Entry>, a: BankAccount): (r: seq<Entry>)
    ensures |r| <= |es|
  {
    if es == [] then []
    else OwnedEntries(es[..|es| - 1], a) + (if es[|es| - 1].owner == a then [es[|es| - 1]] else [])
  }

  lemma OwnedEntriesAppend(es: seq<Entry>, e: Entry, a: BankAccount)
    ensures OwnedEntries(es + [e], a) == OwnedEntries(es, a) + (if e.owner == a then [e] else [])
  {
    assert (es + [e])[..|es|] == es;
  }

  /** Dropping the last record drops the last entry. */
  lemma RecordedInit(s: seq<Transaction>, es: seq<Entry>)
    requires Recorded(s, es) && s != []
    ensures Recorded(s[..|s| - 1], es[..|es| - 1]) && es[|es| - 1] == EntryOf(s[|s| - 1])
  {
  }

  /** Selecting the records of a and then viewing them is viewing the
      store and then selecting a's entries. */
  lemma {:induction false} RecordedOwned(s: seq<Transaction>, es: seq<Entry>, a: BankAccount)
    requires Recorded(s, es)
    ensures Recorded(Owned(s, a), OwnedEntries(es, a))
  {
    if s != [] {
      var init, last := s[..|s| - 1], s[|s| - 1];
      RecordedInit(s, es);
      RecordedOwned(init, es[..|es| - 1], a);
      assert s == init + [last];
      OwnedAppend(init, last, a);
      if last.account == a {
        RecordedAppend(Owned(init, a), OwnedEntries(es[..|es| - 1], a), last);
      }
    }
  }

  /** The entries not owned by a, in order. */
  function DiscardEntries(es: seq<Entry>, a: BankAccount): (r: seq<Entry>)
    ensures |r| <= |es|
  {
    if es == [] then []
    else DiscardEntries(es[..|es| - 1], a) + (if es[|es| - 1].owner != a then [es[|es| - 1]] else [])
  }

  /** Removing a's records and then viewing them is viewing the store and
      then removing a's entries. */
  lemma {:induction false} RecordedDiscard(s: seq<Transaction>, es: seq<Entry>, a: BankAccount)
    requires Recorded(s, es)
    ensures Recorded(Discard(s, a), DiscardEntries(es, a))
  {
    if s != [] {
      var init, last := s[..|s| - 1], s[|s| - 1];
      RecordedInit(s, es);
      RecordedDiscard(init, es[..|es| - 1], a);
      assert s == init + [last];
      if last.account != a {
        assert Discard(s, a) == Discard(init, a) + [last];
        RecordedAppend(Discard(init, a), DiscardEntries(es[..|es| - 1], a), last);
      } else {
        assert Discard(s, a) == Discard(init, a);
      }
    }
  }

  /** Removing a's entries leaves every other account's entries as they were. */
  lemma {:induction false} DiscardEntriesKeepsOthers(es: seq<Entry>, a: BankAccount, b: BankAccount)
    requires a != b
    ensures OwnedEntries(DiscardEntries(es, a), b) == OwnedEntries(es, b)
  {
    if es != [] {
      var init, last := es[..|es| - 1], es[|es| - 1];
      DiscardEntriesKeepsOthers(init, a, b);
      assert es == init + [last];
      OwnedEntriesAppend(init, last, b);
      if last.owner != a {
        assert DiscardEntries(es, a) == DiscardEntries(init, a) + [last];
        OwnedEntriesAppend(DiscardEntries(init, a), last, b);
      } else {
        assert DiscardEntries(es, a) == DiscardEntries(init, a);
      }
    }
  }

  /** Every entry kept is one of the original entries, at a position no
      later than its original one. */
  lemma {:induction false} DiscardEntriesSubsequence(es: seq<Entry>, a: BankAccount, j: int)
    requires 0 <= j < |DiscardEntries(es, a)|
    ensures exists i :: j <= i < |es| && es[i] == DiscardEntries(es, a)[j] && es[i].owner != a
  {
    var init, last := es[..|es| - 1], es[|es| - 1];
    if j < |DiscardEntries(init, a)| {
      DiscardEntriesSubsequence(init, a, j);
      var i :| j <= i < |init| && init[i] == DiscardEntries(init, a)[j] && init[i].owner != a;
      assert es[i] == init[i];
    } else {
      assert es[|es| - 1] == DiscardEntries(es, a)[j];
    }
  }

  /** An account that owns none of the records has no entries. */
  lemma {:induction false} StrangerHasNoEntries(s: seq<Transaction>, es: seq<Entry>, a: BankAccount)
    requires Recorded(s, es)
    requires forall t :: t in s ==> t.account != a
    ensures OwnedEntries(es, a) == []
  {
    if s != [] {
      var init, last := s[..|s| - 1], s[|s| - 1];
      RecordedInit(s, es);
      assert last in s;
      assert forall t :: t in init ==> t in s;
      StrangerHasNoEntries(init, es[..|es| - 1], a);
      assert es == es[..|es| - 1] + [es[|es| - 1]];
      OwnedEntriesAppend(es[..|es| - 1], es[|es| - 1], a);
    }
  }

  /** The sum of the signed effects of es. */
  function Net(es: seq<Entry>): int
  {
    if es == [] then 0 else Net(es[..|es| - 1]) + Change(es[|es| - 1])
  }

  /** One account's entries agree with its balance: the newest entry's
      balanceAfter is the current balance and, undoing the entries one by
      one from the newest, each earlier entry's balanceAfter is the balance
      reached so far, down to the opening balance. */
  predicate Reconciles(es: seq<Entry>, opening: int, balance: int)
  {
    if es == [] then balance == opening
    else
      var last := es[|es| - 1];
      last.balanceAfter == Some(balance) && Reconciles(es[..|es| - 1], opening, balance - Change(last))
  }

  /** An entry whose balanceAfter is the old balance moved by its change
      keeps the account reconciled at the new balance. */
  lemma ReconcilesAppend(es: seq<Entry>, e: Entry, opening: int, balance: int)
    requires Reconciles(es, opening, balance)
    requires e.balanceAfter == Some(balance + Change(e))
    ensures Reconciles(es + [e], opening, balance + Change(e))
  {
    assert (es + [e])[..|es|] == es;
  }

  /** Reconciled entries reproduce the ledger: the balance is the opening
      balance plus the changes of all entries, and each entry's balanceAfter
      is the opening balance plus the changes up to and including it. */
  lemma {:induction false} ReconciledRunningBalances(es: seq<Entry>, opening: int, balance: int)
    requires Reconciles(es, opening, balance)
    ensures balance == opening + Net(es)
    ensures forall j :: 0 <= j < |es| ==> es[j].balanceAfter == Some(opening + Net(es[..j + 1]))
  {
    if es != [] {
      var init, last := es[..|es| - 1], es[|es| - 1];
      var c := Change(last);
      ReconciledRunningBalances(init, opening, balance - c);
      assert Net(es) == Net(init) + c;
      forall j | 0 <= j < |es|
        ensures es[j].balanceAfter == Some(opening + Net(es[..j + 1]))
      {
        if j < |init| {
          assert es[j] == init[j] && es[..j + 1] == init[..j + 1];
        } else {
          assert es[j] == last && es[..j + 1] == es;
        }
      }
    }
  }

  /** Conversely, entries whose every balanceAfter is the running balance
      are reconciled with the balance the changes add up to. */
  lemma {:induction false} RunningBalancesReconcile(es: seq<Entry>, opening: int)
    requires forall j :: 0 <= j < |es| ==> es[j].balanceAfter == Some(opening + Net(es[..j + 1]))
    ensures Reconciles(es, opening, opening + Net(es))
  {
    if es != [] {
      var init, last := es[..|es| - 1], es[|es| - 1];
      forall j | 0 <= j < |init|
        ensures init[j].balanceAfter == Some(opening + Net(init[..j + 1]))
      {
        assert init[..j + 1] == es[..j + 1];
      }
      RunningBalancesReconcile(init, opening);
      assert es[..|es| - 1 + 1] == es;
      assert last.balanceAfter == Some(opening + Net(es));
    }
  }

  /** An account without entries is reconciled at its opening balance. */
  lemma ReconcilesEmpty(opening: int)
    ensures Reconciles([], opening, opening)
  {
  }
}
