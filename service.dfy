/** AccountService: the account store (BankAccountRepository, keyed by
    account id) and the transaction store (TransactionRepository), with
    the operations that check every precondition first and only then
    write. Deposits, withdrawals and transfers move balances and append
    records; deleting an account removes its records by the cascade.
    Exceptions are Err results; a rejected operation changes nothing. */
module Service {
  import opened Wrappers
  import opened Model
  import opened Ledger

  /** Why an operation was rejected (the IllegalArgumentException messages). */
  datatype LedgerError =
    | DuplicateAccount(id: string)
    | NegativeOpeningBalance(amount: int)
    | NonPositiveAmount
    | AccountNotFound(id: string)
    | SameAccount
    | SourceNotFound(id: string)
    | DestinationNotFound(id: string)
    | InsufficientFunds(available: int)
    | NonZeroBalance(balance: int)

  /** The balance createAccount gives a new account, as written: the
      initial balance when one is given, zero otherwise. */
  function StoredOpeningBalance(initialBalance: Option<int>): (b: int)
    ensures initialBalance.None? ==> b == 0
    ensures initialBalance.Some? ==> b == initialBalance.value
  {
    if initialBalance.Some? then initialBalance.value else 0
  }

  /** As written, createAccount stores a negative initial balance, which
      the entity's declared constraint on balance forbids: filing an
      account opened with -1.00 breaks the store's invariant, whatever the
      store held before. */
  lemma NegativeOpeningBalanceAdmitted(accounts: map<string, BankAccount>, balances: map<string, int>,
                                       es: seq<Entry>, nextId: nat, opening: map<string, int>,
                                       id: string, a: BankAccount)
    ensures StoredOpeningBalance(Some(-100)) == -100 < 0
    ensures !Ledgered(accounts[id := a], balances[id := StoredOpeningBalance(Some(-100))], es, nextId,
                      opening[id := StoredOpeningBalance(Some(-100))])
  {
    var balances' := balances[id := StoredOpeningBalance(Some(-100))];
    assert id in balances' && balances'[id] < 0;
  }

  /** The record an operation creates: every field the service sets, the
      defaults of the Transaction() constructor, and what prePersist and
      the identity column fill in. */
  predicate IsNewRecord(t: Transaction, owner: BankAccount, kind: TransactionType, amount: int,
                        balanceAfter: int, description: string, now: Time, millis: nat, id: nat)
    reads t
  {
    && t.account == owner
    && t.transactionType == Some(kind.Value())
    && t.amount == Some(amount)
    && t.balanceAfter == Some(balanceAfter)
    && t.description == Some(description)
    && t.transactionDate == Some(now) && t.createdAt == Some(now) && t.updatedAt == Some(now)
    && t.status == Completed
    && t.transactionId == Some(GeneratedTransactionId(millis))
    && t.id == Some(id)
    && t.referenceNumber == None && t.relatedTransactionId == None
  }

  /** The account createAccount builds: new BankAccount() followed by
      setAccountId, setAccountType, setBalance, setCreatedAt and
      setUpdatedAt. */
  method NewAccount(accountId: string, accountType: Option<string>, balance: int, now: Time)
    returns (a: BankAccount)
    ensures fresh(a)
    ensures a.accountId == Some(accountId) && a.accountType == accountType && a.accountName == None
    ensures a.balance == balance && a.accountStatus == Active && a.currency == Some("ZAR")
    ensures a.interestRate == 0 && a.overdraftLimit == 0 && a.transactions == []
    ensures a.createdAt == Some(now) && a.updatedAt == Some(now) && a.lastTransactionDate == Some(now)
  {
    a := new BankAccount(now);
    a.accountId := Some(accountId);
    a.accountType := accountType;
    a.SetBalance(balance, now);
    a.createdAt := Some(now);
    a.updatedAt := Some(now);
  }

  /** setBalance followed by setUpdatedAt, as every balance change does. */
  method Post(a: BankAccount, balance: int, now: Time)
    modifies a`balance, a`lastTransactionDate, a`updatedAt
    ensures a.balance == balance && a.lastTransactionDate == Some(now) && a.updatedAt == Some(now)
  {
    a.SetBalance(balance, now);
    a.SetUpdatedAt(now);
  }

  /** The record an operation builds before saving it: new Transaction()
      followed by setAccount, setTransactionType, setAmount,
      setDescription, setTransactionDate and setBalanceAfter. */
  method NewRecord(owner: BankAccount, kind: TransactionType, amount: int, balanceAfter: int,
                   description: string, now: Time)
    returns (t: Transaction)
    ensures fresh(t)
    ensures t.account == owner && t.transactionType == Some(kind.Value()) && t.amount == Some(amount)
    ensures t.balanceAfter == Some(balanceAfter) && t.description == Some(description)
    ensures t.transactionDate == Some(now) && t.createdAt == Some(now) && t.updatedAt == Some(now)
    ensures t.status == Completed && t.id == None && t.transactionId == None
    ensures t.referenceNumber == None && t.relatedTransactionId == None
  {
    t := new Transaction(now);
    t.account := owner;
    t.transactionType := Some(kind.Value());
    t.amount := Some(amount);
    t.description := Some(description);
    t.transactionDate := Some(now);
    t.balanceAfter := Some(balanceAfter);
  }

  /** A record as the operations leave it in the store: owned, with a
      positive amount, a balance snapshot, a date, an external id, a
      surrogate id, and a debit or credit type. */
  predicate Posted(e: Entry)
  {
    && e.owner != null
    && e.amount.Some? && e.amount.value > 0
    && e.balanceAfter.Some? && e.date.Some? && e.externalId.Some? && e.id.Some?
    && (DebitType(e.kind) || CreditType(e.kind))
  }

  /** The stored records are posted, numbered below nextId, and no two
      carry the same surrogate id. */
  predicate RecordsOk(es: seq<Entry>, nextId: nat)
  {
    && (forall i :: 0 <= i < |es| ==> Posted(es[i]) && es[i].id.value < nextId)
    && (forall i, j :: 0 <= i < j < |es| ==> es[i].id != es[j].id)
  }

  /** Saving a posted record with the next identity keeps the records in order. */
  lemma RecordsAppend(es: seq<Entry>, e: Entry, nextId: nat)
    requires RecordsOk(es, nextId)
    requires Posted(e) && e.id == Some(nextId)
    ensures RecordsOk(es + [e], nextId + 1)
  {
    var es' := es + [e];
    forall i, j | 0 <= i < j < |es'| ensures es'[i].id != es'[j].id {
      if j == |es| {
        assert es'[i] == es[i];
      } else {
        assert es'[i] == es[i] && es'[j] == es[j];
      }
    }
  }

  /** Removing one owner's records keeps the others in order. */
  lemma RecordsDiscard(es: seq<Entry>, a: BankAccount, nextId: nat)
    requires RecordsOk(es, nextId)
    ensures RecordsOk(DiscardEntries(es, a), nextId)
  {
    var r := DiscardEntries(es, a);
    forall j | 0 <= j < |r|
      ensures Posted(r[j]) && r[j].id.value < nextId
    {
      DiscardEntriesSubsequence(es, a, j);
    }
    DiscardEntriesDistinct(es, a, nextId);
  }

  /** Removing entries keeps their surrogate ids distinct. */
  lemma {:induction false} DiscardEntriesDistinct(es: seq<Entry>, a: BankAccount, nextId: nat)
    requires RecordsOk(es, nextId)
    ensures forall i, j :: 0 <= i < j < |DiscardEntries(es, a)| ==> DiscardEntries(es, a)[i].id != DiscardEntries(es, a)[j].id
  {
    if es != [] {
      var init, last := es[..|es| - 1], es[|es| - 1];
      assert RecordsOk(init, nextId) by {
        forall i | 0 <= i < |init| ensures init[i] == es[i] { }
      }
      DiscardEntriesDistinct(init, a, nextId);
      var d := DiscardEntries(init, a);
      if last.owner != a {
        var r := d + [last];
        assert DiscardEntries(es, a) == r;
        forall i, j | 0 <= i < j < |r| ensures r[i].id != r[j].id {
          if j == |d| {
            DiscardEntriesSubsequence(init, a, i);
            var m :| 0 <= m < |init| && init[m] == d[i] && init[m].owner != a;
            assert es[m] == init[m];
            assert r[i] == es[m] && r[j] == es[|es| - 1];
          } else {
            assert r[i] == d[i] && r[j] == d[j];
          }
        }
      }
    }
  }

  /** Every stored account is filed under its own id. */
  ghost predicate Filed(accounts: map<string, BankAccount>)
    reads accounts.Values
  {
    forall k {:trigger accounts[k].accountId} :: k in accounts ==> accounts[k].accountId == Some(k)
  }

  /** Accounts filed under their own ids are distinct objects. */
  lemma FiledDistinct(accounts: map<string, BankAccount>, j: string, k: string)
    requires Filed(accounts) && j in accounts && k in accounts && j != k
    ensures accounts[j] != accounts[k]
  {
    assert accounts[j].accountId == Some(j) && accounts[k].accountId == Some(k);
  }

  /** Removing an account keeps the others filed. */
  lemma FiledRemove(accounts: map<string, BankAccount>, id: string)
    requires Filed(accounts)
    ensures Filed(accounts - {id})
  {
    forall k | k in accounts - {id} ensures (accounts - {id})[k].accountId == Some(k) {
      assert (accounts - {id})[k] == accounts[k];
    }
  }

  /** Each stored account's balance is the one noted for its id. */
  ghost predicate Balanced(accounts: map<string, BankAccount>, balances: map<string, int>)
    reads accounts.Values
  {
    balances.Keys == accounts.Keys && forall k {:trigger accounts[k].balance} :: k in accounts ==> accounts[k].balance == balances[k]
  }

  /** Removing an account keeps the others' balances as noted. */
  lemma BalancedRemove(accounts: map<string, BankAccount>, balances: map<string, int>, id: string)
    requires Balanced(accounts, balances)
    ensures Balanced(accounts - {id}, balances - {id})
  {
    forall k | k in accounts - {id} ensures (accounts - {id})[k].balance == (balances - {id})[k] {
      assert (accounts - {id})[k] == accounts[k];
    }
  }

  /** The store's invariant on values: every balance is non-negative;
      every record is posted and numbered below the next identity, no two
      alike; and each account's entries
      reconcile its opening balance with its current balance. */
  ghost predicate Ledgered(accounts: map<string, BankAccount>, balances: map<string, int>, es: seq<Entry>,
                           nextId: nat, opening: map<string, int>)
  {
    && opening.Keys == accounts.Keys && balances.Keys == accounts.Keys
    && (forall k :: k in balances ==> balances[k] >= 0)
    && RecordsOk(es, nextId)
    && (forall k {:trigger Reconciles(OwnedEntries(es, accounts[k]), opening[k], balances[k])} :: k in accounts ==> Reconciles(OwnedEntries(es, accounts[k]), opening[k], balances[k]))
  }

  /** Opening a new account that owns no entry, with a non-negative
      balance, keeps the store ledgered. */
  lemma OpenKeepsLedgered(accounts: map<string, BankAccount>, balances: map<string, int>, es: seq<Entry>,
                          nextId: nat, opening: map<string, int>, id: string, a: BankAccount, b: int)
    requires Ledgered(accounts, balances, es, nextId, opening)
    requires id !in accounts && b >= 0
    requires OwnedEntries(es, a) == []
    ensures Ledgered(accounts[id := a], balances[id := b], es, nextId, opening[id := b])
  {
    var accounts', balances', opening' := accounts[id := a], balances[id := b], opening[id := b];
    forall k | k in accounts'
      ensures Reconciles(OwnedEntries(es, accounts'[k]), opening'[k], balances'[k])
    {
      if k == id {
        ReconcilesEmpty(b);
      }
    }
  }

  /** Removing an account, distinct from every other, together with its
      entries keeps the store ledgered. */
  lemma RemoveKeepsLedgered(accounts: map<string, BankAccount>, balances: map<string, int>, es: seq<Entry>,
                            nextId: nat, opening: map<string, int>, id: string)
    requires Ledgered(accounts, balances, es, nextId, opening)
    requires id in accounts
    requires forall j :: j in accounts && j != id ==> accounts[j] != accounts[id]
    ensures Ledgered(accounts - {id}, balances - {id}, DiscardEntries(es, accounts[id]), nextId, opening - {id})
  {
    var a := accounts[id];
    var accounts' := accounts - {id};
    RecordsDiscard(es, a, nextId);
    forall k | k in accounts'
      ensures Reconciles(OwnedEntries(DiscardEntries(es, a), accounts'[k]), opening[k], balances[k])
    {
      DiscardEntriesKeepsOthers(es, a, accounts[k]);
    }
  }

  /** The signed effect of a record of type kind for amount: deposits and
      incoming transfers add, withdrawals and outgoing transfers subtract. */
  function Effect(kind: TransactionType, amount: int): int
  {
    match kind
    case Deposit | TransferIn => amount
    case Withdrawal | TransferOut => -amount
    case _ => 0
  }

  /** Moving the balance of the account filed under k by the change of a
      new posted record owned by it, keeping it non-negative, and appending
      that record with the next identity keeps the store ledgered. */
  lemma BookKeepsLedgered(accounts: map<string, BankAccount>, balances: map<string, int>, es: seq<Entry>,
                          nextId: nat, opening: map<string, int>, k: string, e: Entry)
    requires Ledgered(accounts, balances, es, nextId, opening)
    requires k in accounts
    requires forall j :: j in accounts && j != k ==> accounts[j] != accounts[k]
    requires Posted(e) && e.owner == accounts[k] && e.id == Some(nextId)
    requires e.balanceAfter == Some(balances[k] + Change(e)) && balances[k] + Change(e) >= 0
    ensures Ledgered(accounts, balances[k := balances[k] + Change(e)], es + [e], nextId + 1, opening)
  {
    RecordsAppend(es, e, nextId);
    AllReconcileAppend(accounts, balances, es, opening, k, e);
    NonNegativeUpdate(accounts, balances, k, balances[k] + Change(e), balances[k := balances[k] + Change(e)]);
    LedgeredIntro(accounts, balances[k := balances[k] + Change(e)], es + [e], nextId + 1, opening);
  }

  /** The invariant from its parts. */
  lemma LedgeredIntro(accounts: map<string, BankAccount>, balances: map<string, int>, es: seq<Entry>,
                      nextId: nat, opening: map<string, int>)
    requires opening.Keys == accounts.Keys && balances.Keys == accounts.Keys
    requires forall k :: k in balances ==> balances[k] >= 0
    requires RecordsOk(es, nextId)
    requires forall k {:trigger Reconciles(OwnedEntries(es, accounts[k]), opening[k], balances[k])} :: k in accounts ==> Reconciles(OwnedEntries(es, accounts[k]), opening[k], balances[k])
    ensures Ledgered(accounts, balances, es, nextId, opening)
  {
  }

  /** Setting the balance filed under k to a non-negative value keeps the
      balances non-negative and their keys those of the accounts. */
  lemma NonNegativeUpdate(accounts: map<string, BankAccount>, balances: map<string, int>, k: string, v: int,
                          balances': map<string, int>)
    requires balances.Keys == accounts.Keys && k in accounts
    requires forall j :: j in balances ==> balances[j] >= 0
    requires v >= 0 && balances' == balances[k := v]
    ensures balances'.Keys == accounts.Keys
    ensures forall j :: j in balances' ==> balances'[j] >= 0
  {
  }

  /** Appending an entry owned by the account filed under k, with that
      account's moved balance as its balanceAfter, keeps every account
      reconciled. */
  lemma AllReconcileAppend(accounts: map<string, BankAccount>, balances: map<string, int>, es: seq<Entry>,
                           opening: map<string, int>, k: string, e: Entry)
    requires balances.Keys == accounts.Keys && opening.Keys == accounts.Keys && k in accounts
    requires forall j {:trigger Reconciles(OwnedEntries(es, accounts[j]), opening[j], balances[j])} :: j in accounts ==> Reconciles(OwnedEntries(es, accounts[j]), opening[j], balances[j])
    requires forall j :: j in accounts && j != k ==> accounts[j] != accounts[k]
    requires e.owner == accounts[k] && e.balanceAfter == Some(balances[k] + Change(e))
    ensures forall j {:trigger Reconciles(OwnedEntries(es + [e], accounts[j]), opening[j], balances[k := balances[k] + Change(e)][j])} :: j in accounts ==>
      Reconciles(OwnedEntries(es + [e], accounts[j]), opening[j], balances[k := balances[k] + Change(e)][j])
  {
    forall j | j in accounts
      ensures Reconciles(OwnedEntries(es + [e], accounts[j]), opening[j], balances[k := balances[k] + Change(e)][j])
    {
      AppendReconciles(es, e, accounts[j], opening[j], balances[j]);
    }
  }

  /** Appending an entry keeps an account's entries reconciled: with its
      balance moved by the entry's change when it owns the entry, and as it
      was otherwise. */
  lemma AppendReconciles(es: seq<Entry>, e: Entry, b: BankAccount, opening: int, balance: int)
    requires Reconciles(OwnedEntries(es, b), opening, balance)
    requires e.owner == b ==> e.balanceAfter == Some(balance + Change(e))
    ensures Reconciles(OwnedEntries(es + [e], b), opening, if e.owner == b then balance + Change(e) else balance)
  {
    OwnedEntriesAppend(es, e, b);
    if e.owner == b {
      ReconcilesAppend(OwnedEntries(es, b), e, opening, balance);
    } else {
      assert OwnedEntries(es + [e], b) == OwnedEntries(es, b);
    }
  }

  class AccountService {
    /** BankAccountRepository: the stored accounts by id. */
    var accounts: map<string, BankAccount>
    /** TransactionRepository: the stored records in the order of saving. */
    var log: seq<Transaction>
    /** The next value of the records' identity column. */
    var nextId: nat
    /** The balance each stored account was opened with. */
    ghost var opening: map<string, int>
    /** The current balance of each stored account, by id. */
    ghost var balances: map<string, int>
    /** The view of the stored records. */
    ghost var entries: seq<Entry>

    ghost predicate Valid()
      reads this, accounts.Values, set t | t in log
    {
      && Filed(accounts) && Balanced(accounts, balances) && Recorded(log, entries)
      && Ledgered(accounts, balances, entries, nextId, opening)
    }

    /** The stored account with the given id, if any: what an operation on
        that id may change. */
    function AccountAt(accountId: string): set<BankAccount>
      reads this
    {
      if accountId in accounts then {accounts[accountId]} else {}
    }

    constructor ()
      ensures Valid()
      ensures accounts == map[] && log == [] && nextId == 0
    {
      accounts, log, nextId := map[], [], 0;
      opening, balances, entries := map[], map[], [];
    }

    /** getAccountById (findById). */
    method GetAccountById(accountId: string) returns (r: Option<BankAccount>)
      requires Valid()
      ensures r.Some? <==> accountId in accounts
      ensures r.Some? ==> r.value == accounts[accountId] && r.value.accountId == Some(accountId)
    {
      if accountId in accounts {
        r := Some(accounts[accountId]);
      } else {
        r := None;
      }
    }

    /** getAllAccounts (findAll): every stored account, each of them filed
        under its own id. */
    method GetAllAccounts() returns (r: set<BankAccount>)
      requires Valid()
      ensures forall k :: k in accounts ==> accounts[k] in r
      ensures forall a :: a in r ==> a.accountId.Some? && a.accountId.value in accounts && accounts[a.accountId.value] == a
    {
      r := accounts.Values;
    }

    /** transactionRepository.save of a new record: prePersist fills what is
        unset, the identity column assigns the next id, and the record is
        appended to the store. */
    method SaveTransaction(t: Transaction, now: Time, millis: nat)
      modifies this`log, this`nextId, t`id, t`createdAt, t`updatedAt, t`transactionDate, t`transactionId
      ensures log == old(log) + [t] && nextId == old(nextId) + 1
      ensures t.id == Some(old(nextId))
      ensures t.createdAt == if old(t.createdAt).None? then Some(now) else old(t.createdAt)
      ensures t.updatedAt == if old(t.updatedAt).None? then Some(now) else old(t.updatedAt)
      ensures t.transactionDate == if old(t.transactionDate).None? then Some(now) else old(t.transactionDate)
      ensures t.transactionId == if old(t.transactionId).None? then Some(GeneratedTransactionId(millis)) else old(t.transactionId)
    {
      t.PrePersist(now, millis);
      t.id := Some(nextId);
      nextId := nextId + 1;
      log := log + [t];
    }

    /** accountRepository.save of a new account: it is filed under its id. */
    method File(id: string, a: BankAccount)
      requires Valid()
      requires id !in accounts && forall k :: k in accounts ==> accounts[k] != a
      requires a.accountId == Some(id) && a.balance >= 0
      requires forall t :: t in log ==> t.account != a
      modifies this`accounts, this`opening, this`balances
      ensures Valid()
      ensures accounts == old(accounts)[id := a]
      ensures opening == old(opening)[id := a.balance] && balances == old(balances)[id := a.balance]
    {
      StrangerHasNoEntries(log, entries, a);
      OpenKeepsLedgered(accounts, balances, entries, nextId, opening, id, a, a.balance);
      accounts, opening, balances := accounts[id := a], opening[id := a.balance], balances[id := a.balance];
    }

    /** A new completed record of kind for amount, owned by a, is created
        and saved, and its entry is added to the view. */
    method Record(a: BankAccount, kind: TransactionType, amount: int, balanceAfter: int, description: string,
                  now: Time, millis: nat)
      returns (t: Transaction)
      requires Recorded(log, entries)
      modifies this`log, this`nextId, this`entries
      ensures Recorded(log, entries)
      ensures fresh(t) && log == old(log) + [t] && nextId == old(nextId) + 1 && entries == old(entries) + [EntryOf(t)]
      ensures IsNewRecord(t, a, kind, amount, balanceAfter, description, now, millis, old(nextId))
    {
      t := NewRecord(a, kind, amount, balanceAfter, description, now);
      assert Recorded(log, entries);
      SaveTransaction(t, now, millis);
      assert Recorded(old(log), entries);
      RecordedAppend(old(log), entries, t);
      entries := entries + [EntryOf(t)];
    }

    /** The writes of one posting: a, filed under k, gets the new balance,
        then the record is created and saved. The accounts stay filed and
        every other balance stays as it was. */
    method Apply(k: string, a: BankAccount, kind: TransactionType, amount: int, balance: int, description: string,
                 now: Time, millis: nat)
      returns (t: Transaction)
      requires Filed(accounts) && Balanced(accounts, balances) && Recorded(log, entries)
      requires k in accounts && accounts[k] == a
      modifies a`balance, a`lastTransactionDate, a`updatedAt, this`log, this`nextId, this`balances, this`entries
      ensures Filed(accounts) && Balanced(accounts, balances) && Recorded(log, entries)
      ensures balances == old(balances)[k := balance] && entries == old(entries) + [EntryOf(t)]
      ensures a.balance == balance && a.lastTransactionDate == Some(now) && a.updatedAt == Some(now)
      ensures fresh(t) && log == old(log) + [t] && nextId == old(nextId) + 1
      ensures IsNewRecord(t, a, kind, amount, balance, description, now, millis, old(nextId))
    {
      forall j | j in accounts && j != k ensures accounts[j] != a {
        FiledDistinct(accounts, j, k);
      }
      Post(a, balance, now);
      balances := balances[k := balance];
      t := Record(a, kind, amount, balance, description, now, millis);
    }

    /** One posting: the account filed under k gets the new balance and a
        completed record of kind for amount, with the new balance as its
        balanceAfter, is saved. */
    method Book(k: string, a: BankAccount, balance: int, kind: TransactionType, amount: int, description: string,
                now: Time, millis: nat)
      returns (t: Transaction)
      requires Valid()
      requires k in accounts && accounts[k] == a && amount > 0 && balance >= 0
      requires kind in {TransactionType.Deposit, Withdrawal, TransferIn, TransferOut}
      requires balance == a.balance + Effect(kind, amount)
      modifies a`balance, a`lastTransactionDate, a`updatedAt, this`log, this`nextId, this`balances, this`entries
      ensures Valid()
      ensures a.balance == balance && a.lastTransactionDate == Some(now) && a.updatedAt == Some(now)
      ensures fresh(t) && log == old(log) + [t] && nextId == old(nextId) + 1
      ensures IsNewRecord(t, a, kind, amount, balance, description, now, millis, old(nextId))
    {
      ghost var e := Entry(a, Some(kind.Value()), Some(amount), Some(balance), Some(now),
                           Some(GeneratedTransactionId(millis)), Some(nextId));
      forall j | j in accounts && j != k ensures accounts[j] != a {
        FiledDistinct(accounts, j, k);
      }
      assert Change(e) == Effect(kind, amount);
      BookKeepsLedgered(accounts, balances, entries, nextId, opening, k, e);
      t := Apply(k, a, kind, amount, balance, description, now, millis);
      assert EntryOf(t) == e;
    }

    /** createAccount: a duplicate id is rejected; otherwise a new active
        account is stored with the given (or zero) opening balance. */
    method CreateAccount(accountId: string, accountType: Option<string>, initialBalance: Option<int>, now: Time)
      returns (r: Result<BankAccount, LedgerError>)
      requires Valid()
      modifies this`accounts, this`opening, this`balances
      ensures Valid()
      ensures accountId in old(accounts) ==> r == Err(DuplicateAccount(accountId))
      ensures accountId !in old(accounts) && StoredOpeningBalance(initialBalance) < 0 ==>
                r == Err(NegativeOpeningBalance(StoredOpeningBalance(initialBalance)))
      ensures r.Ok? <==> accountId !in old(accounts) && StoredOpeningBalance(initialBalance) >= 0
      ensures r.Err? ==> unchanged(this)
      ensures r.Ok? ==> fresh(r.value) && accounts == old(accounts)[accountId := r.value]
      ensures r.Ok? ==> opening == old(opening)[accountId := r.value.balance]
      ensures r.Ok? ==> r.value.accountId == Some(accountId) && r.value.accountType == accountType
      ensures r.Ok? ==> r.value.balance == StoredOpeningBalance(initialBalance)
      ensures r.Ok? ==> r.value.accountStatus == Active && r.value.currency == Some("ZAR")
      ensures r.Ok? ==> r.value.overdraftLimit == 0 && r.value.interestRate == 0 && r.value.transactions == []
      ensures r.Ok? ==> r.value.createdAt == Some(now) && r.value.updatedAt == Some(now)
      ensures r.Ok? ==> r.value.lastTransactionDate == Some(now)
    {
      if accountId in accounts {
        return Err(DuplicateAccount(accountId));
      }
      if StoredOpeningBalance(initialBalance) < 0 {
        return Err(NegativeOpeningBalance(StoredOpeningBalance(initialBalance)));
      }
      var account := NewAccount(accountId, accountType, StoredOpeningBalance(initialBalance), now);
      File(accountId, account);
      r := Ok(account);
    }

    /** deposit: a non-positive amount is rejected, then an unknown account;
        otherwise the balance grows by the amount and a completed DEPOSIT
        record holding the new balance is saved. */
    method Deposit(accountId: string, amount: int, now: Time, millis: nat)
      returns (r: Result<BankAccount, LedgerError>)
      requires Valid()
      modifies this`log, this`nextId, this`balances, this`entries
      modifies AccountAt(accountId)`balance, AccountAt(accountId)`lastTransactionDate, AccountAt(accountId)`updatedAt
      ensures Valid()
      ensures amount <= 0 ==> r == Err(NonPositiveAmount)
      ensures amount > 0 && accountId !in old(accounts) ==> r == Err(AccountNotFound(accountId))
      ensures r.Ok? <==> amount > 0 && accountId in old(accounts)
      ensures r.Err? ==> unchanged(this) && unchanged(AccountAt(accountId))
      ensures r.Ok? ==> accounts == old(accounts) && r.value == accounts[accountId]
      ensures r.Ok? ==> r.value.balance == old(r.value.balance) + amount
      ensures r.Ok? ==> r.value.updatedAt == Some(now) && r.value.lastTransactionDate == Some(now)
      ensures r.Ok? ==> |log| == |old(log)| + 1 && log[..|old(log)|] == old(log) && fresh(log[|old(log)|])
      ensures r.Ok? ==> IsNewRecord(log[|old(log)|], r.value, TransactionType.Deposit, amount, r.value.balance,
                                    "Deposit to account " + accountId, now, millis, old(nextId))
    {
      if amount <= 0 {
        return Err(NonPositiveAmount);
      }
      if accountId !in accounts {
        return Err(AccountNotFound(accountId));
      }
      var account := accounts[accountId];
      var t := Book(accountId, account, account.balance + amount, TransactionType.Deposit, amount,
                    "Deposit to account " + accountId, now, millis);
      r := Ok(account);
    }

    /** withdraw: a non-positive amount is rejected, then an unknown
        account, then an amount above the balance; otherwise the balance
        drops by the amount and a completed WITHDRAWAL record holding the
        new balance is saved. */
    method Withdraw(accountId: string, amount: int, now: Time, millis: nat)
      returns (r: Result<BankAccount, LedgerError>)
      requires Valid()
      modifies this`log, this`nextId, this`balances, this`entries
      modifies AccountAt(accountId)`balance, AccountAt(accountId)`lastTransactionDate, AccountAt(accountId)`updatedAt
      ensures Valid()
      ensures amount <= 0 ==> r == Err(NonPositiveAmount)
      ensures amount > 0 && accountId !in old(accounts) ==> r == Err(AccountNotFound(accountId))
      ensures amount > 0 && accountId in old(accounts) && old(accounts[accountId].balance) < amount ==>
                r == Err(InsufficientFunds(old(accounts[accountId].balance)))
      ensures r.Ok? <==> amount > 0 && accountId in old(accounts) && old(accounts[accountId].balance) >= amount
      ensures r.Err? ==> unchanged(this) && unchanged(AccountAt(accountId))
      ensures r.Ok? ==> accounts == old(accounts) && r.value == accounts[accountId]
      ensures r.Ok? ==> r.value.balance == old(r.value.balance) - amount
      ensures r.Ok? ==> r.value.updatedAt == Some(now) && r.value.lastTransactionDate == Some(now)
      ensures r.Ok? ==> |log| == |old(log)| + 1 && log[..|old(log)|] == old(log) && fresh(log[|old(log)|])
      ensures r.Ok? ==> IsNewRecord(log[|old(log)|], r.value, Withdrawal, amount, r.value.balance,
                                    "Withdrawal from account " + accountId, now, millis, old(nextId))
    {
      if amount <= 0 {
        return Err(NonPositiveAmount);
      }
      if accountId !in accounts {
        return Err(AccountNotFound(accountId));
      }
      var account := accounts[accountId];
      if account.balance < amount {
        return Err(InsufficientFunds(account.balance));
      }
      var t := Book(accountId, account, account.balance - amount, Withdrawal, amount,
                    "Withdrawal from account " + accountId, now, millis);
      r := Ok(account);
    }

    /** transfer: a non-positive amount is rejected, then equal ids, then an
        unknown source, then an unknown destination, then an amount above
        the source's balance; otherwise the amount moves from the source to
        the destination, and a TRANSFER_OUT record for the source and a
        TRANSFER_IN record for the destination are saved in that order.
        The two saves read the millisecond clock once each. */
    method Transfer(fromAccountId: string, toAccountId: string, amount: int, now: Time,
                    millisOut: nat, millisIn: nat)
      returns (r: Result<(), LedgerError>)
      requires Valid()
      modifies this`log, this`nextId, this`balances, this`entries
      modifies AccountAt(fromAccountId)`balance, AccountAt(fromAccountId)`lastTransactionDate, AccountAt(fromAccountId)`updatedAt
      modifies AccountAt(toAccountId)`balance, AccountAt(toAccountId)`lastTransactionDate, AccountAt(toAccountId)`updatedAt
      ensures Valid()
      ensures amount <= 0 ==> r == Err(NonPositiveAmount)
      ensures amount > 0 && fromAccountId == toAccountId ==> r == Err(SameAccount)
      ensures amount > 0 && fromAccountId != toAccountId && fromAccountId !in old(accounts) ==>
                r == Err(SourceNotFound(fromAccountId))
      ensures amount > 0 && fromAccountId != toAccountId && fromAccountId in old(accounts) && toAccountId !in old(accounts) ==>
                r == Err(DestinationNotFound(toAccountId))
      ensures amount > 0 && fromAccountId != toAccountId && fromAccountId in old(accounts) && toAccountId in old(accounts)
              && old(accounts[fromAccountId].balance) < amount ==>
                r == Err(InsufficientFunds(old(accounts[fromAccountId].balance)))
      ensures r.Ok? <==> amount > 0 && fromAccountId != toAccountId && fromAccountId in old(accounts)
                         && toAccountId in old(accounts) && old(accounts[fromAccountId].balance) >= amount
      ensures r.Err? ==> unchanged(this) && unchanged(AccountAt(fromAccountId)) && unchanged(AccountAt(toAccountId))
      ensures r.Ok? ==> accounts == old(accounts) && accounts[fromAccountId] != accounts[toAccountId]
      ensures r.Ok? ==> accounts[fromAccountId].balance == old(accounts[fromAccountId].balance) - amount
      ensures r.Ok? ==> accounts[toAccountId].balance == old(accounts[toAccountId].balance) + amount
      ensures r.Ok? ==> accounts[fromAccountId].balance + accounts[toAccountId].balance
                        == old(accounts[fromAccountId].balance + accounts[toAccountId].balance)
      ensures r.Ok? ==> |log| == |old(log)| + 2 && log[..|old(log)|] == old(log)
      ensures r.Ok? ==> fresh(log[|old(log)|]) && fresh(log[|old(log)| + 1])
      ensures r.Ok? ==> IsNewRecord(log[|old(log)|], accounts[fromAccountId], TransferOut, amount,
                                    accounts[fromAccountId].balance, "Transfer to account " + toAccountId,
                                    now, millisOut, old(nextId))
      ensures r.Ok? ==> IsNewRecord(log[|old(log)| + 1], accounts[toAccountId], TransferIn, amount,
                                    accounts[toAccountId].balance, "Transfer from account " + fromAccountId,
                                    now, millisIn, old(nextId) + 1)
    {
      if amount <= 0 {
        return Err(NonPositiveAmount);
      }
      if fromAccountId == toAccountId {
        return Err(SameAccount);
      }
      if fromAccountId !in accounts {
        return Err(SourceNotFound(fromAccountId));
      }
      if toAccountId !in accounts {
        return Err(DestinationNotFound(toAccountId));
      }
      var source, destination := accounts[fromAccountId], accounts[toAccountId];
      if source.balance < amount {
        return Err(InsufficientFunds(source.balance));
      }
      Move(fromAccountId, toAccountId, source, destination, amount, now, millisOut, millisIn);
      r := Ok(());
    }

    /** The writes of a transfer that passed its checks: the source is
        debited and its TRANSFER_OUT record saved, then the destination is
        credited and its TRANSFER_IN record saved. */
    method Move(fromAccountId: string, toAccountId: string, source: BankAccount, destination: BankAccount,
                amount: int, now: Time, millisOut: nat, millisIn: nat)
      requires Valid()
      requires fromAccountId in accounts && toAccountId in accounts && fromAccountId != toAccountId
      requires accounts[fromAccountId] == source && accounts[toAccountId] == destination
      requires amount > 0 && source.balance >= amount
      modifies this`log, this`nextId, this`balances, this`entries
      modifies source`balance, source`lastTransactionDate, source`updatedAt
      modifies destination`balance, destination`lastTransactionDate, destination`updatedAt
      ensures Valid()
      ensures source != destination
      ensures source.balance == old(source.balance) - amount && destination.balance == old(destination.balance) + amount
      ensures |log| == |old(log)| + 2 && log[..|old(log)|] == old(log)
      ensures fresh(log[|old(log)|]) && fresh(log[|old(log)| + 1])
      ensures IsNewRecord(log[|old(log)|], source, TransferOut, amount, source.balance,
                          "Transfer to account " + toAccountId, now, millisOut, old(nextId))
      ensures IsNewRecord(log[|old(log)| + 1], destination, TransferIn, amount, destination.balance,
                          "Transfer from account " + fromAccountId, now, millisIn, old(nextId) + 1)
    {
      FiledDistinct(accounts, fromAccountId, toAccountId);
      forall k | k in accounts && k != fromAccountId ensures accounts[k] != source {
        FiledDistinct(accounts, k, fromAccountId);
      }
      forall k | k in accounts && k != toAccountId ensures accounts[k] != destination {
        FiledDistinct(accounts, k, toAccountId);
      }
      var debit := Book(fromAccountId, source, source.balance - amount, TransferOut, amount,
                        "Transfer to account " + toAccountId, now, millisOut);
      var credit := Book(toAccountId, destination, destination.balance + amount, TransferIn, amount,
                         "Transfer from account " + fromAccountId, now, millisIn);
    }

    /** getTransactionHistory: an unknown account is rejected; otherwise
        the records of its id, newest first. */
    method GetTransactionHistory(accountId: string) returns (r: Result<seq<Transaction>, LedgerError>)
      requires Valid()
      ensures r.Err? <==> accountId !in accounts
      ensures r.Err? ==> r == Err(AccountNotFound(accountId))
      ensures r.Ok? ==> NewestFirst(r.value) && multiset(r.value) == multiset(ById(log, accountId))
      ensures r.Ok? ==> forall t :: t in r.value ==> t in log && OfAccount(t, accountId)
      ensures r.Ok? ==> forall t :: t in log && OfAccount(t, accountId) ==> t in r.value
    {
      if accountId !in accounts {
        return Err(AccountNotFound(accountId));
      }
      var account := accounts[accountId];
      HistoryIsNewestFirst(log, accountId);
      r := Ok(History(log, account.accountId.value));
    }

    /** getAccountBalance: an unknown account is rejected; otherwise its
        balance, which is never negative and is the opening balance moved
        by the changes of the account's records. */
    method GetAccountBalance(accountId: string) returns (r: Result<int, LedgerError>)
      requires Valid()
      ensures r.Err? <==> accountId !in accounts
      ensures r.Err? ==> r == Err(AccountNotFound(accountId))
      ensures r.Ok? ==> r.value == accounts[accountId].balance && r.value >= 0
      ensures r.Ok? ==> r.value == opening[accountId] + Net(OwnedEntries(entries, accounts[accountId]))
      ensures r.Ok? ==> Recorded(Owned(log, accounts[accountId]), OwnedEntries(entries, accounts[accountId]))
    {
      if accountId !in accounts {
        return Err(AccountNotFound(accountId));
      }
      var account := accounts[accountId];
      ReconciledRunningBalances(OwnedEntries(entries, account), opening[accountId], balances[accountId]);
      RecordedOwned(log, entries, account);
      r := Ok(account.balance);
    }

    /** initializeDefaultAccounts: an empty store gets the cheque account
        ACC001 and the savings account SAV001, each opened with 1000.00;
        a store holding any account is left alone. */
    method InitializeDefaultAccounts(now: Time)
      requires Valid()
      modifies this`accounts, this`opening, this`balances
      ensures Valid()
      ensures old(|accounts|) != 0 ==> unchanged(this)
      ensures old(|accounts|) == 0 ==> accounts.Keys == {"ACC001", "SAV001"}
      ensures old(|accounts|) == 0 ==> fresh(accounts["ACC001"]) && fresh(accounts["SAV001"])
      ensures old(|accounts|) == 0 ==> accounts["ACC001"].accountType == Some("Cheque") && accounts["ACC001"].balance == 100000
      ensures old(|accounts|) == 0 ==> accounts["SAV001"].accountType == Some("Savings") && accounts["SAV001"].balance == 100000
    {
      if |accounts| == 0 {
        var cheque := CreateAccount("ACC001", Some("Cheque"), Some(100000), now);
        var savings := CreateAccount("SAV001", Some("Savings"), Some(100000), now);
      }
    }

    /** deleteAccount: an unknown account is rejected, then one with a
        non-zero balance; otherwise the account is removed and, by the
        cascade on its transactions, so are its records. */
    method DeleteAccount(accountId: string) returns (r: Result<(), LedgerError>)
      requires Valid()
      modifies this`accounts, this`opening, this`balances, this`log, this`entries
      ensures Valid()
      ensures accountId !in old(accounts) ==> r == Err(AccountNotFound(accountId))
      ensures accountId in old(accounts) && old(accounts[accountId].balance) != 0 ==>
                r == Err(NonZeroBalance(old(accounts[accountId].balance)))
      ensures r.Ok? <==> accountId in old(accounts) && old(accounts[accountId].balance) == 0
      ensures r.Err? ==> unchanged(this)
      ensures r.Ok? ==> accounts == old(accounts) - {accountId} && opening == old(opening) - {accountId}
      ensures r.Ok? ==> log == old(Discard(log, accounts[accountId]))
      ensures r.Ok? ==> Owned(log, old(accounts[accountId])) == []
      ensures r.Ok? ==> forall id :: id != accountId ==> ById(log, id) == old(ById(log, id))
    {
      if accountId !in accounts {
        return Err(AccountNotFound(accountId));
      }
      var account := accounts[accountId];
      if account.balance != 0 {
        return Err(NonZeroBalance(account.balance));
      }
      forall j | j in accounts && j != accountId ensures accounts[j] != account {
        FiledDistinct(accounts, j, accountId);
      }
      forall id | id != accountId ensures ById(Discard(log, account), id) == ById(log, id) {
        DiscardKeepsOthers(log, account, id);
      }
      DiscardLeavesNone(log, account);
      RemoveKeepsLedgered(accounts, balances, entries, nextId, opening, accountId);
      RecordedDiscard(log, entries, account);
      FiledRemove(accounts, accountId);
      BalancedRemove(accounts, balances, accountId);
      Commit(accounts - {accountId}, Discard(log, account), opening - {accountId}, balances - {accountId},
             DiscardEntries(entries, account));
      r := Ok(());
    }

    /** The store takes a new state that satisfies the invariant. */
    method Commit(accounts': map<string, BankAccount>, log': seq<Transaction>, ghost opening': map<string, int>,
                  ghost balances': map<string, int>, ghost entries': seq<Entry>)
      requires Filed(accounts') && Balanced(accounts', balances') && Recorded(log', entries')
      requires Ledgered(accounts', balances', entries', nextId, opening')
      modifies this`accounts, this`log, this`opening, this`balances, this`entries
      ensures Valid()
      ensures accounts == accounts' && log == log' && opening == opening' && balances == balances' && entries == entries'
    {
      accounts, log, opening, balances, entries := accounts', log', opening', balances', entries';
    }
  }
}
