/** The two JPA entities of the ledger, BankAccount and Transaction.
    Amounts are integers in minor units (cents); a LocalDateTime reading is
    an opaque, ordered Time; Java's nullable fields are Options. Every clock
    reading an operation makes is a parameter. */
module Model {
  import opened Wrappers
  import opened Text

  /** A LocalDateTime.now() reading. */
  type Time = int

  datatype AccountStatus = Active | Inactive | Suspended | Closed | Frozen

  /** The account categories with the names they are displayed under. */
  datatype AccountType = Cheque | Savings | Credit | Investment
  {
    function DisplayName(): string
    {
      match this
      case Cheque => "Cheque"
      case Savings => "Savings"
      case Credit => "Credit"
      case Investment => "Investment"
    }
  }

  datatype TransactionStatus = Pending | Completed | Failed | Cancelled | Reversed

  /** The transaction categories with the strings stored in transactionType. */
  datatype TransactionType = Deposit | Withdrawal | TransferIn | TransferOut | Interest | Fee
  {
    function Value(): string
    {
      match this
      case Deposit => "DEPOSIT"
      case Withdrawal => "WITHDRAWAL"
      case TransferIn => "TRANSFER_IN"
      case TransferOut => "TRANSFER_OUT"
      case Interest => "INTEREST"
      case Fee => "FEE"
    }
  }

  /** Different categories are stored under different strings. */
  lemma TypeValuesDistinct(j: TransactionType, k: TransactionType)
    requires j.Value() == k.Value()
    ensures j == k
  {
    assert j.Value()[0] == k.Value()[0];
    if j.Value()[0] == 'T' {
      assert j.Value()[9] == k.Value()[9];
    }
  }

  /** generateTransactionId: "TXN" followed by System.currentTimeMillis(). */
  function GeneratedTransactionId(millis: nat): (id: string)
    ensures |id| > 3 && id[..3] == "TXN"
  {
    "TXN" + Decimal(millis)
  }

  /** Two ids generated from different clock readings differ. */
  lemma GeneratedTransactionIdInjective(m: nat, n: nat)
    requires GeneratedTransactionId(m) == GeneratedTransactionId(n)
    ensures m == n
  {
    assert GeneratedTransactionId(m)[3..] == Decimal(m);
    assert GeneratedTransactionId(n)[3..] == Decimal(n);
    DecimalInjective(m, n);
  }

  class BankAccount {
    var accountId: Option<string>
    var accountType: Option<string>
    var balance: int
    var accountName: Option<string>
    var accountStatus: AccountStatus
    var currency: Option<string>
    var interestRate: int
    var overdraftLimit: int
    var createdAt: Option<Time>
    var updatedAt: Option<Time>
    var lastTransactionDate: Option<Time>
    var transactions: seq<Transaction>

    /** BankAccount(): the field defaults plus both timestamps read now. */
    constructor (now: Time)
      ensures accountId == None && accountType == None && accountName == None
      ensures balance == 0 && accountStatus == Active && currency == Some("ZAR")
      ensures interestRate == 0 && overdraftLimit == 0
      ensures createdAt == Some(now) && updatedAt == Some(now) && lastTransactionDate == None
      ensures transactions == []
    {
      accountId, accountType, accountName := None, None, None;
      balance, accountStatus, currency := 0, Active, Some("ZAR");
      interestRate, overdraftLimit := 0, 0;
      createdAt, updatedAt, lastTransactionDate := Some(now), Some(now), None;
      transactions := [];
    }

    /** BankAccount(accountId, accountType). */
    constructor Named(id: Option<string>, kind: Option<string>, now: Time)
      ensures accountId == id && accountType == kind && accountName == None
      ensures balance == 0 && accountStatus == Active && currency == Some("ZAR")
      ensures interestRate == 0 && overdraftLimit == 0
      ensures createdAt == Some(now) && updatedAt == Some(now) && lastTransactionDate == None
      ensures transactions == []
    {
      accountId, accountType, accountName := id, kind, None;
      balance, accountStatus, currency := 0, Active, Some("ZAR");
      interestRate, overdraftLimit := 0, 0;
      createdAt, updatedAt, lastTransactionDate := Some(now), Some(now), None;
      transactions := [];
    }

    /** BankAccount(accountId, accountType, initialBalance): a missing
        initial balance opens the account at zero. */
    constructor Opened(id: Option<string>, kind: Option<string>, initialBalance: Option<int>, now: Time)
      ensures accountId == id && accountType == kind && accountName == None
      ensures balance == (if initialBalance.Some? then initialBalance.value else 0)
      ensures accountStatus == Active && currency == Some("ZAR")
      ensures interestRate == 0 && overdraftLimit == 0
      ensures createdAt == Some(now) && updatedAt == Some(now) && lastTransactionDate == None
      ensures transactions == []
    {
      accountId, accountType, accountName := id, kind, None;
      balance := if initialBalance.Some? then initialBalance.value else 0;
      accountStatus, currency := Active, Some("ZAR");
      interestRate, overdraftLimit := 0, 0;
      createdAt, updatedAt, lastTransactionDate := Some(now), Some(now), None;
      transactions := [];
    }

    /** setBalance also stamps lastTransactionDate. */
    method SetBalance(b: int, now: Time)
      modifies this`balance, this`lastTransactionDate
      ensures balance == b && lastTransactionDate == Some(now)
    {
      balance := b;
      lastTransactionDate := Some(now);
    }

    method SetUpdatedAt(now: Time)
      modifies this`updatedAt
      ensures updatedAt == Some(now)
    {
      updatedAt := Some(now);
    }

    predicate IsActive()
      reads this
    {
      accountStatus == Active
    }

    /** The largest amount canWithdraw admits. */
    function AvailableBalance(): (r: int)
      reads this
      ensures CanWithdraw(r) && !CanWithdraw(r + 1)
    {
      balance + overdraftLimit
    }

    predicate CanWithdraw(amount: int)
      reads this
    {
      balance + overdraftLimit >= amount
    }

    /** addTransaction: append t to this account's list and make this
        account t's owner. */
    method AddTransaction(t: Transaction, now: Time)
      modifies this`transactions, this`lastTransactionDate, t`account
      ensures transactions == old(transactions) + [t]
      ensures |transactions| == |old(transactions)| + 1
      ensures forall i :: 0 <= i < |old(transactions)| ==> transactions[i] == old(transactions)[i]
      ensures t.account == this && lastTransactionDate == Some(now)
    {
      transactions := transactions + [t];
      t.account := this;
      lastTransactionDate := Some(now);
    }

    /** "SAVINGS".equalsIgnoreCase(accountType): the type upper-cases to SAVINGS. */
    predicate IsSavingsAccount()
      reads this
      ensures IsSavingsAccount() <==> accountType.Some? && UpperAscii(accountType.value) == "SAVINGS"
    {
      if accountType.None? then false
      else
        EqualsIgnoreCaseIffSameUpper("SAVINGS", accountType.value);
        UpperAsciiKeepsUpper("SAVINGS");
        EqualsIgnoreCase("SAVINGS", accountType.value)
    }

    /** "CHEQUE".equalsIgnoreCase(accountType): the type upper-cases to CHEQUE. */
    predicate IsChequeAccount()
      reads this
      ensures IsChequeAccount() <==> accountType.Some? && UpperAscii(accountType.value) == "CHEQUE"
    {
      if accountType.None? then false
      else
        EqualsIgnoreCaseIffSameUpper("CHEQUE", accountType.value);
        UpperAsciiKeepsUpper("CHEQUE");
        EqualsIgnoreCase("CHEQUE", accountType.value)
    }

    /** preUpdate: stamp updatedAt. */
    method PreUpdate(now: Time)
      modifies this`updatedAt
      ensures updatedAt == Some(now)
    {
      updatedAt := Some(now);
    }

    /** prePersist: fill the timestamps that are still unset. */
    method PrePersist(now: Time)
      modifies this`createdAt, this`updatedAt
      ensures createdAt == if old(createdAt).None? then Some(now) else old(createdAt)
      ensures updatedAt == if old(updatedAt).None? then Some(now) else old(updatedAt)
    {
      if createdAt.None? {
        createdAt := Some(now);
      }
      if updatedAt.None? {
        updatedAt := Some(now);
      }
    }

    /** equals: the same object, or another account carrying the same
        non-null id. */
    predicate Equals(that: BankAccount?)
      reads this, that
    {
      this == that || (that != null && accountId.Some? && accountId == that.accountId)
    }
  }

  /** isDebit's test on the type string: a withdrawal or an outgoing transfer. */
  predicate DebitType(kind: Option<string>)
  {
    kind == Some("WITHDRAWAL") || kind == Some("TRANSFER_OUT")
  }

  /** isCredit's test on the type string: a deposit or an incoming transfer. */
  predicate CreditType(kind: Option<string>)
  {
    kind == Some("DEPOSIT") || kind == Some("TRANSFER_IN")
  }

  class Transaction {
    var id: Option<int>
    var transactionId: Option<string>
    var transactionType: Option<string>
    var amount: Option<int>
    var transactionDate: Option<Time>
    var description: Option<string>
    var balanceAfter: Option<int>
    var referenceNumber: Option<string>
    var status: TransactionStatus
    var createdAt: Option<Time>
    var updatedAt: Option<Time>
    var account: BankAccount?
    var relatedTransactionId: Option<int>

    /** Transaction(): completed, with all three timestamps read now. */
    constructor (now: Time)
      ensures id == None && transactionId == None && transactionType == None && amount == None
      ensures transactionDate == Some(now) && createdAt == Some(now) && updatedAt == Some(now)
      ensures description == None && balanceAfter == None && referenceNumber == None
      ensures status == Completed && account == null && relatedTransactionId == None
    {
      id, transactionId, transactionType, amount := None, None, None, None;
      transactionDate, createdAt, updatedAt := Some(now), Some(now), Some(now);
      description, balanceAfter, referenceNumber := None, None, None;
      status, account, relatedTransactionId := Completed, null, None;
    }

    /** Transaction(transactionType, amount, account): also generates the
        external id from the millisecond clock. */
    constructor Recorded(kind: Option<string>, value: Option<int>, owner: BankAccount?, now: Time, millis: nat)
      ensures id == None && transactionId == Some(GeneratedTransactionId(millis))
      ensures transactionType == kind && amount == value && account == owner
      ensures transactionDate == Some(now) && createdAt == Some(now) && updatedAt == Some(now)
      ensures description == None && balanceAfter == None && referenceNumber == None
      ensures status == Completed && relatedTransactionId == None
    {
      id, transactionId, transactionType, amount := None, Some(GeneratedTransactionId(millis)), kind, value;
      transactionDate, createdAt, updatedAt := Some(now), Some(now), Some(now);
      description, balanceAfter, referenceNumber := None, None, None;
      status, account, relatedTransactionId := Completed, owner, None;
    }

    predicate IsDebit()
      reads this
      ensures IsDebit() ==> !CreditType(transactionType)
    {
      DebitType(transactionType)
    }

    predicate IsCredit()
      reads this
      ensures IsCredit() ==> !DebitType(transactionType)
    {
      CreditType(transactionType)
    }

    /** preUpdate: stamp updatedAt. */
    method PreUpdate(now: Time)
      modifies this`updatedAt
      ensures updatedAt == Some(now)
    {
      updatedAt := Some(now);
    }

    /** prePersist: fill whichever of the three timestamps and the external
        id are still unset; a set field keeps its value. */
    method PrePersist(now: Time, millis: nat)
      modifies this`createdAt, this`updatedAt, this`transactionDate, this`transactionId
      ensures createdAt == if old(createdAt).None? then Some(now) else old(createdAt)
      ensures updatedAt == if old(updatedAt).None? then Some(now) else old(updatedAt)
      ensures transactionDate == if old(transactionDate).None? then Some(now) else old(transactionDate)
      ensures transactionId == if old(transactionId).None? then Some(GeneratedTransactionId(millis)) else old(transactionId)
    {
      if createdAt.None? {
        createdAt := Some(now);
      }
      if updatedAt.None? {
        updatedAt := Some(now);
      }
      if transactionDate.None? {
        transactionDate := Some(now);
      }
      if transactionId.None? {
        transactionId := Some(GeneratedTransactionId(millis));
      }
    }

    /** equals: the same object, or another transaction carrying the same
        non-null surrogate id. */
    predicate Equals(that: Transaction?)
      reads this, that
    {
      this == that || (that != null && id.Some? && id == that.id)
    }
  }

  // ----- Properties of the account rules -----

  /** canWithdraw(a) is exactly "the available balance covers a". */
  lemma CanWithdrawIffAvailable(acct: BankAccount, amount: int)
    ensures acct.CanWithdraw(amount) <==> acct.AvailableBalance() >= amount
    ensures acct.AvailableBalance() == acct.balance + acct.overdraftLimit
  {
  }

  /** isActive holds for an active account and for no other status. */
  lemma ActiveIffStatusActive(acct: BankAccount)
    ensures acct.IsActive() <==> acct.accountStatus == Active
    ensures acct.accountStatus in {Inactive, Suspended, Closed, Frozen} ==> !acct.IsActive()
  {
  }

  /** With no overdraft allowance a withdrawal is allowed exactly when the
      balance covers it, so it cannot leave the balance negative. */
  lemma NoOverdraftMeansCoveredByBalance(acct: BankAccount, amount: int)
    requires acct.overdraftLimit == 0
    ensures acct.CanWithdraw(amount) <==> acct.balance >= amount
    ensures acct.CanWithdraw(amount) ==> acct.balance - amount >= 0
  {
  }

  /** An account is savings or cheque (case aside) but never both, and
      each category is recognised in every spelling that upper-cases to its
      name: "Savings", "savings" and "SAVINGS" alike. */
  lemma SavingsAndChequeExclusive(acct: BankAccount)
    ensures !(acct.IsSavingsAccount() && acct.IsChequeAccount())
    ensures forall s :: acct.accountType == Some(s) && UpperAscii(s) == "SAVINGS" ==> acct.IsSavingsAccount()
    ensures forall s :: acct.accountType == Some(s) && UpperAscii(s) == "CHEQUE" ==> acct.IsChequeAccount()
    ensures acct.accountType == Some(Savings.DisplayName()) ==> acct.IsSavingsAccount()
    ensures acct.accountType == Some(Cheque.DisplayName()) ==> acct.IsChequeAccount()
  {
    if acct.accountType == Some(Savings.DisplayName()) {
      assert UpperAscii("Savings") == "SAVINGS" by {
        assert UpperAscii("Savings")[1..] == UpperAscii("avings");
      }
    }
    if acct.accountType == Some(Cheque.DisplayName()) {
      assert UpperAscii("Cheque") == "CHEQUE" by {
        assert UpperAscii("Cheque")[1..] == UpperAscii("heque");
      }
    }
  }

  /** Account equality is reflexive and symmetric, and an account without
      an id equals no other object. */
  lemma AccountEqualsProperties(a: BankAccount, b: BankAccount?)
    ensures a.Equals(a)
    ensures b != null ==> (a.Equals(b) <==> b.Equals(a))
    ensures a.accountId.None? ==> (a.Equals(b) <==> a == b)
    ensures b != null && b.accountId.None? ==> (a.Equals(b) <==> a == b)
    ensures a != b && a.Equals(b) ==> a.accountId.Some? && a.accountId == b.accountId
  {
  }

  /** The same three facts for transactions and their surrogate ids. */
  lemma TransactionEqualsProperties(t: Transaction, u: Transaction?)
    ensures t.Equals(t)
    ensures u != null ==> (t.Equals(u) <==> u.Equals(t))
    ensures t.id.None? ==> (t.Equals(u) <==> t == u)
    ensures u != null && u.id.None? ==> (t.Equals(u) <==> t == u)
    ensures t != u && t.Equals(u) ==> t.id.Some? && t.id == u.id
  {
  }

  // ----- Properties of the transaction classification -----

  /** Withdrawals and outgoing transfers are debits, deposits and incoming
      transfers are credits, interest and fees are neither. */
  lemma ClassificationByType(t: Transaction, k: TransactionType)
    requires t.transactionType == Some(k.Value())
    ensures t.IsDebit() <==> k == Withdrawal || k == TransferOut
    ensures t.IsCredit() <==> k == Deposit || k == TransferIn
  {
  }

  /** No transaction is both a debit and a credit, whatever its type string. */
  lemma DebitCreditExclusive(t: Transaction)
    ensures !(t.IsDebit() && t.IsCredit())
  {
  }
}
