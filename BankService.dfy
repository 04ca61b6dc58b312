/** The ledger service: opening accounts, deposits, withdrawals, transfers
    and the read-only lookups over the accounts and transactions tables. */
module Banking {
  import opened BankTypes
  import opened Ledger
  import opened Store
  import opened AccountNumber

  /** Which of the three store calls inside a transfer raise sqlite3.Error:
      the withdrawal from the source, the deposit to the destination, and the
      compensating deposit back to the source. */
  datatype TransferFaults = TransferFaults(debit: bool, credit: bool, rollback: bool)

  /** Descriptions written on the rows of a transfer. */
  function TransferOutNote(to: string, description: string): string {
    "Перевод на счет " + to + ". " + description
  }

  function TransferInNote(from: string, description: string): string {
    "Перевод со счета " + from + ". " + description
  }

  const RollbackNote: string := "Откат перевода"

  /** The checks a transfer makes before touching anything, all passed. */
  predicate TransferAllowed(accounts: map<string, Account>, from: string, to: string, amount: real) {
    && amount > 0.0
    && from in accounts
    && to in accounts
    && accounts[from].currency == accounts[to].currency
    && amount <= Available(accounts[from])
  }

  class BankService {
    const db: Database

    constructor (db: Database)
      ensures this.db == db
    {
      this.db := db;
    }

    ghost predicate Valid()
      reads db
    {
      db.Valid()
    }

    /** Opens a zero-balance account under a generated number. A number that
        is already in use violates the primary key: the store refuses and
        nothing changes. */
    method CreateAccount(userId: int, kind: AccountType, currency: string, overdraftLimit: real := 0.0,
                         random: int, now: string) returns (r: Result<string>)
      requires Valid()
      requires 10000000 <= random <= 99999999
      modifies db`accounts
      ensures Valid()
      ensures var number := GenerateAccountNumber(random);
              if number in old(db.accounts) then
                r == Err(StorageError) && db.accounts == old(db.accounts)
              else
                && r == Ok(number)
                && db.accounts == old(db.accounts)[number := Account(number, userId, kind, currency, 0.0, overdraftLimit, now)]
      ensures TotalBalance(db.accounts) == old(TotalBalance(db.accounts))
    {
      var number := GenerateAccountNumber(random);
      if number in db.accounts {
        return Err(StorageError);
      }
      var account := Account(number, userId, kind, currency, 0.0, overdraftLimit, now);
      OpenKeepsConsistent(db.accounts, db.transactions, account);
      db.accounts := db.accounts[number := account];
      r := Ok(number);
    }

    /** The accounts of one user, keyed by number. */
    function GetAccounts(userId: int): (r: map<string, Account>)
      reads db
      ensures forall n :: n in r <==> n in db.accounts && db.accounts[n].ownerId == userId
      ensures forall n :: n in r ==> r[n] == db.accounts[n]
    {
      map n | n in db.accounts && db.accounts[n].ownerId == userId :: db.accounts[n]
    }

    /** The account with that number, if there is one. */
    function GetAccount(number: string): (r: Option<Account>)
      reads db
      ensures r.Some? <==> number in db.accounts
      ensures r.Some? ==> r.value == db.accounts[number]
    {
      if number in db.accounts then Some(db.accounts[number]) else None
    }

    /** Adds a positive amount to an existing account and logs one DEPOSIT
        row; every refusal leaves both tables as they were. `fault` stands for
        the store raising sqlite3.Error. */
    method Deposit(number: string, amount: real, description: string := "", now: string, fault: bool)
      returns (r: Result<()>)
      requires Valid()
      modifies db`accounts, db`transactions
      ensures Valid()
      ensures amount <= 0.0 ==> r == Err(InvalidAmount)
      ensures amount > 0.0 && fault ==> r == Err(StorageError)
      ensures amount > 0.0 && !fault && number !in old(db.accounts) ==> r == Err(AccountNotFound)
      ensures r.Ok? <==> amount > 0.0 && !fault && number in old(db.accounts)
      ensures r.Err? ==> db.accounts == old(db.accounts) && db.transactions == old(db.transactions)
      ensures r.Ok? ==>
                && db.accounts == Adjust(old(db.accounts), number, amount)
                && db.transactions == old(db.transactions)
                     + [Transaction(|old(db.transactions)| + 1, number, DEPOSIT, amount, description, now)]
    {
      if amount <= 0.0 {
        return Err(InvalidAmount);
      }
      if fault {
        return Err(StorageError);
      }
      var account := GetAccount(number);
      if account.None? {
        return Err(AccountNotFound);
      }
      var row := Transaction(|db.transactions| + 1, number, DEPOSIT, amount, description, now);
      PostKeepsConsistent(db.accounts, db.transactions, row);
      db.accounts := Adjust(db.accounts, number, amount);
      db.transactions := db.transactions + [row];
      r := Ok(());
    }

    /** Takes a positive amount from an existing account if it does not
        exceed the balance plus the overdraft limit, and logs one WITHDRAWAL
        row; every refusal leaves both tables as they were. */
    method Withdraw(number: string, amount: real, description: string := "", now: string, fault: bool)
      returns (r: Result<()>)
      requires Valid()
      modifies db`accounts, db`transactions
      ensures Valid()
      ensures amount <= 0.0 ==> r == Err(InvalidAmount)
      ensures amount > 0.0 && fault ==> r == Err(StorageError)
      ensures amount > 0.0 && !fault && number !in old(db.accounts) ==> r == Err(AccountNotFound)
      ensures amount > 0.0 && !fault && number in old(db.accounts) && amount > Available(old(db.accounts[number])) ==>
                r == Err(InsufficientFunds(Available(old(db.accounts[number]))))
      ensures r.Ok? <==> amount > 0.0 && !fault && number in old(db.accounts)
                         && amount <= Available(old(db.accounts[number]))
      ensures r.Err? ==> db.accounts == old(db.accounts) && db.transactions == old(db.transactions)
      ensures r.Ok? ==>
                && db.accounts == Adjust(old(db.accounts), number, -amount)
                && db.transactions == old(db.transactions)
                     + [Transaction(|old(db.transactions)| + 1, number, WITHDRAWAL, amount, description, now)]
    {
      if amount <= 0.0 {
        return Err(InvalidAmount);
      }
      if fault {
        return Err(StorageError);
      }
      var account := GetAccount(number);
      if account.None? {
        return Err(AccountNotFound);
      }
      var available := Available(account.value);
      if amount > available {
        return Err(InsufficientFunds(available));
      }
      var row := Transaction(|db.transactions| + 1, number, WITHDRAWAL, amount, description, now);
      PostKeepsConsistent(db.accounts, db.transactions, row);
      db.accounts := Adjust(db.accounts, number, -amount);
      db.transactions := db.transactions + [row];
      r := Ok(());
    }

    /** Moves an amount between two accounts of the same currency as a
        withdrawal followed by a deposit. The checks come in a fixed order and
        the first that fails is reported with nothing changed. If the deposit
        fails, a compensating deposit gives the amount back to the source;
        the result is TransferFailed whether or not that compensation went
        through. */
    method Transfer(from: string, to: string, amount: real, description: string := "", now: string,
                    faults: TransferFaults) returns (r: Result<()>)
      requires Valid()
      modifies db`accounts, db`transactions
      ensures Valid()
      // the checks, first failure wins
      ensures amount <= 0.0 ==> r == Err(InvalidAmount)
      ensures amount > 0.0 && from !in old(db.accounts) ==> r == Err(SourceNotFound)
      ensures amount > 0.0 && from in old(db.accounts) && to !in old(db.accounts) ==> r == Err(DestinationNotFound)
      ensures (amount > 0.0 && from in old(db.accounts) && to in old(db.accounts)
               && old(db.accounts[from].currency != db.accounts[to].currency)) ==>
                r == Err(CurrencyMismatch)
      ensures (amount > 0.0 && from in old(db.accounts) && to in old(db.accounts)
               && old(db.accounts[from].currency == db.accounts[to].currency)
               && amount > Available(old(db.accounts[from]))) ==>
                r == Err(InsufficientFunds(Available(old(db.accounts[from]))))
      ensures !TransferAllowed(old(db.accounts), from, to, amount) ==>
                db.accounts == old(db.accounts) && db.transactions == old(db.transactions)
      // the withdrawal itself fails: nothing has changed
      ensures TransferAllowed(old(db.accounts), from, to, amount) && faults.debit ==>
                && r == Err(StorageError)
                && db.accounts == old(db.accounts) && db.transactions == old(db.transactions)
      // success: one WITHDRAWAL on the source, then one DEPOSIT on the destination
      ensures r.Ok? <==> TransferAllowed(old(db.accounts), from, to, amount) && !faults.debit && !faults.credit
      ensures r.Ok? ==>
                var n := |old(db.transactions)|;
                && db.accounts == Adjust(Adjust(old(db.accounts), from, -amount), to, amount)
                && db.transactions == old(db.transactions)
                     + [Transaction(n + 1, from, WITHDRAWAL, amount, TransferOutNote(to, description), now),
                        Transaction(n + 2, to, DEPOSIT, amount, TransferInNote(from, description), now)]
      ensures r.Ok? && from != to ==>
                && db.accounts[from].balance == old(db.accounts[from].balance) - amount
                && db.accounts[to].balance == old(db.accounts[to].balance) + amount
                && forall n :: n in old(db.accounts) && n != from && n != to ==> db.accounts[n] == old(db.accounts[n])
      // the deposit fails and the compensation goes through: balances restored
      ensures TransferAllowed(old(db.accounts), from, to, amount) && !faults.debit && faults.credit && !faults.rollback ==>
                var n := |old(db.transactions)|;
                && r == Err(TransferFailed)
                && db.accounts == old(db.accounts)
                && db.transactions == old(db.transactions)
                     + [Transaction(n + 1, from, WITHDRAWAL, amount, TransferOutNote(to, description), now),
                        Transaction(n + 2, from, DEPOSIT, amount, RollbackNote, now)]
      // the deposit and the compensation both fail: the amount is gone from the source
      ensures TransferAllowed(old(db.accounts), from, to, amount) && !faults.debit && faults.credit && faults.rollback ==>
                var n := |old(db.transactions)|;
                && r == Err(TransferFailed)
                && db.accounts == Adjust(old(db.accounts), from, -amount)
                && db.transactions == old(db.transactions)
                     + [Transaction(n + 1, from, WITHDRAWAL, amount, TransferOutNote(to, description), now)]
    {
      if amount <= 0.0 {
        return Err(InvalidAmount);
      }
      var fromAccount := GetAccount(from);
      var toAccount := GetAccount(to);
      if fromAccount.None? {
        return Err(SourceNotFound);
      }
      if toAccount.None? {
        return Err(DestinationNotFound);
      }
      if fromAccount.value.currency != toAccount.value.currency {
        return Err(CurrencyMismatch);
      }
      var available := Available(fromAccount.value);
      if amount > available {
        return Err(InsufficientFunds(available));
      }
      ghost var accounts0 := db.accounts;
      var debited := Withdraw(from, amount, TransferOutNote(to, description), now, faults.debit);
      if debited.Err? {
        return debited;
      }
      var credited := Deposit(to, amount, TransferInNote(from, description), now, faults.credit);
      if credited.Err? {
        var compensated := Deposit(from, amount, RollbackNote, now, faults.rollback);
        AdjustUndo(accounts0, from, amount);
        return Err(TransferFailed);
      }
      r := Ok(());
    }

    /** The recent history of one account: only rows of that account, newest
        first, at most `limit` of them (ten unless the caller says otherwise;
        a negative limit means no limit), and every row left out is older than
        every row returned. */
    function GetTransactions(number: string, limit: int := 10): (r: seq<Transaction>)
      requires Valid()
      reads db
      ensures forall t :: t in r ==> t in db.transactions && t.accountNumber == number
      ensures NewestFirst(r)
      ensures limit >= 0 ==> |r| <= limit
      ensures forall t :: t in db.transactions && t.accountNumber == number && t !in r ==>
                |r| == limit && forall u :: u in r ==> u.id > t.id
    {
      HistoryIsNewestFirst(db.transactions, number);
      var h := History(db.transactions, number);
      if 0 <= limit < |h| then
        assert forall t :: t in h && t !in h[..limit] ==> forall u :: u in h[..limit] ==> u.id > t.id by {
          forall t | t in h && t !in h[..limit] {
            PrefixIsNewest(h, limit, t);
          }
        }
        h[..limit]
      else
        h
    }

    /** The names of the user whose id is the account's owner id, if both the
        account and that user exist. */
    function GetAccountOwner(number: string): (r: Option<Owner>)
      requires Valid()
      reads db
      ensures r.Some? <==> number in db.accounts
                           && exists name :: name in db.users && db.users[name].id == db.accounts[number].ownerId
      ensures r.Some? ==> exists name :: name in db.users && db.users[name].id == db.accounts[number].ownerId
                            && r.value == Owner(db.users[name].profile.firstName, db.users[name].profile.lastName, name)
    {
      if number !in db.accounts then None
      else
        match UserWithId(db.users, db.nextUserId, db.accounts[number].ownerId)
        case None => None
        case Some(u) => Some(Owner(u.profile.firstName, u.profile.lastName, u.profile.username))
    }
  }
}
