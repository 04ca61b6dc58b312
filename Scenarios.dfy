/** What a caller can conclude from the services' contracts alone: an
    overdraft account driven to its limit, the total balance across a
    transfer, and a username registered twice. */
module Scenarios {
  import opened BankTypes
  import opened Store
  import opened Identity
  import opened Banking
  import opened AccountNumber
  import opened Ledger

  /** A checking account with an overdraft limit of 5000: deposit 10000,
      withdraw 12000 (into the overdraft), then 3001 more is refused with
      3000 reported as available and the balance left at -2000. */
  method OverdraftScenario(random: int)
    requires 10000000 <= random <= 99999999
  {
    var db := new Database();
    var bank := new BankService(db);
    var created := bank.CreateAccount(1, Checking, "RUB", 5000.0, random, "2024-01-01 10:00:00");
    assert created == Ok(GenerateAccountNumber(random));
    var number := created.value;
    var deposited := bank.Deposit(number, 10000.0, now := "2024-01-01 10:00:01", fault := false);
    assert deposited.Ok? && db.accounts[number].balance == 10000.0;
    var withdrawn := bank.Withdraw(number, 12000.0, "", "2024-01-01 10:00:02", false);
    assert withdrawn.Ok? && db.accounts[number].balance == -2000.0;
    var refused := bank.Withdraw(number, 3001.0, "", "2024-01-01 10:00:03", false);
    assert refused == Err(InsufficientFunds(3000.0));
    assert db.accounts[number].balance == -2000.0 && |db.transactions| == 2;
  }

  /** A transfer through the service, with the sum of all balances over every
      outcome: unchanged, except when both the deposit to the destination and
      the compensating deposit fail, in which case the amount is lost. */
  method TransferWithTotal(bank: BankService, from: string, to: string, amount: real, now: string,
                           faults: TransferFaults) returns (r: Result<()>)
    requires bank.Valid()
    modifies bank.db`accounts, bank.db`transactions
    ensures bank.Valid()
    ensures !(r == Err(TransferFailed) && faults.rollback) ==>
              TotalBalance(bank.db.accounts) == old(TotalBalance(bank.db.accounts))
    ensures r == Err(TransferFailed) && faults.rollback ==>
              TotalBalance(bank.db.accounts) == old(TotalBalance(bank.db.accounts)) - amount
  {
    ghost var before := bank.db.accounts;
    r := bank.Transfer(from, to, amount, now := now, faults := faults);
    if r.Ok? {
      MoveConservesTotal(before, from, to, amount);
    } else if r == Err(TransferFailed) && faults.rollback {
      TotalAdjust(before, from, -amount);
    }
  }

  /** The second registration of a username is refused and leaves one user
      row; the first user's password still logs in, a wrong one does not. */
  method DuplicateUsernameScenario(digest: string -> string, first: Profile, second: Profile)
    requires first.username == second.username
    requires digest("password123") != digest("qwerty456")
  {
    var db := new Database();
    var users := new UserService(db, digest);
    var registered := users.RegisterUser(first, "password123");
    assert registered == Ok(1);
    var again := users.RegisterUser(second, "qwerty456");
    assert again == Err(UsernameTaken);
    assert db.users.Keys == {first.username};
    assert users.Authenticate(first.username, "password123").Some?;
    assert users.Authenticate(first.username, "qwerty456") == None;
  }
}
