/** The ledger as values: the accounts table as a map from account number to
    row, the transactions table as the sequence of its rows in insertion
    order. The functions here say what a balance update or a posted row does
    to the tables; the lemmas are what the services rely on to keep the
    tables consistent. */
module Ledger {
  import opened BankTypes

  /** The overdraft rule that every balance keeps: not below minus the
      overdraft limit. An account opened with a negative limit starts at 0 and
      can never be withdrawn below 0, hence the second disjunct. */
  predicate WithinOverdraft(a: Account) {
    a.balance >= -a.overdraftLimit || a.balance >= 0.0
  }

  /** What a withdrawal may take: the balance plus the overdraft limit. */
  function Available(a: Account): real {
    a.balance + a.overdraftLimit
  }

  /** The signed change a row makes to the balance of its account. */
  function Signed(t: Transaction): real {
    if t.kind == DEPOSIT then t.amount else -t.amount
  }

  /** The accounts table after the balance of account `number` is changed by
      `delta` in place. */
  function Adjust(accounts: map<string, Account>, number: string, delta: real): (r: map<string, Account>)
    requires number in accounts
    ensures r.Keys == accounts.Keys
    ensures r[number].balance == accounts[number].balance + delta
    ensures r[number] == accounts[number].(balance := r[number].balance)
    ensures forall n :: n in accounts && n != number ==> r[n] == accounts[n]
  {
    accounts[number := accounts[number].(balance := accounts[number].balance + delta)]
  }

  /** Adding back what was taken restores the table. */
  lemma AdjustUndo(accounts: map<string, Account>, number: string, delta: real)
    requires number in accounts
    ensures Adjust(Adjust(accounts, number, -delta), number, delta) == accounts
  {
  }

  /** The sum of all balances. */
  ghost function TotalBalance(accounts: map<string, Account>): real
    decreases |accounts|
  {
    if accounts == map[] then 0.0
    else
      var n :| n in accounts;
      assert |accounts - {n}| < |accounts| by {
        assert (accounts - {n}).Keys == accounts.Keys - {n};
      }
      accounts[n].balance + TotalBalance(accounts - {n})
  }

  /** The total splits off any one account, whichever the definition picks. */
  lemma {:induction false} TotalWithout(accounts: map<string, Account>, number: string)
    requires number in accounts
    ensures TotalBalance(accounts) == accounts[number].balance + TotalBalance(accounts - {number})
    decreases |accounts|
  {
    var n :| n in accounts && TotalBalance(accounts) == accounts[n].balance + TotalBalance(accounts - {n});
    if n != number {
      assert (accounts - {n}).Keys == accounts.Keys - {n};
      assert (accounts - {number}).Keys == accounts.Keys - {number};
      TotalWithout(accounts - {n}, number);
      TotalWithout(accounts - {number}, n);
      assert accounts - {n} - {number} == accounts - {number} - {n};
    }
  }

  /** A balance update moves the total by exactly the same amount. */
  lemma {:induction false} TotalAdjust(accounts: map<string, Account>, number: string, delta: real)
    requires number in accounts
    ensures TotalBalance(Adjust(accounts, number, delta)) == TotalBalance(accounts) + delta
  {
    var after := Adjust(accounts, number, delta);
    TotalWithout(accounts, number);
    TotalWithout(after, number);
    assert after - {number} == accounts - {number};
  }

  /** Taking an amount from one account and adding it to another (or the
      same) account leaves the sum of all balances unchanged. */
  lemma {:induction false} MoveConservesTotal(accounts: map<string, Account>, from: string, to: string, amount: real)
    requires from in accounts && to in accounts
    ensures TotalBalance(Adjust(Adjust(accounts, from, -amount), to, amount)) == TotalBalance(accounts)
  {
    TotalAdjust(accounts, from, -amount);
    TotalAdjust(Adjust(accounts, from, -amount), to, amount);
  }

  /** Inserting a new account adds its balance to the total. */
  lemma {:induction false} TotalInsert(accounts: map<string, Account>, a: Account)
    requires a.number !in accounts
    ensures TotalBalance(accounts[a.number := a]) == TotalBalance(accounts) + a.balance
  {
    var after := accounts[a.number := a];
    TotalWithout(after, a.number);
    assert after - {a.number} == accounts;
  }

  /** The balance that the rows of `rows` explain for account `number`:
      deposits minus withdrawals. */
  function Net(rows: seq<Transaction>, number: string): real
    decreases |rows|
  {
    if rows == [] then 0.0
    else
      var last := rows[|rows| - 1];
      Net(rows[..|rows| - 1], number) + (if last.accountNumber == number then Signed(last) else 0.0)
  }

  lemma {:induction false} NetAppend(rows: seq<Transaction>, t: Transaction, number: string)
    ensures Net(rows + [t], number) == Net(rows, number) + (if t.accountNumber == number then Signed(t) else 0.0)
  {
  }

  /** An account that no row mentions has a net of zero. */
  lemma {:induction false} NetUntouched(rows: seq<Transaction>, number: string)
    requires forall i :: 0 <= i < |rows| ==> rows[i].accountNumber != number
    ensures Net(rows, number) == 0.0
  {
    if rows != [] {
      NetUntouched(rows[..|rows| - 1], number);
    }
  }

  /** The tables agree with each other: rows are numbered 1, 2, ... in
      insertion order, name an existing account and carry a positive amount;
      every account is keyed by its number, keeps the overdraft rule, and its
      balance is exactly what its rows explain. */
  predicate LedgerConsistent(accounts: map<string, Account>, rows: seq<Transaction>) {
    && (forall i :: 0 <= i < |rows| ==>
          rows[i].id == i + 1 && rows[i].accountNumber in accounts && rows[i].amount > 0.0)
    && (forall n :: n in accounts ==>
          accounts[n].number == n && WithinOverdraft(accounts[n]) && accounts[n].balance == Net(rows, n))
  }

  /** Posting a row (update the balance, then append the row) keeps the tables
      consistent and moves the total balance by the row's signed amount,
      provided a withdrawal stays within what is available. */
  lemma {:induction false} PostKeepsConsistent(accounts: map<string, Account>, rows: seq<Transaction>, t: Transaction)
    requires LedgerConsistent(accounts, rows)
    requires t.id == |rows| + 1 && t.accountNumber in accounts && t.amount > 0.0
    requires t.kind == WITHDRAWAL ==> t.amount <= Available(accounts[t.accountNumber])
    ensures LedgerConsistent(Adjust(accounts, t.accountNumber, Signed(t)), rows + [t])
    ensures TotalBalance(Adjust(accounts, t.accountNumber, Signed(t))) == TotalBalance(accounts) + Signed(t)
  {
    var after := Adjust(accounts, t.accountNumber, Signed(t));
    forall n | n in after
      ensures after[n].balance == Net(rows + [t], n)
    {
      NetAppend(rows, t, n);
    }
    TotalAdjust(accounts, t.accountNumber, Signed(t));
  }

  /** Opening a new account with a zero balance keeps the tables consistent
      and the total balance unchanged, whatever its overdraft limit. */
  lemma {:induction false} OpenKeepsConsistent(accounts: map<string, Account>, rows: seq<Transaction>, a: Account)
    requires LedgerConsistent(accounts, rows)
    requires a.number !in accounts && a.balance == 0.0
    ensures LedgerConsistent(accounts[a.number := a], rows)
    ensures TotalBalance(accounts[a.number := a]) == TotalBalance(accounts)
  {
    NetUntouched(rows, a.number);
    TotalInsert(accounts, a);
  }

  /** The rows of account `number`, most recent first. */
  function History(rows: seq<Transaction>, number: string): seq<Transaction>
    decreases |rows|
  {
    if rows == [] then []
    else
      var last := rows[|rows| - 1];
      (if last.accountNumber == number then [last] else []) + History(rows[..|rows| - 1], number)
  }

  /** Ids strictly decreasing: the most recently inserted row first. */
  predicate NewestFirst(h: seq<Transaction>) {
    forall i, j :: 0 <= i < j < |h| ==> h[i].id > h[j].id
  }

  predicate IdsIncreasing(rows: seq<Transaction>) {
    forall i, j :: 0 <= i < j < |rows| ==> rows[i].id < rows[j].id
  }

  /** The history holds exactly the rows of that account, newest first. */
  lemma {:induction false} HistoryIsNewestFirst(rows: seq<Transaction>, number: string)
    requires IdsIncreasing(rows)
    ensures forall t :: t in History(rows, number) <==> t in rows && t.accountNumber == number
    ensures NewestFirst(History(rows, number))
    decreases |rows|
  {
    if rows != [] {
      var init := rows[..|rows| - 1];
      HistoryIsNewestFirst(init, number);
      forall t | t in rows
        ensures t in init || t == rows[|rows| - 1]
      {
        var k :| 0 <= k < |rows| && rows[k] == t;
        if k < |rows| - 1 {
          assert init[k] == t;
        }
      }
      forall t | t in History(init, number)
        ensures t.id < rows[|rows| - 1].id
      {
        var k :| 0 <= k < |init| && init[k] == t;
      }
    }
  }

  /** Of a newest-first sequence, the first `limit` rows are newer than any
      row left out. */
  lemma PrefixIsNewest(h: seq<Transaction>, limit: nat, t: Transaction)
    requires NewestFirst(h) && limit <= |h|
    requires t in h && t !in h[..limit]
    ensures forall u :: u in h[..limit] ==> u.id > t.id
  {
  }
}
