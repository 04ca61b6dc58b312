/** The store (bank.db): the three tables held in memory, as the one object
    that both services read and update. */
module Store {
  import opened BankTypes
  import opened Ledger

  /** The users table: keyed by its unique username, ids assigned from 1
      upwards and never shared. */
  predicate UsersConsistent(users: map<string, User>, nextUserId: int) {
    && nextUserId >= 1
    && (forall name :: name in users ==>
          users[name].profile.username == name && 1 <= users[name].id < nextUserId)
    && (forall a, b :: a in users && b in users && users[a].id == users[b].id ==> a == b)
  }

  /** The row of the users table with that id, if any. */
  function UserWithId(users: map<string, User>, nextUserId: int, id: int): (r: Option<User>)
    requires UsersConsistent(users, nextUserId)
    ensures r.Some? <==> exists name :: name in users && users[name].id == id
    ensures r.Some? ==> r.value.id == id && r.value.profile.username in users
                        && users[r.value.profile.username] == r.value
  {
    if exists name :: name in users && users[name].id == id then
      var name :| name in users && users[name].id == id;
      Some(users[name])
    else
      None
  }

  class Database {
    var users: map<string, User>
    var nextUserId: int
    var accounts: map<string, Account>
    var transactions: seq<Transaction>

    ghost predicate Valid()
      reads this
    {
      UsersConsistent(users, nextUserId) && LedgerConsistent(accounts, transactions)
    }

    /** A freshly created database file: the three tables, all empty. */
    constructor ()
      ensures Valid()
      ensures users == map[] && nextUserId == 1
      ensures accounts == map[] && transactions == []
    {
      users := map[];
      nextUserId := 1;
      accounts := map[];
      transactions := [];
    }
  }
}
