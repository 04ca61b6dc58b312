/** The records stored in the three tables of bank.db (users, accounts,
    transactions) and the outcomes the services report to their caller. */
module BankTypes {

  datatype Option<T> = None | Some(value: T)

  /** Why an operation refused, one constructor per failure message of the
      services. */
  datatype BankError =
    | InvalidAmount                        // the amount is not positive
    | AccountNotFound                      // deposit/withdraw on an unknown account
    | InsufficientFunds(available: real)   // amount exceeds balance + overdraft limit
    | SourceNotFound                       // transfer from an unknown account
    | DestinationNotFound                  // transfer to an unknown account
    | CurrencyMismatch                     // transfer between different currencies
    | TransferFailed                       // crediting the destination failed
    | UsernameTaken                        // registration with an existing username
    | StorageError                         // the store raised sqlite3.Error

  /** The (success, message) pair of the services: success carries what the
      message reports (a user id, an account number), failure its reason. */
  datatype Result<T> = Ok(value: T) | Err(error: BankError)

  /** What registration asks of a new user (every column of the users table
      except the id and the password hash). */
  datatype Profile = Profile(
    firstName: string,
    lastName: string,
    dateOfBirth: string,
    street: string,
    city: string,
    zipCode: string,
    country: string,
    phoneNumber: string,
    email: string,
    username: string)

  /** A row of the users table: the credential is the digest of the password. */
  datatype User = User(id: int, profile: Profile, passwordHash: string)

  /** What a successful login returns. */
  datatype UserSummary = UserSummary(id: int, firstName: string, lastName: string, username: string)

  /** The names that the owner lookup of an account returns. */
  datatype Owner = Owner(firstName: string, lastName: string, username: string)

  datatype AccountType = Checking | Savings | Deposit

  /** A row of the accounts table. */
  datatype Account = Account(
    number: string,
    ownerId: int,
    kind: AccountType,
    currency: string,
    balance: real,
    overdraftLimit: real,
    createdDate: string)

  /** The two values of the transaction_type column. */
  datatype TransactionType = DEPOSIT | WITHDRAWAL

  /** A row of the transactions table; `id` is its autoincrement key. */
  datatype Transaction = Transaction(
    id: int,
    accountNumber: string,
    kind: TransactionType,
    amount: real,
    description: string,
    timestamp: string)
}
