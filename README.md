# AppLibrary ledger

This is a model of `AppLibrary`, the NEAR smart contract in `src/lib.rs` of Library_App. The contract keeps three stores:

- `users`: an ordered list of `Users` records.
- `books`: an ordered list of `Books` records.
- `books_borrowed`: a map from an account id to that account's ordered list of `BooksBorrowed` records.

It has five entry points. `add_book` and `add_user` append a record. `borrow_book` appends a borrow record to the current account's list, creating the list when it is missing. `get_users` copies out the users. `get_books_borrowed` copies out the current account's records, or gives `None` when the account has no entry.

In the model (module `Library`, file `library.dfy`), the contract is the class `AppLibrary`:

- Its fields are `seq` and `map` values that the methods reassign.
- The values the contract reads from its environment are explicit parameters: `env::block_timestamp()` is `blockTimestamp`, `env::block_height()` is `blockHeight` and `env::current_account_id()` is `currentAccount`.
- Fixed-width integers are subset types (`u8`, `u16`, `u64`) over `int`.

Pure functions specify each change of state. `Borrowed` describes one borrow and `BorrowedAll` describes a sequence of borrows by one account. The lemmas about these functions give the per-account history. A `Valid()` invariant is kept by every method. It holds in every reachable state:

- Every book has one copy and is never `Fantasy`.
- No user is a member.
- Every borrow entry is non-empty.
- Every borrow record is due `60 * 60 * 60 * 24` = 5184000 timestamp units after it was borrowed.

Module `LibraryScenarios` (file `scenarios.dfy`) restates the contract's unit tests as verified scenario methods.

The model follows the code, which is a plain append-and-lookup ledger. The contract has none of these:

- an existence check on the book id;
- a copy or capacity check;
- a return operation;
- a borrow by title or name;
- an error result.

Book ids are raw block timestamps and user ids are raw block heights, so they are not necessarily unique. The loan period is the literal `60 * 60 * 60 * 24`, not one day.

The contract records users under, and keys borrows by, `env::current_account_id()`, which is the contract's own account, not the caller. So every borrow lands under the same key on chain. The model keeps this: `currentAccount` is the value of `current_account_id`, whatever the host supplies.

## Model

| member | source | states |
|---|---|---|
| Library.CategoryOf | src/lib.rs:115-118 | the category is `War` exactly when the string is `"war"` (case-sensitive), `Any` for every other string, and never `Fantasy` |
| Library.NewLoan | src/lib.rs:142-146 | a borrow record has the given book id, is borrowed at the block timestamp and is due exactly 5184000 units later (strictly after), provided that sum fits in u64 |
| Library.LoansOf | src/lib.rs:96-106 | the lookup of an account's borrow entry is `None` exactly when the account has no entry, else `Some` of that entry |
| Library.Borrowed | src/lib.rs:148-162 | one borrow by `a` adds `a` to the keys; `a`'s entry becomes `[bk]` when absent, else its old records followed by `bk`; every other account's entry is unchanged |
| Library.BorrowedAllOwn | src/lib.rs:140-165 | after any sequence of borrows by `a`, `a`'s records are its earlier ones followed by the new ones in borrow order, and `a` has an entry exactly when it had one or borrowed at least once |
| Library.BorrowedAllOthers | src/lib.rs:148-162 | borrows by `a` leave every other account's lookup (entry or `None`) unchanged |
| Library.BorrowsFromNothing | src/lib.rs:211-233 | from an account with no entry, `k > 0` borrows make `get_books_borrowed` return `Some` of exactly those `k` records in order |
| Library.BorrowedAllWellFormed | src/lib.rs:140-165 | borrowing keeps every entry non-empty and every record due one period after borrowing, so the lookup never yields `Some([])` |
| Library.AppLibrary.constructor | src/lib.rs:75-83 | `default` starts with no users, no books and an empty borrow map, in a valid state |
| Library.AppLibrary.GetUsers | src/lib.rs:87-93 | returns the users in insertion order and changes nothing |
| Library.AppLibrary.GetBooksBorrowed | src/lib.rs:94-108 | returns `None` exactly when the current account has no entry, otherwise `Some` of its records in insertion order; changes nothing; in a valid state never `Some([])` and every record is due one period after it was borrowed |
| Library.AppLibrary.AddBook | src/lib.rs:109-127 | appends exactly one book: id equal to the block timestamp, the given name, one copy, the normalised category and the given drawer and column; returns that id; users and borrows are unchanged; the invariant is kept |
| Library.AppLibrary.AddUser | src/lib.rs:129-138 | appends exactly one user: the current account, the given name, the block height as id and `is_member` false; books and borrows are unchanged; the invariant is kept |
| Library.AppLibrary.BorrowBook | src/lib.rs:140-165 | for any book id, whether it exists or not, the borrow map becomes `Borrowed(old map, current account, NewLoan(bookId, now))`; users and books are unchanged; the result is always `"okay"` |
| LibraryScenarios.AddBookScenario | src/lib.rs:186-197 | adding "IT Manual" with category "manuals" at timestamp 9999 returns id 9999 and leaves one book, filed as `Any` with one copy at (8, 3) |
| LibraryScenarios.AddUserScenario | src/lib.rs:199-207 | adding "Frank" leaves exactly one user, who is not a member |
| LibraryScenarios.BorrowBookScenario | src/lib.rs:209-233 | adding a book leaves one book, adding a user leaves one user, and after borrowing once `get_books_borrowed` returns `Some` of one record, and `borrow_book` answered "okay" |
| LibraryScenarios.InterleavedBorrowScenario | src/lib.rs:140-165 | two borrows by `a` around a borrow by `b` leave `a` with both records in borrow order, equal to what `BorrowedAll` gives, and `b` with only its own |
| LibraryScenarios.NoEntryScenario | src/lib.rs:94-108 | an account with no entry gets `None`, even when another account has borrowed |
| LibraryScenarios.UnknownBookScenario | src/lib.rs:140-165 | borrowing a book id that was never added still records the borrow |

## Left out

- NEAR SDK plumbing is not modelled: `#[near_bindgen]`, the Borsh and serde serialisation, and the `testing_env!`/`VMContextBuilder` test set-up. The environment values are parameters instead.
- `env::log_str("User has no books borrowed")` in `get_books_borrowed` is not modelled, because it is output only.
- Persistent-storage semantics are not modelled. `users`, `books` and every per-account vector are created with the same storage prefix `b"r"`, so on chain their elements would share storage keys and alias each other. The model treats the three collections as separate sequences. This is noted in a comment on the class and is not a verified behaviour.
- `AppLibraryPackages` and the commented-out `member_package` field are not modelled, because they are unused.
- Library.AppLibrary.BorrowBook: it requires `blockTimestamp + 5184000 < 2^64`. The source's u64 addition would panic or wrap past that bound, and that overflow path is not modelled.
- Library.NewLoan: it carries the same u64 precondition as `BorrowBook`.
- The tests call `get_books_length()` and `get_books()`, which the contract does not define. The scenarios read the lengths of `books` and `users` directly instead, and `BorrowBookScenario` states both counts after `add_book` and `add_user`.
- The model has no capacity check, return operation, name-based borrow, `MemberNotFound` error or id uniqueness, because the contract has none of these.
