/** The unit tests of the contract, restated as verified scenario methods.
    Each one starts from `AppLibrary::default` with a fresh object, as the
    tests do. */
module LibraryScenarios {
  import opened Library

  /** Test `add_book`: one book added at timestamp 9999 with category
      "manuals" leaves one book, filed as Any with id 9999. */
  method AddBookScenario() returns (id: u64, count: nat, book: Book)
    ensures id == 9999 && count == 1
    ensures book == Book(9999, "IT Manual", 1, Any, Location(8, 3))
  {
    var app := new AppLibrary();
    id := app.AddBook("IT Manual", "manuals", 8, 3, 9999);
    count := |app.books|;
    book := app.books[0];
  }

  /** Test `add_user`: one user added gives one user, not a member. */
  method AddUserScenario(currentAccount: AccountId, blockHeight: u64) returns (users: seq<User>)
    ensures |users| == 1
    ensures users[0] == User(currentAccount, "Frank", blockHeight, false)
  {
    var app := new AppLibrary();
    app.AddUser("Frank", currentAccount, blockHeight);
    users := app.GetUsers();
  }

  /** Test `borrow_book_item`: adding a book leaves one book, adding a user
      leaves one user, and after borrowing once the current account has
      exactly one record. */
  method BorrowBookScenario(currentAccount: AccountId, blockHeight: u64)
    returns (bookCount: nat, userCount: nat, status: string, borrowed: Option<seq<BookBorrowed>>)
    ensures bookCount == 1 && userCount == 1
    ensures status == "okay"
    ensures borrowed == Some([BookBorrowed(9999, 9999, 9999 + 5184000)])
  {
    var app := new AppLibrary();
    var id := app.AddBook("Sample", "manuals", 8, 3, 9999);
    bookCount := |app.books|;
    app.AddUser("Chagalla", currentAccount, blockHeight);
    userCount := |app.users|;
    status := app.BorrowBook(id, currentAccount, 9999);
    borrowed := app.GetBooksBorrowed(currentAccount);
  }

  /** An account that never borrowed sees None, even when others have. */
  method NoEntryScenario(borrower: AccountId, other: AccountId) returns (borrowed: Option<seq<BookBorrowed>>)
    requires borrower != other
    ensures borrowed == None
  {
    var app := new AppLibrary();
    var _ := app.BorrowBook(1, borrower, 0);
    borrowed := app.GetBooksBorrowed(other);
  }

  /** Borrowing a book id that was never added is accepted like any other. */
  method UnknownBookScenario(currentAccount: AccountId, bookId: u64) returns (borrowed: Option<seq<BookBorrowed>>)
    ensures borrowed == Some([BookBorrowed(bookId, 0, 5184000)])
  {
    var app := new AppLibrary();
    var _ := app.BorrowBook(bookId, currentAccount, 0);
    borrowed := app.GetBooksBorrowed(currentAccount);
  }

  /** Two borrows by `a` with a borrow by `b` between them: `a` sees both of
      its records in borrow order, which is what `BorrowedAll` gives for
      those two records, and `b` sees only its own. */
  method InterleavedBorrowScenario(a: AccountId, b: AccountId)
    returns (mine: Option<seq<BookBorrowed>>, theirs: Option<seq<BookBorrowed>>)
    requires a != b
    ensures mine == Some([BookBorrowed(7, 10, 10 + 5184000), BookBorrowed(7, 12, 12 + 5184000)])
    ensures mine == LoansOf(BorrowedAll(map[], a, [NewLoan(7, 10), NewLoan(7, 12)]), a)
    ensures theirs == Some([BookBorrowed(9, 11, 11 + 5184000)])
  {
    var app := new AppLibrary();
    var _ := app.BorrowBook(7, a, 10);
    var _ := app.BorrowBook(9, b, 11);
    var _ := app.BorrowBook(7, a, 12);
    mine := app.GetBooksBorrowed(a);
    theirs := app.GetBooksBorrowed(b);
    BorrowsFromNothing(map[], a, [NewLoan(7, 10), NewLoan(7, 12)]);
  }
}
