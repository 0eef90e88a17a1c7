/** The AppLibrary ledger of a NEAR contract: a catalog of books, a registry of
    users and, per account, the ordered list of books that account borrowed.
    The values the contract reads from its execution environment (block
    timestamp, block height, current account id) are explicit parameters here. */
module Library {

  type u8 = x: int | 0 <= x < 0x100
  type u16 = x: int | 0 <= x < 0x1_0000
  type u64 = x: int | 0 <= x < 0x1_0000_0000_0000_0000

  /** A NEAR account id; only compared for equality. */
  type AccountId = string

  datatype Option<T> = None | Some(value: T)

  datatype BookCategory = Any | War | Fantasy

  datatype Location = Location(drawer: u8, column: u8)

  datatype Book = Book(id: u64, name: string, copies: u16, category: BookCategory, location: Location)

  datatype BookBorrowed = BookBorrowed(bookId: u64, dateBorrowed: u64, dateDue: u64)

  datatype User = User(account: AccountId, name: string, id: u64, isMember: bool)

  /** How long a loan runs, in block-timestamp units. The source computes it as
      60 * 60 * 60 * 24, which is 5184000 (not the 86400 seconds of one day its
      comment suggests, and the timestamp is in nanoseconds anyway). */
  const BorrowPeriod: nat := 60 * 60 * 60 * 24

  /** The category string of `add_book`: only the exact string "war" is
      recognised; everything else, whatever its case, falls back to Any. */
  function CategoryOf(category: string): (c: BookCategory)
    ensures c == War <==> category == "war"
    ensures c == Any <==> category != "war"
    ensures c != Fantasy
  {
    if category == "war" then War else Any
  }

  /** The borrow record `borrow_book` creates at time `now`. */
  function NewLoan(bookId: u64, now: u64): (bk: BookBorrowed)
    requires now + BorrowPeriod < 0x1_0000_0000_0000_0000
    ensures bk.bookId == bookId && bk.dateBorrowed == now
    ensures bk.dateDue > bk.dateBorrowed && bk.dateDue - bk.dateBorrowed == 5184000
  {
    BookBorrowed(bookId, now, now + BorrowPeriod)
  }

  /** Every record due exactly one borrow period after it was borrowed. */
  predicate LoanWellFormed(bk: BookBorrowed) {
    bk.dateDue == bk.dateBorrowed + BorrowPeriod
  }

  /** What `get_books_borrowed` sees for account `a`. */
  function LoansOf(m: map<AccountId, seq<BookBorrowed>>, a: AccountId): (r: Option<seq<BookBorrowed>>)
    ensures r.None? <==> a !in m
    ensures r.Some? ==> a in m && r.value == m[a]
  {
    if a in m then Some(m[a]) else None
  }

  /** The records of `a`, reading a missing entry as empty. */
  function LoansOrEmpty(m: map<AccountId, seq<BookBorrowed>>, a: AccountId): (r: seq<BookBorrowed>) {
    if a in m then m[a] else []
  }

  /** The borrow map after `borrow_book` by `a`: the entry of `a` gets `bk`
      appended, being created as `[bk]` when absent. */
  function Borrowed(m: map<AccountId, seq<BookBorrowed>>, a: AccountId, bk: BookBorrowed)
    : (r: map<AccountId, seq<BookBorrowed>>)
    ensures r.Keys == m.Keys + {a}
    ensures a !in m ==> r[a] == [bk]
    ensures a in m ==> r[a] == m[a] + [bk]
    ensures forall b :: b in m && b != a ==> r[b] == m[b]
  {
    if a in m then m[a := m[a] + [bk]] else m[a := [bk]]
  }

  /** The borrow map after `a` borrows each record of `loans` in turn. */
  function BorrowedAll(m: map<AccountId, seq<BookBorrowed>>, a: AccountId, loans: seq<BookBorrowed>)
    : (r: map<AccountId, seq<BookBorrowed>>)
  {
    if loans == [] then m
    else Borrowed(BorrowedAll(m, a, loans[..|loans| - 1]), a, loans[|loans| - 1])
  }

  /** After any number of borrows by `a`, its records are its earlier ones
      followed by the new ones, in borrow order, and it has an entry exactly
      when it had one before or borrowed at least once. */
  lemma {:induction false} BorrowedAllOwn(m: map<AccountId, seq<BookBorrowed>>, a: AccountId, loans: seq<BookBorrowed>)
    ensures a in BorrowedAll(m, a, loans) <==> (a in m || loans != [])
    ensures LoansOrEmpty(BorrowedAll(m, a, loans), a) == LoansOrEmpty(m, a) + loans
  {
    if loans != [] {
      var init := loans[..|loans| - 1];
      BorrowedAllOwn(m, a, init);
      assert init + [loans[|loans| - 1]] == loans;
    }
  }

  /** Borrows by `a` leave every other account's entry, or its absence, as
      it was. */
  lemma {:induction false} BorrowedAllOthers(m: map<AccountId, seq<BookBorrowed>>, a: AccountId, loans: seq<BookBorrowed>, b: AccountId)
    requires b != a
    ensures LoansOf(BorrowedAll(m, a, loans), b) == LoansOf(m, b)
  {
    if loans != [] {
      BorrowedAllOthers(m, a, loans[..|loans| - 1], b);
    }
  }

  /** From an account with no entry, `k` borrows give `Some` of exactly those
      `k` records, in the order they were borrowed. */
  lemma BorrowsFromNothing(m: map<AccountId, seq<BookBorrowed>>, a: AccountId, loans: seq<BookBorrowed>)
    requires a !in m && loans != []
    ensures LoansOf(BorrowedAll(m, a, loans), a) == Some(loans)
    ensures |LoansOf(BorrowedAll(m, a, loans), a).value| == |loans|
  {
    BorrowedAllOwn(m, a, loans);
    var r := BorrowedAll(m, a, loans);
    assert a in r && LoansOrEmpty(r, a) == r[a];
    assert LoansOrEmpty(m, a) == [];
    assert [] + loans == loans;
  }

  /** Every entry of the borrow map is non-empty and well formed. */
  predicate LoansWellFormed(m: map<AccountId, seq<BookBorrowed>>) {
    forall a :: a in m ==> m[a] != [] && forall j :: 0 <= j < |m[a]| ==> LoanWellFormed(m[a][j])
  }

  /** Borrowing keeps every entry non-empty and well formed, so
      `get_books_borrowed` never returns `Some([])`. */
  lemma {:induction false} BorrowedAllWellFormed(m: map<AccountId, seq<BookBorrowed>>, a: AccountId, loans: seq<BookBorrowed>)
    requires LoansWellFormed(m)
    requires forall j :: 0 <= j < |loans| ==> LoanWellFormed(loans[j])
    ensures LoansWellFormed(BorrowedAll(m, a, loans))
    ensures forall b :: LoansOf(BorrowedAll(m, a, loans), b) != Some([])
  {
    if loans != [] {
      BorrowedAllWellFormed(m, a, loans[..|loans| - 1]);
    }
  }

  /** The contract's state. In the source the three collections are NEAR
      storage collections, and `users`, `books` and every per-account vector
      are created with the same storage prefix, so on chain their elements
      would share keys. The model keeps them as separate sequences. */
  class AppLibrary {
    var users: seq<User>
    var books: seq<Book>
    var booksBorrowed: map<AccountId, seq<BookBorrowed>>

    /** What every reachable state satisfies: books are single-copy and never
        Fantasy, users are never members, and borrow entries are non-empty and
        each due one borrow period after it was borrowed. */
    predicate Valid()
      reads this
    {
      (forall i :: 0 <= i < |books| ==> books[i].copies == 1 && books[i].category != Fantasy) &&
      (forall i :: 0 <= i < |users| ==> !users[i].isMember) &&
      LoansWellFormed(booksBorrowed)
    }

    /** `AppLibrary::default`. */
    constructor ()
      ensures Valid()
      ensures users == [] && books == [] && booksBorrowed == map[]
    {
      users := [];
      books := [];
      booksBorrowed := map[];
    }

    /** `get_users`: a copy of the users, in insertion order. */
    method GetUsers() returns (items: seq<User>)
      ensures items == users
    {
      items := [];
      var i := 0;
      while i < |users|
        invariant 0 <= i <= |users|
        invariant items == users[..i]
      {
        items := items + [users[i]];
        i := i + 1;
      }
    }

    /** `get_books_borrowed` for the current account: None when it has no
        entry, otherwise a copy of its records in insertion order. In a valid
        state a present entry is never empty and each record is due one
        borrow period after it was borrowed. */
    method GetBooksBorrowed(currentAccount: AccountId) returns (r: Option<seq<BookBorrowed>>)
      ensures r.None? <==> currentAccount !in booksBorrowed
      ensures r.Some? ==> r.value == booksBorrowed[currentAccount]
      ensures Valid() ==> r != Some([])
      ensures Valid() && r.Some? ==> forall j :: 0 <= j < |r.value| ==> LoanWellFormed(r.value[j])
    {
      if currentAccount in booksBorrowed {
        var bks := booksBorrowed[currentAccount];
        var items: seq<BookBorrowed> := [];
        var i := 0;
        while i < |bks|
          invariant 0 <= i <= |bks|
          invariant items == bks[..i]
        {
          items := items + [bks[i]];
          i := i + 1;
        }
        r := Some(items);
      } else {
        r := None;
      }
    }

    /** `add_book`: appends one single-copy book whose id is the block
        timestamp, and returns that id. */
    method AddBook(name: string, category: string, drawer: u8, column: u8, blockTimestamp: u64)
      returns (id: u64)
      requires Valid()
      modifies this
      ensures Valid()
      ensures id == blockTimestamp
      ensures books == old(books) + [Book(blockTimestamp, name, 1, CategoryOf(category), Location(drawer, column))]
      ensures users == old(users) && booksBorrowed == old(booksBorrowed)
    {
      id := blockTimestamp;
      var bk := Book(id, name, 1, CategoryOf(category), Location(drawer, column));
      books := books + [bk];
    }

    /** `add_user`: appends one non-member user recorded under the current
        account and identified by the block height. */
    method AddUser(userName: string, currentAccount: AccountId, blockHeight: u64)
      requires Valid()
      modifies this
      ensures Valid()
      ensures users == old(users) + [User(currentAccount, userName, blockHeight, false)]
      ensures books == old(books) && booksBorrowed == old(booksBorrowed)
    {
      var user := User(currentAccount, userName, blockHeight, false);
      users := users + [user];
    }

    /** `borrow_book`: appends a record to the current account's entry,
        creating the entry when absent. No check is made that `bookId`
        names a book or that a copy is free; it always answers "okay". */
    method BorrowBook(bookId: u64, currentAccount: AccountId, blockTimestamp: u64)
      returns (status: string)
      requires Valid()
      requires blockTimestamp + BorrowPeriod < 0x1_0000_0000_0000_0000
      modifies this
      ensures Valid()
      ensures status == "okay"
      ensures booksBorrowed == Borrowed(old(booksBorrowed), currentAccount, NewLoan(bookId, blockTimestamp))
      ensures users == old(users) && books == old(books)
    {
      var bk := BookBorrowed(bookId, blockTimestamp, blockTimestamp + BorrowPeriod);
      match LoansOf(booksBorrowed, currentAccount) {
        case Some(userBks) =>
          booksBorrowed := booksBorrowed[currentAccount := userBks + [bk]];
        case None =>
          booksBorrowed := booksBorrowed[currentAccount := [bk]];
      }
      status := "okay";
    }
  }
}
