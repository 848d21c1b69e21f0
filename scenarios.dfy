/** Short sessions against a fresh collection, each stating what a client
    of the service observes. */
module Scenarios {
  import opened WalletTypes
  import opened WalletStore
  import opened WalletCode
  import opened WalletValidation
  import opened WalletController
  import opened TransactionConsumer

  /** A new wallet is found under its user with the schema defaults and a
      twelve-character code. */
  method CreateThenFetch(userId: string, userName: string, newId: WalletId, randomBytes: seq<byte>,
                         isValidId: string -> bool)
    returns (created: Response, fetched: Response)
    requires !MissingOrBlank(Some(userId)) && isValidId(userId) && userName != ""
    requires |randomBytes| == CodeLength
    ensures created.Created? && fetched.Ok? && fetched.wallet == created.wallet
    ensures fetched.wallet.userId == userId && fetched.wallet.userName == userName
    ensures fetched.wallet.balance == 0 && fetched.wallet.currency == "GHS" && fetched.wallet.status == "active"
    ensures |fetched.wallet.code| == 12 && fetched.wallet.contacts == []
  {
    var store := new Store();
    var code;
    created, code := CreateWallet(store, Some(userId), Some(userName), None, newId, randomBytes, isValidId);
    assert newId in store.wallets && Satisfies(store.wallets[newId], ByUserId(userId));
    fetched := GetUserWallet(store, userId);
  }

  /** A new wallet is then found under its own id, as created. */
  method CreateThenGet(userId: string, userName: string, newId: WalletId, randomBytes: seq<byte>,
                       isValidId: string -> bool)
    returns (created: Response, fetched: Response)
    requires !MissingOrBlank(Some(userId)) && isValidId(userId) && userName != ""
    requires |randomBytes| == CodeLength
    ensures created.Created? && fetched == Ok(created.wallet)
  {
    var store := new Store();
    var code;
    created, code := CreateWallet(store, Some(userId), Some(userName), None, newId, randomBytes, isValidId);
    fetched := GetWallet(store, newId);
  }

  /** A credit is visible to the next lookup by id. */
  method CreditThenGet(userId: string, userName: string, newId: WalletId, randomBytes: seq<byte>,
                       isValidId: string -> bool, amount: int)
    returns (credited: Response, fetched: Response)
    requires !MissingOrBlank(Some(userId)) && isValidId(userId) && userName != ""
    requires |randomBytes| == CodeLength
    ensures credited.Ok? && fetched == credited && fetched.wallet.balance == amount
  {
    var store, created := FirstWallet(userId, userName, newId, randomBytes, isValidId);
    credited := ApplyUpdate(store, newId, amount, "credit");
    fetched := GetWallet(store, newId);
  }

  /** A wallet created for a user who has none, under an id not yet taken. */
  method NextWallet(store: Store, userId: string, userName: string, newId: WalletId, randomBytes: seq<byte>,
                    isValidId: string -> bool)
    returns (created: Response)
    requires store.Valid() && !AnyStored(store.wallets, ByUserId(userId)) && newId !in store.wallets
    requires !MissingOrBlank(Some(userId)) && isValidId(userId) && userName != ""
    requires |randomBytes| == CodeLength
    modifies store
    ensures store.Valid()
    ensures created.Created? && store.order == old(store.order) + [newId]
    ensures store.wallets == old(store.wallets)[newId := created.wallet]
    ensures created.wallet == NewWallet(userId, userName, None, created.wallet.code)
    ensures |created.wallet.code| == CodeLength
  {
    var code;
    created, code := CreateWallet(store, Some(userId), Some(userName), None, newId, randomBytes, isValidId);
  }

  /** A fresh collection holding the one wallet just created for a user. */
  method FirstWallet(userId: string, userName: string, newId: WalletId, randomBytes: seq<byte>,
                     isValidId: string -> bool)
    returns (store: Store, created: Response)
    requires !MissingOrBlank(Some(userId)) && isValidId(userId) && userName != ""
    requires |randomBytes| == CodeLength
    ensures fresh(store) && store.Valid()
    ensures created.Created? && store.order == [newId] && store.wallets == map[newId := created.wallet]
    ensures created.wallet == NewWallet(userId, userName, None, created.wallet.code)
    ensures |created.wallet.code| == CodeLength
  {
    store := new Store();
    created := NextWallet(store, userId, userName, newId, randomBytes, isValidId);
  }

  /** A second wallet for the same user is refused and the first stays alone. */
  method CreateTwice(userId: string, firstName: string, secondName: string, firstId: WalletId, secondId: WalletId,
                     firstBytes: seq<byte>, secondBytes: seq<byte>, isValidId: string -> bool)
    returns (first: Response, second: Response, ids: set<WalletId>)
    requires !MissingOrBlank(Some(userId)) && isValidId(userId) && firstName != ""
    requires |firstBytes| == CodeLength && |secondBytes| == CodeLength
    ensures first.Created?
    ensures second == BadRequest("User has an existing wallet")
    ensures ids == {firstId}
  {
    var store := new Store();
    var code;
    first, code := CreateWallet(store, Some(userId), Some(firstName), None, firstId, firstBytes, isValidId);
    assert firstId in store.wallets && Satisfies(store.wallets[firstId], ByUserId(userId));
    second, code := CreateWallet(store, Some(userId), Some(secondName), None, secondId, secondBytes, isValidId);
    ids := store.wallets.Keys;
  }

  /** Credit 100, then two debits of 60 one after the other: the first
      leaves 40, the second is refused and the balance stays 40. */
  method DebitTwice(userId: string, userName: string, newId: WalletId, randomBytes: seq<byte>,
                    isValidId: string -> bool)
    returns (firstDebit: Response, secondDebit: Response, balance: int)
    requires !MissingOrBlank(Some(userId)) && isValidId(userId) && userName != ""
    requires |randomBytes| == CodeLength
    ensures firstDebit.Ok? && firstDebit.wallet.balance == 40
    ensures secondDebit == BadRequest("Insufficient balance")
    ensures balance == 40
  {
    var store, created := FirstWallet(userId, userName, newId, randomBytes, isValidId);
    var credit := ApplyUpdate(store, newId, 100, "credit");
    firstDebit := ApplyUpdate(store, newId, 60, "debit");
    secondDebit := ApplyUpdate(store, newId, 60, "debit");
    balance := store.wallets[newId].balance;
  }

  /** Two wallets of two users in a fresh collection. */
  method TwoWallets(owner: string, friend: string, ownerId: WalletId, friendId: WalletId,
                    ownerBytes: seq<byte>, friendBytes: seq<byte>, isValidId: string -> bool)
    returns (store: Store, friendCode: string)
    requires !MissingOrBlank(Some(owner)) && isValidId(owner) && !MissingOrBlank(Some(friend)) && isValidId(friend)
    requires owner != friend && ownerId != friendId
    requires |ownerBytes| == CodeLength && |friendBytes| == CodeLength
    ensures fresh(store) && store.Valid()
    ensures store.wallets.Keys == {ownerId, friendId}
    ensures store.wallets[ownerId].contacts == []
    ensures store.wallets[friendId].code == friendCode
  {
    var a;
    store, a := FirstWallet(owner, owner, ownerId, ownerBytes, isValidId);
    assert !AnyStored(store.wallets, ByUserId(friend));
    var b := NextWallet(store, friend, friend, friendId, friendBytes, isValidId);
    friendCode := b.wallet.code;
  }

  /** Adding the same contact twice: the first call appends one snapshot of
      a wallet carrying the contact code, the second is refused. */
  method AddContactTwice(owner: string, friend: string, ownerId: WalletId, friendId: WalletId,
                         ownerBytes: seq<byte>, friendBytes: seq<byte>, isValidId: string -> bool)
    returns (first: Response, second: Response, friendCode: string)
    requires !MissingOrBlank(Some(owner)) && isValidId(owner) && !MissingOrBlank(Some(friend)) && isValidId(friend)
    requires owner != friend && ownerId != friendId
    requires |ownerBytes| == CodeLength && |friendBytes| == CodeLength
    ensures first.Ok? && |first.wallet.contacts| == 1 && first.wallet.contacts[0].code == friendCode
    ensures second == BadRequest("Wallet is already a contact")
  {
    var store;
    store, friendCode := TwoWallets(owner, friend, ownerId, friendId, ownerBytes, friendBytes, isValidId);
    assert Satisfies(store.wallets[friendId], ByCode(friendCode));
    first := AddContact(store, ownerId, friendCode);
    assert store.wallets[ownerId].contacts[0].code == friendCode;
    second := AddContact(store, ownerId, friendCode);
  }

  /** A withdrawal event on a wallet that holds nothing is applied anyway. */
  method WithdrawalOnEmptyWallet(userId: string, userName: string, newId: WalletId, randomBytes: seq<byte>,
                                 isValidId: string -> bool, transactionId: string, amount: int)
    returns (balance: int)
    requires !MissingOrBlank(Some(userId)) && isValidId(userId) && userName != ""
    requires |randomBytes| == CodeLength
    requires amount > 0
    ensures balance == -amount < 0
  {
    var store, created := FirstWallet(userId, userName, newId, randomBytes, isValidId);
    var e := TransactionEvent("transaction_completed", "SUCCESS", transactionId, "Withdrawal",
                              "", "", userId, newId, amount, "GHS");
    EachMessage(store, e);
    balance := store.wallets[newId].balance;
  }

  /** The same deposit delivered twice credits the wallet twice. */
  method DepositDeliveredTwice(userId: string, userName: string, newId: WalletId, randomBytes: seq<byte>,
                               isValidId: string -> bool, transactionId: string, amount: int)
    returns (balance: int)
    requires !MissingOrBlank(Some(userId)) && isValidId(userId) && userName != ""
    requires |randomBytes| == CodeLength
    ensures balance == 2 * amount
  {
    var store, created := FirstWallet(userId, userName, newId, randomBytes, isValidId);
    var e := TransactionEvent("transaction_completed", "SUCCESS", transactionId, "Deposit",
                              "", "", userId, newId, amount, "GHS");
    ghost var before := store.wallets;
    ConsumeAll(store, [e, e]);
    RedeliveryDoublesEffect(before, [e], newId);
    assert [e] + [e] == [e, e];
    assert TotalDelta([e], newId) == amount by {
      assert [e][..0] == [];
    }
    balance := store.wallets[newId].balance;
  }
}
