# Wallet management service — a verified model

The service keeps one wallet per user in a document collection. Each
wallet holds a balance, a currency, a status, a short shareable code and a
list of contacts. HTTP handlers create wallets, look them up, search
them, credit and debit them, change their status, and add and remove
contacts. A stream consumer applies completed transactions to the balance
of the receiving wallet. Two validators check request bodies before the
handlers act.

The Dafny project models these parts:

- `wallet_types.dfy` (`WalletTypes`): the wallet document, the contact
  snapshot, the search entry, the transaction event, the validator's field
  names and the handler responses.
- `wallet_store.dfy` (`WalletStore`): the collection as a class `Store`.
  It holds a map from `_id` to document and the natural (insertion) order.
  The two writes the service uses are methods: `save` of a new document
  and `findByIdAndUpdate`. The two queries are functions of the stored
  state: `findOne` is the first match in natural order, and `find` is
  every match in that order. The collection invariants live here too:
  one wallet per user and distinct contact codes, which every request
  handler and every event keeps, and no negative balance, which the
  request handlers keep and a withdrawal event can break.
- `wallet_code.dfy` (`WalletCode`): the byte-to-symbol loop of wallet-code
  generation.
- `contacts.dfy` (`Contacts`): the contact-list expressions: `find` by
  code, `filter` by code, and the snapshot appended on add.
- `search.dfy` (`Search`): the projection a search answers with.
- `wallet_validation.dfy` (`WalletValidation`): the create and update
  validators.
- `wallet_controller.dfy` (`WalletController`): the handlers.
  - Each handler that writes is a method that takes the `Store` and
    changes it.
  - Its `ensures` ties the response and the new collection to an effect
    function (`CreateEffect`, `AdjustEffect`, `StatusEffect`,
    `AddContactEffect`, `RemoveContactEffect`).
  - The effect function's own contract says what the handler promises:
    which responses happen when, what changes, and which invariants are
    kept.
- `transaction_consumer.dfy` (`TransactionConsumer`): the per-message
  handler and the run over a sequence of messages, with lemmas about runs.
- `scenarios.dfy` (`Scenarios`): short client sessions on a fresh
  collection.

The collection's `_id` allocation, the random source and
`isValidObjectId` are parameters:

- `newId` is the id the store would assign.
- `randomBytes` is what `crypto.getRandomValues` would yield.
- `isValidId` stands for `isValidObjectId`.
- The compiled search pattern is the parameter `pattern`: a test on
  strings, or `None` when the text is not a valid pattern.

Amounts and balances are integers (minor units).

## Model

| member | source | states |
|---|---|---|
| WalletStore.FirstMatch | src/controllers/walletController.ts:225-228 | `findOne`: a hit is a listed, stored document satisfying the filter, and no earlier listed stored document satisfies it; a miss means no listed stored document satisfies it |
| WalletStore.FirstMatchFindsStored | src/controllers/walletController.ts:22-25 | over the natural order of the whole collection, `findOne` misses exactly when no stored wallet satisfies the filter |
| WalletStore.Matching | src/controllers/walletController.ts:83-88 | `find`: an id is in the result iff it is stored and satisfies the filter; the result is no longer than the order, has no repeats, and lists ids in the order they occur in the natural order |
| WalletStore.MatchingAppend | src/controllers/walletController.ts:83-88 | `find` over two stretches of the natural order answers the first stretch's matches, then the second's (one step at a time, `WalletStore.MatchingHead`) |
| WalletStore.Store.Save | src/controllers/walletController.ts:29-35 | a new `_id` is stored and appended to the natural order; a taken `_id` writes nothing |
| WalletStore.Store.FindByIdAndUpdate | src/controllers/walletController.ts:130-134 | a stored id gets the update applied and the new document is answered; an unknown id answers nothing and writes nothing |
| WalletCode.GenerateWalletCode | src/controllers/walletController.ts:187-193 | one symbol per random byte; symbol i is the alphabet's entry at byte i mod 62, so every symbol is alphanumeric |
| Contacts.FindContact | src/controllers/walletController.ts:230 | nothing is found iff no entry has the code; a hit is the first entry with that code |
| Contacts.WithoutCode | src/controllers/walletController.ts:271 | the result keeps exactly the entries whose code differs; with the code absent the list is unchanged; distinct codes stay distinct (through `Contacts.ConsHasCode`, `Contacts.ConsDistinct` and `Contacts.SubHasCode` on the kept front entry) |
| Contacts.WithoutCodeAppend | src/controllers/walletController.ts:271 | filtering distributes over concatenation, so kept entries keep their order |
| Contacts.WithoutCodeRemovesOne | src/controllers/walletController.ts:271 | with distinct codes and the code present, the result is the list minus exactly the one entry carrying it |
| Search.Project | src/controllers/walletController.ts:90-98 | one entry per matched id, in order, with `_id` and `walletId` the id and code, userId, userName, userImage and status copied from the document (each entry built by `Search.SearchEntryOf`) |
| Search.ProjectHidesBalanceAndContacts | src/controllers/walletController.ts:90-98 | documents that differ only in balance, currency or contacts project identically |
| WalletValidation.IdFieldError | src/validation/walletValidation.ts:42-56 | missing or blank (`WalletValidation.MissingOrBlank`: absent, or only characters `trim` strips) gives the "required" message, present but not a valid id gives the "valid id" message, otherwise no message |
| WalletValidation.EmptyIffNoKeys | src/validation/walletValidation.ts:27-30 | a key count below one means the error map is empty |
| WalletValidation.CreateWalletValidation | src/validation/walletValidation.ts:3-31 | per field (each set through `WalletValidation.Report`), when each message is reported and which message; `initialBalance` only when present, non-zero and negative; `currency` only when non-empty and not "GHS"; valid iff no errors (the three reports land under distinct keys, `WalletValidation.CreateErrors`) |
| WalletValidation.AmountError | src/validation/walletValidation.ts:58-64 | missing or 0 is "required", any other value below 1 is "greater than 0", 1 or more passes |
| WalletValidation.TransactionTypeError | src/validation/walletValidation.ts:66-72 | missing or empty is "required", anything but "credit" or "debit" is invalid |
| WalletValidation.UpdateWalletValidation | src/validation/walletValidation.ts:33-78 | each of the four fields is reported iff its check fails, with the ladder's message; valid iff no errors (the four reports land under distinct keys, `WalletValidation.UpdateErrors`) |
| WalletValidation.UpdateWalletAcceptance | src/validation/walletValidation.ts:74-77 | an update request is valid iff both ids are present and valid, amount is at least 1 and the type is credit or debit |
| WalletController.ValidateCreate | src/controllers/walletController.ts:15-17 | only the user id is checked when a wallet is created: valid iff it is non-blank and a valid id |
| WalletController.CreateEffect | src/controllers/walletController.ts:11-42 | created iff the user id passes, the user has no wallet, the name is present (`WalletController.RequiredString`, the schema's `required`) and the id is new; an existing wallet gives "User has an existing wallet"; otherwise nothing changes; a creation adds exactly one wallet (`WalletController.NewWallet`) with balance 0, "GHS", "active", no contacts and the drawn code; one-wallet-per-user, distinct contact codes and solvency are kept (the new document keeps the invariants by `WalletStore.InsertKeeps`) |
| WalletController.CreateWallet | src/controllers/walletController.ts:11-42 | the handler's response and collection are those of `CreateEffect`; a creation appends the new id to the natural order and a lookup by the new id then answers the created wallet; the code is the byte mapping of the random input |
| WalletController.GetWallet | src/controllers/walletController.ts:44-59 | the stored document for a known id, otherwise "Wallet not found"; every writing handler's contract ends with the lookup by id answering what the handler answered (read after write) |
| WalletController.GetUserWallet | src/controllers/walletController.ts:61-76 | found iff some stored wallet has the user id, and then it is that user's wallet (the only one while users are unique); otherwise "Wallet not found" |
| WalletController.SearchWallets | src/controllers/walletController.ts:78-109 | an invalid pattern answers 500; a valid one always answers a list (the not-found branch cannot fire) listing each matching wallet exactly once, in natural order, with its shown fields; no match gives the empty list |
| WalletController.FoundEntries | src/controllers/walletController.ts:83-98 | over a whole collection, the projection of `find` lists exactly the matching wallets, once each, in natural order, each entry built from its own document |
| WalletController.SearchHidesBalanceAndContacts | src/controllers/walletController.ts:90-104 | collections that differ only in balances, currencies or contacts answer every search identically |
| WalletController.MatchingOnShownFields | src/controllers/walletController.ts:83-88 | the name-or-code filter depends on nothing but userName and code |
| WalletController.AdjustEffect | src/controllers/walletController.ts:124-151 | unknown id is "Wallet not found"; credit adds exactly the amount; debit succeeds iff balance >= amount and leaves balance - amount >= 0, else "Insufficient balance"; any other type sends nothing; only the balance of that one wallet changes; solvency is kept for non-negative amounts (a rewrite that keeps the user keeps the invariants, `WalletStore.ReplaceKeeps`, which every rewriting effect uses) |
| WalletController.ApplyUpdate | src/controllers/walletController.ts:124-151 | the handler body after validation answers and writes as `AdjustEffect` says; after a success the lookup by id answers the updated wallet |
| WalletController.ValidateAsCalled | src/controllers/walletController.ts:115-119 | validation as the handler calls it never passes: "User id is required" is always reported |
| WalletController.UpdateWallet | src/controllers/walletController.ts:111-156 | an invalid request answers its errors and writes nothing; a valid one behaves as `AdjustEffect`; it always answers; no balance goes negative |
| WalletController.StatusEffect | src/controllers/walletController.ts:167-178 | unknown id is "Wallet not found"; otherwise the status becomes the given value whatever it was, and nothing else changes |
| WalletController.UpdateWalletStatus | src/controllers/walletController.ts:167-178 | the handler body after validation answers and writes as `StatusEffect` says; after a success the lookup by id answers the updated wallet |
| WalletController.AddContactEffect | src/controllers/walletController.ts:220-250 | "Wallet not found", then "New contact wallet not found", then "Wallet is already a contact", each leaving the collection unchanged; otherwise exactly one snapshot (`Contacts.Snapshot`: id, code, userId, userName, userImage and status of the contact wallet, :235-242) of a wallet with that code is appended and nothing else changes; contact codes stay distinct |
| WalletController.AddContact | src/controllers/walletController.ts:220-250 | the handler body after validation answers and writes as `AddContactEffect` says, taking the first wallet with the code in natural order; after a success the lookup by id answers the updated wallet |
| WalletController.RemoveContactEffect | src/controllers/walletController.ts:261-279 | "Wallet not found" or "Wallet is not a contact" with nothing changed; otherwise the new list is the `contacts.filter` of the old one (`Contacts.WithoutCode`): every entry with the code goes, the others stay in their order, and with distinct codes exactly one goes |
| WalletController.RemoveContact | src/controllers/walletController.ts:257-284 | the handler answers and writes as `RemoveContactEffect` says; after a success the lookup by id answers the updated wallet |
| TransactionConsumer.EventDelta | src/kafka/transactionConsumer.ts:42-112 | an event that fails the gate (`TransactionConsumer.Accepted`: type "transaction_completed" and status "SUCCESS", :42-45) is worth 0; P2P, P2M and Deposit are worth +amount; Withdrawal is worth -amount; any other type is worth 0 |
| TransactionConsumer.ApplyEvent | src/kafka/transactionConsumer.ts:42-113 | each branch is one `$inc` on the receiver (`TransactionConsumer.Inc`, :55-59, :76-80, :97-100); only the receiver wallet changes, and only its balance, which moves by the event's delta; a filtered event or a missing receiver changes nothing; the collection invariants are kept |
| TransactionConsumer.ApplyEvents | src/kafka/transactionConsumer.ts:33-117 | a run keeps the set of stored ids and the collection invariants |
| TransactionConsumer.EachMessage | src/kafka/transactionConsumer.ts:34-116 | the handler's writes are those of `ApplyEvent`; each branch is one `$inc` on the store (`TransactionConsumer.IncBalance`, whose writes are `Inc`'s) |
| TransactionConsumer.ConsumeAll | src/kafka/transactionConsumer.ts:33-117 | messages handled one after another give `ApplyEvents` of the whole sequence |
| TransactionConsumer.ApplyEventsBalance | src/kafka/transactionConsumer.ts:55-100 | after a run a wallet's balance has moved by the sum of the deltas of the events addressed to it, and nothing else about it changed |
| TransactionConsumer.ApplyEventsAppend | src/kafka/transactionConsumer.ts:33-117 | two runs in a row are the run of their concatenation |
| TransactionConsumer.TotalDeltaAppend | src/kafka/transactionConsumer.ts:55-100 | the summed deltas of a concatenation are the sum of the two sums |
| TransactionConsumer.RedeliveryDoublesEffect | src/kafka/transactionConsumer.ts:51 | there is no transaction-id ledger: a run delivered twice moves each balance twice |
| TransactionConsumer.IgnoredEventsNoEffect | src/kafka/transactionConsumer.ts:42-45 | a run of filtered events, or of events whose receiver is not stored, leaves the collection unchanged |
| TransactionConsumer.WithdrawalMayOverdraw | src/kafka/transactionConsumer.ts:91-101 | a withdrawal larger than the balance is applied in full and the balance goes negative |
| TransactionConsumer.CreditsKeepSolvent | src/kafka/transactionConsumer.ts:46-90 | a run with no withdrawals and non-negative amounts keeps every balance non-negative |
| Scenarios.CreateThenFetch | src/controllers/walletController.ts:22-37 | a new wallet is then found under its user, with balance 0, "GHS", "active", a 12-symbol code and no contacts |
| Scenarios.CreateThenGet | src/controllers/walletController.ts:44-54 | a new wallet is then found under its id exactly as the create answered it |
| Scenarios.CreditThenGet | src/controllers/walletController.ts:129-136 | a credit on a new wallet is then visible to the lookup by id, with the balance equal to the amount |
| Scenarios.CreateTwice | src/controllers/walletController.ts:22-25 | a second create for the same user gets "User has an existing wallet" and the collection keeps one wallet |
| Scenarios.DebitTwice | src/controllers/walletController.ts:139-151 | after a credit of 100, a debit of 60 leaves 40 and a second debit of 60 gets "Insufficient balance" |
| Scenarios.TwoWallets | src/controllers/walletController.ts:22-37 | two users get two wallets, the first with no contacts; each create is `Scenarios.NextWallet` (a user with no wallet, under a free id, gets exactly one new wallet with the defaults), the first on a fresh collection (`Scenarios.FirstWallet`) |
| Scenarios.AddContactTwice | src/controllers/walletController.ts:230-233 | the first add appends one entry with the code; the second gets "Wallet is already a contact" |
| Scenarios.WithdrawalOnEmptyWallet | src/kafka/transactionConsumer.ts:91-101 | a withdrawal event on a new wallet leaves its balance at minus the amount |
| Scenarios.DepositDeliveredTwice | src/kafka/transactionConsumer.ts:70-80 | the same deposit delivered twice credits twice |

## Left out

- Transport. Left out: the stream client's connection, subscription and
  reconnect timer; topic creation; the producer; decoding message bytes
  as JSON; and logging. An event arrives already decoded.
- HTTP plumbing: request parsing, routing and the server bootstrap.
  Handler inputs are parameters. A response is a `Response` value.
- `_id` allocation, `crypto.getRandomValues` and `isValidObjectId` are
  parameters (`newId`, `randomBytes`, `isValidId`).
- The uniqueness lookup and retry in wallet-code generation are not
  modelled. The lookup queries a field `walletCode` that no document has,
  and the retry discards its own result. Two wallets may therefore share
  a code. `AddContact` then takes the first one in natural order.
- Regular-expression compilation and matching in the search are the
  parameter `pattern`. Only its outcome is modelled: a string test, or
  no test when the text is not a valid pattern (500). The filter shape
  and the projection are modelled.
- Exceptions raised by the database driver are not modelled. An example
  is a cast error for an id string that is not an ObjectId. The handlers
  turn them into a 500, and the consumer logs them and moves on. Three
  500s are modelled: the two save failures (a missing or empty userName,
  and a taken `_id`), and a search text that is not a valid pattern.
- Concurrency is not modelled. Handlers and messages run one at a time, so
  the race between the debit's balance read and its `$inc` is not
  represented.
- Balances are integers. The schema's floating-point `Number` is not
  modelled.
- TransactionConsumer.ApplyEvent: the event's `amount` is an integer.
  The event type declares it as a string. A non-numeric amount, which
  `$inc` refuses with an error the consumer logs, is not modelled.
- WalletController.UpdateWalletStatus and WalletController.AddContact
  start after validation. The validators they call,
  `updateWalletStatusValidation` and `addContactValidation`, are imported
  but never exported, and their rules exist nowhere. As written, these
  two handlers therefore never reach their bodies. The build either
  fails to type-check the import, or the call to an undefined function
  throws inside the `try` and the handler answers 500. The model states
  what the bodies do once validation lets a request through.
- The schema does not declare `code` and `contacts`. The model stores
  both, as the handlers assume. Mongoose's strict-mode stripping of
  undeclared paths is not modelled. As written, strict mode drops `code`
  from `new Wallet({..., code})` (src/controllers/walletController.ts:29-34),
  and no stored document has `contacts`. So `wallet.contacts.find` throws
  in both `addContact` (:230) and `removeContact` (:266), both answer 500,
  and `addContact` never reaches its `$push` (:244-248).
- Absent values are not modelled. A status or contact code sent as
  undefined is treated as a string.
- Timestamps (`createdAt`, `updatedAt`) are not modelled.
- WalletController.CreateEffect: user ids are compared as the strings
  sent. The schema types `userId` as an ObjectId, and the store casts
  query strings to it. The cast ignores hex case, and a 12-character
  string also casts to the ObjectId of its bytes. Two spellings of one
  ObjectId are one user in the service, so the second create is refused,
  but in the model they are two users and both creates succeed. The
  one-wallet-per-user invariant (`UniqueUsers`) holds over spellings.
- WalletController.GetUserWallet: looks the user id up as the string
  sent, with no cast to ObjectId.
- WalletController.GetWallet: looks the wallet `_id` up as the string
  sent. The same holds for every lookup by wallet id in the other
  handlers and in the consumer.

## Findings

| source | as written | input that shows it | evidently intended | confidence | as-written member | corrected member |
|---|---|---|---|---|---|---|
| src/controllers/walletController.ts:115-119 | `updateWallet` passes `walletId`, `amount` and `transactionType` to a validator that also requires `userId`, so every request is rejected with "User id is required" | any update, e.g. a valid user id and wallet id, amount 10, type "credit" | the request's `userId` is passed on, so valid requests reach the credit/debit logic | high (not executed) | WalletController.ValidateAsCalled | WalletController.UpdateWallet |
