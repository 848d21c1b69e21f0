/** Records of the wallet service: the stored wallet document, the contact
    snapshot kept inside it, the transaction event read from the stream and
    the HTTP outcome of a request handler. */
module WalletTypes {

  datatype Option<T> = None | Some(value: T)

  /** A wallet's `_id`; the store assigns it and it never changes. */
  type WalletId = string

  /** Default values that the wallet schema gives a new document. */
  const DefaultBalance: int := 0
  const DefaultCurrency: string := "GHS"
  const ActiveStatus: string := "active"

  /** Denormalised copy of another wallet, taken when it is added as a contact. */
  datatype ContactRef = ContactRef(
    walletId: WalletId,
    code: string,
    userId: string,
    userName: string,
    userImage: Option<string>,
    status: string)

  /** A stored wallet document. Balance is kept in integer minor units. */
  datatype Wallet = Wallet(
    userId: string,
    userName: string,
    userImage: Option<string>,
    balance: int,
    currency: string,
    status: string,
    code: string,
    contacts: seq<ContactRef>)

  /** The element type of a search answer: identity, display fields and status. */
  datatype SearchEntry = SearchEntry(
    id: WalletId,
    walletId: WalletId,
    code: string,
    userId: string,
    userName: string,
    userImage: Option<string>,
    status: string)

  /** A transaction notification as it arrives from the stream. The
      TypeScript field `type` is called `kind` here (`type` is a keyword). */
  datatype TransactionEvent = TransactionEvent(
    kind: string,
    status: string,
    transactionId: string,
    transactionType: string,
    senderUserId: string,
    senderWalletId: WalletId,
    receiverUserId: string,
    receiverWalletId: WalletId,
    amount: int,
    currency: string)

  /** The request fields a validator can report on; each is the key of
      the same name in the error map. */
  datatype Field = UserIdKey | WalletIdKey | AmountKey | TransactionTypeKey | InitialBalanceKey | CurrencyKey

  /** What a request handler sends back. */
  datatype Response =
    | Ok(wallet: Wallet)                       // 200 with the wallet document
    | Created(wallet: Wallet)                  // 201 with the new document
    | Listed(entries: seq<SearchEntry>)        // 200 with a list
    | NotFound(error: string)                  // 404 {error}
    | BadRequest(error: string)                // 400 {error}
    | Invalid(errors: map<Field, string>)      // 400 {errors}
    | InternalError                            // 500, no body
    | NoResponse                               // the handler returns without answering

  /** No two entries of a contact list carry the same code. */
  ghost predicate DistinctCodes(cs: seq<ContactRef>)
  {
    forall i, j :: 0 <= i < j < |cs| ==> cs[i].code != cs[j].code
  }

  /** Some entry of the contact list carries `code`. */
  predicate HasCode(cs: seq<ContactRef>, code: string)
  {
    exists i :: 0 <= i < |cs| && cs[i].code == code
  }
}
