/** The request validators: each fills a field-to-message map through a
    ladder of checks and reports the request valid when the map is empty.
    `isValidObjectId` from the database library is the parameter `isValidId`. */
module WalletValidation {
  import opened WalletTypes

  /** Fields the caller may leave out are `None`. */
  datatype CreateWalletRequest = CreateWalletRequest(
    userId: Option<string>,
    initialBalance: Option<int>,
    currency: Option<string>)

  datatype UpdateWalletRequest = UpdateWalletRequest(
    userId: Option<string>,
    walletId: Option<string>,
    amount: Option<int>,
    transactionType: Option<string>)

  datatype Validation = Validation(valid: bool, errors: map<Field, string>)

  /** The characters `String.prototype.trim` strips: ECMAScript WhiteSpace
      and LineTerminator. */
  predicate IsTrimmable(c: char)
  {
    || c == '\t' || c == '\n' || c == '\U{000B}' || c == '\U{000C}' || c == '\r' || c == ' '
    || c == '\U{00A0}' || c == '\U{1680}' || '\U{2000}' <= c <= '\U{200A}'
    || c == '\U{2028}' || c == '\U{2029}' || c == '\U{202F}' || c == '\U{205F}'
    || c == '\U{3000}' || c == '\U{FEFF}'
  }

  /** `!v || v.trim() === ""`: absent, empty, or whitespace only. */
  predicate MissingOrBlank(v: Option<string>)
  {
    v.None? || forall i :: 0 <= i < |v.value| ==> IsTrimmable(v.value[i])
  }

  /** The required-then-valid-id ladder both validators apply to an id field. */
  function IdFieldError(v: Option<string>, isValidId: string -> bool, required: string, invalid: string): (e: Option<string>)
    ensures e.None? <==> !MissingOrBlank(v) && isValidId(v.value)
    ensures MissingOrBlank(v) ==> e == Some(required)
    ensures !MissingOrBlank(v) && !isValidId(v.value) ==> e == Some(invalid)
  {
    if MissingOrBlank(v) then Some(required)
    else if !isValidId(v.value) then Some(invalid)
    else None
  }

  /** `errors[field] = message` when the check produced a message. */
  function Report(errors: map<Field, string>, field: Field, message: Option<string>): (r: map<Field, string>)
  {
    if message.Some? then errors[field := message.value] else errors
  }

  lemma EmptyIffNoKeys(errors: map<Field, string>)
    ensures |errors| < 1 <==> errors == map[]
  {
    if errors != map[] {
      var k :| k in errors;
      assert |errors| == |errors.Keys| >= |{k}| == 1 by {
        assert {k} <= errors.Keys;
      }
    }
  }

  function CreateWalletValidation(req: CreateWalletRequest, isValidId: string -> bool): (r: Validation)
    ensures r.errors.Keys <= {UserIdKey, InitialBalanceKey, CurrencyKey}
    ensures UserIdKey in r.errors <==> MissingOrBlank(req.userId) || !isValidId(req.userId.value)
    ensures MissingOrBlank(req.userId) ==> r.errors[UserIdKey] == "User id is required"
    ensures !MissingOrBlank(req.userId) && !isValidId(req.userId.value) ==> r.errors[UserIdKey] == "User id should be a valid id"
    ensures InitialBalanceKey in r.errors <==> req.initialBalance.Some? && req.initialBalance.value < 0
    ensures InitialBalanceKey in r.errors ==> r.errors[InitialBalanceKey] == "Initial balance should be greater than 0"
    ensures CurrencyKey in r.errors <==> req.currency.Some? && req.currency.value != "" && req.currency.value != DefaultCurrency
    ensures CurrencyKey in r.errors ==> r.errors[CurrencyKey] == "Invalid currency"
    ensures r.valid <==> r.errors == map[]
  {
    var m0 := IdFieldError(req.userId, isValidId, "User id is required", "User id should be a valid id");
    // `initialBalance && initialBalance < 0`: 0 is falsy, so only a non-zero negative is reported
    var m1 := if req.initialBalance.Some? && req.initialBalance.value != 0 && req.initialBalance.value < 0
      then Some("Initial balance should be greater than 0") else None;
    // `currency && currency != "GHS"`: the empty string is falsy
    var m2 := if req.currency.Some? && req.currency.value != "" && req.currency.value != DefaultCurrency
      then Some("Invalid currency") else None;
    var e2 := Report(Report(Report(map[], UserIdKey, m0), InitialBalanceKey, m1), CurrencyKey, m2);
    CreateErrors(m0, m1, m2);
    EmptyIffNoKeys(e2);
    Validation(|e2| < 1, e2)
  }

  /** The three reports of the create validator land under three distinct keys. */
  lemma CreateErrors(m0: Option<string>, m1: Option<string>, m2: Option<string>)
    ensures var e := Report(Report(Report(map[], UserIdKey, m0), InitialBalanceKey, m1), CurrencyKey, m2);
      && e.Keys <= {UserIdKey, InitialBalanceKey, CurrencyKey}
      && (UserIdKey in e <==> m0.Some?) && (m0.Some? ==> e[UserIdKey] == m0.value)
      && (InitialBalanceKey in e <==> m1.Some?) && (m1.Some? ==> e[InitialBalanceKey] == m1.value)
      && (CurrencyKey in e <==> m2.Some?) && (m2.Some? ==> e[CurrencyKey] == m2.value)
  {
  }

  /** The amount ladder: `!amount` (missing or 0), then `amount < 1`. */
  function AmountError(amount: Option<int>): (e: Option<string>)
    ensures e.None? <==> amount.Some? && amount.value >= 1
    ensures amount.None? || amount.value == 0 ==> e == Some("Amount is required")
    ensures amount.Some? && amount.value < 0 ==> e == Some("Amount should be greater than 0")
  {
    if amount.None? || amount.value == 0 then Some("Amount is required")
    else if amount.value < 1 then Some("Amount should be greater than 0")
    else None
  }

  /** The transaction-type ladder: missing or empty, then not one of the two kinds. */
  function TransactionTypeError(t: Option<string>): (e: Option<string>)
    ensures e.None? <==> t.Some? && t.value in {"credit", "debit"}
    ensures t.None? || t.value == "" ==> e == Some("Transaction type is required")
    ensures t.Some? && t.value !in {"", "credit", "debit"} ==> e == Some("Invalid transaction type.")
  {
    assert |""| == 0 < |"debit"| < |"credit"|;
    if t.None? || t.value == "" then Some("Transaction type is required")
    else if t.value !in ["credit", "debit"] then Some("Invalid transaction type.")
    else None
  }

  function UpdateWalletValidation(req: UpdateWalletRequest, isValidId: string -> bool): (r: Validation)
    ensures r.errors.Keys <= {UserIdKey, WalletIdKey, AmountKey, TransactionTypeKey}
    ensures UserIdKey in r.errors <==> MissingOrBlank(req.userId) || !isValidId(req.userId.value)
    ensures MissingOrBlank(req.userId) ==> r.errors[UserIdKey] == "User id is required"
    ensures !MissingOrBlank(req.userId) && !isValidId(req.userId.value) ==> r.errors[UserIdKey] == "User id should be a valid id"
    ensures WalletIdKey in r.errors <==> MissingOrBlank(req.walletId) || !isValidId(req.walletId.value)
    ensures MissingOrBlank(req.walletId) ==> r.errors[WalletIdKey] == "Wallet id is required"
    ensures !MissingOrBlank(req.walletId) && !isValidId(req.walletId.value) ==> r.errors[WalletIdKey] == "Wallet id should be a valid id"
    ensures AmountKey in r.errors <==> req.amount.None? || req.amount.value < 1
    ensures req.amount.None? || req.amount.value == 0 ==> r.errors[AmountKey] == "Amount is required"
    ensures req.amount.Some? && req.amount.value < 0 ==> r.errors[AmountKey] == "Amount should be greater than 0"
    ensures TransactionTypeKey in r.errors <==> req.transactionType.None? || req.transactionType.value !in {"credit", "debit"}
    ensures req.transactionType.None? || req.transactionType.value == "" ==>
      r.errors[TransactionTypeKey] == "Transaction type is required"
    ensures req.transactionType.Some? && req.transactionType.value !in {"", "credit", "debit"} ==>
      r.errors[TransactionTypeKey] == "Invalid transaction type."
    ensures r.valid <==> r.errors == map[]
  {
    var m0 := IdFieldError(req.userId, isValidId, "User id is required", "User id should be a valid id");
    var m1 := IdFieldError(req.walletId, isValidId, "Wallet id is required", "Wallet id should be a valid id");
    var m2 := AmountError(req.amount);
    var m3 := TransactionTypeError(req.transactionType);
    var e3 := Report(Report(Report(Report(map[], UserIdKey, m0), WalletIdKey, m1), AmountKey, m2), TransactionTypeKey, m3);
    UpdateErrors(m0, m1, m2, m3);
    EmptyIffNoKeys(e3);
    Validation(|e3| < 1, e3)
  }

  /** The four reports of the update validator land under four distinct keys. */
  lemma UpdateErrors(m0: Option<string>, m1: Option<string>, m2: Option<string>, m3: Option<string>)
    ensures var e := Report(Report(Report(Report(map[], UserIdKey, m0), WalletIdKey, m1), AmountKey, m2), TransactionTypeKey, m3);
      && e.Keys <= {UserIdKey, WalletIdKey, AmountKey, TransactionTypeKey}
      && (UserIdKey in e <==> m0.Some?) && (m0.Some? ==> e[UserIdKey] == m0.value)
      && (WalletIdKey in e <==> m1.Some?) && (m1.Some? ==> e[WalletIdKey] == m1.value)
      && (AmountKey in e <==> m2.Some?) && (m2.Some? ==> e[AmountKey] == m2.value)
      && (TransactionTypeKey in e <==> m3.Some?) && (m3.Some? ==> e[TransactionTypeKey] == m3.value)
  {
  }

  /** An update request passes exactly when both ids are present and valid,
      the amount is at least 1 and the type is one of the two kinds. */
  lemma UpdateWalletAcceptance(req: UpdateWalletRequest, isValidId: string -> bool)
    ensures UpdateWalletValidation(req, isValidId).valid <==>
      && !MissingOrBlank(req.userId) && isValidId(req.userId.value)
      && !MissingOrBlank(req.walletId) && isValidId(req.walletId.value)
      && req.amount.Some? && req.amount.value >= 1
      && req.transactionType.Some? && req.transactionType.value in {"credit", "debit"}
  {
    var r := UpdateWalletValidation(req, isValidId);
    if !r.valid {
      assert UserIdKey in r.errors || WalletIdKey in r.errors || AmountKey in r.errors || TransactionTypeKey in r.errors;
    }
  }
}
