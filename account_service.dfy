/** `AccountService`: registration, login, the account detail, and the two account updates.
    bcrypt, e-mail parsing and token signing are foreign calls: their answers are parameters
    (`hashed` for a fresh bcrypt hash, `matches` for `CompareHashAndPassword`, `emailOk` for
    `mail.ParseAddress` succeeding, `token` for the signed JWT). */
module AccountService {
  import opened Builtins
  import opened Wrappers
  import opened AppErrors
  import opened Entities
  import opened Store

  /** `AccountDTO` without the numeric id. */
  datatype AccountDto = AccountDto(
    username: string,
    displayName: string,
    email: string,
    registeredAddress: string,
    isActive: bool)

  function AccountToDto(a: Account): (d: AccountDto)
    ensures d.username == a.username && d.displayName == a.displayName && d.email == a.email
    ensures d.registeredAddress == a.registeredAddress && d.isActive == a.isActive
  {
    AccountDto(a.username, a.displayName, a.email, a.registeredAddress, a.isActive)
  }

  // ---------------------------------------------------------------------------------------
  // The password policy

  predicate IsUpper(c: char) { 'A' <= c <= 'Z' }
  predicate IsLower(c: char) { 'a' <= c <= 'z' }

  /** The members of the class `[!@#~$%^&*()+|_.,<>?/{}\-]`. */
  const SpecialCharacters: string := "!@#~$%^&*()+|_.,<>?/{}-"

  predicate HasUpper(s: string) { exists i :: 0 <= i < |s| && IsUpper(s[i]) }
  predicate HasLower(s: string) { exists i :: 0 <= i < |s| && IsLower(s[i]) }
  predicate HasNumber(s: string) { exists i :: 0 <= i < |s| && IsDigit(s[i]) }
  predicate HasSpecial(s: string) { exists i :: 0 <= i < |s| && s[i] in SpecialCharacters }

  /** The rules of the policy, in the order they are checked. */
  datatype PasswordRule = MinLength | Uppercase | Lowercase | Number | Special

  const PasswordRules: seq<PasswordRule> := [MinLength, Uppercase, Lowercase, Number, Special]

  /** A rule read on its own; the length is Go's `len`, which counts UTF-8 bytes. */
  predicate Satisfies(password: string, rule: PasswordRule) {
    match rule
    case MinLength => Utf8Length(password) >= 8
    case Uppercase => HasUpper(password)
    case Lowercase => HasLower(password)
    case Number => HasNumber(password)
    case Special => HasSpecial(password)
  }

  function RuleMessage(rule: PasswordRule): string {
    match rule
    case MinLength => "password must be at least 8 characters long"
    case Uppercase => "password must contain at least one uppercase letter"
    case Lowercase => "password must contain at least one lowercase letter"
    case Number => "password must contain at least one number"
    case Special => "password must contain at least one special character"
  }

  /** The first rule of `rules` that the password breaks. */
  function FirstBroken(rules: seq<PasswordRule>, password: string): (r: Option<PasswordRule>)
    ensures r.None? <==> forall k :: 0 <= k < |rules| ==> Satisfies(password, rules[k])
    ensures r.Some? ==> r.value in rules && !Satisfies(password, r.value)
  {
    if rules == [] then None
    else if !Satisfies(password, rules[0]) then Some(rules[0])
    else FirstBroken(rules[1..], password)
  }

  lemma ValidationIs(msg: string)
    ensures Is(Fail(msg, Validation), Validation)
  {
    IsAppError(Some(Plain(msg)), Validation, Validation);
  }

  lemma AuthFailedIs(msg: string)
    ensures Is(Fail(msg, AuthFailed), AuthFailed) && !Is(Fail(msg, AuthFailed), Validation)
  {
    IsAppError(Some(Plain(msg)), AuthFailed, AuthFailed);
    IsAppError(Some(Plain(msg)), AuthFailed, Validation);
  }

  /** `validatePassword`: a Validation error for the first failing check, or none. */
  function PasswordError(password: string): (r: Option<Error>)
    ensures r.None? <==> Utf8Length(password) >= 8 && HasUpper(password) && HasLower(password) &&
                         HasNumber(password) && HasSpecial(password)
    ensures r.Some? ==> Is(r.value, Validation)
  {
    if Utf8Length(password) < 8 then
      ValidationIs("password must be at least 8 characters long");
      Some(Fail("password must be at least 8 characters long", Validation))
    else if !HasUpper(password) then
      ValidationIs("password must contain at least one uppercase letter");
      Some(Fail("password must contain at least one uppercase letter", Validation))
    else if !HasLower(password) then
      ValidationIs("password must contain at least one lowercase letter");
      Some(Fail("password must contain at least one lowercase letter", Validation))
    else if !HasNumber(password) then
      ValidationIs("password must contain at least one number");
      Some(Fail("password must contain at least one number", Validation))
    else if !HasSpecial(password) then
      ValidationIs("password must contain at least one special character");
      Some(Fail("password must contain at least one special character", Validation))
    else None
  }

  /** The first broken rule of the policy, rule by rule. */
  lemma FirstBrokenOfPolicy(password: string)
    ensures FirstBroken(PasswordRules, password) ==
              if Utf8Length(password) < 8 then Some(MinLength)
              else if !HasUpper(password) then Some(Uppercase)
              else if !HasLower(password) then Some(Lowercase)
              else if !HasNumber(password) then Some(Number)
              else if !HasSpecial(password) then Some(Special)
              else None
  {
    var r5 := PasswordRules;
    var r4: seq<PasswordRule> := [Uppercase, Lowercase, Number, Special];
    var r3: seq<PasswordRule> := [Lowercase, Number, Special];
    var r2: seq<PasswordRule> := [Number, Special];
    var r1: seq<PasswordRule> := [Special];
    assert r5[0] == MinLength && r5[1..] == r4;
    assert r4[0] == Uppercase && r4[1..] == r3;
    assert r3[0] == Lowercase && r3[1..] == r2;
    assert r2[0] == Number && r2[1..] == r1;
    assert r1[0] == Special && r1[1..] == [];
    assert FirstBroken(r1, password) == if !HasSpecial(password) then Some(Special) else None;
    assert FirstBroken(r2, password) == if !HasNumber(password) then Some(Number) else FirstBroken(r1, password);
    assert FirstBroken(r3, password) == if !HasLower(password) then Some(Lowercase) else FirstBroken(r2, password);
    assert FirstBroken(r4, password) == if !HasUpper(password) then Some(Uppercase) else FirstBroken(r3, password);
    assert FirstBroken(r5, password) == if Utf8Length(password) < 8 then Some(MinLength) else FirstBroken(r4, password);
  }

  /** The policy reports exactly the first broken rule of the ordered rule list. */
  lemma PasswordErrorIsFirstBroken(password: string)
    ensures var broken := FirstBroken(PasswordRules, password);
            PasswordError(password) == (if broken.None? then None else Some(Fail(RuleMessage(broken.value), Validation)))
  {
    FirstBrokenOfPolicy(password);
  }

  /** The length rule counts bytes: seven characters, three of them two bytes long, pass. */
  lemma PasswordLengthCountsBytes()
    ensures |"Aa1!ééé"| == 7
    ensures PasswordError("Aa1!ééé") == None
  {
    var p := "Aa1!ééé";
    assert Utf8Length(p) == 10;
    assert IsUpper(p[0]) && IsLower(p[1]) && IsDigit(p[2]) && p[3] in SpecialCharacters;
  }

  // ---------------------------------------------------------------------------------------
  // Registration

  datatype RegisterRequest = RegisterRequest(
    username: string,
    displayName: string,
    email: string,
    loginPassword: string,
    registeredAddress: string)

  /** `CheckByEmail` answering true. */
  predicate EmailTaken(accounts: map<string, Account>, email: string) {
    exists u :: u in accounts && accounts[u].email == email
  }

  /** No two accounts share an e-mail address. */
  predicate EmailsUnique(accounts: map<string, Account>) {
    forall u, v :: u in accounts && v in accounts && accounts[u].email == accounts[v].email ==> u == v
  }

  predicate FieldMissing(request: RegisterRequest) {
    request.username == "" || request.displayName == "" || request.email == "" || request.loginPassword == ""
  }

  /** The byte-length limits: 100 for the username and display name, 200 for the e-mail. */
  predicate FieldTooLong(request: RegisterRequest) {
    Utf8Length(request.username) > 100 || Utf8Length(request.displayName) > 100 || Utf8Length(request.email) > 200
  }

  /** `validateRegisterRequest`. */
  function RegisterError(accounts: map<string, Account>, request: RegisterRequest, emailOk: string -> bool): (r: Option<Error>)
    ensures r.None? <==> !FieldMissing(request) && !FieldTooLong(request) && emailOk(request.email) &&
                         PasswordError(request.loginPassword).None? &&
                         request.username !in accounts && !EmailTaken(accounts, request.email)
    ensures r.Some? ==> Is(r.value, Validation)
  {
    if FieldMissing(request) then
      ValidationIs("one/several required data is missing");
      Some(Fail("one/several required data is missing", Validation))
    else if FieldTooLong(request) then
      ValidationIs("one/several required data is too long");
      Some(Fail("one/several required data is too long", Validation))
    else if !emailOk(request.email) then
      ValidationIs("email is not valid");
      Some(Fail("email is not valid", Validation))
    else if PasswordError(request.loginPassword).Some? then
      PasswordError(request.loginPassword)
    else if request.username in accounts then
      ValidationIs("username already taken");
      Some(Fail("username already taken", Validation))
    else if EmailTaken(accounts, request.email) then
      ValidationIs("email already taken");
      Some(Fail("email already taken", Validation))
    else None
  }

  /** The registration checks run in a fixed order: an earlier failing check decides the
      error whatever the later ones would say. */
  lemma RegisterCheckOrder(accounts: map<string, Account>, request: RegisterRequest, emailOk: string -> bool)
    ensures FieldMissing(request) ==>
              RegisterError(accounts, request, emailOk) == Some(Fail("one/several required data is missing", Validation))
    ensures !FieldMissing(request) && FieldTooLong(request) ==>
              RegisterError(accounts, request, emailOk) == Some(Fail("one/several required data is too long", Validation))
    ensures !FieldMissing(request) && !FieldTooLong(request) && !emailOk(request.email) ==>
              RegisterError(accounts, request, emailOk) == Some(Fail("email is not valid", Validation))
    ensures !FieldMissing(request) && !FieldTooLong(request) && emailOk(request.email) &&
            PasswordError(request.loginPassword).Some? ==>
              RegisterError(accounts, request, emailOk) == PasswordError(request.loginPassword)
    ensures !FieldMissing(request) && !FieldTooLong(request) && emailOk(request.email) &&
            PasswordError(request.loginPassword).None? && request.username in accounts ==>
              RegisterError(accounts, request, emailOk) == Some(Fail("username already taken", Validation))
    ensures !FieldMissing(request) && !FieldTooLong(request) && emailOk(request.email) &&
            PasswordError(request.loginPassword).None? && request.username !in accounts && EmailTaken(accounts, request.email) ==>
              RegisterError(accounts, request, emailOk) == Some(Fail("email already taken", Validation))
  {
  }

  /** What an account operation answers, with the tables after it. */
  datatype AccountOutcome = AccountOutcome(r: Result<AccountDto, Error>, db: Db)

  /** The row `Register` creates: active, the bcrypt hash as password, audited by the new user. */
  function NewAccount(request: RegisterRequest, hash: string): Account {
    Account(request.username, request.displayName, request.email, hash, request.registeredAddress,
            true, request.username, request.username)
  }

  /** `Register`: the checks, the hash, the insert, the read-back. */
  function RegisterSpec(db: Db, request: RegisterRequest, emailOk: string -> bool, hashed: Result<string, string>): AccountOutcome {
    var invalid := RegisterError(db.accounts, request, emailOk);
    if invalid.Some? then AccountOutcome(Failure(invalid.value), db)
    else if hashed.Failure? then AccountOutcome(Failure(Fail(hashed.error, Validation)), db)
    else
      var account := NewAccount(request, hashed.value);
      AccountOutcome(Success(AccountToDto(account)), db.(accounts := db.accounts[account.username := account]))
  }

  /** A refused registration changes nothing and is a Validation error. */
  lemma RegisterFailureKeepsStore(db: Db, request: RegisterRequest, emailOk: string -> bool, hashed: Result<string, string>)
    requires RegisterSpec(db, request, emailOk, hashed).r.Failure?
    ensures var out := RegisterSpec(db, request, emailOk, hashed);
            out.db == db && Is(out.r.error, Validation)
  {
    if RegisterError(db.accounts, request, emailOk).None? {
      ValidationIs(hashed.error);
    }
  }

  /** A registration that passes the checks and is hashed adds exactly one account, active, under
      the requested username, and touches no other table. */
  lemma RegisterCreatesActiveAccount(db: Db, request: RegisterRequest, emailOk: string -> bool, hashed: Result<string, string>)
    requires RegisterError(db.accounts, request, emailOk).None? && hashed.Success?
    ensures var out := RegisterSpec(db, request, emailOk, hashed);
            out.r.Success? && out.r.value.isActive && out.r.value.username == request.username &&
            request.username !in db.accounts &&
            out.db.accounts == db.accounts[request.username := NewAccount(request, hashed.value)] &&
            out.db.accounts[request.username].isActive &&
            out.db.accounts[request.username].loginPassword == hashed.value &&
            out.db.products == db.products && out.db.orders == db.orders &&
            out.db.items == db.items && out.db.payments == db.payments
  {
  }

  /** Registration keeps the rows keyed by username and, because a taken e-mail is refused,
      keeps e-mail addresses unique. */
  lemma RegisterKeepsInvariants(db: Db, request: RegisterRequest, emailOk: string -> bool, hashed: Result<string, string>)
    requires WellKeyed(db) && EmailsUnique(db.accounts)
    ensures WellKeyed(RegisterSpec(db, request, emailOk, hashed).db)
    ensures EmailsUnique(RegisterSpec(db, request, emailOk, hashed).db.accounts)
  {
    var out := RegisterSpec(db, request, emailOk, hashed);
    if out.r.Success? {
      SaveAccountKeepsWellKeyed(db, NewAccount(request, hashed.value));
    }
  }

  /** Saving an account under its own username keeps the tables well keyed. */
  lemma SaveAccountKeepsWellKeyed(db: Db, account: Account)
    requires WellKeyed(db)
    ensures WellKeyed(db.(accounts := db.accounts[account.username := account]))
  {
  }

  // ---------------------------------------------------------------------------------------
  // Login and the account detail

  datatype LoginRequest = LoginRequest(username: string, password: string)

  /** `LoginRepsonseData` without the expiry, which is read from the clock. */
  datatype LoginData = LoginData(token: string, account: AccountDto)

  /** `Login`: the policy on the typed password, the lookup, the hash comparison, the active
      flag, then the signed token. */
  function LoginResult(accounts: map<string, Account>, request: LoginRequest, matches: (string, string) -> bool,
                       token: Result<string, Error>): (r: Result<LoginData, Error>)
    ensures r.Success? <==> PasswordError(request.password).None? && request.username in accounts &&
                            matches(accounts[request.username].loginPassword, request.password) &&
                            accounts[request.username].isActive && token.Success?
    ensures r.Success? ==> r.value == LoginData(token.value, AccountToDto(accounts[request.username]))
  {
    if PasswordError(request.password).Some? then Failure(PasswordError(request.password).value)
    else
      match FindAccount(accounts, request.username)
      case Failure(e) => Failure(e)
      case Success(account) =>
        if !matches(account.loginPassword, request.password) then Failure(Fail("invalid password", AuthFailed))
        else if !account.isActive then Failure(Fail("account inactive", AuthFailed))
        else if token.Failure? then Failure(token.error)
        else Success(LoginData(token.value, AccountToDto(account)))
  }

  /** Login's checks in order: the policy before the lookup (so an unknown user with a weak
      password gets Validation), the password before the active flag (so a wrong password on
      an inactive account says "invalid password"), both as AuthFailed. */
  lemma LoginCheckOrder(accounts: map<string, Account>, request: LoginRequest, matches: (string, string) -> bool,
                        token: Result<string, Error>)
    ensures var r := LoginResult(accounts, request, matches, token);
            PasswordError(request.password).Some? ==> r.Failure? && Is(r.error, Validation)
    ensures var r := LoginResult(accounts, request, matches, token);
            PasswordError(request.password).None? && request.username !in accounts ==>
              r.Failure? && Is(r.error, ResourceNotFound)
    ensures var r := LoginResult(accounts, request, matches, token);
            PasswordError(request.password).None? && request.username in accounts &&
            !matches(accounts[request.username].loginPassword, request.password) ==>
              r == Failure(Fail("invalid password", AuthFailed)) && Is(r.error, AuthFailed)
    ensures var r := LoginResult(accounts, request, matches, token);
            PasswordError(request.password).None? && request.username in accounts &&
            matches(accounts[request.username].loginPassword, request.password) && !accounts[request.username].isActive ==>
              r == Failure(Fail("account inactive", AuthFailed)) && Is(r.error, AuthFailed)
  {
    AuthFailedIs("invalid password");
    AuthFailedIs("account inactive");
  }

  /** Right after a registration, the new user logs in with the password just registered,
      given that bcrypt accepts the password against its own hash and the token is signed. */
  lemma RegisterThenLogin(db: Db, request: RegisterRequest, emailOk: string -> bool, hashed: Result<string, string>,
                          matches: (string, string) -> bool, token: Result<string, Error>)
    requires RegisterSpec(db, request, emailOk, hashed).r.Success?
    requires matches(hashed.value, request.loginPassword) && token.Success?
    ensures var accounts := RegisterSpec(db, request, emailOk, hashed).db.accounts;
            LoginResult(accounts, LoginRequest(request.username, request.loginPassword), matches, token) ==
              Success(LoginData(token.value, RegisterSpec(db, request, emailOk, hashed).r.value))
  {
  }

  /** `GetAccountDetail`. */
  function AccountDetail(accounts: map<string, Account>, username: string): (r: Result<AccountDto, Error>)
    ensures r.Success? <==> username in accounts
    ensures r.Success? ==> r.value == AccountToDto(accounts[username])
    ensures r.Failure? ==> Is(r.error, ResourceNotFound)
  {
    match FindAccount(accounts, username)
    case Failure(e) => Failure(e)
    case Success(account) => Success(AccountToDto(account))
  }

  // ---------------------------------------------------------------------------------------
  // The account updates

  datatype UpdateAccountRequest = UpdateAccountRequest(
    displayName: string,
    email: string,
    registeredAddress: string,
    username: string)

  datatype UpdatePasswordRequest = UpdatePasswordRequest(
    oldPassword: string,
    newPassword: string,
    username: string)

  /** The row `UpdateAccount` saves: new e-mail, display name and address, audited by the owner. */
  function UpdatedProfile(account: Account, request: UpdateAccountRequest): Account {
    account.(email := request.email, displayName := request.displayName,
             registeredAddress := request.registeredAddress, updatedBy := account.username)
  }

  /** `UpdateAccount`: the lookup, the e-mail check, the save. */
  function UpdateAccountSpec(db: Db, request: UpdateAccountRequest, emailOk: string -> bool): AccountOutcome {
    match FindAccount(db.accounts, request.username)
    case Failure(e) => AccountOutcome(Failure(e), db)
    case Success(account) =>
      if !emailOk(request.email) then AccountOutcome(Failure(Fail("email is not valid", Validation)), db)
      else
        var updated := UpdatedProfile(account, request);
        AccountOutcome(Success(AccountToDto(updated)), db.(accounts := db.accounts[updated.username := updated]))
  }

  /** The row `UpdatePassword` saves: the new hash, audited by the owner. */
  function UpdatedPassword(account: Account, hash: string): Account {
    account.(loginPassword := hash, updatedBy := account.username)
  }

  /** `UpdatePassword`: the lookup, the old password, the policy on the new one, the hash, the save. */
  function UpdatePasswordSpec(db: Db, request: UpdatePasswordRequest, matches: (string, string) -> bool,
                              hashed: Result<string, string>): AccountOutcome {
    match FindAccount(db.accounts, request.username)
    case Failure(e) => AccountOutcome(Failure(e), db)
    case Success(account) =>
      if !matches(account.loginPassword, request.oldPassword) then
        AccountOutcome(Failure(Fail("invalid password", AuthFailed)), db)
      else if PasswordError(request.newPassword).Some? then
        AccountOutcome(Failure(PasswordError(request.newPassword).value), db)
      else if hashed.Failure? then AccountOutcome(Failure(Fail(hashed.error, Validation)), db)
      else
        var updated := UpdatedPassword(account, hashed.value);
        AccountOutcome(Success(AccountToDto(updated)), db.(accounts := db.accounts[updated.username := updated]))
  }

  /** `UpdateAccount` succeeds exactly for a known user and a parsable e-mail: it applies none of
      the registration's emptiness, length or uniqueness checks. A success rewrites the three
      profile fields of that row only and never its username, password, or active flag. */
  lemma UpdateAccountEffect(db: Db, request: UpdateAccountRequest, emailOk: string -> bool)
    requires WellKeyed(db)
    ensures var out := UpdateAccountSpec(db, request, emailOk);
            out.r.Success? <==> request.username in db.accounts && emailOk(request.email)
    ensures var out := UpdateAccountSpec(db, request, emailOk);
            out.r.Failure? ==> out.db == db
    ensures var out := UpdateAccountSpec(db, request, emailOk);
            request.username in db.accounts && !emailOk(request.email) ==>
              out.r == Failure(Fail("email is not valid", Validation)) && Is(out.r.error, Validation)
    ensures var out := UpdateAccountSpec(db, request, emailOk);
            out.r.Success? ==>
              request.username in db.accounts &&
              var old_ := db.accounts[request.username];
              out.db == db.(accounts := db.accounts[request.username := out.db.accounts[request.username]]) &&
              out.db.accounts[request.username] ==
                old_.(email := request.email, displayName := request.displayName,
                      registeredAddress := request.registeredAddress, updatedBy := request.username) &&
              out.db.accounts[request.username].username == request.username &&
              out.db.accounts[request.username].loginPassword == old_.loginPassword &&
              out.db.accounts[request.username].isActive == old_.isActive
  {
    ValidationIs("email is not valid");
  }

  /** Because `UpdateAccount` does not ask `CheckByEmail`, it can give a second account an
      address already in use. */
  lemma UpdateAccountCanShareEmail()
    ensures var ann := Account("ann", "Ann", "ann@example.com", "h1", "", true, "ann", "ann");
            var bob := Account("bob", "Bob", "bob@example.com", "h2", "", true, "bob", "bob");
            var db := Db(map[], map["ann" := ann, "bob" := bob], map[], map[], map[]);
            var out := UpdateAccountSpec(db, UpdateAccountRequest("Bob", "ann@example.com", "", "bob"), e => true);
            EmailsUnique(db.accounts) && out.r.Success? && !EmailsUnique(out.db.accounts)
  {
    var ann := Account("ann", "Ann", "ann@example.com", "h1", "", true, "ann", "ann");
    var bob := Account("bob", "Bob", "bob@example.com", "h2", "", true, "bob", "bob");
    var db := Db(map[], map["ann" := ann, "bob" := bob], map[], map[], map[]);
    var out := UpdateAccountSpec(db, UpdateAccountRequest("Bob", "ann@example.com", "", "bob"), e => true);
    assert out.db.accounts["bob"].email == out.db.accounts["ann"].email;
  }

  /** `UpdatePassword` checks the old password first: a wrong one is AuthFailed whatever the new
      password is; only then does the policy judge the new password. A success changes the
      hash and the audit column of that row only. */
  lemma UpdatePasswordEffect(db: Db, request: UpdatePasswordRequest, matches: (string, string) -> bool,
                             hashed: Result<string, string>)
    requires WellKeyed(db)
    ensures var out := UpdatePasswordSpec(db, request, matches, hashed);
            out.r.Failure? ==> out.db == db
    ensures var out := UpdatePasswordSpec(db, request, matches, hashed);
            request.username in db.accounts && !matches(db.accounts[request.username].loginPassword, request.oldPassword) ==>
              out.r == Failure(Fail("invalid password", AuthFailed)) && Is(out.r.error, AuthFailed)
    ensures var out := UpdatePasswordSpec(db, request, matches, hashed);
            request.username in db.accounts && matches(db.accounts[request.username].loginPassword, request.oldPassword) &&
            PasswordError(request.newPassword).Some? ==>
              out.r.Failure? && Is(out.r.error, Validation)
    ensures var out := UpdatePasswordSpec(db, request, matches, hashed);
            out.r.Success? <==> request.username in db.accounts &&
                                matches(db.accounts[request.username].loginPassword, request.oldPassword) &&
                                PasswordError(request.newPassword).None? && hashed.Success?
    ensures var out := UpdatePasswordSpec(db, request, matches, hashed);
            out.r.Success? ==>
              out.db == db.(accounts := db.accounts[request.username :=
                              db.accounts[request.username].(loginPassword := hashed.value, updatedBy := request.username)])
  {
    AuthFailedIs("invalid password");
  }

  /** After a password change the new password logs in (given bcrypt accepts it against its
      hash and the account is active) and an old password bcrypt rejects against the new hash
      no longer does. */
  lemma UpdatePasswordThenLogin(db: Db, request: UpdatePasswordRequest, matches: (string, string) -> bool,
                                hashed: Result<string, string>, token: Result<string, Error>)
    requires WellKeyed(db)
    requires UpdatePasswordSpec(db, request, matches, hashed).r.Success?
    requires db.accounts[request.username].isActive && token.Success?
    ensures var accounts := UpdatePasswordSpec(db, request, matches, hashed).db.accounts;
            matches(hashed.value, request.newPassword) ==>
              LoginResult(accounts, LoginRequest(request.username, request.newPassword), matches, token).Success?
    ensures var accounts := UpdatePasswordSpec(db, request, matches, hashed).db.accounts;
            !matches(hashed.value, request.oldPassword) ==>
              LoginResult(accounts, LoginRequest(request.username, request.oldPassword), matches, token).Failure?
  {
    UpdatePasswordEffect(db, request, matches, hashed);
  }

  /** `UpdateAccount` keeps every row under its own key and the accounts table's key set as it was. */
  lemma UpdateAccountKeepsWellKeyed(db: Db, request: UpdateAccountRequest, emailOk: string -> bool)
    requires WellKeyed(db)
    ensures WellKeyed(UpdateAccountSpec(db, request, emailOk).db)
    ensures UpdateAccountSpec(db, request, emailOk).db.accounts.Keys == db.accounts.Keys
  {
    if request.username in db.accounts {
      SaveAccountKeepsWellKeyed(db, UpdatedProfile(db.accounts[request.username], request));
    }
  }

  /** `UpdatePassword` keeps every row under its own key and the accounts table's key set as it was. */
  lemma UpdatePasswordKeepsWellKeyed(db: Db, request: UpdatePasswordRequest, matches: (string, string) -> bool,
                                     hashed: Result<string, string>)
    requires WellKeyed(db)
    ensures WellKeyed(UpdatePasswordSpec(db, request, matches, hashed).db)
    ensures UpdatePasswordSpec(db, request, matches, hashed).db.accounts.Keys == db.accounts.Keys
  {
    if request.username in db.accounts && hashed.Success? {
      SaveAccountKeepsWellKeyed(db, UpdatedPassword(db.accounts[request.username], hashed.value));
    }
  }

  class AccountService {
    const store: Store

    constructor (store: Store)
      ensures this.store == store
    {
      this.store := store;
    }

    /** `Register`. */
    method Register(request: RegisterRequest, emailOk: string -> bool, hashed: Result<string, string>)
      returns (r: Result<AccountDto, Error>)
      modifies store
      ensures AccountOutcome(r, store.Snapshot()) == RegisterSpec(old(store.Snapshot()), request, emailOk, hashed)
    {
      var invalid := RegisterError(store.accounts, request, emailOk);
      if invalid.Some? {
        return Failure(invalid.value);
      }
      if hashed.Failure? {
        return Failure(Fail(hashed.error, Validation));
      }
      var newAccount := Account(request.username, request.displayName, request.email, hashed.value,
                                request.registeredAddress, true, request.username, request.username);
      store.SaveAccount(newAccount);
      var found := FindAccount(store.accounts, request.username);
      assert found.Success?;
      r := Success(AccountToDto(found.value));
    }

    /** `UpdateAccount`. */
    method UpdateAccount(request: UpdateAccountRequest, emailOk: string -> bool) returns (r: Result<AccountDto, Error>)
      modifies store
      ensures AccountOutcome(r, store.Snapshot()) == UpdateAccountSpec(old(store.Snapshot()), request, emailOk)
    {
      var found := FindAccount(store.accounts, request.username);
      if found.Failure? {
        return Failure(found.error);
      }
      if !emailOk(request.email) {
        return Failure(Fail("email is not valid", Validation));
      }
      var account := found.value;
      account := account.(email := request.email);
      account := account.(displayName := request.displayName);
      account := account.(registeredAddress := request.registeredAddress);
      account := account.(updatedBy := account.username);
      store.SaveAccount(account);
      r := Success(AccountToDto(account));
    }

    /** `UpdatePassword`. */
    method UpdatePassword(request: UpdatePasswordRequest, matches: (string, string) -> bool, hashed: Result<string, string>)
      returns (r: Result<AccountDto, Error>)
      modifies store
      ensures AccountOutcome(r, store.Snapshot()) == UpdatePasswordSpec(old(store.Snapshot()), request, matches, hashed)
    {
      var found := FindAccount(store.accounts, request.username);
      if found.Failure? {
        return Failure(found.error);
      }
      var account := found.value;
      if !matches(account.loginPassword, request.oldPassword) {
        return Failure(Fail("invalid password", AuthFailed));
      }
      var invalid := PasswordError(request.newPassword);
      if invalid.Some? {
        return Failure(invalid.value);
      }
      if hashed.Failure? {
        return Failure(Fail(hashed.error, Validation));
      }
      account := account.(loginPassword := hashed.value);
      account := account.(updatedBy := account.username);
      store.SaveAccount(account);
      r := Success(AccountToDto(account));
    }
  }
}
