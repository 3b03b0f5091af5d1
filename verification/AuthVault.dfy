/** The credential store: accounts with password hashes, a vault of recoverable codes, builtin
    identities and the one-time migration. Hashing and encryption are parameters with their laws. */
module AuthVault {
  import opened Text
  import opened Numerals
  import opened Lists

  // ---- The parts the store does not define ----

  /** Hashing takes a salt and encryption a nonce; either may fail. */
  datatype Crypto = Crypto(
    hash: (string, nat) -> Option<string>,
    isHash: string -> bool,
    verifies: (string, string) -> bool,
    encrypt: (string, string, string, nat) -> Option<string>,
    decrypt: (string, string, string) -> Option<string>)

  /** The hash of a code is a tidy hash string that verifies the code, and decryption undoes encryption. */
  ghost predicate Lawful(c: Crypto) {
    && (forall code, salt :: c.hash(code, salt).Some? ==>
          && code != "" && Utf8Len(code) <= 1024
          && var h := c.hash(code, salt).value; c.isHash(h) && Storable(h) && Trim(h) == h && c.verifies(h, code))
    && (forall who, h, code, nonce :: c.encrypt(who, h, code, nonce).Some? ==>
          c.decrypt(who, h, c.encrypt(who, h, code, nonce).value) == Some(code))
  }

  const HASH_PREFIX := "$argon2id$v=19$"

  /** The table's check on the hash column. */
  predicate Storable(h: string) { HASH_PREFIX <= h }

  /** `verify_password`; an error counts as a refusal to go on. */
  function Verify(c: Crypto, h: string, code: string): Option<bool> {
    if h == "" || code == "" || Utf8Len(code) > 1024 then Some(false)
    else if !c.isHash(h) then None
    else Some(c.verifies(h, code))
  }

  // ---- Tables ----

  datatype Flags = Flags(blocked: bool, removed: bool, itemCodes: seq<string>, configured: bool)

  /** A state as callers read and write it; the code is a hash when it comes out of the store. */
  datatype AdminState = AdminState(customCode: string, pendingCode: string, flags: Flags)

  const DEFAULT_FLAGS := Flags(false, false, [], false)
  const DEFAULT_STATE := AdminState("", "", DEFAULT_FLAGS)

  datatype Account = Account(hash: Option<string>, flags: Flags)
  datatype Vaulted = Vaulted(hash: string, encrypted: string)
  datatype Identity = Identity(phone: string, name: string)

  datatype Db = Db(accounts: map<string, Account>, vault: map<string, Vaulted>, identities: map<string, Identity>,
                   cutover: bool)

  const EMPTY := Db(map[], map[], map[], false)

  const BUILTINS := {"admin", "werka", "material_taminotchi"}

  /** `btrim(principal_ref) <> ''`, which looks at spaces only. */
  predicate NotBlank(who: string) { exists i :: 0 <= i < |who| && who[i] != ' ' }

  predicate Ready(db: Db) {
    && db.cutover && "admin" in db.accounts && db.accounts["admin"].hash.Some?
    && "admin" in db.identities && db.identities["admin"].phone != ""
  }

  // ---- Codes ----

  function PlaintextCode(c: Crypto, customCode: string): Option<string> {
    var code := Trim(customCode);
    if code != "" && !c.isHash(code) then Some(code) else None
  }

  /** The hash to store for a code: none, the given hash, or a new hash of a plaintext code. The
      outer option is the failure. */
  function EncodedHash(c: Crypto, customCode: string, salt: nat): Option<Option<string>> {
    var code := Trim(customCode);
    if code == "" then Some(None)
    else if c.isHash(code) then if Storable(code) then Some(Some(code)) else None
    else
      var h := c.hash(code, salt);
      if h.None? || !Storable(h.value) then None else Some(h)
  }

  function SaveCode(c: Crypto, vault: map<string, Vaulted>, who: string, h: string, code: string, nonce: nat)
    : Option<map<string, Vaulted>>
  {
    var e := c.encrypt(who, h, code, nonce);
    if e.None? then None else Some(vault[who := Vaulted(h, e.value)])
  }

  /** `state`: what a caller reads. */
  function StateOf(db: Db, who: string): AdminState {
    var w := Trim(who);
    if w !in db.accounts then DEFAULT_STATE
    else
      var a := db.accounts[w];
      AdminState(if a.hash.Some? then a.hash.value else "", "", a.flags)
  }

  /** The recoverable code of an account; empty unless the vault is about the current hash. None is a
      failure to decrypt. */
  function CodeAt(c: Crypto, db: Db, who: string): Option<string> {
    if !Vaulting(db, who) then Some("")
    else c.decrypt(who, db.vault[who].hash, db.vault[who].encrypted)
  }

  /** The vault has an entry for the current hash of the account. */
  predicate Vaulting(db: Db, who: string) {
    who in db.vault && who in db.accounts && db.accounts[who].hash == Some(db.vault[who].hash)
  }

  /** `access_code`; without its key the cipher cannot be loaded and reading a vault entry fails. */
  function AccessCode(c: Crypto, db: Db, who: string, loaded: bool): Option<string> {
    if Vaulting(db, Trim(who)) && !loaded then None else CodeAt(c, db, Trim(who))
  }

  // ---- Phones ----

  function Stripped(s: string): string {
    if s == "" then ""
    else
      var front, last := Stripped(s[..|s| - 1]), s[|s| - 1];
      if last in {' ', '-', '(', ')'} then front else front + [last]
  }

  function WithoutPlus(s: string): string {
    if s == "" then ""
    else
      var front, last := WithoutPlus(s[..|s| - 1]), s[|s| - 1];
      if last == '+' then front else front + [last]
  }

  /** `normalize_phone` of a number without spaces, dashes and brackets. */
  function NormalizePhone(raw: string): (r: Option<string>)
    ensures r.Some? ==> r.value != ""
  {
    var t := Trim(Stripped(raw));
    var digits := WithoutPlus(t);
    if t == "" || !AllDigits(digits) then None
    else
      var full := if t[0] != '+' && |digits| == 9 then "998" + digits else digits;
      if 9 <= |full| <= 12 then Some("+" + full) else None
  }

  // ---- Transactions ----

  datatype Supplier = Supplier(who: string, name: string, phone: string)
  datatype Builtin = Builtin(who: string, phone: string, name: string, code: string)

  /** The input of the migration; codes of suppliers without one are derived by a given function. */
  datatype Legacy = Legacy(states: map<string, AdminState>, suppliers: seq<Supplier>, builtins: seq<Builtin>,
                           supplierCode: Supplier -> Option<string>, salts: string -> nat)

  datatype Step =
    | PutState(who: string, state: AdminState, salt: nat, nonce: nat)
    | ResetAdmin(code: string, salt: nat, nonce: nat)
    | Recover(who: string, code: string, nonce: nat)
    | PutIdentity(who: string, phone: string, name: string)
    | Migrate(legacy: Legacy)

  /** A write of a whole state: the flags always, the hash only for a plaintext code or a new account. */
  function AfterPutState(c: Crypto, db: Db, who: string, state: AdminState, salt: nat, nonce: nat): Option<Db> {
    var w, hash, code := Trim(who), EncodedHash(c, state.customCode, salt), PlaintextCode(c, state.customCode);
    if hash.None? || w == "" then None
    else
      var kept := if w in db.accounts && code.None? then db.accounts[w].hash else hash.value;
      var accounts := db.accounts[w := Account(kept, state.flags)];
      if code.Some? && hash.value.Some? then
        var vault := SaveCode(c, db.vault, w, hash.value.value, code.value, nonce);
        if vault.None? then None else Some(db.(accounts := accounts, vault := vault.value))
      else Some(db.(accounts := accounts))
  }

  /** The check that the store is ready is a statement of its own, but ready it stays. */
  function AfterResetAdmin(c: Crypto, db: Db, code: string, salt: nat, nonce: nat): Option<Db> {
    var hash := c.hash(code, salt);
    if !Ready(db) || hash.None? || !Storable(hash.value) then None
    else
      var vault := SaveCode(c, db.vault, "admin", hash.value, code, nonce);
      if vault.None? then None
      else Some(db.(accounts := db.accounts["admin" := db.accounts["admin"].(hash := hash)], vault := vault.value))
  }

  /** Only a code that still verifies is put back into the vault, and only if none is there. */
  function AfterRecover(c: Crypto, db: Db, who: string, code: string, nonce: nat): Option<Db> {
    var w, k := Trim(who), Trim(code);
    if w !in db.accounts then Some(db)
    else
      var hash := db.accounts[w].hash;
      if w in db.vault && hash == Some(db.vault[w].hash) then Some(db)
      else
        var h := if hash.Some? then hash.value else "";
        var verdict := Verify(c, h, k);
        if verdict.None? then None
        else if !verdict.value then Some(db)
        else
          var vault := SaveCode(c, db.vault, w, h, k, nonce);
          if vault.None? then None else Some(db.(vault := vault.value))
  }

  function AfterPutIdentity(db: Db, who: string, phone: string, name: string): Option<Db> {
    var p := NormalizePhone(phone);
    if p.None? || who !in BUILTINS then None
    else
      var accounts := if who in db.accounts then db.accounts else db.accounts[who := Account(None, DEFAULT_FLAGS)];
      Some(db.(accounts := accounts, identities := db.identities[who := Identity(p.value, Trim(name))]))
  }

  // ---- Migration ----

  function Entry(states: map<string, AdminState>, who: string): AdminState {
    if who in states then states[who] else DEFAULT_STATE
  }

  /** A supplier gets a state, and a derived code if it has none. */
  function WithSupplier(code: Supplier -> Option<string>, states: map<string, AdminState>, supplier: Supplier)
    : Option<map<string, AdminState>>
  {
    var state := Entry(states, supplier.who);
    if Trim(state.customCode) != "" then Some(states[supplier.who := state])
    else
      var derived := code(supplier);
      if derived.None? then None else Some(states[supplier.who := state.(customCode := derived.value)])
  }

  type States = map<string, AdminState>

  function SupplierAdder(code: Supplier -> Option<string>): (States, Supplier) -> Option<States> {
    (states, supplier) => WithSupplier(code, states, supplier)
  }

  function WithSuppliers(legacy: Legacy): Option<map<string, AdminState>> {
    AddAll(SupplierAdder(legacy.supplierCode), legacy.states, legacy.suppliers)
  }

  datatype Import = Import(states: map<string, AdminState>, identities: map<string, Identity>)

  /** A builtin account brings a phone, and a code that replaces the one in the state. */
  function WithBuiltin(done: Import, builtin: Builtin): Option<Import> {
    var phone := NormalizePhone(builtin.phone);
    if builtin.who !in BUILTINS || phone.None? || builtin.who in done.identities then None
    else
      var state := Entry(done.states, builtin.who);
      var coded := if Trim(builtin.code) != "" then state.(customCode := Trim(builtin.code)) else state;
      Some(Import(done.states[builtin.who := coded],
                  done.identities[builtin.who := Identity(phone.value, builtin.name)]))
  }

  function BuiltinAdder(): (Import, Builtin) -> Option<Import> { (done, builtin) => WithBuiltin(done, builtin) }

  function WithBuiltins(legacy: Legacy, start: map<string, AdminState>): Option<Import> {
    AddAll(BuiltinAdder(), Import(start, map[]), legacy.builtins)
  }

  /** The row of a migrated state, if it can be encoded. */
  function AccountOf(c: Crypto, legacy: Legacy, who: string, state: AdminState): Option<Account> {
    var hash := EncodedHash(c, state.customCode, legacy.salts(who));
    if hash.None? || !NotBlank(who) then None else Some(Account(hash.value, state.flags))
  }

  /** The vault entry of a migrated state, if it brings a plaintext code. The outer option is the failure. */
  function VaultedOf(c: Crypto, legacy: Legacy, who: string, state: AdminState): Option<Option<Vaulted>> {
    var code, hash := PlaintextCode(c, state.customCode), EncodedHash(c, state.customCode, legacy.salts(who));
    if code.None? || hash.None? || hash.value.None? then Some(None)
    else
      var e := c.encrypt(who, hash.value.value, code.value, legacy.salts(who));
      if e.None? then None else Some(Some(Vaulted(hash.value.value, e.value)))
  }

  predicate Encodable(c: Crypto, legacy: Legacy, i: Import) {
    forall who :: who in i.states ==>
      AccountOf(c, legacy, who, i.states[who]).Some? && VaultedOf(c, legacy, who, i.states[who]).Some?
  }

  predicate Importable(c: Crypto, legacy: Legacy, i: Import) {
    && "admin" in i.identities && "admin" in i.states && Trim(i.states["admin"].customCode) != ""
    && Encodable(c, legacy, i)
  }

  function AccountRows(c: Crypto, legacy: Legacy, i: Import): map<string, Account>
    requires Encodable(c, legacy, i)
  {
    map who | who in i.states :: AccountOf(c, legacy, who, i.states[who]).value
  }

  function VaultRows(c: Crypto, legacy: Legacy, i: Import): map<string, Vaulted>
    requires Encodable(c, legacy, i)
  {
    map who | who in i.states && VaultedOf(c, legacy, who, i.states[who]).value.Some? ::
      VaultedOf(c, legacy, who, i.states[who]).value.value
  }

  function Imported(c: Crypto, legacy: Legacy): Option<Import> {
    var states := WithSuppliers(legacy);
    if states.None? then None
    else
      var i := WithBuiltins(legacy, states.value);
      if i.None? || !Importable(c, legacy, i.value) then None else i
  }

  function ImportedDb(c: Crypto, legacy: Legacy, i: Import): Db
    requires Importable(c, legacy, i)
  {
    Db(AccountRows(c, legacy, i), VaultRows(c, legacy, i), i.identities, true)
  }

  /** A completed cutover never imports again, and accounts are never overwritten. */
  function AfterMigrate(c: Crypto, db: Db, legacy: Legacy): Option<Db> {
    if db.cutover then Some(db)
    else if db.accounts != map[] then None
    else
      var i := Imported(c, legacy);
      if i.None? then None else Some(ImportedDb(c, legacy, i.value))
  }

  function Attempt(c: Crypto, db: Db, step: Step): Option<Db> {
    match step
    case PutState(who, state, salt, nonce) => AfterPutState(c, db, who, state, salt, nonce)
    case ResetAdmin(code, salt, nonce) => AfterResetAdmin(c, db, code, salt, nonce)
    case Recover(who, code, nonce) => AfterRecover(c, db, who, code, nonce)
    case PutIdentity(who, phone, name) => AfterPutIdentity(db, who, phone, name)
    case Migrate(legacy) => AfterMigrate(c, db, legacy)
  }

  /** A failed transaction leaves the tables as they were. */
  function Apply(c: Crypto, db: Db, step: Step): Db {
    var after := Attempt(c, db, step);
    if after.Some? then after.value else db
  }

  predicate Follows(c: Crypto, dbs: seq<Db>, steps: seq<Step>, i: nat)
    requires |dbs| == |steps| + 1 && i < |steps|
  {
    dbs[i + 1] == Apply(c, dbs[i], steps[i])
  }

  /** A run from empty tables: the tables between the steps. Steps of any number of callers interleave. */
  predicate Run(c: Crypto, dbs: seq<Db>, steps: seq<Step>) {
    && |dbs| == |steps| + 1 && dbs[0] == EMPTY
    && forall i {:trigger Follows(c, dbs, steps, i)} :: 0 <= i < |steps| ==> Follows(c, dbs, steps, i)
  }

  // ---- The invariant ----

  /** A stored hash is one a caller gets back unchanged when it writes the state again. */
  predicate HashOk(c: Crypto, a: Account) {
    a.hash.Some? ==> c.isHash(a.hash.value) && Trim(a.hash.value) == a.hash.value && Storable(a.hash.value)
  }

  /** A vault entry decrypts to a code that its hash verifies. */
  predicate VaultedOk(c: Crypto, who: string, v: Vaulted) {
    var code := c.decrypt(who, v.hash, v.encrypted);
    code.Some? && Verify(c, v.hash, code.value) == Some(true)
  }

  ghost predicate Inv(c: Crypto, db: Db) {
    && db.vault.Keys <= db.accounts.Keys && db.identities.Keys <= db.accounts.Keys && "" !in db.accounts
    && (forall who :: who in db.accounts ==> HashOk(c, db.accounts[who]))
    && (forall who :: who in db.vault ==> VaultedOk(c, who, db.vault[who]))
    && (forall who :: who in db.identities ==> db.identities[who].phone != "")
    && (db.cutover ==> Ready(db))
  }

  lemma EncodedOk(c: Crypto, customCode: string, salt: nat)
    requires Lawful(c) && EncodedHash(c, customCode, salt).Some?
    ensures var h, code := EncodedHash(c, customCode, salt).value, PlaintextCode(c, customCode);
            && (h.Some? <==> Trim(customCode) != "")
            && (h.Some? ==> c.isHash(h.value) && Trim(h.value) == h.value && Storable(h.value))
            && (code.Some? ==> h == c.hash(code.value, salt) && h.Some? && Verify(c, h.value, code.value) == Some(true))
  {
    TrimTidy(customCode);
  }

  lemma SavedOk(c: Crypto, vault: map<string, Vaulted>, who: string, h: string, code: string, nonce: nat)
    requires Lawful(c) && SaveCode(c, vault, who, h, code, nonce).Some? && Verify(c, h, code) == Some(true)
    ensures var v := SaveCode(c, vault, who, h, code, nonce).value;
            && v.Keys == vault.Keys + {who} && v == vault[who := v[who]]
            && v[who].hash == h && VaultedOk(c, who, v[who])
            && c.decrypt(who, h, v[who].encrypted) == Some(code)
  {
  }

  lemma PutStateKeeps(c: Crypto, db: Db, who: string, state: AdminState, salt: nat, nonce: nat)
    requires Lawful(c) && Inv(c, db) && AfterPutState(c, db, who, state, salt, nonce).Some?
    ensures Inv(c, AfterPutState(c, db, who, state, salt, nonce).value)
  {
    EncodedOk(c, state.customCode, salt);
    var w, hash, code := Trim(who), EncodedHash(c, state.customCode, salt).value, PlaintextCode(c, state.customCode);
    if code.Some? { SavedOk(c, db.vault, w, hash.value, code.value, nonce); }
  }

  lemma ResetAdminKeeps(c: Crypto, db: Db, code: string, salt: nat, nonce: nat)
    requires Lawful(c) && Inv(c, db) && AfterResetAdmin(c, db, code, salt, nonce).Some?
    ensures Inv(c, AfterResetAdmin(c, db, code, salt, nonce).value)
  {
    SavedOk(c, db.vault, "admin", c.hash(code, salt).value, code, nonce);
  }

  lemma RecoverKeeps(c: Crypto, db: Db, who: string, code: string, nonce: nat)
    requires Lawful(c) && Inv(c, db) && AfterRecover(c, db, who, code, nonce).Some?
    ensures Inv(c, AfterRecover(c, db, who, code, nonce).value)
    ensures AfterRecover(c, db, who, code, nonce).value.accounts == db.accounts
  {
    var w, k := Trim(who), Trim(code);
    if w in db.accounts && !(w in db.vault && db.accounts[w].hash == Some(db.vault[w].hash)) {
      var h := if db.accounts[w].hash.Some? then db.accounts[w].hash.value else "";
      if Verify(c, h, k) == Some(true) { SavedOk(c, db.vault, w, h, k, nonce); }
    }
  }

  predicate ImportOk(i: Import) {
    i.identities.Keys <= i.states.Keys && forall who :: who in i.identities ==> i.identities[who].phone != ""
  }

  lemma BuiltinOk(done: Import, builtin: Builtin)
    requires ImportOk(done)
    ensures WithBuiltin(done, builtin).Some? ==> ImportOk(WithBuiltin(done, builtin).value)
  {
  }

  lemma {:induction false} BuiltinsOk(start: Import, builtins: seq<Builtin>)
    requires ImportOk(start) && AddAll(BuiltinAdder(), start, builtins).Some?
    ensures ImportOk(AddAll(BuiltinAdder(), start, builtins).value)
  {
    if builtins != [] {
      BuiltinsOk(start, builtins[..|builtins| - 1]);
      BuiltinOk(AddAll(BuiltinAdder(), start, builtins[..|builtins| - 1]).value, builtins[|builtins| - 1]);
    }
  }

  lemma ImportedRow(c: Crypto, legacy: Legacy, i: Import, who: string)
    requires Lawful(c) && Importable(c, legacy, i) && who in i.states
    ensures var db := ImportedDb(c, legacy, i);
            && who in db.accounts && HashOk(c, db.accounts[who])
            && (db.accounts[who].hash.Some? <==> Trim(i.states[who].customCode) != "")
            && (who in db.vault ==> VaultedOk(c, who, db.vault[who]))
            && (PlaintextCode(c, i.states[who].customCode).Some? ==>
                  CodeAt(c, db, who) == PlaintextCode(c, i.states[who].customCode))
            && who != ""
  {
    EncodedOk(c, i.states[who].customCode, legacy.salts(who));
    assert AccountOf(c, legacy, who, i.states[who]).Some? && VaultedOf(c, legacy, who, i.states[who]).Some?;
  }

  /** The migration leaves the store ready. */
  lemma MigrateKeeps(c: Crypto, db: Db, legacy: Legacy)
    requires Lawful(c) && Inv(c, db) && AfterMigrate(c, db, legacy).Some?
    ensures Inv(c, AfterMigrate(c, db, legacy).value) && Ready(AfterMigrate(c, db, legacy).value)
  {
    if !db.cutover {
      var i := Imported(c, legacy).value;
      var t := ImportedDb(c, legacy, i);
      BuiltinsOk(Import(WithSuppliers(legacy).value, map[]), legacy.builtins);
      forall who | who in i.states
        ensures who != "" && HashOk(c, t.accounts[who]) && (who in t.vault ==> VaultedOk(c, who, t.vault[who]))
      {
        ImportedRow(c, legacy, i, who);
      }
      ImportedRow(c, legacy, i, "admin");
    }
  }

  lemma StepKeeps(c: Crypto, db: Db, step: Step)
    requires Lawful(c) && Inv(c, db)
    ensures Inv(c, Apply(c, db, step))
  {
    if Attempt(c, db, step).Some? {
      match step
      case PutState(who, state, salt, nonce) => PutStateKeeps(c, db, who, state, salt, nonce);
      case ResetAdmin(code, salt, nonce) => ResetAdminKeeps(c, db, code, salt, nonce);
      case Recover(who, code, nonce) => RecoverKeeps(c, db, who, code, nonce);
      case PutIdentity(who, phone, name) =>
      case Migrate(legacy) => MigrateKeeps(c, db, legacy);
    }
  }

  lemma {:induction false} RunInv(c: Crypto, dbs: seq<Db>, steps: seq<Step>, n: nat)
    requires Lawful(c) && Run(c, dbs, steps) && n < |dbs|
    ensures Inv(c, dbs[n])
  {
    if n > 0 {
      RunInv(c, dbs, steps, n - 1);
      assert Follows(c, dbs, steps, n - 1);
      StepKeeps(c, dbs[n - 1], steps[n - 1]);
    }
  }

  // ---- Issued codes ----

  /** The plaintext code a step issues to an account, if it does and succeeds. */
  function Issued(c: Crypto, db: Db, step: Step, who: string): Option<string> {
    if Attempt(c, db, step).None? then None
    else
      match step
      case PutState(w, state, _, _) => if Trim(w) == who then PlaintextCode(c, state.customCode) else None
      case ResetAdmin(code, _, _) => if who == "admin" then Some(code) else None
      case Recover(_, _, _) => None
      case PutIdentity(_, _, _) => None
      case Migrate(legacy) =>
        if db.cutover || who !in Imported(c, legacy).value.states then None
        else PlaintextCode(c, Imported(c, legacy).value.states[who].customCode)
  }

  /** The salt a step hashes the code of an account with. */
  function SaltOf(step: Step, who: string): nat {
    match step
    case PutState(_, _, salt, _) => salt
    case ResetAdmin(_, salt, _) => salt
    case Migrate(legacy) => legacy.salts(who)
    case _ => 0
  }

  /** The account holds the hash of the code under the salt, and the code can be recovered. */
  predicate Holds(c: Crypto, db: Db, who: string, code: string, salt: nat) {
    && who in db.accounts && db.accounts[who].hash == c.hash(code, salt) && db.accounts[who].hash.Some?
    && Verify(c, db.accounts[who].hash.value, code) == Some(true)
    && CodeAt(c, db, who) == Some(code)
  }

  /** Issuing a code stores its hash and its recoverable form. */
  lemma IssuedHolds(c: Crypto, db: Db, step: Step, who: string)
    requires Lawful(c) && Inv(c, db) && Issued(c, db, step, who).Some?
    ensures Holds(c, Apply(c, db, step), who, Issued(c, db, step, who).value, SaltOf(step, who))
  {
    match step
    case PutState(w, state, salt, nonce) =>
      EncodedOk(c, state.customCode, salt);
      var hash, code := EncodedHash(c, state.customCode, salt).value, PlaintextCode(c, state.customCode);
      SavedOk(c, db.vault, who, hash.value, code.value, nonce);
    case ResetAdmin(code, salt, nonce) =>
      SavedOk(c, db.vault, "admin", c.hash(code, salt).value, code, nonce);
    case Migrate(legacy) =>
      var i := Imported(c, legacy).value;
      EncodedOk(c, i.states[who].customCode, legacy.salts(who));
      ImportedRow(c, legacy, i, who);
    case _ =>
  }

  /** A step that issues no code to an account keeps its hash, and a recoverable code with it. */
  lemma UnissuedKeeps(c: Crypto, db: Db, step: Step, who: string)
    requires Lawful(c) && Inv(c, db) && who in db.accounts && Issued(c, db, step, who).None?
    ensures who in Apply(c, db, step).accounts && Apply(c, db, step).accounts[who].hash == db.accounts[who].hash
    ensures CodeAt(c, db, who) != Some("") ==> CodeAt(c, Apply(c, db, step), who) == CodeAt(c, db, who)
  {
    if step.PutState? && Attempt(c, db, step).Some? && Trim(step.who) == who {
      EncodedOk(c, step.state.customCode, step.salt);
    }
  }

  ghost predicate NoneIssued(c: Crypto, dbs: seq<Db>, steps: seq<Step>, i: nat, j: nat, who: string)
    requires |dbs| == |steps| + 1 && j <= |steps|
  {
    forall k {:trigger steps[k]} :: i <= k < j ==> Issued(c, dbs[k], steps[k], who).None?
  }

  /** Without a code issued in between, the hash stays, whatever stale states are written meanwhile. */
  lemma {:induction false} HashStays(c: Crypto, dbs: seq<Db>, steps: seq<Step>, i: nat, j: nat, who: string)
    requires Lawful(c) && Run(c, dbs, steps) && i <= j <= |steps|
    requires who in dbs[i].accounts && NoneIssued(c, dbs, steps, i, j, who)
    ensures who in dbs[j].accounts && dbs[j].accounts[who].hash == dbs[i].accounts[who].hash
    ensures CodeAt(c, dbs[i], who) != Some("") ==> CodeAt(c, dbs[j], who) == CodeAt(c, dbs[i], who)
  {
    if i < j {
      HashStays(c, dbs, steps, i, j - 1, who);
      RunInv(c, dbs, steps, j - 1);
      assert Follows(c, dbs, steps, j - 1);
      assert Issued(c, dbs[j - 1], steps[j - 1], who).None?;
      UnissuedKeeps(c, dbs[j - 1], steps[j - 1], who);
    }
  }

  /** The last code issued wins: the stored hash is the one its step computed, it verifies the code,
      and the code is the one recovered. */
  lemma LastCodeWins(c: Crypto, dbs: seq<Db>, steps: seq<Step>, m: nat, n: nat, who: string, code: string)
    requires Lawful(c) && Run(c, dbs, steps) && m < n <= |steps|
    requires Issued(c, dbs[m], steps[m], who) == Some(code) && NoneIssued(c, dbs, steps, m + 1, n, who)
    ensures Holds(c, dbs[n], who, code, SaltOf(steps[m], who))
  {
    RunInv(c, dbs, steps, m);
    IssuedHolds(c, dbs[m], steps[m], who);
    assert Follows(c, dbs, steps, m);
    HashStays(c, dbs, steps, m + 1, n, who);
  }

  lemma HashStaysOnce(c: Crypto, dbs: seq<Db>, steps: seq<Step>, k: nat, who: string)
    requires Lawful(c) && Run(c, dbs, steps) && k < |steps| && who in dbs[k].accounts
    requires Issued(c, dbs[k], steps[k], who).None?
    ensures who in dbs[k + 1].accounts && dbs[k + 1].accounts[who].hash == dbs[k].accounts[who].hash
  {
    RunInv(c, dbs, steps, k);
    assert Follows(c, dbs, steps, k);
    UnissuedKeeps(c, dbs[k], steps[k], who);
  }

  lemma NoneIssuedMore(c: Crypto, dbs: seq<Db>, steps: seq<Step>, i: nat, j: nat, who: string)
    requires |dbs| == |steps| + 1 && j < |steps| && NoneIssued(c, dbs, steps, i, j, who)
    requires Issued(c, dbs[j], steps[j], who).None?
    ensures NoneIssued(c, dbs, steps, i, j + 1, who)
  {
  }

  /** Where the hash of an account comes from: the last code issued to it or, if none was issued since,
      the row the account was created with. */
  lemma {:induction false} HashOrigin(c: Crypto, dbs: seq<Db>, steps: seq<Step>, n: nat, who: string) returns (m: nat)
    requires Lawful(c) && Run(c, dbs, steps) && n < |dbs| && who in dbs[n].accounts
    ensures m < n && NoneIssued(c, dbs, steps, m + 1, n, who)
    ensures Issued(c, dbs[m], steps[m], who).Some? || who !in dbs[m].accounts
    ensures who in dbs[m + 1].accounts && dbs[n].accounts[who].hash == dbs[m + 1].accounts[who].hash
  {
    var last := n - 1;
    if Issued(c, dbs[last], steps[last], who).Some? || who !in dbs[last].accounts {
      m := last;
    } else {
      m := HashOrigin(c, dbs, steps, last, who);
      NoneIssuedMore(c, dbs, steps, m + 1, last, who);
      HashStaysOnce(c, dbs, steps, last, who);
    }
  }

  /** In every reachable state the code handed out is empty or verifies against the current hash; the
      read fails exactly when there is a code and the cipher cannot be loaded. */
  lemma AccessCodeVerifies(c: Crypto, dbs: seq<Db>, steps: seq<Step>, n: nat, who: string, loaded: bool)
    requires Lawful(c) && Run(c, dbs, steps) && n < |dbs|
    ensures var db, code := dbs[n], AccessCode(c, dbs[n], who, loaded);
            && (code.None? <==> Vaulting(db, Trim(who)) && !loaded)
            && (code.Some? && code.value != "" ==>
                  && Trim(who) in db.accounts && db.accounts[Trim(who)].hash.Some?
                  && Verify(c, db.accounts[Trim(who)].hash.value, code.value) == Some(true))
            && (code == Some("") <==> !Vaulting(db, Trim(who)))
  {
    RunInv(c, dbs, steps, n);
    var db, w := dbs[n], Trim(who);
    if w in db.vault { assert VaultedOk(c, w, db.vault[w]); }
  }

  /** A state read at any time, and written back with other flags at any other time, issues no code. */
  lemma StaleWriteIssuesNothing(c: Crypto, dbs: seq<Db>, steps: seq<Step>, i: nat, db: Db, who: string, flags: Flags,
                                salt: nat, nonce: nat)
    requires Lawful(c) && Run(c, dbs, steps) && i < |dbs|
    ensures var stale := StateOf(dbs[i], who).(flags := flags);
            forall w :: Issued(c, db, PutState(who, stale, salt, nonce), w).None?
  {
    RunInv(c, dbs, steps, i);
    if Trim(who) in dbs[i].accounts { assert HashOk(c, dbs[i].accounts[Trim(who)]); }
    assert PlaintextCode(c, StateOf(dbs[i], who).customCode).None?;
  }

  /** Writing back the very state that was read changes nothing. */
  lemma ReadWriteBack(c: Crypto, db: Db, who: string, salt: nat, nonce: nat)
    requires Inv(c, db) && Trim(who) in db.accounts
    ensures AfterPutState(c, db, who, StateOf(db, who), salt, nonce) == Some(db)
  {
    var w := Trim(who);
    assert HashOk(c, db.accounts[w]);
    TrimTidy("");
    assert db.accounts[w := db.accounts[w]] == db.accounts;
  }

  // ---- Migration happens once ----

  lemma CutoverStays(c: Crypto, db: Db, step: Step)
    requires db.cutover
    ensures Apply(c, db, step).cutover
    ensures step.Migrate? ==> Apply(c, db, step) == db
  {
  }

  /** Once ready, always ready. */
  lemma {:induction false} ReadyForever(c: Crypto, dbs: seq<Db>, steps: seq<Step>, i: nat, j: nat)
    requires Lawful(c) && Run(c, dbs, steps) && i <= j < |dbs| && dbs[i].cutover
    ensures dbs[j].cutover && Ready(dbs[j])
  {
    RunInv(c, dbs, steps, j);
    if i < j {
      ReadyForever(c, dbs, steps, i, j - 1);
      assert Follows(c, dbs, steps, j - 1);
      CutoverStays(c, dbs[j - 1], steps[j - 1]);
    }
  }

  lemma MigrateStepReady(c: Crypto, db: Db, step: Step)
    requires Lawful(c) && Inv(c, db) && step.Migrate? && Attempt(c, db, step).Some?
    ensures Ready(Apply(c, db, step))
  {
    MigrateKeeps(c, db, step.legacy);
  }

  lemma MigrationReadies(c: Crypto, dbs: seq<Db>, steps: seq<Step>, i: nat)
    requires Lawful(c) && Run(c, dbs, steps) && i < |steps| && steps[i].Migrate?
    requires Attempt(c, dbs[i], steps[i]).Some?
    ensures Ready(dbs[i + 1])
  {
    RunInv(c, dbs, steps, i);
    MigrateStepReady(c, dbs[i], steps[i]);
    assert Follows(c, dbs, steps, i);
  }

  lemma MigrationIdle(c: Crypto, dbs: seq<Db>, steps: seq<Step>, j: nat)
    requires Run(c, dbs, steps) && j < |steps| && steps[j].Migrate? && dbs[j].cutover
    ensures dbs[j + 1] == dbs[j]
  {
    assert Follows(c, dbs, steps, j);
    CutoverStays(c, dbs[j], steps[j]);
  }

  /** A migration that succeeds makes the store ready, and every later one changes nothing. */
  lemma MigrationOnce(c: Crypto, dbs: seq<Db>, steps: seq<Step>, i: nat, j: nat)
    requires Lawful(c) && Run(c, dbs, steps) && i < j < |steps| && steps[i].Migrate? && steps[j].Migrate?
    requires Attempt(c, dbs[i], steps[i]).Some?
    ensures Ready(dbs[i + 1]) && dbs[j + 1] == dbs[j]
  {
    MigrationReadies(c, dbs, steps, i);
    ReadyForever(c, dbs, steps, i + 1, j);
    MigrationIdle(c, dbs, steps, j);
  }

  /** The laws can be met. */
  function ToyCrypto(): Crypto {
    Crypto((code, salt) => if code == "" || Utf8Len(code) > 1024 then None else Some(HASH_PREFIX + code + "."),
           h => HASH_PREFIX <= h,
           (h, code) => h == HASH_PREFIX + code + ".",
           (who, h, code, nonce) => Some(code),
           (who, h, e) => Some(e))
  }

  lemma LawsHold()
    ensures Lawful(ToyCrypto())
  {
    var c := ToyCrypto();
    forall code, salt | c.hash(code, salt).Some?
      ensures var h := c.hash(code, salt).value; c.isHash(h) && Storable(h) && Trim(h) == h && c.verifies(h, code)
    {
      var h := HASH_PREFIX + code + ".";
      assert h[0] == '$' && h[|h| - 1] == '.';
      TrimTidy(h);
    }
  }
}
