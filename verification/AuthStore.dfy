/** The credential store as an object over its four tables, proved against the transactions. */
module AuthStore {
  import opened Text
  import opened Lists
  import opened AuthVault

  datatype Rows<A, V> = Rows(accounts: map<string, A>, vault: map<string, V>)

  /** The import of the collected states, row by row; the first row that cannot be made fails it. A
      state makes an account row and maybe a vault row. */
  method ImportRows<A, V>(states: map<string, AdminState>, account: (string, AdminState) -> Option<A>,
                          vaulted: (string, AdminState) -> Option<Option<V>>)
    returns (r: Option<Rows<A, V>>)
    ensures r.Some? <==>
            forall who :: who in states ==> account(who, states[who]).Some? && vaulted(who, states[who]).Some?
    ensures r.Some? ==> r.value.accounts.Keys == states.Keys && r.value.vault.Keys <= states.Keys
    ensures r.Some? ==> forall who :: who in states ==>
              && account(who, states[who]) == Some(r.value.accounts[who])
              && vaulted(who, states[who]) == Some(if who in r.value.vault then Some(r.value.vault[who]) else None)
  {
    var accounts: map<string, A>, vault: map<string, V> := map[], map[];
    var todo := states.Keys;
    while todo != {}
      invariant todo <= states.Keys && accounts.Keys == states.Keys - todo && vault.Keys <= accounts.Keys
      invariant forall who :: who in accounts ==>
                  && account(who, states[who]) == Some(accounts[who])
                  && vaulted(who, states[who]) == Some(if who in vault then Some(vault[who]) else None)
    {
      var who :| who in todo;
      var a, v := account(who, states[who]), vaulted(who, states[who]);
      if a.None? || v.None? { return None; }
      accounts := accounts[who := a.value];
      if v.value.Some? { vault := vault[who := v.value.value]; }
      todo := todo - {who};
    }
    r := Some(Rows(accounts, vault));
  }

  method ImportCredentials(c: Crypto, legacy: Legacy, i: Import) returns (r: Option<Rows<Account, Vaulted>>)
    ensures r.Some? <==> Encodable(c, legacy, i)
    ensures r.Some? ==> r.value.accounts == AccountRows(c, legacy, i) && r.value.vault == VaultRows(c, legacy, i)
  {
    r := ImportRows(i.states, (who, state) => AccountOf(c, legacy, who, state),
                    (who, state) => VaultedOf(c, legacy, who, state));
  }

  class PostgresAuthStore {
    const c: Crypto
    var accounts: map<string, Account>
    var vault: map<string, Vaulted>
    var identities: map<string, Identity>
    var cutover: bool

    function Snapshot(): Db
      reads this
    {
      Db(accounts, vault, identities, cutover)
    }

    constructor (c: Crypto)
      ensures Snapshot() == EMPTY && this.c == c
    {
      this.c := c;
      accounts, vault, identities, cutover := map[], map[], map[], false;
    }

    method State(who: string) returns (state: AdminState)
      ensures state == StateOf(Snapshot(), who)
      ensures Inv(c, Snapshot()) && Trim(who) in accounts ==>
                forall salt, nonce :: AfterPutState(c, Snapshot(), who, state, salt, nonce) == Some(Snapshot())
    {
      if Inv(c, Snapshot()) && Trim(who) in accounts {
        forall salt, nonce { ReadWriteBack(c, Snapshot(), who, salt, nonce); }
      }
      var w := Trim(who);
      if w !in accounts { return DEFAULT_STATE; }
      var hash := accounts[w].hash;
      state := AdminState(if hash.Some? then hash.value else "", "", accounts[w].flags);
    }

    method WriteState(who: string, state: AdminState, salt: nat, nonce: nat) returns (ok: bool)
      modifies this
      ensures Snapshot() == Apply(c, old(Snapshot()), PutState(who, state, salt, nonce))
      ensures ok == Attempt(c, old(Snapshot()), PutState(who, state, salt, nonce)).Some?
    {
      var code := PlaintextCode(c, state.customCode);
      var hash := EncodedHash(c, state.customCode, salt);
      var w := Trim(who);
      if hash.None? || w == "" { return false; }
      var saved := vault;
      if code.Some? && hash.value.Some? {
        var v := SaveCode(c, vault, w, hash.value.value, code.value, nonce);
        if v.None? { return false; }
        saved := v.value;
      }
      if w in accounts && code.None? {
        accounts := accounts[w := accounts[w].(flags := state.flags)];
      } else {
        accounts := accounts[w := Account(hash.value, state.flags)];
      }
      vault := saved;
      ok := true;
    }

    method ResetAdminCode(code: string, salt: nat, nonce: nat) returns (ok: bool)
      modifies this
      ensures Snapshot() == Apply(c, old(Snapshot()), ResetAdmin(code, salt, nonce))
      ensures ok == Attempt(c, old(Snapshot()), ResetAdmin(code, salt, nonce)).Some?
    {
      if !Ready(Snapshot()) { return false; }
      var hash := c.hash(code, salt);
      if hash.None? || !Storable(hash.value) { return false; }
      var v := SaveCode(c, vault, "admin", hash.value, code, nonce);
      if v.None? { return false; }
      accounts := accounts["admin" := accounts["admin"].(hash := hash)];
      vault := v.value;
      ok := true;
    }

    method RecoverAccessCode(who: string, code: string, nonce: nat) returns (ok: bool)
      modifies this
      ensures Snapshot() == Apply(c, old(Snapshot()), Recover(who, code, nonce))
      ensures ok == Attempt(c, old(Snapshot()), Recover(who, code, nonce)).Some?
      ensures accounts == old(accounts)
    {
      var w, k := Trim(who), Trim(code);
      if w !in accounts { return true; }
      var hash := accounts[w].hash;
      if w in vault && hash == Some(vault[w].hash) { return true; }
      var h := if hash.Some? then hash.value else "";
      var verdict := Verify(c, h, k);
      if verdict.None? { return false; }
      if !verdict.value { return true; }
      var v := SaveCode(c, vault, w, h, k, nonce);
      if v.None? { return false; }
      vault := v.value;
      ok := true;
    }

    method PutBuiltinIdentity(who: string, phone: string, name: string) returns (ok: bool)
      modifies this
      ensures Snapshot() == Apply(c, old(Snapshot()), PutIdentity(who, phone, name))
      ensures ok == Attempt(c, old(Snapshot()), PutIdentity(who, phone, name)).Some?
    {
      var p := NormalizePhone(phone);
      if p.None? || who !in BUILTINS { return false; }
      if who !in accounts { accounts := accounts[who := Account(None, DEFAULT_FLAGS)]; }
      identities := identities[who := Identity(p.value, Trim(name))];
      ok := true;
    }

    method MigrateLegacy(legacy: Legacy) returns (ok: bool)
      modifies this
      ensures Snapshot() == Apply(c, old(Snapshot()), Migrate(legacy))
      ensures ok == Attempt(c, old(Snapshot()), Migrate(legacy)).Some?
    {
      if cutover { return true; }
      if accounts != map[] { return false; }
      var states := AddEach(SupplierAdder(legacy.supplierCode), legacy.states, legacy.suppliers);
      if states.None? { return false; }
      var collected := AddEach(BuiltinAdder(), Import(states.value, map[]), legacy.builtins);
      if collected.None? { return false; }
      var i := collected.value;
      if "admin" !in i.identities || "admin" !in i.states || Trim(i.states["admin"].customCode) == "" { return false; }
      var rows := ImportCredentials(c, legacy, i);
      if rows.None? { return false; }
      accounts, vault, identities, cutover := rows.value.accounts, rows.value.vault, i.identities, true;
      ok := true;
    }
  }
}
