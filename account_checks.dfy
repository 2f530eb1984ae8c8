/** The account checks of `validate`: every established and validator
    account is registered under its alias, and a batch is valid only when
    aliases are unique, validity predicates exist and the declared keys
    authorize their accounts. */
module AccountChecks {
  import opened Wrappers
  import opened Crypto
  import opened TxModel
  import opened TxBatch

  /** The validity-predicate manifest: the names of the known VP wasms. */
  datatype ValidityPredicates = ValidityPredicates(wasm: set<string>)

  /** A VP is usable only when a manifest was given and lists it. */
  predicate VpExists(vps: Option<ValidityPredicates>, vp: string) {
    vps.Some? && vp in vps.value.wasm
  }

  /** `validate_signature`: the key authorized exactly this message. */
  predicate KeyAuthorizes(data: Message, key: SignedPk): (r: bool)
    ensures r <==> exists sk :: RefTo(sk) == key.pk && key.authorization == StandaloneSignature(sk, data)
  {
    assert RefTo(SecretKey(key.pk.raw)) == key.pk;
    VerifyStandaloneSig(data, key.pk, key.authorization)
  }

  /** `validate_established_account_sig`, required only when a key is declared. */
  predicate EstablishedAccountSigValid(tx: SignedEstablishedAccountTx) {
    match tx.publicKey
    case None => true
    case Some(signed) => KeyAuthorizes(EstablishedAccountEncoding(UnsignedEstablished(tx)), signed)
  }

  /** All six key authorizations of a validator account. */
  predicate ValidatorAccountSigsValid(tx: SignedValidatorAccountTx) {
    var data := ValidatorAccountEncoding(UnsignedValidator(tx));
    && KeyAuthorizes(data, tx.accountKey)
    && KeyAuthorizes(data, tx.consensusKey)
    && KeyAuthorizes(data, tx.protocolKey)
    && KeyAuthorizes(data, tx.tendermintNodeKey)
    && KeyAuthorizes(data, tx.ethHotKey)
    && KeyAuthorizes(data, tx.ethColdKey)
  }

  /** The per-account part of `validate_established_account`: a known VP
      and, when a key is declared, its authorization. */
  predicate PassesEstablishedChecks(vps: Option<ValidityPredicates>, tx: SignedEstablishedAccountTx) {
    VpExists(vps, tx.vp) && EstablishedAccountSigValid(tx)
  }

  /** The per-account part of `validate_validator_account`: a known VP and
      all six key authorizations. */
  predicate PassesValidatorChecks(vps: Option<ValidityPredicates>, tx: SignedValidatorAccountTx) {
    VpExists(vps, tx.vp) && ValidatorAccountSigsValid(tx)
  }

  /** The state `validate` threads through the account checks:
      `all_used_aliases`, `established_accounts` and `validator_accounts`. */
  datatype Registry = Registry(
    usedAliases: set<Alias>,
    establishedAccounts: map<Alias, Option<PublicKey>>,
    validatorAccounts: map<Alias, PublicKey>)

  /** The outcome of one or more checks: whether all passed, and the state after. */
  datatype AccountCheck = AccountCheck(valid: bool, registry: Registry)

  /** Nothing registered yet and nothing failed. */
  const Initial := AccountCheck(true, Registry({}, map[], map[]))

  function DeclaredPk(tx: SignedEstablishedAccountTx): Option<PublicKey> {
    match tx.publicKey
    case None => None
    case Some(signed) => Some(signed.pk)
  }

  /** `validate_established_account`. The account is registered under its
      alias whatever the outcome, overwriting an earlier one; the alias is
      marked used (a repeated alias leaves the set as it was); the check
      passes when the alias was fresh, the VP exists and a declared key
      authorized the account. */
  function ValidateEstablishedAccount(registry: Registry, tx: SignedEstablishedAccountTx, vps: Option<ValidityPredicates>)
    : (r: AccountCheck)
    ensures r.registry.establishedAccounts == registry.establishedAccounts[tx.alias := DeclaredPk(tx)]
    ensures r.registry.validatorAccounts == registry.validatorAccounts
    ensures r.registry.usedAliases == registry.usedAliases + {tx.alias}
    ensures r.valid <==> tx.alias !in registry.usedAliases && PassesEstablishedChecks(vps, tx)
  {
    var established := registry.establishedAccounts[tx.alias := DeclaredPk(tx)];
    var unique := tx.alias !in registry.usedAliases;
    var used := if unique then registry.usedAliases + {tx.alias} else registry.usedAliases;
    var valid := unique && PassesEstablishedChecks(vps, tx);
    AccountCheck(valid, Registry(used, established, registry.validatorAccounts))
  }

  /** `validate_validator_account`: as for established accounts, with the
      account key registered and all six key authorizations required. */
  function ValidateValidatorAccount(registry: Registry, tx: SignedValidatorAccountTx, vps: Option<ValidityPredicates>)
    : (r: AccountCheck)
    ensures r.registry.validatorAccounts == registry.validatorAccounts[tx.alias := tx.accountKey.pk]
    ensures r.registry.establishedAccounts == registry.establishedAccounts
    ensures r.registry.usedAliases == registry.usedAliases + {tx.alias}
    ensures r.valid <==> tx.alias !in registry.usedAliases && PassesValidatorChecks(vps, tx)
  {
    var validators := registry.validatorAccounts[tx.alias := tx.accountKey.pk];
    var unique := tx.alias !in registry.usedAliases;
    var used := if unique then registry.usedAliases + {tx.alias} else registry.usedAliases;
    var valid := unique && PassesValidatorChecks(vps, tx);
    AccountCheck(valid, Registry(used, registry.establishedAccounts, validators))
  }

  /** The loop over established accounts, after its first `|txs|` rounds. */
  function EstablishedAccountsPhase(start: AccountCheck, txs: seq<SignedEstablishedAccountTx>, vps: Option<ValidityPredicates>)
    : AccountCheck
    decreases |txs|
  {
    if txs == [] then start
    else
      var prev := EstablishedAccountsPhase(start, txs[..|txs| - 1], vps);
      var check := ValidateEstablishedAccount(prev.registry, txs[|txs| - 1], vps);
      AccountCheck(prev.valid && check.valid, check.registry)
  }

  /** The loop over validator accounts, after its first `|txs|` rounds. */
  function ValidatorAccountsPhase(start: AccountCheck, txs: seq<SignedValidatorAccountTx>, vps: Option<ValidityPredicates>)
    : AccountCheck
    decreases |txs|
  {
    if txs == [] then start
    else
      var prev := ValidatorAccountsPhase(start, txs[..|txs| - 1], vps);
      var check := ValidateValidatorAccount(prev.registry, txs[|txs| - 1], vps);
      AccountCheck(prev.valid && check.valid, check.registry)
  }

  /** Both account loops of `validate`, established accounts first. */
  function AccountsPhase(
    established: Option<seq<SignedEstablishedAccountTx>>,
    validators: Option<seq<SignedValidatorAccountTx>>,
    vps: Option<ValidityPredicates>): AccountCheck
  {
    ValidatorAccountsPhase(EstablishedAccountsPhase(Initial, Txs(established), vps), Txs(validators), vps)
  }

  // ---------------------------------------------------------------------
  // What the account loops establish

  function EstablishedAliases(txs: seq<SignedEstablishedAccountTx>): (r: seq<Alias>)
    ensures |r| == |txs| && forall i | 0 <= i < |txs| :: r[i] == txs[i].alias
    decreases |txs|
  {
    if txs == [] then [] else EstablishedAliases(txs[..|txs| - 1]) + [txs[|txs| - 1].alias]
  }

  function ValidatorAliases(txs: seq<SignedValidatorAccountTx>): (r: seq<Alias>)
    ensures |r| == |txs| && forall i | 0 <= i < |txs| :: r[i] == txs[i].alias
    decreases |txs|
  {
    if txs == [] then [] else ValidatorAliases(txs[..|txs| - 1]) + [txs[|txs| - 1].alias]
  }

  /** The position of the last occurrence of an alias, if any. */
  function LastIndexOf(s: seq<Alias>, alias: Alias): (r: Option<nat>)
    ensures r.None? <==> alias !in s
    ensures r.Some? ==>
      && r.value < |s|
      && s[r.value] == alias
      && forall j | r.value < j < |s| :: s[j] != alias
    decreases |s|
  {
    if s == [] then None
    else if s[|s| - 1] == alias then Some(|s| - 1)
    else
      var r := LastIndexOf(s[..|s| - 1], alias);
      assert alias in s[..|s| - 1] <==> alias in s by {
        if alias in s {
          var k :| 0 <= k < |s| && s[k] == alias;
          assert s[..|s| - 1][k] == alias;
        }
      }
      r
  }

  /** Every alias of a batch's accounts, established accounts first. */
  function AllAliases(
    established: Option<seq<SignedEstablishedAccountTx>>,
    validators: Option<seq<SignedValidatorAccountTx>>): seq<Alias>
  {
    EstablishedAliases(Txs(established)) + ValidatorAliases(Txs(validators))
  }

  function AliasSet(s: seq<Alias>): set<Alias> {
    set a | a in s
  }

  predicate Distinct(s: seq<Alias>) {
    forall i, j | 0 <= i < j < |s| :: s[i] != s[j]
  }

  /** Pairwise distinct, and none of them already used. */
  predicate FreshAliases(used: set<Alias>, s: seq<Alias>) {
    Distinct(s) && forall i | 0 <= i < |s| :: s[i] !in used
  }

  lemma FreshSnoc(used: set<Alias>, s: seq<Alias>, a: Alias)
    ensures FreshAliases(used, s + [a]) <==> FreshAliases(used, s) && a !in used + AliasSet(s)
  {
    var t := s + [a];
    if FreshAliases(used, s) && a !in used + AliasSet(s) {
      forall i, j | 0 <= i < j < |t| ensures t[i] != t[j] {
        if j == |s| { assert t[i] in s; }
      }
    }
    if FreshAliases(used, t) {
      assert forall i | 0 <= i < |s| :: s[i] == t[i];
      forall i | 0 <= i < |s| ensures s[i] != a {
        assert t[i] != t[|s|];
      }
      assert a !in used by { assert t[|s|] == a; }
      assert FreshAliases(used, s);
    }
  }

  lemma FreshAppend(used: set<Alias>, a: seq<Alias>, b: seq<Alias>)
    ensures FreshAliases(used, a + b) <==> FreshAliases(used, a) && FreshAliases(used + AliasSet(a), b)
  {
    var t := a + b;
    assert forall i | 0 <= i < |a| :: t[i] == a[i];
    assert forall j | 0 <= j < |b| :: t[|a| + j] == b[j];
    if FreshAliases(used, a) && FreshAliases(used + AliasSet(a), b) {
      forall i, j | 0 <= i < j < |t| ensures t[i] != t[j] {
        if i < |a| && j >= |a| {
          assert t[i] in AliasSet(a);
        } else if i >= |a| {
          assert t[i] == b[i - |a|] && t[j] == b[j - |a|];
        }
      }
    }
    if FreshAliases(used, t) {
      forall i, j | 0 <= i < j < |b| ensures b[i] != b[j] {
        assert t[|a| + i] != t[|a| + j];
      }
    }
  }

  /** The established-account loop marks every alias it sees as used,
      registers every account and touches no validator account. */
  lemma {:induction false} EstablishedAccountsPhaseRegistry(start: AccountCheck, txs: seq<SignedEstablishedAccountTx>, vps: Option<ValidityPredicates>)
    ensures var r := EstablishedAccountsPhase(start, txs, vps);
      && r.registry.usedAliases == start.registry.usedAliases + AliasSet(EstablishedAliases(txs))
      && r.registry.establishedAccounts.Keys == start.registry.establishedAccounts.Keys + AliasSet(EstablishedAliases(txs))
      && r.registry.validatorAccounts == start.registry.validatorAccounts
    decreases |txs|
  {
    if txs != [] {
      var prefix := txs[..|txs| - 1];
      EstablishedAccountsPhaseRegistry(start, prefix, vps);
      assert EstablishedAliases(txs) == EstablishedAliases(prefix) + [txs[|txs| - 1].alias];
    }
  }

  lemma AllEstablishedChecksSnoc(vps: Option<ValidityPredicates>, txs: seq<SignedEstablishedAccountTx>, prefix: seq<SignedEstablishedAccountTx>)
    requires txs != [] && prefix == txs[..|txs| - 1]
    ensures (forall i | 0 <= i < |txs| :: PassesEstablishedChecks(vps, txs[i]))
        <==> (forall i | 0 <= i < |prefix| :: PassesEstablishedChecks(vps, prefix[i]))
             && PassesEstablishedChecks(vps, txs[|txs| - 1])
  {
    assert forall i | 0 <= i < |prefix| :: prefix[i] == txs[i];
  }

  /** The established-account loop keeps the flag set exactly when its
      aliases are pairwise distinct and new, every VP exists and every
      declared key authorized its account. */
  lemma {:induction false} EstablishedAccountsPhaseValid(start: AccountCheck, txs: seq<SignedEstablishedAccountTx>, vps: Option<ValidityPredicates>)
    ensures EstablishedAccountsPhase(start, txs, vps).valid <==>
      && start.valid
      && FreshAliases(start.registry.usedAliases, EstablishedAliases(txs))
      && forall i | 0 <= i < |txs| :: PassesEstablishedChecks(vps, txs[i])
    decreases |txs|
  {
    if txs != [] {
      var prefix := txs[..|txs| - 1];
      var last := txs[|txs| - 1];
      EstablishedAccountsPhaseValid(start, prefix, vps);
      EstablishedAccountsPhaseRegistry(start, prefix, vps);
      assert EstablishedAliases(txs) == EstablishedAliases(prefix) + [last.alias];
      FreshSnoc(start.registry.usedAliases, EstablishedAliases(prefix), last.alias);
      AllEstablishedChecksSnoc(vps, txs, prefix);
    }
  }

  /** The validator-account loop marks every alias it sees as used,
      registers every account and touches no established account. */
  lemma {:induction false} ValidatorAccountsPhaseRegistry(start: AccountCheck, txs: seq<SignedValidatorAccountTx>, vps: Option<ValidityPredicates>)
    ensures var r := ValidatorAccountsPhase(start, txs, vps);
      && r.registry.usedAliases == start.registry.usedAliases + AliasSet(ValidatorAliases(txs))
      && r.registry.validatorAccounts.Keys == start.registry.validatorAccounts.Keys + AliasSet(ValidatorAliases(txs))
      && r.registry.establishedAccounts == start.registry.establishedAccounts
    decreases |txs|
  {
    if txs != [] {
      var prefix := txs[..|txs| - 1];
      ValidatorAccountsPhaseRegistry(start, prefix, vps);
      assert ValidatorAliases(txs) == ValidatorAliases(prefix) + [txs[|txs| - 1].alias];
    }
  }

  /** The established-account loop stores under an alias the key declared
      by the last account of that alias, and leaves an alias it does not
      see as it was. */
  lemma {:induction false} EstablishedAccountsPhaseLookup(start: AccountCheck, txs: seq<SignedEstablishedAccountTx>, vps: Option<ValidityPredicates>, alias: Alias)
    ensures var accounts := EstablishedAccountsPhase(start, txs, vps).registry.establishedAccounts;
      match LastIndexOf(EstablishedAliases(txs), alias)
      case Some(i) => alias in accounts && accounts[alias] == DeclaredPk(txs[i])
      case None =>
        && (alias in accounts <==> alias in start.registry.establishedAccounts)
        && (alias in accounts ==> accounts[alias] == start.registry.establishedAccounts[alias])
    decreases |txs|
  {
    if txs != [] {
      var prefix := txs[..|txs| - 1];
      var aliases := EstablishedAliases(txs);
      assert aliases[..|aliases| - 1] == EstablishedAliases(prefix);
      if txs[|txs| - 1].alias != alias {
        EstablishedAccountsPhaseLookup(start, prefix, vps, alias);
      }
    }
  }

  /** The validator-account loop stores under an alias the account key of
      the last validator account of that alias, and leaves an alias it does
      not see as it was. */
  lemma {:induction false} ValidatorAccountsPhaseLookup(start: AccountCheck, txs: seq<SignedValidatorAccountTx>, vps: Option<ValidityPredicates>, alias: Alias)
    ensures var accounts := ValidatorAccountsPhase(start, txs, vps).registry.validatorAccounts;
      match LastIndexOf(ValidatorAliases(txs), alias)
      case Some(i) => alias in accounts && accounts[alias] == txs[i].accountKey.pk
      case None =>
        && (alias in accounts <==> alias in start.registry.validatorAccounts)
        && (alias in accounts ==> accounts[alias] == start.registry.validatorAccounts[alias])
    decreases |txs|
  {
    if txs != [] {
      var prefix := txs[..|txs| - 1];
      var aliases := ValidatorAliases(txs);
      assert aliases[..|aliases| - 1] == ValidatorAliases(prefix);
      if txs[|txs| - 1].alias != alias {
        ValidatorAccountsPhaseLookup(start, prefix, vps, alias);
      }
    }
  }

  lemma AllValidatorChecksSnoc(vps: Option<ValidityPredicates>, txs: seq<SignedValidatorAccountTx>, prefix: seq<SignedValidatorAccountTx>)
    requires txs != [] && prefix == txs[..|txs| - 1]
    ensures (forall i | 0 <= i < |txs| :: PassesValidatorChecks(vps, txs[i]))
        <==> (forall i | 0 <= i < |prefix| :: PassesValidatorChecks(vps, prefix[i]))
             && PassesValidatorChecks(vps, txs[|txs| - 1])
  {
    assert forall i | 0 <= i < |prefix| :: prefix[i] == txs[i];
  }

  /** The validator-account loop keeps the flag set exactly when its
      aliases are pairwise distinct and new, every VP exists and all six
      keys of every account authorized it. */
  lemma {:induction false} ValidatorAccountsPhaseValid(start: AccountCheck, txs: seq<SignedValidatorAccountTx>, vps: Option<ValidityPredicates>)
    ensures ValidatorAccountsPhase(start, txs, vps).valid <==>
      && start.valid
      && FreshAliases(start.registry.usedAliases, ValidatorAliases(txs))
      && forall i | 0 <= i < |txs| :: PassesValidatorChecks(vps, txs[i])
    decreases |txs|
  {
    if txs != [] {
      var prefix := txs[..|txs| - 1];
      var last := txs[|txs| - 1];
      ValidatorAccountsPhaseValid(start, prefix, vps);
      ValidatorAccountsPhaseRegistry(start, prefix, vps);
      assert ValidatorAliases(txs) == ValidatorAliases(prefix) + [last.alias];
      FreshSnoc(start.registry.usedAliases, ValidatorAliases(prefix), last.alias);
      AllValidatorChecksSnoc(vps, txs, prefix);
    }
  }

  /** Both account loops together: afterwards exactly the batch's aliases
      are in use, and each account is registered under its alias. */
  lemma AccountsPhaseRegistry(
    established: Option<seq<SignedEstablishedAccountTx>>,
    validators: Option<seq<SignedValidatorAccountTx>>,
    vps: Option<ValidityPredicates>)
    ensures var r := AccountsPhase(established, validators, vps);
      && r.registry.usedAliases == AliasSet(AllAliases(established, validators))
      && r.registry.establishedAccounts.Keys == AliasSet(EstablishedAliases(Txs(established)))
      && r.registry.validatorAccounts.Keys == AliasSet(ValidatorAliases(Txs(validators)))
  {
    var est := EstablishedAliases(Txs(established));
    var val := ValidatorAliases(Txs(validators));
    var afterEstablished := EstablishedAccountsPhase(Initial, Txs(established), vps);
    EstablishedAccountsPhaseRegistry(Initial, Txs(established), vps);
    ValidatorAccountsPhaseRegistry(afterEstablished, Txs(validators), vps);
    assert {} + AliasSet(est) == AliasSet(est);
    assert AliasSet(est) + AliasSet(val) == AliasSet(est + val);
  }

  /** After both account loops, each registered alias holds what the last
      account declared under it declared: an established account's
      optional key, a validator account's account key. */
  lemma AccountsPhaseValues(
    established: Option<seq<SignedEstablishedAccountTx>>,
    validators: Option<seq<SignedValidatorAccountTx>>,
    vps: Option<ValidityPredicates>)
    ensures var r := AccountsPhase(established, validators, vps);
      && (forall alias | alias in r.registry.establishedAccounts ::
            && LastIndexOf(EstablishedAliases(Txs(established)), alias).Some?
            && r.registry.establishedAccounts[alias]
                 == DeclaredPk(Txs(established)[LastIndexOf(EstablishedAliases(Txs(established)), alias).value]))
      && (forall alias | alias in r.registry.validatorAccounts ::
            && LastIndexOf(ValidatorAliases(Txs(validators)), alias).Some?
            && r.registry.validatorAccounts[alias]
                 == Txs(validators)[LastIndexOf(ValidatorAliases(Txs(validators)), alias).value].accountKey.pk)
  {
    var r := AccountsPhase(established, validators, vps);
    var afterEstablished := EstablishedAccountsPhase(Initial, Txs(established), vps);
    EstablishedAccountsPhaseRegistry(Initial, Txs(established), vps);
    ValidatorAccountsPhaseRegistry(afterEstablished, Txs(validators), vps);
    forall alias | alias in r.registry.establishedAccounts
      ensures LastIndexOf(EstablishedAliases(Txs(established)), alias).Some?
      ensures r.registry.establishedAccounts[alias]
                == DeclaredPk(Txs(established)[LastIndexOf(EstablishedAliases(Txs(established)), alias).value])
    {
      EstablishedAccountsPhaseLookup(Initial, Txs(established), vps, alias);
    }
    forall alias | alias in r.registry.validatorAccounts
      ensures LastIndexOf(ValidatorAliases(Txs(validators)), alias).Some?
      ensures r.registry.validatorAccounts[alias]
                == Txs(validators)[LastIndexOf(ValidatorAliases(Txs(validators)), alias).value].accountKey.pk
    {
      ValidatorAccountsPhaseLookup(afterEstablished, Txs(validators), vps, alias);
    }
  }

  /** Both account loops together pass exactly when the aliases are
      pairwise distinct across both categories, every VP exists and every
      signature verifies. */
  lemma AccountsPhaseValid(
    established: Option<seq<SignedEstablishedAccountTx>>,
    validators: Option<seq<SignedValidatorAccountTx>>,
    vps: Option<ValidityPredicates>)
    ensures AccountsPhase(established, validators, vps).valid <==>
      && Distinct(AllAliases(established, validators))
      && (forall i | 0 <= i < |Txs(established)| :: PassesEstablishedChecks(vps, Txs(established)[i]))
      && (forall i | 0 <= i < |Txs(validators)| :: PassesValidatorChecks(vps, Txs(validators)[i]))
  {
    var est := EstablishedAliases(Txs(established));
    var val := ValidatorAliases(Txs(validators));
    var afterEstablished := EstablishedAccountsPhase(Initial, Txs(established), vps);
    EstablishedAccountsPhaseRegistry(Initial, Txs(established), vps);
    EstablishedAccountsPhaseValid(Initial, Txs(established), vps);
    ValidatorAccountsPhaseValid(afterEstablished, Txs(validators), vps);
    FreshAppend({}, est, val);
    assert {} + AliasSet(est) == AliasSet(est);
  }

  /** Both account loops together: the registry and the verdict. */
  lemma AccountsPhaseSpec(
    established: Option<seq<SignedEstablishedAccountTx>>,
    validators: Option<seq<SignedValidatorAccountTx>>,
    vps: Option<ValidityPredicates>)
    ensures var r := AccountsPhase(established, validators, vps);
      && r.registry.usedAliases == AliasSet(AllAliases(established, validators))
      && r.registry.establishedAccounts.Keys == AliasSet(EstablishedAliases(Txs(established)))
      && r.registry.validatorAccounts.Keys == AliasSet(ValidatorAliases(Txs(validators)))
      && (forall alias | alias in r.registry.establishedAccounts ::
            && LastIndexOf(EstablishedAliases(Txs(established)), alias).Some?
            && r.registry.establishedAccounts[alias]
                 == DeclaredPk(Txs(established)[LastIndexOf(EstablishedAliases(Txs(established)), alias).value]))
      && (forall alias | alias in r.registry.validatorAccounts ::
            && LastIndexOf(ValidatorAliases(Txs(validators)), alias).Some?
            && r.registry.validatorAccounts[alias]
                 == Txs(validators)[LastIndexOf(ValidatorAliases(Txs(validators)), alias).value].accountKey.pk)
      && (r.valid <==>
           && Distinct(AllAliases(established, validators))
           && (forall i | 0 <= i < |Txs(established)| :: PassesEstablishedChecks(vps, Txs(established)[i]))
           && (forall i | 0 <= i < |Txs(validators)| :: PassesValidatorChecks(vps, Txs(validators)[i])))
  {
    AccountsPhaseRegistry(established, validators, vps);
    AccountsPhaseValues(established, validators, vps);
    AccountsPhaseValid(established, validators, vps);
  }
}
