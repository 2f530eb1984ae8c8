/** `validate_transfer` and `validate_bond`: one transaction checked against,
    and applied to, the simulated token ledger. The ledger is an object
    whose balances the two operations update in place; each operation is
    specified by a step function on ledger values. */
module LedgerSteps {
  import opened Wrappers
  import opened Crypto
  import opened TxModel
  import opened BalanceLedger

  /** The part of the PoS parameters that bond validation reads. */
  datatype Parameters = Parameters(nativeToken: Alias)

  /** What one step returns, and the ledger it leaves behind. */
  datatype StepResult<T> = StepResult(validated: Option<T>, ledger: Ledger)

  // ---------------------------------------------------------------------
  // Transfers

  /** The source of a denominated transfer holds at least its mantissa. */
  predicate CanPayTransfer(ledger: Ledger, tx: TransferTx) {
    && tx.token in ledger
    && tx.source in ledger[tx.token].pks
    && tx.amount.amount <= ledger[tx.token].pks[tx.source].amount
  }

  /** The debit of the source key and the credit of the target alias, in the
      token's ledger, when the source can pay. */
  function ApplyTransfer(ledger: Ledger, tx: TransferTx): (r: Option<Ledger>)
    ensures r.Some? <==> CanPayTransfer(ledger, tx)
  {
    if !CanPayTransfer(ledger, tx) then None
    else
      var balances := ledger[tx.token];
      Some(ledger[tx.token := TokenBalancesForValidation(
        CreditAlias(balances.aliases, tx.target, tx.amount),
        DebitAmount(balances.pks, tx.source, tx.amount.amount))])
  }

  /** `validate_transfer` on ledger values. A transfer whose amount cannot
      be denominated is dropped before the ledger is looked at; otherwise the
      ledger is updated whenever the source can pay, and the transfer is
      kept only if, besides, its signature verifies and its target alias is
      in use. */
  function TransferStep(ledger: Ledger, tx: SignedTransferTx, usedAliases: set<Alias>, tokens: Tokens, increasePrecision: IncreasePrecision)
    : StepResult<TransferTx>
  {
    match DenominateTransfer(tx.data, tokens, increasePrecision)
    case Failure(_) => StepResult(None, ledger)
    case Success(validated) =>
      var applied := ApplyTransfer(ledger, validated);
      var valid := TransferVerifySig(tx) && validated.target in usedAliases && applied.Some?;
      StepResult(if valid then Some(validated) else None, if applied.Some? then applied.value else ledger)
  }

  /** A transfer that is kept is exactly the denominated input, with a
      verified signature and a registered target. */
  predicate TransferAccepted(tx: SignedTransferTx, validated: TransferTx, usedAliases: set<Alias>, tokens: Tokens, increasePrecision: IncreasePrecision) {
    && DenominateTransfer(tx.data, tokens, increasePrecision) == Success(validated)
    && TransferVerifySig(tx)
    && validated.target in usedAliases
  }

  /** When the source key holds B >= A of the token, the source's balance
      becomes B - A and disappears exactly when B = A, the target alias's
      accumulator grows by exactly A (starting from zero, in the amount's
      decimal places, if it was new), and nothing else changes; this happens
      even when the signature or the target check fails, and then the
      transfer is dropped. */
  lemma TransferStepPays(ledger: Ledger, tx: SignedTransferTx, usedAliases: set<Alias>, tokens: Tokens, increasePrecision: IncreasePrecision)
    requires DenominateTransfer(tx.data, tokens, increasePrecision).Success?
    requires CanPayTransfer(ledger, DenominateTransfer(tx.data, tokens, increasePrecision).value)
    ensures var v := DenominateTransfer(tx.data, tokens, increasePrecision).value;
      var r := TransferStep(ledger, tx, usedAliases, tokens, increasePrecision);
      var before := ledger[v.token];
      && v.token in r.ledger
      && r.ledger - {v.token} == ledger - {v.token}
      && var after := r.ledger[v.token];
      && (v.source in after.pks <==> v.amount.amount != before.pks[v.source].amount)
      && (v.source in after.pks ==> after.pks[v.source].amount == before.pks[v.source].amount - v.amount.amount)
      && after.pks - {v.source} == before.pks - {v.source}
      && v.target in after.aliases
      && after.aliases[v.target].amount
           == (if v.target in before.aliases then before.aliases[v.target].amount else 0) + v.amount.amount
      && (v.target !in before.aliases ==> after.aliases[v.target].denom == v.amount.denom)
      && after.aliases - {v.target} == before.aliases - {v.target}
      && (r.validated.Some? <==> TransferVerifySig(tx) && v.target in usedAliases)
      && (r.validated.Some? ==> r.validated.value == v)
  {
  }

  /** A transfer that cannot be denominated, names a token without
      balances, a source without a balance, or a source holding too little,
      is dropped and leaves the ledger as it was. */
  lemma TransferStepRejects(ledger: Ledger, tx: SignedTransferTx, usedAliases: set<Alias>, tokens: Tokens, increasePrecision: IncreasePrecision)
    requires var d := DenominateTransfer(tx.data, tokens, increasePrecision);
      d.Failure? || !CanPayTransfer(ledger, d.value)
    ensures TransferStep(ledger, tx, usedAliases, tokens, increasePrecision) == StepResult(None, ledger)
  {
  }

  /** A transfer step keeps or drops exactly what `TransferAccepted` says,
      given that the source can pay. */
  lemma TransferStepKeeps(ledger: Ledger, tx: SignedTransferTx, usedAliases: set<Alias>, tokens: Tokens, increasePrecision: IncreasePrecision, v: TransferTx)
    ensures TransferStep(ledger, tx, usedAliases, tokens, increasePrecision).validated == Some(v) <==>
      TransferAccepted(tx, v, usedAliases, tokens, increasePrecision) && CanPayTransfer(ledger, v)
  {
  }

  /** A transfer moves funds within one token's ledger: no token's total
      holdings change. */
  lemma TransferStepConserves(ledger: Ledger, tx: SignedTransferTx, usedAliases: set<Alias>, tokens: Tokens, increasePrecision: IncreasePrecision, token: Alias)
    ensures Supply(TransferStep(ledger, tx, usedAliases, tokens, increasePrecision).ledger, token) == Supply(ledger, token)
  {
    var d := DenominateTransfer(tx.data, tokens, increasePrecision);
    if d.Success? && CanPayTransfer(ledger, d.value) && token == d.value.token {
      var v := d.value;
      var balances := ledger[v.token];
      CreditAliasSum(balances.aliases, v.target, v.amount);
      DebitAmountSum(balances.pks, v.source, v.amount.amount);
    }
  }

  // ---------------------------------------------------------------------
  // Bonds

  /** The key a bond's signature is checked against: a public-key source is
      its own key; an alias is looked up among the established accounts
      (which may have no key) and then among the validator accounts. */
  function ResolveBondSourcePk(source: AliasOrPk, established: map<Alias, Option<PublicKey>>, validators: map<Alias, PublicKey>)
    : (r: Option<PublicKey>)
    ensures source.ByPk? ==> r == Some(source.pk)
    ensures source.ByAlias? && source.alias in established && established[source.alias].Some? ==>
      r == established[source.alias]
    ensures source.ByAlias? && !(source.alias in established && established[source.alias].Some?) ==>
      r == if source.alias in validators then Some(validators[source.alias]) else None
  {
    match source
    case ByPk(pk) => Some(pk)
    case ByAlias(alias) =>
      var fromEstablished := if alias in established then established[alias] else None;
      match fromEstablished
      case Some(pk) => Some(pk)
      case None => if alias in validators then Some(validators[alias]) else None
  }

  /** The balance a bond draws on in the native token's ledger: an alias
      source's accumulated credits, or a key source's declared balance. */
  function BondSourceBalance(balances: TokenBalancesForValidation, source: AliasOrPk): Option<DenominatedAmount> {
    match source
    case ByAlias(alias) => if alias in balances.aliases then Some(balances.aliases[alias]) else None
    case ByPk(pk) => if pk in balances.pks then Some(balances.pks[pk]) else None
  }

  /** The bond's source holds, in the native token, at least the bonded amount. */
  predicate CanPayBond(ledger: Ledger, tx: BondTx, nativeToken: Alias) {
    && nativeToken in ledger
    && var balance := BondSourceBalance(ledger[nativeToken], tx.source);
    && balance.Some?
    && !AmountLt(balance.value, tx.amount)
  }

  /** The debit of a bond's source in the native token's ledger. */
  function ApplyBond(ledger: Ledger, tx: BondTx, nativeToken: Alias): (r: Option<Ledger>)
    ensures r.Some? <==> CanPayBond(ledger, tx, nativeToken)
  {
    if !CanPayBond(ledger, tx, nativeToken) then None
    else
      var balances := ledger[nativeToken];
      match tx.source
      case ByAlias(alias) =>
        Some(ledger[nativeToken := balances.(aliases := DebitExact(balances.aliases, alias, tx.amount))])
      case ByPk(pk) =>
        Some(ledger[nativeToken := balances.(pks := DebitExact(balances.pks, pk, tx.amount))])
  }

  /** `validate_bond` on ledger values. A bond whose amount cannot be given
      the native precision is dropped before the ledger is looked at;
      otherwise its source is debited whenever it can pay, and the bond is
      kept only if, besides, its signature verifies against the resolved
      source key and its validator is a declared validator account. */
  function BondStep(
    ledger: Ledger, tx: SignedBondTx,
    established: map<Alias, Option<PublicKey>>, validators: map<Alias, PublicKey>,
    parameters: Parameters, increasePrecision: IncreasePrecision): StepResult<BondTx>
  {
    var sourcePk := ResolveBondSourcePk(tx.data.source, established, validators);
    var signatureValid := sourcePk.Some? && BondVerifySig(tx, sourcePk.value);
    match DenominateBond(tx.data, increasePrecision)
    case Failure(_) => StepResult(None, ledger)
    case Success(validated) =>
      var applied := ApplyBond(ledger, validated, parameters.nativeToken);
      var valid := signatureValid && validated.validator in validators && applied.Some?;
      StepResult(if valid then Some(validated) else None, if applied.Some? then applied.value else ledger)
  }

  /** A bond that is kept is exactly the denominated input, signed by the
      key its source resolves to, and bonded to a declared validator. */
  predicate BondAccepted(
    tx: SignedBondTx, validated: BondTx,
    established: map<Alias, Option<PublicKey>>, validators: map<Alias, PublicKey>,
    increasePrecision: IncreasePrecision)
  {
    && DenominateBond(tx.data, increasePrecision) == Success(validated)
    && var sourcePk := ResolveBondSourcePk(tx.data.source, established, validators);
    && sourcePk.Some? && BondVerifySig(tx, sourcePk.value)
    && validated.validator in validators
  }

  /** A bond debits only the native token and credits nothing: an alias
      source is debited from the credits transferred to that alias, a key
      source from its declared balance, the entry disappearing on an exact
      match; every other balance is unchanged. */
  lemma BondStepDebits(
    ledger: Ledger, tx: SignedBondTx,
    established: map<Alias, Option<PublicKey>>, validators: map<Alias, PublicKey>,
    parameters: Parameters, increasePrecision: IncreasePrecision)
    requires DenominateBond(tx.data, increasePrecision).Success?
    requires CanPayBond(ledger, DenominateBond(tx.data, increasePrecision).value, parameters.nativeToken)
    ensures var v := DenominateBond(tx.data, increasePrecision).value;
      var r := BondStep(ledger, tx, established, validators, parameters, increasePrecision);
      var native := parameters.nativeToken;
      var before := ledger[native];
      && native in r.ledger
      && r.ledger - {native} == ledger - {native}
      && var after := r.ledger[native];
      && (v.source.ByAlias? ==>
           && after.pks == before.pks
           && (v.source.alias in after.aliases <==> v.amount != before.aliases[v.source.alias])
           && (v.source.alias in after.aliases ==>
                after.aliases[v.source.alias].amount == before.aliases[v.source.alias].amount - v.amount.amount)
           && after.aliases - {v.source.alias} == before.aliases - {v.source.alias})
      && (v.source.ByPk? ==>
           && after.aliases == before.aliases
           && (v.source.pk in after.pks <==> v.amount != before.pks[v.source.pk])
           && (v.source.pk in after.pks ==>
                after.pks[v.source.pk].amount == before.pks[v.source.pk].amount - v.amount.amount)
           && after.pks - {v.source.pk} == before.pks - {v.source.pk})
      && (r.validated.Some? <==> BondAccepted(tx, v, established, validators, increasePrecision))
  {
  }

  /** A bond that cannot be denominated, or whose source has no balance or
      too little in the native token, is dropped with the ledger unchanged. */
  lemma BondStepRejects(
    ledger: Ledger, tx: SignedBondTx,
    established: map<Alias, Option<PublicKey>>, validators: map<Alias, PublicKey>,
    parameters: Parameters, increasePrecision: IncreasePrecision)
    requires var d := DenominateBond(tx.data, increasePrecision);
      d.Failure? || !CanPayBond(ledger, d.value, parameters.nativeToken)
    ensures BondStep(ledger, tx, established, validators, parameters, increasePrecision) == StepResult(None, ledger)
  {
  }

  /** A bond step keeps or drops exactly what `BondAccepted` says, given
      that the source can pay. */
  lemma BondStepKeeps(
    ledger: Ledger, tx: SignedBondTx,
    established: map<Alias, Option<PublicKey>>, validators: map<Alias, PublicKey>,
    parameters: Parameters, increasePrecision: IncreasePrecision, v: BondTx)
    ensures BondStep(ledger, tx, established, validators, parameters, increasePrecision).validated == Some(v) <==>
      BondAccepted(tx, v, established, validators, increasePrecision) && CanPayBond(ledger, v, parameters.nativeToken)
  {
  }

  /** A bond that is kept has removed exactly its mantissa from the native
      token's holdings, and a bond step changes no other token's. */
  lemma BondStepSupply(
    ledger: Ledger, tx: SignedBondTx,
    established: map<Alias, Option<PublicKey>>, validators: map<Alias, PublicKey>,
    parameters: Parameters, increasePrecision: IncreasePrecision, token: Alias)
    ensures var r := BondStep(ledger, tx, established, validators, parameters, increasePrecision);
      && (token != parameters.nativeToken ==> Supply(r.ledger, token) == Supply(ledger, token))
      && (r.validated.Some? ==> Supply(r.ledger, parameters.nativeToken) + r.validated.value.amount.amount
                                  == Supply(ledger, parameters.nativeToken))
  {
    var d := DenominateBond(tx.data, increasePrecision);
    var native := parameters.nativeToken;
    if d.Success? && CanPayBond(ledger, d.value, native) {
      var v := d.value;
      var balances := ledger[native];
      match v.source
      case ByAlias(alias) => DebitExactSum(balances.aliases, alias, v.amount);
      case ByPk(pk) => DebitExactSum(balances.pks, pk, v.amount);
    }
  }

  // ---------------------------------------------------------------------
  // The simulated ledger as an object

  /** The token balances one validation pass mutates. */
  class LedgerSimulator {
    var balances: Ledger

    /** A copy of the declared balances, with empty alias accumulators. */
    constructor (declared: Option<DenominatedBalances>)
      ensures balances == SeedLedger(declared)
    {
      balances := SeedLedger(declared);
    }

    /** `validate_transfer`, updating the balances in place. */
    method ValidateTransfer(tx: SignedTransferTx, usedAliases: set<Alias>, tokens: Tokens, increasePrecision: IncreasePrecision)
      returns (validated: Option<TransferTx>)
      modifies this
      ensures StepResult(validated, balances) == TransferStep(old(balances), tx, usedAliases, tokens, increasePrecision)
    {
      var isValid := TransferVerifySig(tx);
      var denominated := DenominateTransfer(tx.data, tokens, increasePrecision);
      if denominated.Failure? {
        return None;
      }
      var v := denominated.value;
      if v.target !in usedAliases {
        isValid := false;
      }
      if v.token in balances {
        var tokenBalances := balances[v.token];
        if v.source in tokenBalances.pks {
          var balance := tokenBalances.pks[v.source];
          if balance.amount < v.amount.amount {
            isValid := false;
          } else {
            var pks := DebitAmount(tokenBalances.pks, v.source, v.amount.amount);
            var aliases := CreditAlias(tokenBalances.aliases, v.target, v.amount);
            balances := balances[v.token := TokenBalancesForValidation(aliases, pks)];
          }
        } else {
          isValid := false;
        }
      } else {
        isValid := false;
      }
      validated := if isValid then Some(v) else None;
    }

    /** `validate_bond`, updating the balances in place. */
    method ValidateBond(
      tx: SignedBondTx,
      established: map<Alias, Option<PublicKey>>, validators: map<Alias, PublicKey>,
      parameters: Parameters, increasePrecision: IncreasePrecision)
      returns (validated: Option<BondTx>)
      modifies this
      ensures StepResult(validated, balances) == BondStep(old(balances), tx, established, validators, parameters, increasePrecision)
    {
      var sourcePk := ResolveBondSourcePk(tx.data.source, established, validators);
      var isValid := sourcePk.Some? && BondVerifySig(tx, sourcePk.value);
      var denominated := DenominateBond(tx.data, increasePrecision);
      if denominated.Failure? {
        return None;
      }
      var v := denominated.value;
      if v.validator !in validators {
        isValid := false;
      }
      var native := parameters.nativeToken;
      if native in balances {
        var tokenBalances := balances[native];
        var balance := BondSourceBalance(tokenBalances, v.source);
        if balance.None? || AmountLt(balance.value, v.amount) {
          isValid := false;
        } else {
          match v.source
          case ByAlias(alias) =>
            balances := balances[native := tokenBalances.(aliases := DebitExact(tokenBalances.aliases, alias, v.amount))];
          case ByPk(pk) =>
            balances := balances[native := tokenBalances.(pks := DebitExact(tokenBalances.pks, pk, v.amount))];
        }
      } else {
        isValid := false;
      }
      validated := if isValid then Some(v) else None;
    }
  }
}
