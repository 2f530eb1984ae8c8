/** `validate`: the account checks, then the transfers and then the bonds
    against one simulated ledger, and the all-or-nothing verdict. */
module Validation {
  import opened Wrappers
  import opened Crypto
  import opened TxModel
  import opened TxBatch
  import opened BalanceLedger
  import opened AccountChecks
  import opened LedgerSteps

  /** What a `filter_map` over one category's steps has kept so far, and
      the ledger after those steps. */
  datatype PhaseResult<T> = PhaseResult(validated: seq<T>, ledger: Ledger)

  function Kept<T>(o: Option<T>): seq<T> {
    match o
    case None => []
    case Some(v) => [v]
  }

  /** The transfer loop after its first `|txs|` transfers. */
  function TransferPhase(ledger: Ledger, txs: seq<SignedTransferTx>, usedAliases: set<Alias>, tokens: Tokens, increasePrecision: IncreasePrecision)
    : PhaseResult<TransferTx>
    decreases |txs|
  {
    if txs == [] then PhaseResult([], ledger)
    else
      var prev := TransferPhase(ledger, txs[..|txs| - 1], usedAliases, tokens, increasePrecision);
      var step := TransferStep(prev.ledger, txs[|txs| - 1], usedAliases, tokens, increasePrecision);
      PhaseResult(prev.validated + Kept(step.validated), step.ledger)
  }

  /** The bond loop after its first `|txs|` bonds. */
  function BondPhase(ledger: Ledger, txs: seq<SignedBondTx>, registry: Registry, parameters: Parameters, increasePrecision: IncreasePrecision)
    : PhaseResult<BondTx>
    decreases |txs|
  {
    if txs == [] then PhaseResult([], ledger)
    else
      var prev := BondPhase(ledger, txs[..|txs| - 1], registry, parameters, increasePrecision);
      var step := BondStep(prev.ledger, txs[|txs| - 1], registry.establishedAccounts, registry.validatorAccounts, parameters, increasePrecision);
      PhaseResult(prev.validated + Kept(step.validated), step.ledger)
  }

  /** A validated category, whether it passed, and the ledger after it. */
  datatype CategoryResult<T> = CategoryResult(valid: bool, validated: Option<seq<T>>, ledger: Ledger)

  /** The transfer category: absent stays absent; otherwise it passes only if
      every transfer was kept, and is dropped whole if not. */
  function TransferCategory(ledger: Ledger, category: Option<seq<SignedTransferTx>>, usedAliases: set<Alias>, tokens: Tokens, increasePrecision: IncreasePrecision)
    : CategoryResult<TransferTx>
  {
    match category
    case None => CategoryResult(true, None, ledger)
    case Some(txs) =>
      var phase := TransferPhase(ledger, txs, usedAliases, tokens, increasePrecision);
      if |phase.validated| != |txs| then CategoryResult(false, None, phase.ledger)
      else CategoryResult(true, Some(phase.validated), phase.ledger)
  }

  /** The bond category: absent or empty yields an absent category;
      non-empty bonds cannot be validated without parameters; otherwise as
      for transfers. */
  function BondCategory(ledger: Ledger, category: Option<seq<SignedBondTx>>, registry: Registry, parameters: Option<Parameters>, increasePrecision: IncreasePrecision)
    : CategoryResult<BondTx>
  {
    match category
    case None => CategoryResult(true, None, ledger)
    case Some(txs) =>
      if txs == [] then CategoryResult(true, None, ledger)
      else
        match parameters
        case None => CategoryResult(false, None, ledger)
        case Some(params) =>
          var phase := BondPhase(ledger, txs, registry, params, increasePrecision);
          if |phase.validated| != |txs| then CategoryResult(false, None, phase.ledger)
          else CategoryResult(true, Some(phase.validated), phase.ledger)
  }

  /** `validate` on values: the batch with its transfers and bonds
      denominated when no check failed, and nothing otherwise. */
  function ValidateSpec(
    transactions: UnvalidatedTransactions,
    vps: Option<ValidityPredicates>,
    balances: Option<DenominatedBalances>,
    tokens: Tokens,
    parameters: Option<Parameters>,
    increasePrecision: IncreasePrecision): Option<ValidatedTransactions>
  {
    var accounts := AccountsPhase(transactions.establishedAccount, transactions.validatorAccount, vps);
    var transfers := TransferCategory(SeedLedger(balances), transactions.transfer, accounts.registry.usedAliases, tokens, increasePrecision);
    var bonds := BondCategory(transfers.ledger, transactions.bond, accounts.registry, parameters, increasePrecision);
    if accounts.valid && transfers.valid && bonds.valid then
      Some(Transactions(transactions.establishedAccount, transactions.validatorAccount, transfers.validated, bonds.validated))
    else
      None
  }

  /** The two account loops of `validate`, threading the alias registry
      and clearing the flag on any failed check. */
  method CheckAccounts(
    established: Option<seq<SignedEstablishedAccountTx>>,
    validators: Option<seq<SignedValidatorAccountTx>>,
    vps: Option<ValidityPredicates>)
    returns (isValid: bool, registry: Registry)
    ensures AccountCheck(isValid, registry) == AccountsPhase(established, validators, vps)
  {
    isValid := true;
    registry := Initial.registry;
    var txs := Txs(established);
    var i := 0;
    while i < |txs|
      invariant 0 <= i <= |txs|
      invariant AccountCheck(isValid, registry) == EstablishedAccountsPhase(Initial, txs[..i], vps)
    {
      assert txs[..i + 1][..i] == txs[..i];
      var check := ValidateEstablishedAccount(registry, txs[i], vps);
      assert EstablishedAccountsPhase(Initial, txs[..i + 1], vps) == AccountCheck(isValid && check.valid, check.registry);
      if !check.valid {
        isValid := false;
      }
      registry := check.registry;
      i := i + 1;
    }
    assert txs[..i] == txs;
    ghost var afterEstablished := AccountCheck(isValid, registry);

    var validatorTxs := Txs(validators);
    i := 0;
    while i < |validatorTxs|
      invariant 0 <= i <= |validatorTxs|
      invariant AccountCheck(isValid, registry) == ValidatorAccountsPhase(afterEstablished, validatorTxs[..i], vps)
    {
      assert validatorTxs[..i + 1][..i] == validatorTxs[..i];
      var check := ValidateValidatorAccount(registry, validatorTxs[i], vps);
      assert ValidatorAccountsPhase(afterEstablished, validatorTxs[..i + 1], vps) == AccountCheck(isValid && check.valid, check.registry);
      if !check.valid {
        isValid := false;
      }
      registry := check.registry;
      i := i + 1;
    }
    assert validatorTxs[..i] == validatorTxs;
  }

  /** The `filter_map` over the transfers, mutating the simulated ledger. */
  method ValidateTransfers(ledger: LedgerSimulator, txs: seq<SignedTransferTx>, usedAliases: set<Alias>, tokens: Tokens, increasePrecision: IncreasePrecision)
    returns (kept: seq<TransferTx>)
    modifies ledger
    ensures PhaseResult(kept, ledger.balances) == TransferPhase(old(ledger.balances), txs, usedAliases, tokens, increasePrecision)
  {
    ghost var start := ledger.balances;
    kept := [];
    var i := 0;
    while i < |txs|
      invariant 0 <= i <= |txs|
      invariant PhaseResult(kept, ledger.balances) == TransferPhase(start, txs[..i], usedAliases, tokens, increasePrecision)
    {
      assert txs[..i + 1][..i] == txs[..i];
      var validated := ledger.ValidateTransfer(txs[i], usedAliases, tokens, increasePrecision);
      if validated.Some? {
        kept := kept + [validated.value];
      }
      i := i + 1;
    }
    assert txs[..i] == txs;
  }

  /** The `filter_map` over the bonds, mutating the simulated ledger. */
  method ValidateBonds(ledger: LedgerSimulator, txs: seq<SignedBondTx>, registry: Registry, parameters: Parameters, increasePrecision: IncreasePrecision)
    returns (kept: seq<BondTx>)
    modifies ledger
    ensures PhaseResult(kept, ledger.balances) == BondPhase(old(ledger.balances), txs, registry, parameters, increasePrecision)
  {
    ghost var start := ledger.balances;
    kept := [];
    var i := 0;
    while i < |txs|
      invariant 0 <= i <= |txs|
      invariant PhaseResult(kept, ledger.balances) == BondPhase(start, txs[..i], registry, parameters, increasePrecision)
    {
      assert txs[..i + 1][..i] == txs[..i];
      var validated := ledger.ValidateBond(
        txs[i], registry.establishedAccounts, registry.validatorAccounts, parameters, increasePrecision);
      if validated.Some? {
        kept := kept + [validated.value];
      }
      i := i + 1;
    }
    assert txs[..i] == txs;
  }

  /** `validate`: the account loops, then the transfers and the bonds on
      one simulated ledger, each category dropped whole and the flag
      cleared when it lost a transaction. */
  method Validate(
    transactions: UnvalidatedTransactions,
    vps: Option<ValidityPredicates>,
    balances: Option<DenominatedBalances>,
    tokens: Tokens,
    parameters: Option<Parameters>,
    increasePrecision: IncreasePrecision)
    returns (r: Option<ValidatedTransactions>)
    ensures r == ValidateSpec(transactions, vps, balances, tokens, parameters, increasePrecision)
  {
    var isValid, registry := CheckAccounts(transactions.establishedAccount, transactions.validatorAccount, vps);
    var ledger := new LedgerSimulator(balances);

    var validatedTransfers: Option<seq<TransferTx>> := None;
    if transactions.transfer.Some? {
      var kept := ValidateTransfers(ledger, transactions.transfer.value, registry.usedAliases, tokens, increasePrecision);
      if |kept| != |transactions.transfer.value| {
        isValid := false;
      } else {
        validatedTransfers := Some(kept);
      }
    }
    ghost var transfers := TransferCategory(SeedLedger(balances), transactions.transfer, registry.usedAliases, tokens, increasePrecision);
    assert ledger.balances == transfers.ledger;

    var validatedBonds: Option<seq<BondTx>> := None;
    if transactions.bond.Some? && transactions.bond.value != [] {
      if parameters.Some? {
        var kept := ValidateBonds(ledger, transactions.bond.value, registry, parameters.value, increasePrecision);
        if |kept| != |transactions.bond.value| {
          isValid := false;
        } else {
          validatedBonds := Some(kept);
        }
      } else {
        isValid := false;
      }
    }

    r := if isValid
      then Some(Transactions(transactions.establishedAccount, transactions.validatorAccount, validatedTransfers, validatedBonds))
      else None;
  }

  // ---------------------------------------------------------------------
  // What the transfer and bond loops establish

  /** The transfer loop keeps at most one transfer per input. */
  lemma {:induction false} TransferPhaseLength(ledger: Ledger, txs: seq<SignedTransferTx>, usedAliases: set<Alias>, tokens: Tokens, increasePrecision: IncreasePrecision)
    ensures |TransferPhase(ledger, txs, usedAliases, tokens, increasePrecision).validated| <= |txs|
    decreases |txs|
  {
    if txs != [] {
      TransferPhaseLength(ledger, txs[..|txs| - 1], usedAliases, tokens, increasePrecision);
    }
  }

  /** When the transfer loop keeps every transfer, the one kept at position
      `i` is what the step for input `i` returned on the ledger as the
      earlier transfers left it. */
  lemma {:induction false} TransferPhaseStepAt(ledger: Ledger, txs: seq<SignedTransferTx>, usedAliases: set<Alias>, tokens: Tokens, increasePrecision: IncreasePrecision, i: nat)
    requires i < |txs|
    requires |TransferPhase(ledger, txs, usedAliases, tokens, increasePrecision).validated| == |txs|
    ensures TransferStep(TransferPhase(ledger, txs[..i], usedAliases, tokens, increasePrecision).ledger, txs[i], usedAliases, tokens, increasePrecision).validated
      == Some(TransferPhase(ledger, txs, usedAliases, tokens, increasePrecision).validated[i])
    decreases |txs|
  {
    var prefix := txs[..|txs| - 1];
    var prev := TransferPhase(ledger, prefix, usedAliases, tokens, increasePrecision);
    TransferPhaseLength(ledger, prefix, usedAliases, tokens, increasePrecision);
    if i < |prefix| {
      TransferPhaseStepAt(ledger, prefix, usedAliases, tokens, increasePrecision, i);
      assert prefix[..i] == txs[..i] && prefix[i] == txs[i];
    } else {
      assert txs[..i] == prefix;
    }
  }

  /** The transfer loop keeps at most one transfer per input; when it keeps
      all of them, each kept transfer is the denominated form of the input
      at the same position, signed by its source, aimed at a registered
      alias, and paid for out of the ledger as the earlier transfers left
      it. */
  lemma TransferPhaseKeeps(ledger: Ledger, txs: seq<SignedTransferTx>, usedAliases: set<Alias>, tokens: Tokens, increasePrecision: IncreasePrecision)
    ensures var r := TransferPhase(ledger, txs, usedAliases, tokens, increasePrecision);
      && |r.validated| <= |txs|
      && (|r.validated| == |txs| ==>
            forall i | 0 <= i < |txs| ::
              && TransferAccepted(txs[i], r.validated[i], usedAliases, tokens, increasePrecision)
              && CanPayTransfer(TransferPhase(ledger, txs[..i], usedAliases, tokens, increasePrecision).ledger, r.validated[i]))
  {
    var r := TransferPhase(ledger, txs, usedAliases, tokens, increasePrecision);
    TransferPhaseLength(ledger, txs, usedAliases, tokens, increasePrecision);
    if |r.validated| == |txs| {
      forall i | 0 <= i < |txs|
        ensures TransferAccepted(txs[i], r.validated[i], usedAliases, tokens, increasePrecision)
        ensures CanPayTransfer(TransferPhase(ledger, txs[..i], usedAliases, tokens, increasePrecision).ledger, r.validated[i])
      {
        TransferPhaseStepAt(ledger, txs, usedAliases, tokens, increasePrecision, i);
        TransferStepKeeps(TransferPhase(ledger, txs[..i], usedAliases, tokens, increasePrecision).ledger, txs[i], usedAliases, tokens, increasePrecision, r.validated[i]);
      }
    }
  }

  /** Every transfer, at its turn, is kept by its step on the ledger as the
      earlier transfers left it. */
  predicate EveryTransferKept(ledger: Ledger, txs: seq<SignedTransferTx>, usedAliases: set<Alias>, tokens: Tokens, increasePrecision: IncreasePrecision) {
    forall i | 0 <= i < |txs| ::
      TransferStep(TransferPhase(ledger, txs[..i], usedAliases, tokens, increasePrecision).ledger, txs[i], usedAliases, tokens, increasePrecision).validated.Some?
  }

  /** What holds of every transfer holds of every transfer but the last. */
  lemma EveryTransferKeptPrefix(ledger: Ledger, txs: seq<SignedTransferTx>, usedAliases: set<Alias>, tokens: Tokens, increasePrecision: IncreasePrecision, prefix: seq<SignedTransferTx>)
    requires txs != [] && prefix == txs[..|txs| - 1]
    requires EveryTransferKept(ledger, txs, usedAliases, tokens, increasePrecision)
    ensures EveryTransferKept(ledger, prefix, usedAliases, tokens, increasePrecision)
  {
    forall i | 0 <= i < |prefix|
      ensures TransferStep(TransferPhase(ledger, prefix[..i], usedAliases, tokens, increasePrecision).ledger, prefix[i], usedAliases, tokens, increasePrecision).validated.Some?
    {
      assert prefix[..i] == txs[..i] && prefix[i] == txs[i];
    }
  }

  /** The transfer loop keeps every transfer exactly when each step, at its
      turn, keeps its transfer. */
  lemma {:induction false} TransferPhaseAllKept(ledger: Ledger, txs: seq<SignedTransferTx>, usedAliases: set<Alias>, tokens: Tokens, increasePrecision: IncreasePrecision)
    ensures |TransferPhase(ledger, txs, usedAliases, tokens, increasePrecision).validated| == |txs|
      <==> EveryTransferKept(ledger, txs, usedAliases, tokens, increasePrecision)
    decreases |txs|
  {
    if |TransferPhase(ledger, txs, usedAliases, tokens, increasePrecision).validated| == |txs| {
      forall i | 0 <= i < |txs|
        ensures TransferStep(TransferPhase(ledger, txs[..i], usedAliases, tokens, increasePrecision).ledger, txs[i], usedAliases, tokens, increasePrecision).validated.Some?
      {
        TransferPhaseStepAt(ledger, txs, usedAliases, tokens, increasePrecision, i);
      }
    }
    if txs != [] && EveryTransferKept(ledger, txs, usedAliases, tokens, increasePrecision) {
      var prefix := txs[..|txs| - 1];
      EveryTransferKeptPrefix(ledger, txs, usedAliases, tokens, increasePrecision, prefix);
      TransferPhaseAllKept(ledger, prefix, usedAliases, tokens, increasePrecision);
      assert txs[..|prefix|] == prefix;
    }
  }

  /** The transfer loop conserves every token's total holdings. */
  lemma {:induction false} TransferPhaseConserves(ledger: Ledger, txs: seq<SignedTransferTx>, usedAliases: set<Alias>, tokens: Tokens, increasePrecision: IncreasePrecision, token: Alias)
    ensures Supply(TransferPhase(ledger, txs, usedAliases, tokens, increasePrecision).ledger, token) == Supply(ledger, token)
    decreases |txs|
  {
    if txs != [] {
      var prefix := txs[..|txs| - 1];
      TransferPhaseConserves(ledger, prefix, usedAliases, tokens, increasePrecision, token);
      var prev := TransferPhase(ledger, prefix, usedAliases, tokens, increasePrecision);
      TransferStepConserves(prev.ledger, txs[|txs| - 1], usedAliases, tokens, increasePrecision, token);
    }
  }

  /** The total mantissa of a sequence of bonds. */
  function BondedAmount(bonds: seq<BondTx>): nat
    decreases |bonds|
  {
    if bonds == [] then 0 else BondedAmount(bonds[..|bonds| - 1]) + bonds[|bonds| - 1].amount.amount
  }

  /** The bond loop keeps at most one bond per input. */
  lemma {:induction false} BondPhaseLength(ledger: Ledger, txs: seq<SignedBondTx>, registry: Registry, parameters: Parameters, increasePrecision: IncreasePrecision)
    ensures |BondPhase(ledger, txs, registry, parameters, increasePrecision).validated| <= |txs|
    decreases |txs|
  {
    if txs != [] {
      BondPhaseLength(ledger, txs[..|txs| - 1], registry, parameters, increasePrecision);
    }
  }

  /** When the bond loop keeps every bond, the one kept at position `i` is
      what the step for input `i` returned on the ledger as the earlier
      bonds left it. */
  lemma {:induction false} BondPhaseStepAt(ledger: Ledger, txs: seq<SignedBondTx>, registry: Registry, parameters: Parameters, increasePrecision: IncreasePrecision, i: nat)
    requires i < |txs|
    requires |BondPhase(ledger, txs, registry, parameters, increasePrecision).validated| == |txs|
    ensures BondStep(BondPhase(ledger, txs[..i], registry, parameters, increasePrecision).ledger, txs[i],
                     registry.establishedAccounts, registry.validatorAccounts, parameters, increasePrecision).validated
      == Some(BondPhase(ledger, txs, registry, parameters, increasePrecision).validated[i])
    decreases |txs|
  {
    var prefix := txs[..|txs| - 1];
    BondPhaseLength(ledger, prefix, registry, parameters, increasePrecision);
    if i < |prefix| {
      BondPhaseStepAt(ledger, prefix, registry, parameters, increasePrecision, i);
      assert prefix[..i] == txs[..i] && prefix[i] == txs[i];
    } else {
      assert txs[..i] == prefix;
    }
  }

  /** The bond loop keeps at most one bond per input; when it keeps all of
      them, each kept bond is the denominated input at the same position,
      signed by its source's key, bonded to a declared validator, and paid
      for out of the native balances as the earlier bonds left them. */
  lemma BondPhaseKeeps(ledger: Ledger, txs: seq<SignedBondTx>, registry: Registry, parameters: Parameters, increasePrecision: IncreasePrecision)
    ensures var r := BondPhase(ledger, txs, registry, parameters, increasePrecision);
      && |r.validated| <= |txs|
      && (|r.validated| == |txs| ==>
            forall i | 0 <= i < |txs| ::
              && BondAccepted(txs[i], r.validated[i], registry.establishedAccounts, registry.validatorAccounts, increasePrecision)
              && CanPayBond(BondPhase(ledger, txs[..i], registry, parameters, increasePrecision).ledger, r.validated[i], parameters.nativeToken))
  {
    var r := BondPhase(ledger, txs, registry, parameters, increasePrecision);
    BondPhaseLength(ledger, txs, registry, parameters, increasePrecision);
    if |r.validated| == |txs| {
      forall i | 0 <= i < |txs|
        ensures BondAccepted(txs[i], r.validated[i], registry.establishedAccounts, registry.validatorAccounts, increasePrecision)
        ensures CanPayBond(BondPhase(ledger, txs[..i], registry, parameters, increasePrecision).ledger, r.validated[i], parameters.nativeToken)
      {
        BondPhaseStepAt(ledger, txs, registry, parameters, increasePrecision, i);
        BondStepKeeps(BondPhase(ledger, txs[..i], registry, parameters, increasePrecision).ledger, txs[i],
          registry.establishedAccounts, registry.validatorAccounts, parameters, increasePrecision, r.validated[i]);
      }
    }
  }

  /** Every bond, at its turn, is kept by its step on the ledger as the
      earlier bonds left it. */
  predicate EveryBondKept(ledger: Ledger, txs: seq<SignedBondTx>, registry: Registry, parameters: Parameters, increasePrecision: IncreasePrecision) {
    forall i | 0 <= i < |txs| ::
      BondStep(BondPhase(ledger, txs[..i], registry, parameters, increasePrecision).ledger, txs[i],
               registry.establishedAccounts, registry.validatorAccounts, parameters, increasePrecision).validated.Some?
  }

  /** What holds of every bond holds of every bond but the last. */
  lemma EveryBondKeptPrefix(ledger: Ledger, txs: seq<SignedBondTx>, registry: Registry, parameters: Parameters, increasePrecision: IncreasePrecision, prefix: seq<SignedBondTx>)
    requires txs != [] && prefix == txs[..|txs| - 1]
    requires EveryBondKept(ledger, txs, registry, parameters, increasePrecision)
    ensures EveryBondKept(ledger, prefix, registry, parameters, increasePrecision)
  {
    forall i | 0 <= i < |prefix|
      ensures BondStep(BondPhase(ledger, prefix[..i], registry, parameters, increasePrecision).ledger, prefix[i],
                       registry.establishedAccounts, registry.validatorAccounts, parameters, increasePrecision).validated.Some?
    {
      assert prefix[..i] == txs[..i] && prefix[i] == txs[i];
    }
  }

  /** The bond loop keeps every bond exactly when each step, at its turn,
      keeps its bond. */
  lemma {:induction false} BondPhaseAllKept(ledger: Ledger, txs: seq<SignedBondTx>, registry: Registry, parameters: Parameters, increasePrecision: IncreasePrecision)
    ensures |BondPhase(ledger, txs, registry, parameters, increasePrecision).validated| == |txs|
      <==> EveryBondKept(ledger, txs, registry, parameters, increasePrecision)
    decreases |txs|
  {
    if |BondPhase(ledger, txs, registry, parameters, increasePrecision).validated| == |txs| {
      forall i | 0 <= i < |txs|
        ensures BondStep(BondPhase(ledger, txs[..i], registry, parameters, increasePrecision).ledger, txs[i],
                         registry.establishedAccounts, registry.validatorAccounts, parameters, increasePrecision).validated.Some?
      {
        BondPhaseStepAt(ledger, txs, registry, parameters, increasePrecision, i);
      }
    }
    if txs != [] && EveryBondKept(ledger, txs, registry, parameters, increasePrecision) {
      var prefix := txs[..|txs| - 1];
      EveryBondKeptPrefix(ledger, txs, registry, parameters, increasePrecision, prefix);
      BondPhaseAllKept(ledger, prefix, registry, parameters, increasePrecision);
      assert txs[..|prefix|] == prefix;
    }
  }

  /** The bond loop changes no token's holdings but the native token's, and
      when it keeps every bond the native holdings have fallen by exactly the
      total bonded. */
  lemma {:induction false} BondPhaseSupply(ledger: Ledger, txs: seq<SignedBondTx>, registry: Registry, parameters: Parameters, increasePrecision: IncreasePrecision, token: Alias)
    ensures var r := BondPhase(ledger, txs, registry, parameters, increasePrecision);
      && (token != parameters.nativeToken ==> Supply(r.ledger, token) == Supply(ledger, token))
      && (|r.validated| == |txs| ==>
            Supply(r.ledger, parameters.nativeToken) + BondedAmount(r.validated) == Supply(ledger, parameters.nativeToken))
    decreases |txs|
  {
    if txs != [] {
      var prefix := txs[..|txs| - 1];
      var last := txs[|txs| - 1];
      var prev := BondPhase(ledger, prefix, registry, parameters, increasePrecision);
      var step := BondStep(prev.ledger, last, registry.establishedAccounts, registry.validatorAccounts, parameters, increasePrecision);
      BondPhaseSupply(ledger, prefix, registry, parameters, increasePrecision, token);
      BondPhaseLength(ledger, prefix, registry, parameters, increasePrecision);
      BondStepSupply(prev.ledger, last, registry.establishedAccounts, registry.validatorAccounts, parameters, increasePrecision, token);
      if step.validated.Some? {
        var all := prev.validated + [step.validated.value];
        assert all[..|all| - 1] == prev.validated;
      }
    }
  }

  // ---------------------------------------------------------------------
  // What `validate` promises

  /** The key a bond source stands for, read off the declarations: a key
      source is itself; an alias is the key declared by the last established
      account of that alias, if it declared one, and otherwise the account
      key of the last validator account of that alias. */
  function DeclaredSourcePk(established: seq<SignedEstablishedAccountTx>, validators: seq<SignedValidatorAccountTx>, source: AliasOrPk)
    : (r: Option<PublicKey>)
    ensures source.ByPk? ==> r == Some(source.pk)
    ensures source.ByAlias? && r.Some? ==>
      || (exists i | 0 <= i < |established| :: established[i].alias == source.alias && DeclaredPk(established[i]) == r)
      || (exists j | 0 <= j < |validators| :: validators[j].alias == source.alias && validators[j].accountKey.pk == r.value)
    ensures source.ByAlias? && source.alias !in EstablishedAliases(established) && source.alias !in ValidatorAliases(validators) ==>
      r.None?
  {
    match source
    case ByPk(pk) => Some(pk)
    case ByAlias(alias) =>
      var fromEstablished := match LastIndexOf(EstablishedAliases(established), alias)
        case Some(i) => DeclaredPk(established[i])
        case None => None;
      if fromEstablished.Some? then fromEstablished
      else
        match LastIndexOf(ValidatorAliases(validators), alias)
        case Some(j) => Some(validators[j].accountKey.pk)
        case None => None
  }

  /** The registry the account loops build resolves every bond source to the
      key its declarations give it. */
  lemma AccountsPhaseResolves(
    established: Option<seq<SignedEstablishedAccountTx>>,
    validators: Option<seq<SignedValidatorAccountTx>>,
    vps: Option<ValidityPredicates>,
    source: AliasOrPk)
    ensures var registry := AccountsPhase(established, validators, vps).registry;
      ResolveBondSourcePk(source, registry.establishedAccounts, registry.validatorAccounts)
        == DeclaredSourcePk(Txs(established), Txs(validators), source)
  {
    AccountsPhaseRegistry(established, validators, vps);
    AccountsPhaseValues(established, validators, vps);
  }

  /** A validated batch returns its accounts unchanged, and its accounts
      passed every check: aliases pairwise distinct across established and
      validator accounts, every VP known and every signature valid. */
  lemma ValidateAccounts(
    transactions: UnvalidatedTransactions, vps: Option<ValidityPredicates>, balances: Option<DenominatedBalances>,
    tokens: Tokens, parameters: Option<Parameters>, increasePrecision: IncreasePrecision)
    requires ValidateSpec(transactions, vps, balances, tokens, parameters, increasePrecision).Some?
    ensures var r := ValidateSpec(transactions, vps, balances, tokens, parameters, increasePrecision).value;
      && r.establishedAccount == transactions.establishedAccount
      && r.validatorAccount == transactions.validatorAccount
      && Distinct(AllAliases(transactions.establishedAccount, transactions.validatorAccount))
      && (forall i | 0 <= i < |Txs(transactions.establishedAccount)| ::
            PassesEstablishedChecks(vps, Txs(transactions.establishedAccount)[i]))
      && (forall i | 0 <= i < |Txs(transactions.validatorAccount)| ::
            PassesValidatorChecks(vps, Txs(transactions.validatorAccount)[i]))
  {
    AccountsPhaseValid(transactions.establishedAccount, transactions.validatorAccount, vps);
  }

  /** A repeated alias anywhere among the accounts rejects the batch. */
  lemma ValidateRejectsDuplicateAlias(
    transactions: UnvalidatedTransactions, vps: Option<ValidityPredicates>, balances: Option<DenominatedBalances>,
    tokens: Tokens, parameters: Option<Parameters>, increasePrecision: IncreasePrecision)
    requires !Distinct(AllAliases(transactions.establishedAccount, transactions.validatorAccount))
    ensures ValidateSpec(transactions, vps, balances, tokens, parameters, increasePrecision).None?
  {
    AccountsPhaseValid(transactions.establishedAccount, transactions.validatorAccount, vps);
  }

  /** In a validated batch the transfer category is present exactly when it
      was declared, with one transfer per declared transfer, each the
      denominated declaration, signed by its source, aimed at an alias of
      the batch's accounts, and paid for out of the balances as the earlier
      transfers left them. */
  lemma ValidateKeepsTransfers(
    transactions: UnvalidatedTransactions, vps: Option<ValidityPredicates>, balances: Option<DenominatedBalances>,
    tokens: Tokens, parameters: Option<Parameters>, increasePrecision: IncreasePrecision)
    requires ValidateSpec(transactions, vps, balances, tokens, parameters, increasePrecision).Some?
    ensures var r := ValidateSpec(transactions, vps, balances, tokens, parameters, increasePrecision).value;
      var aliases := AliasSet(AllAliases(transactions.establishedAccount, transactions.validatorAccount));
      && (r.transfer.Some? <==> transactions.transfer.Some?)
      && (r.transfer.Some? ==>
            && |r.transfer.value| == |transactions.transfer.value|
            && forall i | 0 <= i < |r.transfer.value| ::
                 && TransferAccepted(transactions.transfer.value[i], r.transfer.value[i], aliases, tokens, increasePrecision)
                 && CanPayTransfer(
                      TransferPhase(SeedLedger(balances), transactions.transfer.value[..i], aliases, tokens, increasePrecision).ledger,
                      r.transfer.value[i]))
  {
    AccountsPhaseRegistry(transactions.establishedAccount, transactions.validatorAccount, vps);
    if transactions.transfer.Some? {
      var accounts := AccountsPhase(transactions.establishedAccount, transactions.validatorAccount, vps);
      TransferPhaseKeeps(SeedLedger(balances), transactions.transfer.value, accounts.registry.usedAliases, tokens, increasePrecision);
    }
  }

  /** In a validated batch the bond category is present exactly when a
      non-empty one was declared, with one bond per declared bond, each the
      denominated declaration, signed with the key its source's declarations
      give it, bonded to one of the batch's validators, and paid for out of
      the native balances as the transfers and the earlier bonds left them. */
  lemma ValidateKeepsBonds(
    transactions: UnvalidatedTransactions, vps: Option<ValidityPredicates>, balances: Option<DenominatedBalances>,
    tokens: Tokens, parameters: Option<Parameters>, increasePrecision: IncreasePrecision)
    requires ValidateSpec(transactions, vps, balances, tokens, parameters, increasePrecision).Some?
    ensures var r := ValidateSpec(transactions, vps, balances, tokens, parameters, increasePrecision).value;
      var accounts := AccountsPhase(transactions.establishedAccount, transactions.validatorAccount, vps);
      var transfers := TransferCategory(SeedLedger(balances), transactions.transfer, accounts.registry.usedAliases, tokens, increasePrecision);
      && (r.bond.Some? <==> transactions.bond.Some? && transactions.bond.value != [])
      && (r.bond.Some? ==>
            && parameters.Some?
            && |r.bond.value| == |transactions.bond.value|
            && forall i | 0 <= i < |r.bond.value| ::
                 var tx := transactions.bond.value[i];
                 var pk := DeclaredSourcePk(Txs(transactions.establishedAccount), Txs(transactions.validatorAccount), tx.data.source);
                 && DenominateBond(tx.data, increasePrecision) == Success(r.bond.value[i])
                 && pk.Some? && BondVerifySig(tx, pk.value)
                 && r.bond.value[i].validator in ValidatorAliases(Txs(transactions.validatorAccount))
                 && CanPayBond(
                      BondPhase(transfers.ledger, transactions.bond.value[..i], accounts.registry, parameters.value, increasePrecision).ledger,
                      r.bond.value[i], parameters.value.nativeToken))
  {
    var r := ValidateSpec(transactions, vps, balances, tokens, parameters, increasePrecision).value;
    var accounts := AccountsPhase(transactions.establishedAccount, transactions.validatorAccount, vps);
    AccountsPhaseRegistry(transactions.establishedAccount, transactions.validatorAccount, vps);
    if transactions.bond.Some? && transactions.bond.value != [] && parameters.Some? {
      var transfers := TransferCategory(SeedLedger(balances), transactions.transfer, accounts.registry.usedAliases, tokens, increasePrecision);
      BondPhaseKeeps(transfers.ledger, transactions.bond.value, accounts.registry, parameters.value, increasePrecision);
      forall i | 0 <= i < |transactions.bond.value| {
        AccountsPhaseResolves(transactions.establishedAccount, transactions.validatorAccount, vps, transactions.bond.value[i].data.source);
      }
    }
  }

  /** Each transfer is accepted, and payable on the ledger as the earlier
      transfers left it. */
  predicate EveryTransferPasses(ledger: Ledger, txs: seq<SignedTransferTx>, usedAliases: set<Alias>, tokens: Tokens, increasePrecision: IncreasePrecision) {
    forall i | 0 <= i < |txs| ::
      var d := DenominateTransfer(txs[i].data, tokens, increasePrecision);
      && d.Success?
      && TransferAccepted(txs[i], d.value, usedAliases, tokens, increasePrecision)
      && CanPayTransfer(TransferPhase(ledger, txs[..i], usedAliases, tokens, increasePrecision).ledger, d.value)
  }

  /** Transfers that each pass are all kept. */
  lemma TransferPhaseAccepts(ledger: Ledger, txs: seq<SignedTransferTx>, usedAliases: set<Alias>, tokens: Tokens, increasePrecision: IncreasePrecision)
    requires EveryTransferPasses(ledger, txs, usedAliases, tokens, increasePrecision)
    ensures |TransferPhase(ledger, txs, usedAliases, tokens, increasePrecision).validated| == |txs|
  {
    forall i | 0 <= i < |txs|
      ensures TransferStep(TransferPhase(ledger, txs[..i], usedAliases, tokens, increasePrecision).ledger, txs[i], usedAliases, tokens, increasePrecision).validated.Some?
    {
      var before := TransferPhase(ledger, txs[..i], usedAliases, tokens, increasePrecision).ledger;
      TransferStepKeeps(before, txs[i], usedAliases, tokens, increasePrecision, DenominateTransfer(txs[i].data, tokens, increasePrecision).value);
    }
    TransferPhaseAllKept(ledger, txs, usedAliases, tokens, increasePrecision);
  }

  /** Each bond is accepted, and payable on the native ledger as the earlier
      bonds left it. */
  predicate EveryBondPasses(ledger: Ledger, txs: seq<SignedBondTx>, registry: Registry, parameters: Parameters, increasePrecision: IncreasePrecision) {
    forall i | 0 <= i < |txs| ::
      var d := DenominateBond(txs[i].data, increasePrecision);
      && d.Success?
      && BondAccepted(txs[i], d.value, registry.establishedAccounts, registry.validatorAccounts, increasePrecision)
      && CanPayBond(BondPhase(ledger, txs[..i], registry, parameters, increasePrecision).ledger, d.value, parameters.nativeToken)
  }

  /** Bonds that each pass are all kept. */
  lemma BondPhaseAccepts(ledger: Ledger, txs: seq<SignedBondTx>, registry: Registry, parameters: Parameters, increasePrecision: IncreasePrecision)
    requires EveryBondPasses(ledger, txs, registry, parameters, increasePrecision)
    ensures |BondPhase(ledger, txs, registry, parameters, increasePrecision).validated| == |txs|
  {
    forall i | 0 <= i < |txs|
      ensures BondStep(BondPhase(ledger, txs[..i], registry, parameters, increasePrecision).ledger, txs[i],
                       registry.establishedAccounts, registry.validatorAccounts, parameters, increasePrecision).validated.Some?
    {
      var before := BondPhase(ledger, txs[..i], registry, parameters, increasePrecision).ledger;
      BondStepKeeps(before, txs[i], registry.establishedAccounts, registry.validatorAccounts, parameters, increasePrecision,
        DenominateBond(txs[i].data, increasePrecision).value);
    }
    BondPhaseAllKept(ledger, txs, registry, parameters, increasePrecision);
  }

  /** Each bond is signed by the key its source declared, bonded to a
      declared validator, and payable on the native ledger as the earlier
      bonds left it under the registry the account loops build. */
  predicate EveryBondPassesDeclared(
    established: Option<seq<SignedEstablishedAccountTx>>,
    validators: Option<seq<SignedValidatorAccountTx>>,
    vps: Option<ValidityPredicates>,
    ledger: Ledger, txs: seq<SignedBondTx>, parameters: Parameters, increasePrecision: IncreasePrecision)
  {
    forall i | 0 <= i < |txs| ::
      var d := DenominateBond(txs[i].data, increasePrecision);
      var pk := DeclaredSourcePk(Txs(established), Txs(validators), txs[i].data.source);
      && d.Success?
      && pk.Some? && BondVerifySig(txs[i], pk.value)
      && d.value.validator in ValidatorAliases(Txs(validators))
      && CanPayBond(BondPhase(ledger, txs[..i], AccountsPhase(established, validators, vps).registry, parameters, increasePrecision).ledger,
                    d.value, parameters.nativeToken)
  }

  /** Stated in terms of the declarations, bonds that each pass are all
      kept against the registry the account loops build. */
  lemma BondPhaseAcceptsDeclared(
    established: Option<seq<SignedEstablishedAccountTx>>,
    validators: Option<seq<SignedValidatorAccountTx>>,
    vps: Option<ValidityPredicates>,
    ledger: Ledger, txs: seq<SignedBondTx>, parameters: Parameters, increasePrecision: IncreasePrecision)
    requires EveryBondPassesDeclared(established, validators, vps, ledger, txs, parameters, increasePrecision)
    ensures |BondPhase(ledger, txs, AccountsPhase(established, validators, vps).registry, parameters, increasePrecision).validated| == |txs|
  {
    var registry := AccountsPhase(established, validators, vps).registry;
    AccountsPhaseRegistry(established, validators, vps);
    forall i | 0 <= i < |txs|
      ensures BondAccepted(txs[i], DenominateBond(txs[i].data, increasePrecision).value,
                           registry.establishedAccounts, registry.validatorAccounts, increasePrecision)
    {
      AccountsPhaseResolves(established, validators, vps, txs[i].data.source);
    }
    BondPhaseAccepts(ledger, txs, registry, parameters, increasePrecision);
  }

  /** The verdict of `validate` from those of its three phases. */
  lemma ValidateSpecAccepts(
    transactions: UnvalidatedTransactions, vps: Option<ValidityPredicates>, balances: Option<DenominatedBalances>,
    tokens: Tokens, parameters: Option<Parameters>, increasePrecision: IncreasePrecision)
    requires var accounts := AccountsPhase(transactions.establishedAccount, transactions.validatorAccount, vps);
      var transfers := TransferCategory(SeedLedger(balances), transactions.transfer, accounts.registry.usedAliases, tokens, increasePrecision);
      && accounts.valid
      && transfers.valid
      && BondCategory(transfers.ledger, transactions.bond, accounts.registry, parameters, increasePrecision).valid
    ensures ValidateSpec(transactions, vps, balances, tokens, parameters, increasePrecision).Some?
  {
  }

  /** The converse of the lemmas above: a batch whose aliases are pairwise
      distinct, whose accounts pass every check, whose transfers each pass,
      and whose bonds, when there are any, come with parameters and each
      pass, is validated. */
  lemma ValidateAccepts(
    transactions: UnvalidatedTransactions, vps: Option<ValidityPredicates>, balances: Option<DenominatedBalances>,
    tokens: Tokens, parameters: Option<Parameters>, increasePrecision: IncreasePrecision)
    requires Distinct(AllAliases(transactions.establishedAccount, transactions.validatorAccount))
    requires forall i | 0 <= i < |Txs(transactions.establishedAccount)| ::
      PassesEstablishedChecks(vps, Txs(transactions.establishedAccount)[i])
    requires forall i | 0 <= i < |Txs(transactions.validatorAccount)| ::
      PassesValidatorChecks(vps, Txs(transactions.validatorAccount)[i])
    requires transactions.transfer.Some? ==>
      EveryTransferPasses(SeedLedger(balances), transactions.transfer.value,
        AliasSet(AllAliases(transactions.establishedAccount, transactions.validatorAccount)), tokens, increasePrecision)
    requires transactions.bond.Some? && transactions.bond.value != [] ==>
      && parameters.Some?
      && EveryBondPassesDeclared(transactions.establishedAccount, transactions.validatorAccount, vps,
           TransferCategory(SeedLedger(balances), transactions.transfer,
             AliasSet(AllAliases(transactions.establishedAccount, transactions.validatorAccount)), tokens, increasePrecision).ledger,
           transactions.bond.value, parameters.value, increasePrecision)
    ensures ValidateSpec(transactions, vps, balances, tokens, parameters, increasePrecision).Some?
  {
    var accounts := AccountsPhase(transactions.establishedAccount, transactions.validatorAccount, vps);
    AccountsPhaseValid(transactions.establishedAccount, transactions.validatorAccount, vps);
    AccountsPhaseRegistry(transactions.establishedAccount, transactions.validatorAccount, vps);
    assert accounts.valid;
    var aliases := accounts.registry.usedAliases;
    var transfers := TransferCategory(SeedLedger(balances), transactions.transfer, aliases, tokens, increasePrecision);
    if transactions.transfer.Some? {
      TransferPhaseAccepts(SeedLedger(balances), transactions.transfer.value, aliases, tokens, increasePrecision);
    }
    assert transfers.valid;
    if transactions.bond.Some? && transactions.bond.value != [] {
      BondPhaseAcceptsDeclared(transactions.establishedAccount, transactions.validatorAccount, vps,
        transfers.ledger, transactions.bond.value, parameters.value, increasePrecision);
    }
    assert BondCategory(transfers.ledger, transactions.bond, accounts.registry, parameters, increasePrecision).valid;
    ValidateSpecAccepts(transactions, vps, balances, tokens, parameters, increasePrecision);
  }


  /** Non-empty bonds without the parameters file reject the batch. */
  lemma ValidateBondsNeedParameters(
    transactions: UnvalidatedTransactions, vps: Option<ValidityPredicates>, balances: Option<DenominatedBalances>,
    tokens: Tokens, increasePrecision: IncreasePrecision)
    requires transactions.bond.Some? && transactions.bond.value != []
    ensures ValidateSpec(transactions, vps, balances, tokens, None, increasePrecision).None?
  {
  }

  /** A declared but empty bond list is treated as no bonds at all. */
  lemma ValidateEmptyBonds(
    transactions: UnvalidatedTransactions, vps: Option<ValidityPredicates>, balances: Option<DenominatedBalances>,
    tokens: Tokens, parameters: Option<Parameters>, increasePrecision: IncreasePrecision)
    ensures ValidateSpec(transactions.(bond := Some([])), vps, balances, tokens, parameters, increasePrecision)
         == ValidateSpec(transactions.(bond := None), vps, balances, tokens, parameters, increasePrecision)
  {
  }

  /** Every transfer is paid for within its token: after the transfer loop
      each token's total holdings equal the declared ones. */
  lemma ValidateConservesTransfers(
    transactions: UnvalidatedTransactions, vps: Option<ValidityPredicates>, balances: Option<DenominatedBalances>,
    tokens: Tokens, increasePrecision: IncreasePrecision, token: Alias)
    ensures var accounts := AccountsPhase(transactions.establishedAccount, transactions.validatorAccount, vps);
      var transfers := TransferCategory(SeedLedger(balances), transactions.transfer, accounts.registry.usedAliases, tokens, increasePrecision);
      Supply(transfers.ledger, token) == Supply(SeedLedger(balances), token)
  {
    if transactions.transfer.Some? {
      var accounts := AccountsPhase(transactions.establishedAccount, transactions.validatorAccount, vps);
      TransferPhaseConserves(SeedLedger(balances), transactions.transfer.value, accounts.registry.usedAliases, tokens, increasePrecision, token);
    }
  }
}
