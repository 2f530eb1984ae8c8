/** The questions asked of a validated batch before genesis: is there a
    validator at all, and does some validator have voting power. */
module Queries {
  import opened Wrappers
  import opened TxModel
  import opened TxBatch
  import opened AccountChecks
  import opened Validation

  /** `has_at_least_one_validator`: a validator category is present and
      holds at least one account. */
  function HasAtLeastOneValidator<E, V, T, B>(txs: Transactions<E, V, T, B>): (r: bool)
    ensures r <==> txs.validatorAccount.Some? && |txs.validatorAccount.value| > 0
  {
    match txs.validatorAccount
    case None => false
    case Some(validators) => validators != []
  }

  /** A merged batch has a validator exactly when one of its parts has. */
  lemma MergedHasValidator<E, V, T, B>(a: Transactions<E, V, T, B>, b: Transactions<E, V, T, B>)
    ensures HasAtLeastOneValidator(Merged(a, b)) <==> HasAtLeastOneValidator(a) || HasAtLeastOneValidator(b)
  {
    MergeCategory(a.validatorAccount, b.validatorAccount);
  }

  /** Validation keeps the validators: a validated batch has a validator
      exactly when the declared one had. */
  lemma ValidatedHasValidator(
    transactions: UnvalidatedTransactions, vps: Option<ValidityPredicates>, balances: Option<BalanceLedger.DenominatedBalances>,
    tokens: Tokens, parameters: Option<LedgerSteps.Parameters>, increasePrecision: IncreasePrecision)
    requires ValidateSpec(transactions, vps, balances, tokens, parameters, increasePrecision).Some?
    ensures HasAtLeastOneValidator(ValidateSpec(transactions, vps, balances, tokens, parameters, increasePrecision).value)
        <==> HasAtLeastOneValidator(transactions)
  {
    ValidateAccounts(transactions, vps, balances, tokens, parameters, increasePrecision);
  }

  // ---------------------------------------------------------------------
  // Voting power

  /** `into_tm_voting_power` at the chain's `tm_votes_per_token`: a bonded
      stake to a voting power. */
  type VotingPower = nat -> int

  /** The total bonded to one validator. */
  function Stake(bonds: seq<BondTx>, validator: Alias): nat
    decreases |bonds|
  {
    if bonds == [] then 0
    else
      var last := bonds[|bonds| - 1];
      Stake(bonds[..|bonds| - 1], validator) + if last.validator == validator then last.amount.amount else 0
  }

  /** The validators some bond is bonded to. */
  function BondedValidators(bonds: seq<BondTx>): set<Alias> {
    set i | 0 <= i < |bonds| :: bonds[i].validator
  }

  /** Some validator's total stake converts to positive voting power. */
  predicate HasPositivePower(txs: ValidatedTransactions, power: VotingPower) {
    && txs.bond.Some?
    && exists v | v in BondedValidators(txs.bond.value) :: power(Stake(txs.bond.value, v)) > 0
  }

  /** `has_validator_with_positive_voting_power`: stakes are summed per
      validator into a map, and then any validator whose stake converts to
      positive power decides; no bonds, no power. */
  method HasValidatorWithPositiveVotingPower(txs: ValidatedTransactions, power: VotingPower) returns (r: bool)
    ensures r <==> HasPositivePower(txs, power)
  {
    if txs.bond.None? {
      return false;
    }
    var bonds := txs.bond.value;
    var stakes: map<Alias, nat> := map[];
    var i := 0;
    while i < |bonds|
      invariant 0 <= i <= |bonds|
      invariant stakes.Keys == BondedValidators(bonds[..i])
      invariant forall v | v in stakes :: stakes[v] == Stake(bonds[..i], v)
    {
      assert bonds[..i + 1][..i] == bonds[..i];
      var validator := bonds[i].validator;
      if validator !in stakes {
        StakeOfUnbonded(bonds[..i], validator);
      }
      var entry := if validator in stakes then stakes[validator] else 0;
      stakes := stakes[validator := entry + bonds[i].amount.amount];
      assert BondedValidators(bonds[..i + 1]) == BondedValidators(bonds[..i]) + {validator} by {
        assert forall j | 0 <= j < i :: bonds[..i + 1][j] == bonds[..i][j];
        assert bonds[..i + 1][i].validator == validator;
      }
      i := i + 1;
    }
    assert bonds[..i] == bonds;

    var remaining := stakes.Keys;
    while remaining != {}
      invariant remaining <= stakes.Keys
      invariant forall v | v in stakes.Keys - remaining :: power(stakes[v]) <= 0
      decreases remaining
    {
      var validator :| validator in remaining;
      if power(stakes[validator]) > 0 {
        return true;
      }
      remaining := remaining - {validator};
    }
    return false;
  }

  /** A validator no bond names has no stake. */
  lemma {:induction false} StakeOfUnbonded(bonds: seq<BondTx>, validator: Alias)
    requires validator !in BondedValidators(bonds)
    ensures Stake(bonds, validator) == 0
    decreases |bonds|
  {
    if bonds != [] {
      var prefix := bonds[..|bonds| - 1];
      assert BondedValidators(prefix) <= BondedValidators(bonds) by {
        assert forall j | 0 <= j < |prefix| :: prefix[j] == bonds[j];
      }
      StakeOfUnbonded(prefix, validator);
      assert bonds[|bonds| - 1].validator in BondedValidators(bonds);
    }
  }

  /** Stake adds up over concatenated bond lists. */
  lemma {:induction false} StakeAppend(a: seq<BondTx>, b: seq<BondTx>, validator: Alias)
    ensures Stake(a + b, validator) == Stake(a, validator) + Stake(b, validator)
    decreases |b|
  {
    if b != [] {
      var prefix := b[..|b| - 1];
      assert (a + b)[..|a + b| - 1] == a + prefix;
      var last := b[|b| - 1];
      assert (a + b)[|a + b| - 1] == last;
      StakeAppend(a, prefix, validator);
      assert Stake(b, validator) == Stake(prefix, validator) + if last.validator == validator then last.amount.amount else 0;
    } else {
      assert a + b == a;
    }
  }

  /** Merging in more bonds never takes voting power away when power grows
      with stake. */
  lemma MergePreservesPositivePower(a: ValidatedTransactions, b: ValidatedTransactions, power: VotingPower)
    requires forall x: nat, y: nat | x <= y :: power(x) <= power(y)
    requires HasPositivePower(a, power)
    ensures HasPositivePower(Merged(a, b), power)
  {
    var bonds := a.bond.value;
    var v :| v in BondedValidators(bonds) && power(Stake(bonds, v)) > 0;
    var merged := Merged(a, b).bond.value;
    var all := bonds + Txs(b.bond);
    assert merged == all;
    StakeAppend(bonds, Txs(b.bond), v);
    var i :| 0 <= i < |bonds| && bonds[i].validator == v;
    assert all[i] == bonds[i];
    assert v in BondedValidators(merged);
    assert power(Stake(bonds, v)) <= power(Stake(merged, v));
  }
}
