/** `TokenBalancesForValidation`: the in-memory ledger that one validation
    pass simulates over the declared balances, and its debit and credit
    updates, with the total amount held per token (its supply). */
module BalanceLedger {
  import opened Wrappers
  import opened Crypto
  import opened TxModel

  /** Declared balances of one token, by public key (`TokenBalances`). */
  type TokenBalances = map<PublicKey, DenominatedAmount>

  /** Declared balances of every token (`DenominatedBalances`). */
  type DenominatedBalances = map<Alias, TokenBalances>

  /** One token's simulated ledger: credits accumulated by transfers to
      aliases, and the remaining declared balances by public key. */
  datatype TokenBalancesForValidation = TokenBalancesForValidation(
    aliases: map<Alias, DenominatedAmount>,
    pks: TokenBalances)

  /** The simulated ledgers of all tokens, by token alias. */
  type Ledger = map<Alias, TokenBalancesForValidation>

  /** The ledger a validation pass starts from: for every declared token an
      empty alias accumulator and a copy of its declared balances; nothing
      when no balances were declared. */
  function SeedLedger(balances: Option<DenominatedBalances>): (ledger: Ledger)
    ensures balances.None? ==> ledger == map[]
    ensures balances.Some? ==> ledger.Keys == balances.value.Keys
    ensures balances.Some? ==> forall token | token in ledger ::
      ledger[token] == TokenBalancesForValidation(map[], balances.value[token])
  {
    match balances
    case None => map[]
    case Some(declared) =>
      map token | token in declared :: TokenBalancesForValidation(map[], declared[token])
  }

  /** A transfer's debit: `balance.amount -= amount`, removing the holder
      when the debit exactly exhausts the mantissa. */
  function DebitAmount<K>(m: map<K, DenominatedAmount>, holder: K, amount: nat): (r: map<K, DenominatedAmount>)
    requires holder in m && amount <= m[holder].amount
    ensures holder in r <==> amount != m[holder].amount
    ensures holder in r ==> r[holder] == DenominatedAmount(m[holder].amount - amount, m[holder].denom)
    ensures r - {holder} == m - {holder}
  {
    if amount == m[holder].amount then m - {holder}
    else m[holder := m[holder].(amount := m[holder].amount - amount)]
  }

  /** A bond's debit: the balance and the amount compare as whole
      `DenominatedAmount`s, the holder is removed when they are equal and
      otherwise the mantissa is reduced. */
  function DebitExact<K>(m: map<K, DenominatedAmount>, holder: K, amount: DenominatedAmount): (r: map<K, DenominatedAmount>)
    requires holder in m && !AmountLt(m[holder], amount)
    ensures holder in r <==> amount != m[holder]
    ensures holder in r ==> r[holder] == DenominatedAmount(m[holder].amount - amount.amount, m[holder].denom)
    ensures r - {holder} == m - {holder}
  {
    if amount == m[holder] then m - {holder}
    else m[holder := m[holder].(amount := m[holder].amount - amount.amount)]
  }

  /** A credit to an alias: add to its accumulator, first creating it at
      zero with the credited amount's decimal places when absent. */
  function CreditAlias(m: map<Alias, DenominatedAmount>, target: Alias, amount: DenominatedAmount)
    : (r: map<Alias, DenominatedAmount>)
    ensures target in r
    ensures r[target].amount == (if target in m then m[target].amount else 0) + amount.amount
    ensures r[target].denom == if target in m then m[target].denom else amount.denom
    ensures r - {target} == m - {target}
  {
    var current := if target in m then m[target] else DenominatedAmount(0, amount.denom);
    m[target := current.(amount := current.amount + amount.amount)]
  }

  // ---------------------------------------------------------------------
  // Supply: the sum of all mantissas held

  ghost function PickHolder<K>(m: map<K, DenominatedAmount>): K
    requires m != map[]
  {
    var k :| k in m; k
  }

  ghost function SumAmounts<K>(m: map<K, DenominatedAmount>): nat
    decreases m.Keys
  {
    if m == map[] then 0
    else
      var k := PickHolder(m);
      assert (m - {k}).Keys < m.Keys;
      m[k].amount + SumAmounts(m - {k})
  }

  /** The sum does not depend on which holder is taken out first. */
  lemma {:induction false} SumAmountsRemove<K>(m: map<K, DenominatedAmount>, holder: K)
    requires holder in m
    ensures SumAmounts(m) == m[holder].amount + SumAmounts(m - {holder})
    decreases m.Keys
  {
    var k := PickHolder(m);
    if k != holder {
      assert (m - {k}).Keys < m.Keys;
      assert (m - {holder}).Keys < m.Keys;
      SumAmountsRemove(m - {k}, holder);
      SumAmountsRemove(m - {holder}, k);
      assert m - {k} - {holder} == m - {holder} - {k};
    }
  }

  /** Two maps that agree away from one holder have sums that differ by
      what that holder holds in each. */
  lemma SumAmountsExcept<K>(m: map<K, DenominatedAmount>, r: map<K, DenominatedAmount>, holder: K)
    requires r - {holder} == m - {holder}
    ensures SumAmounts(r) + (if holder in m then m[holder].amount else 0)
         == SumAmounts(m) + (if holder in r then r[holder].amount else 0)
  {
    if holder in m {
      SumAmountsRemove(m, holder);
    } else {
      assert m - {holder} == m;
    }
    if holder in r {
      SumAmountsRemove(r, holder);
    } else {
      assert r - {holder} == r;
    }
  }

  /** Everything a token's ledger holds, in pks and accumulators together. */
  ghost function Supply(ledger: Ledger, token: Alias): nat {
    if token in ledger then SumAmounts(ledger[token].pks) + SumAmounts(ledger[token].aliases) else 0
  }

  /** A transfer debit removes exactly the debited amount from the holdings. */
  lemma DebitAmountSum<K>(m: map<K, DenominatedAmount>, holder: K, amount: nat)
    requires holder in m && amount <= m[holder].amount
    ensures SumAmounts(DebitAmount(m, holder, amount)) + amount == SumAmounts(m)
  {
    SumAmountsExcept(m, DebitAmount(m, holder, amount), holder);
  }

  /** A bond debit removes exactly the debited mantissa from the holdings. */
  lemma DebitExactSum<K>(m: map<K, DenominatedAmount>, holder: K, amount: DenominatedAmount)
    requires holder in m && !AmountLt(m[holder], amount)
    ensures SumAmounts(DebitExact(m, holder, amount)) + amount.amount == SumAmounts(m)
  {
    SumAmountsExcept(m, DebitExact(m, holder, amount), holder);
  }

  /** A credit adds exactly the credited amount to the holdings. */
  lemma CreditAliasSum(m: map<Alias, DenominatedAmount>, target: Alias, amount: DenominatedAmount)
    ensures SumAmounts(CreditAlias(m, target, amount)) == SumAmounts(m) + amount.amount
  {
    SumAmountsExcept(m, CreditAlias(m, target, amount), target);
  }
}
