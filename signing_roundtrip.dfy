/** Signing followed by validation: what the signer produces with a
    consistent wallet carries the authorizations the validator checks. */
module SigningRoundTrip {
  import opened Wrappers
  import opened Crypto
  import opened TxModel
  import opened TxBatch
  import opened Signer
  import opened AccountChecks
  import opened LedgerSteps

  /** A signed established account passes `validate_established_account_sig`. */
  lemma SignedEstablishedAccountAuthorized(tx: UnsignedEstablishedAccountTx, wallet: Wallet)
    requires WalletConsistent(wallet)
    requires SignEstablishedAccountTx(tx, wallet).Success?
    ensures EstablishedAccountSigValid(SignEstablishedAccountTx(tx, wallet).value)
  {
  }

  /** A validator account signed with the validator's keys passes all six
      authorization checks exactly when each key is the declared one. */
  lemma SignedValidatorAccountAuthorized(tx: UnsignedValidatorAccountTx, keys: ValidatorKeys)
    ensures ValidatorAccountSigsValid(SignValidatorAccountTx(tx, keys)) <==>
      && RefTo(keys.accountKey) == tx.accountKey
      && RefTo(keys.consensusKey) == tx.consensusKey
      && RefTo(keys.protocolKey) == tx.protocolKey
      && RefTo(keys.tendermintNodeKey) == tx.tendermintNodeKey
      && RefTo(keys.ethHotKey) == tx.ethHotKey
      && RefTo(keys.ethColdKey) == tx.ethColdKey
  {
  }

  /** A self-bond signed with the validator's account key verifies against
      the key the validator registered, whatever established accounts exist. */
  lemma SelfBondAuthorized(
    tx: BondTx, keys: ValidatorKeys,
    established: map<Alias, Option<PublicKey>>, validators: map<Alias, PublicKey>)
    requires tx.source == ByAlias(tx.validator)
    requires tx.validator in validators && validators[tx.validator] == RefTo(keys.accountKey)
    requires !(tx.validator in established && established[tx.validator].Some?)
    ensures var pk := ResolveBondSourcePk(tx.source, established, validators);
      pk.Some? && BondVerifySig(SignSelfBondTx(tx, keys), pk.value)
  {
  }

  /** Every established account and every transfer of a batch signed by
      `sign_txs` with a consistent wallet carries a valid authorization, and
      every bond from a public key verifies against that key. */
  lemma SignTxsAuthorized(txs: UnsignedTransactions, wallet: Wallet)
    requires WalletConsistent(wallet)
    requires SignTxs(txs, wallet).Success?
    ensures var out := SignTxs(txs, wallet).value;
      && (forall i | 0 <= i < |Txs(out.establishedAccount)| :: EstablishedAccountSigValid(Txs(out.establishedAccount)[i]))
      && (forall i | 0 <= i < |Txs(out.transfer)| :: TransferVerifySig(Txs(out.transfer)[i]))
      && (forall i | 0 <= i < |Txs(out.bond)| :: Txs(out.bond)[i].data.source.ByPk? ==>
            BondVerifySig(Txs(out.bond)[i], Txs(out.bond)[i].data.source.pk))
  {
    var out := SignTxs(txs, wallet).value;
    forall i | 0 <= i < |Txs(out.establishedAccount)|
      ensures EstablishedAccountSigValid(Txs(out.establishedAccount)[i])
    {
      SignedEstablishedAccountAuthorized(txs.establishedAccount.value[i], wallet);
    }
    forall i | 0 <= i < |Txs(out.bond)| && Txs(out.bond)[i].data.source.ByPk?
      ensures BondVerifySig(Txs(out.bond)[i], Txs(out.bond)[i].data.source.pk)
    {
      assert UnsignedBond(Txs(out.bond)[i]) == txs.bond.value[i];
    }
  }
}
