/** The signer: turns unsigned declarations into signed ones. Key material
    comes from a wallet, modelled as two lookup tables; the source's panics
    (operator misconfiguration) are returned as errors. */
module Signer {
  import opened Wrappers
  import opened Crypto
  import opened TxModel
  import opened TxBatch

  /** The wallet's key store: secret keys by alias and by public key. */
  datatype Wallet = Wallet(keysByAlias: map<Alias, SecretKey>, keysByPk: map<PublicKey, SecretKey>)

  /** A wallet whose keys are filed under their own public keys. */
  ghost predicate WalletConsistent(wallet: Wallet) {
    forall pk | pk in wallet.keysByPk :: RefTo(wallet.keysByPk[pk]) == pk
  }

  /** The six validator-identity keys that authorize a validator account. */
  datatype ValidatorKeys = ValidatorKeys(
    accountKey: SecretKey,
    consensusKey: SecretKey,
    protocolKey: SecretKey,
    tendermintNodeKey: SecretKey,
    ethHotKey: SecretKey,
    ethColdKey: SecretKey)

  /** Why a single transaction could not be signed. */
  datatype KeyError =
    | KeyNotFoundForPk(pk: PublicKey)
    | NoEstablishedAccounts(source: AliasOrPk)
    | EstablishedAccountWithoutPk(alias: Alias)
    | SourceNotFound(source: AliasOrPk)
    | KeyNotFoundForEstablishedAccount(source: AliasOrPk)

  /** Why `sign_txs` refused or failed. */
  datatype SignError =
    | ValidatorTxNotAllowedHere
    | SelfBondMustUseValidatorIdentity
    | KeyLookupFailed(cause: KeyError)

  /** `sign_established_account_tx`: a declared public key must have its
      secret key in the wallet, and then authorizes the unsigned encoding.
      On success the signed tx narrows back to the original. */
  function SignEstablishedAccountTx(tx: UnsignedEstablishedAccountTx, wallet: Wallet)
    : (r: Result<SignedEstablishedAccountTx, KeyError>)
    ensures r.Failure? <==> tx.publicKey.Some? && tx.publicKey.value !in wallet.keysByPk
    ensures r.Failure? ==> r.error == KeyNotFoundForPk(tx.publicKey.value)
    ensures r.Success? ==> UnsignedEstablished(r.value) == tx
    ensures r.Success? && r.value.publicKey.Some? ==>
      r.value.publicKey.value.authorization
        == StandaloneSignature(wallet.keysByPk[tx.publicKey.value], EstablishedAccountEncoding(tx))
  {
    match tx.publicKey
    case None => Success(EstablishedAccountTx(tx.alias, tx.vp, None, tx.storage))
    case Some(pk) =>
      if pk !in wallet.keysByPk then Failure(KeyNotFoundForPk(pk))
      else
        var sig := StandaloneSignature(wallet.keysByPk[pk], EstablishedAccountEncoding(tx));
        Success(EstablishedAccountTx(tx.alias, tx.vp, Some(SignedPk(pk, sig)), tx.storage))
  }

  /** `sign_validator_account_tx`: the same unsigned encoding signed six
      times, once per key role. The signed tx narrows back to the original. */
  function SignValidatorAccountTx(tx: UnsignedValidatorAccountTx, keys: ValidatorKeys)
    : (r: SignedValidatorAccountTx)
    ensures UnsignedValidator(r) == tx
    ensures r.accountKey.authorization == StandaloneSignature(keys.accountKey, ValidatorAccountEncoding(tx))
    ensures r.consensusKey.authorization == StandaloneSignature(keys.consensusKey, ValidatorAccountEncoding(tx))
    ensures r.protocolKey.authorization == StandaloneSignature(keys.protocolKey, ValidatorAccountEncoding(tx))
    ensures r.tendermintNodeKey.authorization == StandaloneSignature(keys.tendermintNodeKey, ValidatorAccountEncoding(tx))
    ensures r.ethHotKey.authorization == StandaloneSignature(keys.ethHotKey, ValidatorAccountEncoding(tx))
    ensures r.ethColdKey.authorization == StandaloneSignature(keys.ethColdKey, ValidatorAccountEncoding(tx))
  {
    var data := ValidatorAccountEncoding(tx);
    ValidatorAccountTx(
      tx.alias, tx.dkgKey, tx.vp, tx.commissionRate, tx.maxCommissionRateChange, tx.netAddress,
      SignedPk(tx.accountKey, StandaloneSignature(keys.accountKey, data)),
      SignedPk(tx.consensusKey, StandaloneSignature(keys.consensusKey, data)),
      SignedPk(tx.protocolKey, StandaloneSignature(keys.protocolKey, data)),
      SignedPk(tx.tendermintNodeKey, StandaloneSignature(keys.tendermintNodeKey, data)),
      SignedPk(tx.ethHotKey, StandaloneSignature(keys.ethHotKey, data)),
      SignedPk(tx.ethColdKey, StandaloneSignature(keys.ethColdKey, data)))
  }

  /** `sign_transfer_tx`: signed with the wallet's key for the source. */
  function SignTransferTx(tx: TransferTx, wallet: Wallet): (r: Result<SignedTransferTx, KeyError>)
    ensures r.Failure? <==> tx.source !in wallet.keysByPk
    ensures r.Failure? ==> r.error == KeyNotFoundForPk(tx.source)
    ensures r.Success? ==> r.value == TransferSign(tx, wallet.keysByPk[tx.source])
  {
    if tx.source !in wallet.keysByPk then Failure(KeyNotFoundForPk(tx.source))
    else Success(TransferSign(tx, wallet.keysByPk[tx.source]))
  }

  /** `sign_self_bond_tx`: always signed with the validator's account key. */
  function SignSelfBondTx(tx: BondTx, keys: ValidatorKeys): (r: SignedBondTx)
    ensures UnsignedBond(r) == tx
    ensures BondVerifySig(r, RefTo(keys.accountKey))
  {
    BondSign(tx, keys.accountKey)
  }

  /** What the search of the established accounts in
      `sign_delegation_bond_tx` finds for a bond source. */
  datatype SourceSearch = Found(pk: PublicKey) | MissingPk(alias: Alias) | NotFound

  /** The `find_map` over signed established accounts: an alias source
      stops at the first account of that alias, which must declare a key;
      a public-key source is taken as it is at the first account. */
  function FindSourcePk(accounts: seq<SignedEstablishedAccountTx>, source: AliasOrPk): (r: SourceSearch)
    ensures source.ByPk? ==> r == if accounts == [] then NotFound else Found(source.pk)
    ensures source.ByAlias? ==>
      (r.NotFound? <==> forall i | 0 <= i < |accounts| :: accounts[i].alias != source.alias)
    ensures source.ByAlias? && !r.NotFound? ==>
      exists i | 0 <= i < |accounts| ::
        && accounts[i].alias == source.alias
        && (forall j | 0 <= j < i :: accounts[j].alias != source.alias)
        && r == match accounts[i].publicKey
                case Some(signed) => Found(signed.pk)
                case None => MissingPk(source.alias)
  {
    if accounts == [] then NotFound
    else
      match source
      case ByPk(pk) => Found(pk)
      case ByAlias(alias) =>
        if accounts[0].alias == alias then
          match accounts[0].publicKey
          case Some(signed) => Found(signed.pk)
          case None => MissingPk(alias)
        else
          var r := FindSourcePk(accounts[1..], source);
          assert r.NotFound? <==> forall i | 1 <= i < |accounts| :: accounts[i].alias != alias by {
            forall i | 1 <= i < |accounts| ensures accounts[i] == accounts[1..][i - 1] { }
          }
          r
  }

  /** The wallet holds a key under the bond source's alias or public key. */
  predicate KeyInWallet(wallet: Wallet, source: AliasOrPk) {
    match source
    case ByAlias(alias) => alias in wallet.keysByAlias
    case ByPk(pk) => pk in wallet.keysByPk
  }

  /** `sign_delegation_bond_tx`. The key is looked up in the wallet by the
      source alias or public key; failing that, the source is searched among
      the already signed established accounts and the wallet is asked for the
      key of the public key found there. */
  function SignDelegationBondTx(tx: BondTx, wallet: Wallet, established: Option<seq<SignedEstablishedAccountTx>>)
    : (r: Result<SignedBondTx, KeyError>)
    ensures r.Success? ==> UnsignedBond(r.value) == tx
    ensures tx.source.ByPk? && WalletConsistent(wallet) && r.Success? ==> BondVerifySig(r.value, tx.source.pk)
    ensures tx.source.ByPk? && tx.source.pk !in wallet.keysByPk ==> r.Failure?
    // The wallet knows the source: its key signs.
    ensures tx.source.ByAlias? && tx.source.alias in wallet.keysByAlias ==>
      r == Success(BondSign(tx, wallet.keysByAlias[tx.source.alias]))
    ensures tx.source.ByPk? && tx.source.pk in wallet.keysByPk ==>
      r == Success(BondSign(tx, wallet.keysByPk[tx.source.pk]))
    // The wallet does not know the source: the bond is signed exactly when
    // the established accounts give a public key whose key the wallet holds.
    ensures !KeyInWallet(wallet, tx.source) ==>
      (r.Success? <==>
         && established.Some?
         && FindSourcePk(established.value, tx.source).Found?
         && FindSourcePk(established.value, tx.source).pk in wallet.keysByPk)
    ensures !KeyInWallet(wallet, tx.source) && r.Success? ==>
      r.value == BondSign(tx, wallet.keysByPk[FindSourcePk(established.value, tx.source).pk])
    // ... and each way that search can fail has its own error.
    ensures !KeyInWallet(wallet, tx.source) && established.None? ==>
      r == Failure(NoEstablishedAccounts(tx.source))
    ensures !KeyInWallet(wallet, tx.source) && established.Some? ==>
      match FindSourcePk(established.value, tx.source)
      case NotFound => r == Failure(SourceNotFound(tx.source))
      case MissingPk(alias) => r == Failure(EstablishedAccountWithoutPk(alias))
      case Found(pk) => pk !in wallet.keysByPk ==> r == Failure(KeyNotFoundForEstablishedAccount(tx.source))
  {
    var found := match tx.source
      case ByAlias(alias) => if alias in wallet.keysByAlias then Some(wallet.keysByAlias[alias]) else None
      case ByPk(pk) => if pk in wallet.keysByPk then Some(wallet.keysByPk[pk]) else None;
    match found
    case Some(key) => Success(BondSign(tx, key))
    case None =>
      match established
      case None => Failure(NoEstablishedAccounts(tx.source))
      case Some(accounts) =>
        match FindSourcePk(accounts, tx.source)
        case NotFound => Failure(SourceNotFound(tx.source))
        case MissingPk(alias) => Failure(EstablishedAccountWithoutPk(alias))
        case Found(pk) =>
          if pk in wallet.keysByPk then Success(BondSign(tx, wallet.keysByPk[pk]))
          else Failure(KeyNotFoundForEstablishedAccount(tx.source))
  }

  // ---------------------------------------------------------------------
  // Batch signing

  /** `into_iter().map(sign).collect()` where signing aborts at the first
      failure: all results in order, or the first error. */
  function MapResult<X, Y(==), E(==)>(xs: seq<X>, f: X -> Result<Y, E>): (r: Result<seq<Y>, E>)
    ensures r.Success? <==> forall i | 0 <= i < |xs| :: f(xs[i]).Success?
    ensures r.Success? ==> |r.value| == |xs| && forall i | 0 <= i < |xs| :: f(xs[i]) == Success(r.value[i])
    ensures r.Failure? ==>
      exists i | 0 <= i < |xs| :: f(xs[i]) == Failure(r.error) && forall j | 0 <= j < i :: f(xs[j]).Success?
  {
    if xs == [] then Success([])
    else
      match f(xs[0])
      case Failure(e) => Failure(e)
      case Success(y) =>
        match MapResult(xs[1..], f)
        case Failure(e) =>
          assert f(xs[1..][0]) == f(xs[1]);
          var k :| 0 <= k < |xs[1..]| && f(xs[1..][k]) == Failure(e) && forall j | 0 <= j < k :: f(xs[1..][j]).Success?;
          assert f(xs[k + 1]) == Failure(e);
          assert forall j | 0 <= j < k + 1 :: f(xs[j]).Success? by {
            forall j | 0 <= j < k + 1 ensures f(xs[j]).Success? {
              if j > 0 { assert xs[j] == xs[1..][j - 1]; }
            }
          }
          Failure(e)
        case Success(ys) =>
          assert forall i | 1 <= i < |xs| :: xs[i] == xs[1..][i - 1];
          Success([y] + ys)
  }

  /** `MapResult` over a category, keeping an absent category absent. */
  function MapCategory<X, Y(==), E(==)>(category: Option<seq<X>>, f: X -> Result<Y, E>): (r: Result<Option<seq<Y>>, E>)
  {
    match category
    case None => Success(None)
    case Some(xs) =>
      match MapResult(xs, f)
      case Failure(e) => Failure(e)
      case Success(ys) => Success(Some(ys))
  }

  /** The established accounts of `sign_txs`, signed in order: all of them,
      or the error of the first that cannot be signed. */
  function SignEstablishedAccounts(category: Option<seq<UnsignedEstablishedAccountTx>>, wallet: Wallet)
    : (r: Result<Option<seq<SignedEstablishedAccountTx>>, KeyError>)
    ensures r.Success? <==>
      category.None? || forall i | 0 <= i < |category.value| :: SignEstablishedAccountTx(category.value[i], wallet).Success?
    ensures r.Success? ==> (r.value.Some? <==> category.Some?)
    ensures r.Success? && category.Some? ==>
      && |r.value.value| == |category.value|
      && forall i | 0 <= i < |category.value| ::
           SignEstablishedAccountTx(category.value[i], wallet) == Success(r.value.value[i])
    ensures r.Failure? ==>
      && category.Some?
      && exists i | 0 <= i < |category.value| ::
           && SignEstablishedAccountTx(category.value[i], wallet) == Failure(r.error)
           && forall j | 0 <= j < i :: SignEstablishedAccountTx(category.value[j], wallet).Success?
  {
    MapCategory(category, tx => SignEstablishedAccountTx(tx, wallet))
  }

  /** The transfers of `sign_txs`, signed in order: all of them, or the
      error of the first whose source key is missing. */
  function SignTransfers(category: Option<seq<TransferTx>>, wallet: Wallet)
    : (r: Result<Option<seq<SignedTransferTx>>, KeyError>)
    ensures r.Success? <==>
      category.None? || forall i | 0 <= i < |category.value| :: SignTransferTx(category.value[i], wallet).Success?
    ensures r.Success? ==> (r.value.Some? <==> category.Some?)
    ensures r.Success? && category.Some? ==>
      && |r.value.value| == |category.value|
      && forall i | 0 <= i < |category.value| ::
           SignTransferTx(category.value[i], wallet) == Success(r.value.value[i])
    ensures r.Failure? ==>
      && category.Some?
      && exists i | 0 <= i < |category.value| ::
           && SignTransferTx(category.value[i], wallet) == Failure(r.error)
           && forall j | 0 <= j < i :: SignTransferTx(category.value[j], wallet).Success?
  {
    MapCategory(category, tx => SignTransferTx(tx, wallet))
  }

  /** The bonds of `sign_txs`, signed in order against the already signed
      established accounts: all of them, or the error of the first that
      cannot be signed. */
  function SignBonds(category: Option<seq<BondTx>>, wallet: Wallet, established: Option<seq<SignedEstablishedAccountTx>>)
    : (r: Result<Option<seq<SignedBondTx>>, KeyError>)
    ensures r.Success? <==>
      category.None? || forall i | 0 <= i < |category.value| :: SignDelegationBondTx(category.value[i], wallet, established).Success?
    ensures r.Success? ==> (r.value.Some? <==> category.Some?)
    ensures r.Success? && category.Some? ==>
      && |r.value.value| == |category.value|
      && forall i | 0 <= i < |category.value| ::
           SignDelegationBondTx(category.value[i], wallet, established) == Success(r.value.value[i])
    ensures r.Failure? ==>
      && category.Some?
      && exists i | 0 <= i < |category.value| ::
           && SignDelegationBondTx(category.value[i], wallet, established) == Failure(r.error)
           && forall j | 0 <= j < i :: SignDelegationBondTx(category.value[j], wallet, established).Success?
  {
    MapCategory(category, tx => SignDelegationBondTx(tx, wallet, established))
  }

  /** A signed category narrows back to the unsigned one: both absent, or
      both present with the same length and each element narrowing to the
      element at the same position. */
  ghost predicate NarrowsTo<X, Y>(signed: Option<seq<Y>>, unsigned: Option<seq<X>>, narrow: Y -> X) {
    && (signed.Some? <==> unsigned.Some?)
    && (signed.Some? ==>
         && |signed.value| == |unsigned.value|
         && forall i | 0 <= i < |signed.value| :: narrow(signed.value[i]) == unsigned.value[i])
  }

  predicate HasValidatorTxs(txs: UnsignedTransactions) {
    txs.validatorAccount.Some? && |txs.validatorAccount.value| > 0
  }

  /** A bond whose alias source is its own validator: a self-bond. */
  predicate IsAliasSelfBond(tx: BondTx) {
    tx.source.ByAlias? && tx.source.alias == tx.validator
  }

  predicate HasAliasSelfBond(txs: UnsignedTransactions) {
    txs.bond.Some? && exists i | 0 <= i < |txs.bond.value| :: IsAliasSelfBond(txs.bond.value[i])
  }

  /** `sign_txs`. A batch with validator accounts, or with an alias-sourced
      self-bond, is refused (in that order of precedence); otherwise every
      established account, transfer and bond is signed, in order, and the
      validator category of the result is absent. The signed batch narrows
      back to the input batch. */
  function SignTxs(txs: UnsignedTransactions, wallet: Wallet): (r: Result<UnvalidatedTransactions, SignError>)
    ensures (r.Failure? && r.error == ValidatorTxNotAllowedHere) <==> HasValidatorTxs(txs)
    ensures !HasValidatorTxs(txs) ==>
      ((r.Failure? && r.error == SelfBondMustUseValidatorIdentity) <==> HasAliasSelfBond(txs))
    // Past the two refusals, the batch is signed exactly when every
    // element of every category can be signed ...
    ensures r.Success? <==>
      && !HasValidatorTxs(txs)
      && !HasAliasSelfBond(txs)
      && SignEstablishedAccounts(txs.establishedAccount, wallet).Success?
      && SignTransfers(txs.transfer, wallet).Success?
      && SignBonds(txs.bond, wallet, SignEstablishedAccounts(txs.establishedAccount, wallet).value).Success?
    // ... and otherwise fails with the first failure, taking established
    // accounts, then transfers, then bonds.
    ensures r.Failure? && r.error.KeyLookupFailed? ==>
      var established := SignEstablishedAccounts(txs.establishedAccount, wallet);
      var transfers := SignTransfers(txs.transfer, wallet);
      && (established.Failure? ==> r.error.cause == established.error)
      && (established.Success? && transfers.Failure? ==> r.error.cause == transfers.error)
      && (established.Success? && transfers.Success? ==>
            && SignBonds(txs.bond, wallet, established.value).Failure?
            && r.error.cause == SignBonds(txs.bond, wallet, established.value).error)
    ensures r.Success? ==> r.value.validatorAccount.None?
    ensures r.Success? ==> NarrowsTo(r.value.establishedAccount, txs.establishedAccount, UnsignedEstablished)
    ensures r.Success? ==> NarrowsTo(r.value.transfer, txs.transfer, UnsignedTransfer)
    ensures r.Success? ==> NarrowsTo(r.value.bond, txs.bond, UnsignedBond)
    ensures r.Success? && txs.establishedAccount.Some? ==>
      forall i | 0 <= i < |txs.establishedAccount.value| ::
        SignEstablishedAccountTx(txs.establishedAccount.value[i], wallet) == Success(r.value.establishedAccount.value[i])
    ensures r.Success? && txs.transfer.Some? ==>
      forall i | 0 <= i < |txs.transfer.value| ::
        SignTransferTx(txs.transfer.value[i], wallet) == Success(r.value.transfer.value[i])
    ensures r.Success? && txs.bond.Some? ==>
      forall i | 0 <= i < |txs.bond.value| ::
        SignDelegationBondTx(txs.bond.value[i], wallet, r.value.establishedAccount) == Success(r.value.bond.value[i])
  {
    if HasValidatorTxs(txs) then Failure(ValidatorTxNotAllowedHere)
    else if HasAliasSelfBond(txs) then Failure(SelfBondMustUseValidatorIdentity)
    else
      match SignEstablishedAccounts(txs.establishedAccount, wallet)
      case Failure(e) => Failure(KeyLookupFailed(e))
      case Success(established) =>
        match SignTransfers(txs.transfer, wallet)
        case Failure(e) => Failure(KeyLookupFailed(e))
        case Success(transfer) =>
          match SignBonds(txs.bond, wallet, established)
          case Failure(e) => Failure(KeyLookupFailed(e))
          case Success(bond) => Success(Transactions(established, None, transfer, bond))
  }

  /** With a consistent wallet, every transfer `sign_txs` signs carries a
      signature that `verify_sig` accepts. */
  lemma SignedTransfersVerify(txs: UnsignedTransactions, wallet: Wallet)
    requires WalletConsistent(wallet)
    requires SignTxs(txs, wallet).Success?
    ensures var out := SignTxs(txs, wallet).value;
      out.transfer.Some? ==> forall i | 0 <= i < |out.transfer.value| :: TransferVerifySig(out.transfer.value[i])
  {
  }
}
