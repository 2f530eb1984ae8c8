/** The genesis transaction records: established and validator accounts,
    transfers and bonds, their signed forms, the canonical encodings that are
    signed, the narrowing conversions from signed to unsigned, and the
    denomination of amounts during validation. */
module TxModel {
  import opened Wrappers
  import opened Crypto

  /** A human-readable account name. Aliases compare as written: the
      wallet's alias normalisation is not part of this model. */
  type Alias = string

  newtype u8 = x: int | 0 <= x < 256

  /** Number of decimal places of an amount (`token::Denomination`). */
  type Denomination = u8

  /** `token::DenominatedAmount`: an integer mantissa and its decimal places. */
  datatype DenominatedAmount = DenominatedAmount(amount: nat, denom: Denomination)

  /** `<` on `DenominatedAmount`, the field-by-field order (mantissa first,
      then decimal places); `==` is equality of both fields. */
  predicate AmountLt(a: DenominatedAmount, b: DenominatedAmount) {
    a.amount < b.amount || (a.amount == b.amount && a.denom < b.denom)
  }

  /** Decimal places of the native token, the precision bonds are given. */
  const NativeMaxDecimalPlaces: Denomination := 6

  /** A fixed-point decimal (`Dec`), carried as its raw representation and
      never computed on here. */
  type Dec = int

  datatype DkgPublicKey = DkgPublicKey(raw: nat)

  datatype SocketAddr = SocketAddr(ip: seq<u8>, port: nat)

  /** A participant named either by an alias or by its public key. */
  datatype AliasOrPk = ByAlias(alias: Alias) | ByPk(pk: PublicKey)

  /** One Borsh-serialised field. A canonical encoding is the sequence of
      its fields in declaration order; like Borsh, which length-prefixes
      every string, vector and map, a field is taken to be self-delimiting. */
  datatype Field =
    | AliasField(alias: Alias)
    | TextField(text: string)
    | PkField(pk: PublicKey)
    | OptionPkField(optPk: Option<PublicKey>)
    | StorageField(entries: map<string, string>)
    | DkgKeyField(dkg: DkgPublicKey)
    | DecField(dec: Dec)
    | AddrField(addr: SocketAddr)
    | AmountField(amt: DenominatedAmount)
    | SourceField(src: AliasOrPk)

  type Message = seq<Field>

  type Sig = Signature<Message>

  /** A public key together with its holder's authorization of the owning
      transaction. */
  datatype SignedPk = SignedPk(pk: PublicKey, authorization: Sig)

  datatype EstablishedAccountTx<PK> = EstablishedAccountTx(
    alias: Alias,
    vp: string,
    publicKey: Option<PK>,
    storage: map<string, string>)

  type UnsignedEstablishedAccountTx = EstablishedAccountTx<PublicKey>

  type SignedEstablishedAccountTx = EstablishedAccountTx<SignedPk>

  datatype ValidatorAccountTx<PK> = ValidatorAccountTx(
    alias: Alias,
    dkgKey: DkgPublicKey,
    vp: string,
    commissionRate: Dec,
    maxCommissionRateChange: Dec,
    netAddress: SocketAddr,
    accountKey: PK,
    consensusKey: PK,
    protocolKey: PK,
    tendermintNodeKey: PK,
    ethHotKey: PK,
    ethColdKey: PK)

  type UnsignedValidatorAccountTx = ValidatorAccountTx<PublicKey>

  type SignedValidatorAccountTx = ValidatorAccountTx<SignedPk>

  /** A transfer. The declared and the denominated form have the same shape:
      both carry a `DenominatedAmount`. */
  datatype TransferTx = TransferTx(token: Alias, source: PublicKey, target: Alias, amount: DenominatedAmount)

  datatype BondTx = BondTx(source: AliasOrPk, validator: Alias, amount: DenominatedAmount)

  /** `Signed<T>`: the data, retained unchanged, and one signature over it. */
  datatype Signed<T> = Signed(data: T, signature: Sig)

  type SignedTransferTx = Signed<TransferTx>

  type SignedBondTx = Signed<BondTx>

  // ---------------------------------------------------------------------
  // Canonical encodings

  function EstablishedAccountEncoding(tx: UnsignedEstablishedAccountTx): Message {
    [AliasField(tx.alias), TextField(tx.vp), OptionPkField(tx.publicKey), StorageField(tx.storage)]
  }

  function ValidatorAccountEncoding(tx: UnsignedValidatorAccountTx): Message {
    [AliasField(tx.alias), DkgKeyField(tx.dkgKey), TextField(tx.vp),
     DecField(tx.commissionRate), DecField(tx.maxCommissionRateChange), AddrField(tx.netAddress),
     PkField(tx.accountKey), PkField(tx.consensusKey), PkField(tx.protocolKey),
     PkField(tx.tendermintNodeKey), PkField(tx.ethHotKey), PkField(tx.ethColdKey)]
  }

  /** `TransferTx::data_to_sign`: token, source, target and amount. */
  function TransferDataToSign(tx: TransferTx): Message {
    [AliasField(tx.token), PkField(tx.source), AliasField(tx.target), AmountField(tx.amount)]
  }

  /** `BondTx::data_to_sign`: source, validator and amount. */
  function BondDataToSign(tx: BondTx): Message {
    [SourceField(tx.source), AliasField(tx.validator), AmountField(tx.amount)]
  }

  /** The encodings determine the transactions: two transactions that differ
      in any field have different signable data. */
  lemma TransferDataToSignInjective(a: TransferTx, b: TransferTx)
    requires TransferDataToSign(a) == TransferDataToSign(b)
    ensures a == b
  {
    assert TransferDataToSign(a)[0] == TransferDataToSign(b)[0];
    assert TransferDataToSign(a)[1] == TransferDataToSign(b)[1];
    assert TransferDataToSign(a)[2] == TransferDataToSign(b)[2];
    assert TransferDataToSign(a)[3] == TransferDataToSign(b)[3];
  }

  lemma BondDataToSignInjective(a: BondTx, b: BondTx)
    requires BondDataToSign(a) == BondDataToSign(b)
    ensures a == b
  {
    assert BondDataToSign(a)[0] == BondDataToSign(b)[0];
    assert BondDataToSign(a)[1] == BondDataToSign(b)[1];
    assert BondDataToSign(a)[2] == BondDataToSign(b)[2];
  }

  lemma EstablishedAccountEncodingInjective(a: UnsignedEstablishedAccountTx, b: UnsignedEstablishedAccountTx)
    requires EstablishedAccountEncoding(a) == EstablishedAccountEncoding(b)
    ensures a == b
  {
    var x, y := EstablishedAccountEncoding(a), EstablishedAccountEncoding(b);
    assert x[0] == y[0] && x[1] == y[1] && x[2] == y[2] && x[3] == y[3];
  }

  lemma ValidatorAccountEncodingInjective(a: UnsignedValidatorAccountTx, b: UnsignedValidatorAccountTx)
    requires ValidatorAccountEncoding(a) == ValidatorAccountEncoding(b)
    ensures a == b
  {
    var x, y := ValidatorAccountEncoding(a), ValidatorAccountEncoding(b);
    assert x[0] == y[0] && x[1] == y[1] && x[2] == y[2] && x[3] == y[3];
    assert x[4] == y[4] && x[5] == y[5] && x[6] == y[6] && x[7] == y[7];
    assert x[8] == y[8] && x[9] == y[9] && x[10] == y[10] && x[11] == y[11];
  }

  // ---------------------------------------------------------------------
  // Narrowing conversions: signed to unsigned

  /** `From<&SignedEstablishedAccountTx>`: keeps every field, replacing the
      signed key by its bare public key. */
  function UnsignedEstablished(tx: SignedEstablishedAccountTx): (u: UnsignedEstablishedAccountTx)
    ensures u.alias == tx.alias && u.vp == tx.vp && u.storage == tx.storage
    ensures u.publicKey.Some? <==> tx.publicKey.Some?
    ensures tx.publicKey.Some? ==> u.publicKey.value == tx.publicKey.value.pk
  {
    EstablishedAccountTx(
      tx.alias, tx.vp,
      match tx.publicKey case None => None case Some(signed) => Some(signed.pk),
      tx.storage)
  }

  /** `From<&SignedValidatorAccountTx>`: keeps every field, replacing each of
      the six signed keys by its bare public key. */
  function UnsignedValidator(tx: SignedValidatorAccountTx): (u: UnsignedValidatorAccountTx)
    ensures u.alias == tx.alias && u.dkgKey == tx.dkgKey && u.vp == tx.vp
    ensures u.commissionRate == tx.commissionRate && u.maxCommissionRateChange == tx.maxCommissionRateChange
    ensures u.netAddress == tx.netAddress
    ensures u.accountKey == tx.accountKey.pk && u.consensusKey == tx.consensusKey.pk
    ensures u.protocolKey == tx.protocolKey.pk && u.tendermintNodeKey == tx.tendermintNodeKey.pk
    ensures u.ethHotKey == tx.ethHotKey.pk && u.ethColdKey == tx.ethColdKey.pk
  {
    ValidatorAccountTx(
      tx.alias, tx.dkgKey, tx.vp, tx.commissionRate, tx.maxCommissionRateChange, tx.netAddress,
      tx.accountKey.pk, tx.consensusKey.pk, tx.protocolKey.pk,
      tx.tendermintNodeKey.pk, tx.ethHotKey.pk, tx.ethColdKey.pk)
  }

  /** `From<&SignedTransferTx>`: the retained data. */
  function UnsignedTransfer(tx: SignedTransferTx): (r: TransferTx)
    ensures Signed(r, tx.signature) == tx
  {
    tx.data
  }

  /** `From<&SignedBondTx>`: the retained data. */
  function UnsignedBond(tx: SignedBondTx): (r: BondTx)
    ensures Signed(r, tx.signature) == tx
  {
    tx.data
  }

  // ---------------------------------------------------------------------
  // Signing and verifying transfers and bonds

  /** `SignedTransferTx::verify_sig`: the signature is checked against the
      transfer's own source key and its undenominated signable data. */
  predicate TransferVerifySig(tx: SignedTransferTx): (r: bool)
    ensures r <==> exists key :: RefTo(key) == tx.data.source && tx.signature == StandaloneSignature(key, TransferDataToSign(tx.data))
  {
    assert RefTo(SecretKey(tx.data.source.raw)) == tx.data.source;
    VerifyStandaloneSig(TransferDataToSign(tx.data), tx.data.source, tx.signature)
  }

  /** `SignedBondTx::verify_sig`, against a key resolved by the caller. */
  predicate BondVerifySig(tx: SignedBondTx, pk: PublicKey): (r: bool)
    ensures r <==> exists key :: RefTo(key) == pk && tx.signature == StandaloneSignature(key, BondDataToSign(tx.data))
  {
    assert RefTo(SecretKey(pk.raw)) == pk;
    VerifyStandaloneSig(BondDataToSign(tx.data), pk, tx.signature)
  }

  /** `TransferTx::sign`. The data is retained unchanged, and the signature
      verifies exactly when the signing key is the source's. */
  function TransferSign(tx: TransferTx, key: SecretKey): (r: SignedTransferTx)
    ensures UnsignedTransfer(r) == tx
    ensures TransferVerifySig(r) <==> RefTo(key) == tx.source
  {
    Signed(tx, StandaloneSignature(key, TransferDataToSign(tx)))
  }

  /** `BondTx::sign`. The data is retained unchanged, and the signature
      verifies against the signer's public key and no other. */
  function BondSign(tx: BondTx, key: SecretKey): (r: SignedBondTx)
    ensures UnsignedBond(r) == tx
    ensures forall pk :: BondVerifySig(r, pk) <==> pk == RefTo(key)
  {
    Signed(tx, StandaloneSignature(key, BondDataToSign(tx)))
  }

  /** A signature binds every field: once any field of a signed transfer is
      changed, its signature no longer verifies. */
  lemma TransferSignatureBindsData(tx: TransferTx, key: SecretKey, changed: TransferTx)
    requires RefTo(key) == tx.source && changed != tx
    ensures TransferVerifySig(TransferSign(tx, key))
    ensures !TransferVerifySig(Signed(changed, TransferSign(tx, key).signature))
  {
    if TransferVerifySig(Signed(changed, TransferSign(tx, key).signature)) {
      TransferDataToSignInjective(tx, changed);
    }
  }

  // ---------------------------------------------------------------------
  // Denomination

  /** Token metadata: the decimal places declared for each token. */
  type Tokens = map<Alias, Denomination>

  /** `DenominatedAmount::increase_precision`, which rescales an amount to
      more decimal places and fails (precision decrease, overflow) outside
      this model. */
  type IncreasePrecision = (DenominatedAmount, Denomination) -> Option<DenominatedAmount>

  datatype DenominationError =
    | UnknownToken(token: Alias)
    | PrecisionIncreaseFailed(amount: DenominatedAmount, denom: Denomination)

  /** `TransferTx::denominate`: rescale the amount to the token's declared
      decimal places. Only the amount changes. */
  function DenominateTransfer(tx: TransferTx, tokens: Tokens, increasePrecision: IncreasePrecision)
    : (r: Result<TransferTx, DenominationError>)
    ensures tx.token !in tokens ==> r == Failure(UnknownToken(tx.token))
    ensures r.Success? <==> tx.token in tokens && increasePrecision(tx.amount, tokens[tx.token]).Some?
    ensures r.Success? ==> r.value.token == tx.token && r.value.source == tx.source && r.value.target == tx.target
    ensures r.Success? ==> Some(r.value.amount) == increasePrecision(tx.amount, tokens[tx.token])
  {
    if tx.token !in tokens then
      Failure(UnknownToken(tx.token))
    else
      var denom := tokens[tx.token];
      match increasePrecision(tx.amount, denom)
      case None => Failure(PrecisionIncreaseFailed(tx.amount, denom))
      case Some(amount) => Success(TransferTx(tx.token, tx.source, tx.target, amount))
  }

  /** `BondTx::denominate`: rescale the amount to the native token's decimal
      places. Only the amount changes. */
  function DenominateBond(tx: BondTx, increasePrecision: IncreasePrecision)
    : (r: Result<BondTx, DenominationError>)
    ensures r.Success? <==> increasePrecision(tx.amount, NativeMaxDecimalPlaces).Some?
    ensures r.Success? ==> r.value.source == tx.source && r.value.validator == tx.validator
    ensures r.Success? ==> Some(r.value.amount) == increasePrecision(tx.amount, NativeMaxDecimalPlaces)
  {
    match increasePrecision(tx.amount, NativeMaxDecimalPlaces)
    case None => Failure(PrecisionIncreaseFailed(tx.amount, NativeMaxDecimalPlaces))
    case Some(amount) => Success(BondTx(tx.source, tx.validator, amount))
  }
}
