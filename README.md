# Genesis transactions: signing, validation and balance simulation

This project models the genesis-transaction pipeline of the Namada node
(`apps/src/lib/config/genesis/transactions.rs`) and proves properties of it.

A genesis batch has four optional, ordered categories: established accounts,
validator accounts, transfers and bonds.

- **Merging.** Contributions are merged category by category.
- **Signing.** `sign_txs` refuses validator accounts and alias self-bonds.
  It signs the other transactions with wallet keys.
- **Validation.** `validate` checks the batch in order:
  - account aliases must be unique, validity predicates (VPs) must exist and
    declared keys must authorize their accounts;
  - transfers are replayed, and bonds after them, against a simulated token
    ledger (`TokenBalancesForValidation`) seeded from the declared balances;
  - the result is the validated batch, or nothing when any check failed.
- **Queries.** Two questions are asked of the validated batch: is there a
  validator, and does some validator have positive voting power.

Modules, one per file:

- `Wrappers`: `Option` and `Result`.
- `Crypto`: symbolic keys and signatures. A signature records its signer's
  public key and the signed message. Verifying means checking both.
- `TxModel`: the transaction records and their signed forms; the canonical
  encodings that are signed; the signed→unsigned `From` conversions;
  `sign`/`verify_sig`; `denominate`.
- `TxBatch`: the batch type, `merge` (a function on values plus an in-place
  method on a batch object), and `Default`.
- `BalanceLedger`: the simulated ledger, its debit and credit updates, and
  each token's total holdings (its supply).
- `Signer`: the wallet (two key tables), the `sign_*` functions and `sign_txs`.
- `AccountChecks`: `validate_established_account`,
  `validate_validator_account` and the two account loops of `validate`.
- `LedgerSteps`: `validate_transfer` and `validate_bond`. Each is a step
  function on ledger values, and a method of the `LedgerSimulator` class that
  updates its balances in place.
- `Validation`: `validate`, as a method with the source's loops, proved equal
  to the specification function `ValidateSpec`, with lemmas about the result.
- `Queries`: `has_at_least_one_validator` and
  `has_validator_with_positive_voting_power`.
- `SigningRoundTrip`: what the signer produces passes the validator's
  signature checks.

Error paths that the source reports by panicking (a key missing from the
wallet, signing refused) are `Failure` values here. Rejections are kept in
the model: a dropped transaction, a cleared `is_valid` flag, a `None` batch.

## Model

| member | source | states |
|---|---|---|
| Crypto.SignThenVerify | apps/src/lib/config/genesis/transactions.rs:399-407 | A standalone signature verifies for its own key and message, and for no other key or message. |
| TxModel.TransferDataToSignInjective | apps/src/lib/config/genesis/transactions.rs:676-684 | Transfers with the same signable data are the same transfer. |
| TxModel.BondDataToSignInjective | apps/src/lib/config/genesis/transactions.rs:768-775 | Bonds with the same signable data are the same bond. |
| TxModel.EstablishedAccountEncodingInjective | apps/src/lib/config/genesis/transactions.rs:202-229 | Unsigned established accounts with the same signed encoding are equal. |
| TxModel.ValidatorAccountEncodingInjective | apps/src/lib/config/genesis/transactions.rs:231-305 | Unsigned validator accounts with the same signed encoding are equal. |
| TxModel.UnsignedEstablished | apps/src/lib/config/genesis/transactions.rs:1421-1436 | Narrowing keeps alias, VP and storage. It keeps the public key without its authorization, and keeps an absent key absent. |
| TxModel.UnsignedValidator | apps/src/lib/config/genesis/transactions.rs:1438-1470 | Narrowing keeps every plain field. It keeps each of the six keys without its authorization. |
| TxModel.UnsignedTransfer | apps/src/lib/config/genesis/transactions.rs:1472-1477 | Dropping the signature and signing again with the same signature gives back the signed transfer. |
| TxModel.UnsignedBond | apps/src/lib/config/genesis/transactions.rs:1479-1484 | Dropping the signature and signing again with the same signature gives back the signed bond. |
| TxModel.TransferVerifySig | apps/src/lib/config/genesis/transactions.rs:602-609 | A transfer verifies exactly when its signature was made, over its signable data, by a key whose public key is the transfer's source. |
| TxModel.BondVerifySig | apps/src/lib/config/genesis/transactions.rs:713-723 | A bond verifies against a key exactly when its signature was made, over its signable data, by the secret key of that public key. |
| TxModel.TransferSign | apps/src/lib/config/genesis/transactions.rs:692-701 | Signing keeps the transfer unchanged. The signature verifies exactly when the signing key is the source's. |
| TxModel.BondSign | apps/src/lib/config/genesis/transactions.rs:783-792 | Signing keeps the bond unchanged. The signature verifies against the signer's key and no other. |
| TxModel.TransferSignatureBindsData | apps/src/lib/config/genesis/transactions.rs:602-609 | A correctly signed transfer verifies. Once any of its fields is changed, the same signature fails. |
| TxModel.DenominateTransfer | apps/src/lib/config/genesis/transactions.rs:631-673 | An unknown token gives `UnknownToken`. Success holds exactly when the token is known and the precision increase succeeds. Only the amount changes, and it becomes the rescaled amount. |
| TxModel.DenominateBond | apps/src/lib/config/genesis/transactions.rs:744-765 | Success holds exactly when the amount can be raised to the native precision. Source and validator are kept, and the amount is the rescaled one. |
| TxBatch.AppendCategory | apps/src/lib/config/genesis/transactions.rs:430-439 | Both sides present: the concatenation. Only one side present: that side. Neither present: absent. |
| TxBatch.MergeCategory | apps/src/lib/config/genesis/transactions.rs:428-469 | A merged category is absent only when both are. Its count is the sum of theirs. It starts with the first batch's transactions and ends with the second's. |
| TxBatch.MergeEmpty | apps/src/lib/config/genesis/transactions.rs:472-481 | Merging with the default batch, on either side, changes nothing. |
| TxBatch.MergeAssociative | apps/src/lib/config/genesis/transactions.rs:428-469 | Merging is associative. |
| TxBatch.Merged | apps/src/lib/config/genesis/transactions.rs:428-469 | Each merged category is absent exactly when both inputs lack it, and holds the first batch's transactions followed by the second's. |
| TxBatch.TransactionsBuffer.Merge | apps/src/lib/config/genesis/transactions.rs:428-469 | The in-place merge leaves the batch equal to the category-wise merge of the old batch and the other one. |
| BalanceLedger.SeedLedger | apps/src/lib/config/genesis/transactions.rs:942-962 | Every declared token gets an empty alias accumulator and a copy of its declared balances. No declared balances give an empty ledger. |
| BalanceLedger.DebitAmount | apps/src/lib/config/genesis/transactions.rs:1368-1373 | The holder is removed exactly when the debit equals the mantissa. Otherwise the mantissa is reduced by the debit. Other holders are untouched. |
| BalanceLedger.DebitExact | apps/src/lib/config/genesis/transactions.rs:1109-1120 | The holder is removed exactly when the amount equals the balance as a whole. Otherwise the mantissa is reduced. Other holders are untouched. |
| BalanceLedger.CreditAlias | apps/src/lib/config/genesis/transactions.rs:1375-1383 | The target's accumulator grows by the amount. A new accumulator starts at zero with the amount's decimal places. Other aliases are untouched. |
| BalanceLedger.DebitAmountSum | apps/src/lib/config/genesis/transactions.rs:1368-1373 | A transfer debit removes exactly the debited amount from the holdings. |
| BalanceLedger.DebitExactSum | apps/src/lib/config/genesis/transactions.rs:1109-1120 | A bond debit removes exactly the debited mantissa from the holdings. |
| BalanceLedger.CreditAliasSum | apps/src/lib/config/genesis/transactions.rs:1375-1383 | A credit adds exactly the credited amount to the holdings. |
| Signer.SignEstablishedAccountTx | apps/src/lib/config/genesis/transactions.rs:202-229 | Fails exactly when a declared key is not in the wallet. On success the result narrows back to the input. A declared key's authorization is the wallet key's signature over the unsigned encoding. |
| Signer.SignValidatorAccountTx | apps/src/lib/config/genesis/transactions.rs:231-305 | The result narrows back to the input. Each of the six authorizations is that role's key's signature over the unsigned encoding. |
| Signer.SignTransferTx | apps/src/lib/config/genesis/transactions.rs:307-315 | Fails exactly when the source key is not in the wallet. Otherwise the transfer is signed with the wallet's key for the source. |
| Signer.SignSelfBondTx | apps/src/lib/config/genesis/transactions.rs:317-322 | The result narrows back to the bond. It verifies against the validator's account key. |
| Signer.FindSourcePk | apps/src/lib/config/genesis/transactions.rs:341-383 | A public-key source is found as itself when any established account exists. An alias source stops at the first account with that alias, whose declared key it yields; if that account has no key, the result says so. No match means not found. |
| Signer.SignDelegationBondTx | apps/src/lib/config/genesis/transactions.rs:324-397 | The result narrows back to the bond. A source whose key is in the wallet, by alias or by public key, is signed with that key. Otherwise the bond is signed exactly when some established account exists, the source resolves to a declared key and that key is in the wallet, and then with that key. The failures are: no established accounts, source not found, an account without a key, or its key missing from the wallet. With a consistent wallet, a public-key bond verifies against its source. |
| Signer.MapResult | apps/src/lib/config/genesis/transactions.rs:80-103 | Success holds exactly when every element succeeds, and then the results are in order. Otherwise the error is the first element's failure. |
| Signer.SignEstablishedAccounts | apps/src/lib/config/genesis/transactions.rs:81-85 | An absent category stays absent. Otherwise it succeeds exactly when every account signs, with one signed account per input, in order. A failure is the first failing account's error. |
| Signer.SignTransfers | apps/src/lib/config/genesis/transactions.rs:87-91 | An absent category stays absent. Otherwise it succeeds exactly when every transfer signs, with one signed transfer per input, in order. A failure is the first failing transfer's error. |
| Signer.SignBonds | apps/src/lib/config/genesis/transactions.rs:92-96 | An absent category stays absent. Otherwise it succeeds exactly when every bond signs against the signed accounts, with one signed bond per input, in order. A failure is the first failing bond's error. |
| Signer.SignTxs | apps/src/lib/config/genesis/transactions.rs:49-104 | Validator accounts give `ValidatorTxNotAllowedHere`, and they are the only cause of it. Without them, `SelfBondMustUseValidatorIdentity` is returned exactly when some bond's alias source is its validator. A successful result has no validator category. Every other category narrows back to the input, in order and length. Each element is its own signing result, and bonds are resolved against the signed accounts. Without a refusal, signing succeeds exactly when every established account, transfer and bond signs. A failed key lookup reports the first failure, taking established accounts, then transfers, then bonds. |
| Signer.SignedTransfersVerify | apps/src/lib/config/genesis/transactions.rs:80-90 | With a consistent wallet, every transfer that `sign_txs` signs passes `verify_sig`. |
| AccountChecks.ValidateEstablishedAccount | apps/src/lib/config/genesis/transactions.rs:1152-1197 | The account is always registered under its alias, overwriting any earlier one. The alias set grows by the alias, and a duplicate leaves it unchanged. The check passes exactly when the alias was new, the VP exists and a declared key authorized the account. |
| AccountChecks.ValidateValidatorAccount | apps/src/lib/config/genesis/transactions.rs:1207-1319 | The account key is always registered under its alias. The alias set grows as for established accounts. The check passes exactly when the alias was new, the VP exists and all six keys authorized the account. |
| AccountChecks.KeyAuthorizes | apps/src/lib/config/genesis/transactions.rs:1405-1419 | A key authorizes a message exactly when its authorization is the signature, over that message, of the secret key of the declared public key. |
| AccountChecks.EstablishedAccountsPhaseRegistry | apps/src/lib/config/genesis/transactions.rs:916-927 | After the established-account loop, every alias it saw is used and registered as an established account. Validator accounts are untouched. |
| AccountChecks.EstablishedAccountsPhaseValid | apps/src/lib/config/genesis/transactions.rs:916-927 | The loop leaves the flag set exactly when it was set before, its aliases are pairwise distinct and not yet used, and every account names an existing VP and is authorized by its declared key. |
| AccountChecks.ValidatorAccountsPhaseRegistry | apps/src/lib/config/genesis/transactions.rs:929-940 | After the validator-account loop, every alias it saw is used and registered as a validator account. Established accounts are untouched. |
| AccountChecks.ValidatorAccountsPhaseValid | apps/src/lib/config/genesis/transactions.rs:929-940 | The loop leaves the flag set exactly when it was set before, its aliases are pairwise distinct and not yet used, and every account names an existing VP and is authorized by all six of its keys. |
| AccountChecks.LastIndexOf | apps/src/lib/config/genesis/transactions.rs:916-940 | Absent exactly when the alias does not occur. Otherwise it is the position of its last occurrence. |
| AccountChecks.EstablishedAccountsPhaseLookup | apps/src/lib/config/genesis/transactions.rs:916-927 | After the established-account loop, an alias declared in it maps to the declared key of its last declaration. Any other alias keeps its earlier entry. |
| AccountChecks.ValidatorAccountsPhaseLookup | apps/src/lib/config/genesis/transactions.rs:929-940 | After the validator-account loop, an alias declared in it maps to the account key of its last declaration. Any other alias keeps its earlier entry. |
| AccountChecks.AccountsPhaseRegistry | apps/src/lib/config/genesis/transactions.rs:916-940 | Both loops together use exactly the batch's aliases, and register each category's accounts under their aliases. |
| AccountChecks.AccountsPhaseValues | apps/src/lib/config/genesis/transactions.rs:916-940 | Each registered established alias maps to the declared key of its last declaration. Each registered validator alias maps to the account key of its last declaration. |
| AccountChecks.AccountsPhaseValid | apps/src/lib/config/genesis/transactions.rs:916-940 | Both loops together pass exactly when the aliases are pairwise distinct across both categories and every VP and signature is valid. |
| AccountChecks.AccountsPhaseSpec | apps/src/lib/config/genesis/transactions.rs:916-940 | Both loops together use exactly the batch's aliases. Each category's registry holds exactly its aliases, each mapped to the key of its last declaration. They pass exactly when those aliases are pairwise distinct across both categories and every VP and signature is valid. |
| LedgerSteps.ApplyTransfer | apps/src/lib/config/genesis/transactions.rs:1356-1384 | The ledger is updated exactly when the token has balances and the source key holds at least the mantissa. |
| LedgerSteps.TransferStepPays | apps/src/lib/config/genesis/transactions.rs:1356-1384 | When the source holds B ≥ A, it drops to B − A and is removed exactly when B = A. The target accumulator grows by exactly A. Nothing else changes. This happens even when the signature or target check fails, and then the transfer is dropped. |
| LedgerSteps.TransferStepRejects | apps/src/lib/config/genesis/transactions.rs:1336-1399 | A failed denomination, an unknown ledger token, a missing source or too small a balance drops the transfer and leaves the ledger unchanged. |
| LedgerSteps.TransferStepKeeps | apps/src/lib/config/genesis/transactions.rs:1322-1403 | A transfer is kept exactly when it is the denominated input, its signature verifies, its target is a used alias and its source can pay. |
| LedgerSteps.TransferStepConserves | apps/src/lib/config/genesis/transactions.rs:1356-1384 | A transfer changes no token's total holdings. |
| LedgerSteps.ResolveBondSourcePk | apps/src/lib/config/genesis/transactions.rs:1042-1056 | A key source is itself. An alias resolves to an established account's declared key, and otherwise to a validator's account key. |
| LedgerSteps.ApplyBond | apps/src/lib/config/genesis/transactions.rs:1090-1139 | The ledger is updated exactly when the native token has balances and the source's balance is not less than the amount. |
| LedgerSteps.BondStepDebits | apps/src/lib/config/genesis/transactions.rs:1090-1139 | A bond debits only the native token and credits nothing. An alias source is debited from its accumulator, a key source from its declared balance; the other map is unchanged, and the entry is removed on an exact match. The bond is kept exactly when it is accepted. |
| LedgerSteps.BondStepRejects | apps/src/lib/config/genesis/transactions.rs:1072-1139 | A failed denomination, or a missing or insufficient native balance, drops the bond and leaves the ledger unchanged. |
| LedgerSteps.BondStepKeeps | apps/src/lib/config/genesis/transactions.rs:1034-1142 | A bond is kept exactly when it is the denominated input, it is signed by its resolved source key, its validator is declared and its source can pay. |
| LedgerSteps.BondStepSupply | apps/src/lib/config/genesis/transactions.rs:1090-1139 | Tokens other than the native one keep their holdings. A kept bond removes exactly its mantissa from the native holdings. |
| LedgerSteps.LedgerSimulator.constructor | apps/src/lib/config/genesis/transactions.rs:942-962 | The simulated ledger starts as the seeded copy of the declared balances. |
| LedgerSteps.LedgerSimulator.ValidateTransfer | apps/src/lib/config/genesis/transactions.rs:1322-1403 | The in-place update returns, and leaves behind, exactly what the transfer step gives for the old balances. |
| LedgerSteps.LedgerSimulator.ValidateBond | apps/src/lib/config/genesis/transactions.rs:1034-1142 | The in-place update returns, and leaves behind, exactly what the bond step gives for the old balances. |
| Validation.CheckAccounts | apps/src/lib/config/genesis/transactions.rs:916-940 | The two account loops end with the flag and registry of the account phase. |
| Validation.ValidateTransfers | apps/src/lib/config/genesis/transactions.rs:964-975 | The transfer loop keeps the transfers, and leaves the ledger, that the transfer phase gives. |
| Validation.ValidateBonds | apps/src/lib/config/genesis/transactions.rs:989-1001 | The bond loop keeps the bonds, and leaves the ledger, that the bond phase gives. |
| Validation.Validate | apps/src/lib/config/genesis/transactions.rs:894-1032 | The method's result is `ValidateSpec` of its inputs. |
| Validation.TransferPhaseLength | apps/src/lib/config/genesis/transactions.rs:964-975 | The transfer loop keeps at most one transfer per input. |
| Validation.TransferPhaseStepAt | apps/src/lib/config/genesis/transactions.rs:964-975 | When all transfers are kept, the one at position i is what the transfer step keeps for input i on the ledger the first i transfers leave. |
| Validation.TransferPhaseKeeps | apps/src/lib/config/genesis/transactions.rs:964-984 | At most one transfer is kept per input. When all are kept, each is the accepted denominated input at the same position, and its source could pay on the ledger the earlier transfers left. |
| Validation.TransferPhaseAllKept | apps/src/lib/config/genesis/transactions.rs:964-984 | The transfer loop keeps every transfer exactly when each step, at its turn, keeps its transfer on the ledger the earlier transfers left. |
| Validation.TransferPhaseAccepts | apps/src/lib/config/genesis/transactions.rs:964-984 | Transfers that are each accepted, and payable on the ledger the earlier transfers left, are all kept. |
| Validation.TransferPhaseConserves | apps/src/lib/config/genesis/transactions.rs:964-975 | The transfer loop conserves every token's total holdings. |
| Validation.BondPhaseLength | apps/src/lib/config/genesis/transactions.rs:989-1001 | The bond loop keeps at most one bond per input. |
| Validation.BondPhaseStepAt | apps/src/lib/config/genesis/transactions.rs:989-1001 | When all bonds are kept, the one at position i is what the bond step keeps for input i on the ledger the first i bonds leave. |
| Validation.BondPhaseKeeps | apps/src/lib/config/genesis/transactions.rs:986-1024 | At most one bond is kept per input. When all are kept, each is the accepted denominated input at the same position: signed by its source's key, bonded to a declared validator, and payable on the native ledger the earlier bonds left. |
| Validation.BondPhaseAllKept | apps/src/lib/config/genesis/transactions.rs:986-1024 | The bond loop keeps every bond exactly when each step, at its turn, keeps its bond on the ledger the earlier bonds left. |
| Validation.BondPhaseAccepts | apps/src/lib/config/genesis/transactions.rs:986-1024 | Bonds that are each accepted against the registry, and payable on the native ledger the earlier bonds left, are all kept. |
| Validation.BondPhaseAcceptsDeclared | apps/src/lib/config/genesis/transactions.rs:986-1024 | Bonds that are each signed by the key their source declared, bonded to a declared validator and payable on the native ledger the earlier bonds left, are all kept against the registry the account loops build. |
| Validation.BondPhaseSupply | apps/src/lib/config/genesis/transactions.rs:986-1024 | The bond loop changes no holdings except the native token's. When all bonds are kept, the native holdings fell by exactly their total mantissa. |
| Validation.ValidateAccounts | apps/src/lib/config/genesis/transactions.rs:1026-1031 | A validated batch returns its accounts unchanged. Its aliases are pairwise distinct, its VPs exist and its signatures verify. |
| Validation.ValidateRejectsDuplicateAlias | apps/src/lib/config/genesis/transactions.rs:1166-1174 | A repeated alias anywhere among the accounts rejects the batch. |
| Validation.ValidateKeepsTransfers | apps/src/lib/config/genesis/transactions.rs:964-984 | In a validated batch the transfer category is present exactly when declared. It has one accepted, denominated transfer per declared transfer, whose source could pay on the ledger the earlier transfers left. |
| Validation.DeclaredSourcePk | apps/src/lib/config/genesis/transactions.rs:1042-1056 | A key source is itself. An alias's key, when it has one, was declared under that alias, by an established account or as a validator's account key. An alias declared in neither has no key. |
| Validation.AccountsPhaseResolves | apps/src/lib/config/genesis/transactions.rs:1042-1056 | Resolving a bond source against the registry the account loops build gives the key the batch declared for it. |
| Validation.ValidateKeepsBonds | apps/src/lib/config/genesis/transactions.rs:986-1024 | In a validated batch the bond category is present exactly when a non-empty one was declared. It has one accepted, denominated bond per declaration. Each is signed by the key its source declared, as a key itself or through the last account declared under its alias. Each goes to a declared validator and was payable on the ledger the transfers and earlier bonds left. |
| Validation.ValidateAccepts | apps/src/lib/config/genesis/transactions.rs:894-1032 | The converse of the lemmas above. A batch is validated when four things hold: its aliases are pairwise distinct, every account passes its checks, every transfer passes at its turn, and, if there are bonds, parameters are given and every bond passes at its turn. |
| Validation.ValidateBondsNeedParameters | apps/src/lib/config/genesis/transactions.rs:1010-1017 | Non-empty bonds without parameters reject the batch. |
| Validation.ValidateEmptyBonds | apps/src/lib/config/genesis/transactions.rs:986-1024 | A declared empty bond list validates exactly as no bond list. |
| Validation.ValidateConservesTransfers | apps/src/lib/config/genesis/transactions.rs:943-984 | After the transfers, every token's total holdings equal the declared ones. |
| Queries.HasAtLeastOneValidator | apps/src/lib/config/genesis/transactions.rs:485-490 | True exactly when the validator category is present and non-empty. |
| Queries.MergedHasValidator | apps/src/lib/config/genesis/transactions.rs:485-490 | A merged batch has a validator exactly when one of its parts has. |
| Queries.ValidatedHasValidator | apps/src/lib/config/genesis/transactions.rs:1026-1031 | A validated batch has a validator exactly when the declared batch had one. |
| Queries.HasValidatorWithPositiveVotingPower | apps/src/lib/config/genesis/transactions.rs:495-522 | True exactly when bonds are present and some bonded validator's total stake converts to positive power, so false without bonds. |
| Queries.StakeOfUnbonded | apps/src/lib/config/genesis/transactions.rs:502-507 | A validator no bond names has zero stake. |
| Queries.StakeAppend | apps/src/lib/config/genesis/transactions.rs:502-507 | Stake adds up over concatenated bond lists. |
| Queries.MergePreservesPositivePower | apps/src/lib/config/genesis/transactions.rs:495-522 | When power grows with stake, merging in more bonds keeps positive voting power. |
| SigningRoundTrip.SignedEstablishedAccountAuthorized | apps/src/lib/config/genesis/transactions.rs:1199-1205 | An established account signed with a consistent wallet passes the account-signature check. |
| SigningRoundTrip.SignedValidatorAccountAuthorized | apps/src/lib/config/genesis/transactions.rs:1241-1316 | A signed validator account passes all six checks exactly when every signing key is the declared one. |
| SigningRoundTrip.SelfBondAuthorized | apps/src/lib/config/genesis/transactions.rs:1042-1069 | A self-bond signed with the validator's account key verifies against the key its alias resolves to. |
| SigningRoundTrip.SignTxsAuthorized | apps/src/lib/config/genesis/transactions.rs:80-103 | With a consistent wallet, every signed established account and transfer passes its check. Every key-sourced bond verifies against its key. |

## Left out

- Cryptography is symbolic, so key derivation, signature schemes and their failure modes are not modelled.
- Borsh serialisation is not modelled byte for byte. An encoding is the sequence of a struct's fields, each taken as self-delimiting (Borsh length-prefixes strings, vectors and maps).
- `DenominatedAmount::increase_precision` is a parameter of the model. Its rescaling and overflow rules live in the token module, which is not part of this model.
- `into_tm_voting_power` and `tm_votes_per_token` are a parameter, a function from stake to power. Fixed-point `Dec` values are carried but never computed on.
- `NATIVE_MAX_DECIMAL_PLACES` is taken to be 6. The constant is defined outside the modelled file.
- `<` on `DenominatedAmount` in the bond balance check is taken as field order: mantissa first, then decimal places. The type's definition is not part of this model.
- Aliases are compared case-sensitively here, as plain strings. The `Alias` type is case-insensitive, but its definition is not part of this model. So case variants of one alias count as distinct in three places: the uniqueness check, the self-bond refusal (`apps/src/lib/config/genesis/transactions.rs:70`) and the established-account match of `find_map` (line 353 of the same file). The wallet's `normalize` of aliases before lookup is not modelled either.
- Wallet lookups: keys are found by alias or by public key through two tables. `FindKeyError` variants other than "not found" (a locked or unreadable key) are not modelled.
- Signer.SignTxs: the source panics on the two refusals and on a failed key lookup, which aborts the process. Here each is a `Failure` value that carries the first failing lookup's error. The abort and the panic messages are not modelled, nor are the `FindKeyError` variants other than "not found".
- Token amounts are unbounded naturals, so a `+=` on an accumulator cannot overflow `Uint`.
- `eprintln!` diagnostics are not modelled. Rejection is visible only as a dropped transaction, a cleared flag or a `None` result.
- `init_validator` (key generation from a validator wallet), `parse_unsigned` (TOML), and the serde and bech32m parsing of `AliasOrPk` are not modelled. They are key storage and parsing.
- The other files of the repository (PoS transaction wrappers, query routing, re-exports) are not part of this model.
- TxBatch.Merged: the source's `merge` moves vectors out of `other`; the model merges values, and the in-place method reassigns the batch's categories.
- SigningRoundTrip.SelfBondAuthorized: it assumes the validator's alias is not also an established account with a key. Such a batch fails the alias check anyway.
