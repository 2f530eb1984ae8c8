/** A genesis transaction batch: four optional, ordered categories. An
    absent category (`None`) is distinct from a declared empty one. */
module TxBatch {
  import opened Wrappers
  import opened TxModel

  datatype Transactions<E, V, T, B> = Transactions(
    establishedAccount: Option<seq<E>>,
    validatorAccount: Option<seq<V>>,
    transfer: Option<seq<T>>,
    bond: Option<seq<B>>)

  /** `UnsignedTransactions`, the declarations before signing. */
  type UnsignedTransactions =
    Transactions<UnsignedEstablishedAccountTx, UnsignedValidatorAccountTx, TransferTx, BondTx>

  /** `Transactions<Unvalidated>`: signed, amounts as declared. */
  type UnvalidatedTransactions =
    Transactions<SignedEstablishedAccountTx, SignedValidatorAccountTx, SignedTransferTx, SignedBondTx>

  /** `Transactions<Validated>`: accounts as signed, transfers and bonds
      denominated. */
  type ValidatedTransactions =
    Transactions<SignedEstablishedAccountTx, SignedValidatorAccountTx, TransferTx, BondTx>

  /** `Transactions::default()`: every category absent. */
  function Empty<E, V, T, B>(): Transactions<E, V, T, B> {
    Transactions(None, None, None, None)
  }

  /** How many transactions a category holds (none when absent). */
  function Count<X>(category: Option<seq<X>>): nat {
    match category
    case None => 0
    case Some(txs) => |txs|
  }

  /** A category's transactions, none when absent. */
  function Txs<X>(category: Option<seq<X>>): (r: seq<X>)
    ensures |r| == Count(category)
    ensures category.Some? ==> r == category.value
  {
    match category
    case None => []
    case Some(txs) => txs
  }

  /** One category of `merge`: `self.take().map(|txs| txs.append(other)).or(other)`. */
  function AppendCategory<X>(mine: Option<seq<X>>, other: Option<seq<X>>): (r: Option<seq<X>>)
    ensures mine.Some? && other.Some? ==> r == Some(mine.value + other.value)
    ensures mine.Some? && other.None? ==> r == mine
    ensures mine.None? ==> r == other
  {
    match mine
    case Some(txs) => Some(match other case Some(newTxs) => txs + newTxs case None => txs)
    case None => other
  }

  /** `Transactions::merge` on values: the category-wise union of two batches. */
  function Merged<E, V, T, B>(self: Transactions<E, V, T, B>, other: Transactions<E, V, T, B>)
    : (r: Transactions<E, V, T, B>)
    ensures r.establishedAccount.None? <==> self.establishedAccount.None? && other.establishedAccount.None?
    ensures r.validatorAccount.None? <==> self.validatorAccount.None? && other.validatorAccount.None?
    ensures r.transfer.None? <==> self.transfer.None? && other.transfer.None?
    ensures r.bond.None? <==> self.bond.None? && other.bond.None?
    ensures Txs(r.establishedAccount) == Txs(self.establishedAccount) + Txs(other.establishedAccount)
    ensures Txs(r.validatorAccount) == Txs(self.validatorAccount) + Txs(other.validatorAccount)
    ensures Txs(r.transfer) == Txs(self.transfer) + Txs(other.transfer)
    ensures Txs(r.bond) == Txs(self.bond) + Txs(other.bond)
  {
    Transactions(
      AppendCategory(self.establishedAccount, other.establishedAccount),
      AppendCategory(self.validatorAccount, other.validatorAccount),
      AppendCategory(self.transfer, other.transfer),
      AppendCategory(self.bond, other.bond))
  }

  /** Per category, a merge keeps the first batch's transactions in order,
      followed by the second's: the merged category is absent exactly when
      both are, its count is the sum of theirs, and it starts with the first
      batch's sequence and ends with the second's. */
  lemma MergeCategory<X>(mine: Option<seq<X>>, other: Option<seq<X>>)
    ensures AppendCategory(mine, other).None? <==> mine.None? && other.None?
    ensures Count(AppendCategory(mine, other)) == Count(mine) + Count(other)
    ensures mine.Some? ==> AppendCategory(mine, other).value[..|mine.value|] == mine.value
    ensures other.Some? ==> AppendCategory(mine, other).value[Count(mine)..] == other.value
  {
  }

  /** Merging with the empty batch, on either side, changes nothing. */
  lemma MergeEmpty<E, V, T, B>(txs: Transactions<E, V, T, B>)
    ensures Merged(Empty(), txs) == txs
    ensures Merged(txs, Empty()) == txs
  {
  }

  /** Merging is associative, so contributions can be merged in any grouping. */
  lemma MergeAssociative<E, V, T, B>(a: Transactions<E, V, T, B>, b: Transactions<E, V, T, B>, c: Transactions<E, V, T, B>)
    ensures Merged(Merged(a, b), c) == Merged(a, Merged(b, c))
  {
    AppendAssociative(a.establishedAccount, b.establishedAccount, c.establishedAccount);
    AppendAssociative(a.validatorAccount, b.validatorAccount, c.validatorAccount);
    AppendAssociative(a.transfer, b.transfer, c.transfer);
    AppendAssociative(a.bond, b.bond, c.bond);
  }

  lemma AppendAssociative<X>(a: Option<seq<X>>, b: Option<seq<X>>, c: Option<seq<X>>)
    ensures AppendCategory(AppendCategory(a, b), c) == AppendCategory(a, AppendCategory(b, c))
  {
    if a.Some? && b.Some? && c.Some? {
      assert (a.value + b.value) + c.value == a.value + (b.value + c.value);
    }
  }

  /** A batch that contributions are merged into in place. */
  class TransactionsBuffer<E, V, T, B> {
    var txs: Transactions<E, V, T, B>

    constructor (txs: Transactions<E, V, T, B>)
      ensures this.txs == txs
    {
      this.txs := txs;
    }

    /** `Transactions::merge`: each category of `other` is appended to this
        batch's category, or taken over when this batch has none. */
    method Merge(other: Transactions<E, V, T, B>)
      modifies this
      ensures txs == Merged(old(txs), other)
    {
      if txs.establishedAccount.Some? {
        if other.establishedAccount.Some? {
          txs := txs.(establishedAccount := Some(txs.establishedAccount.value + other.establishedAccount.value));
        }
      } else {
        txs := txs.(establishedAccount := other.establishedAccount);
      }
      if txs.validatorAccount.Some? {
        if other.validatorAccount.Some? {
          txs := txs.(validatorAccount := Some(txs.validatorAccount.value + other.validatorAccount.value));
        }
      } else {
        txs := txs.(validatorAccount := other.validatorAccount);
      }
      if txs.transfer.Some? {
        if other.transfer.Some? {
          txs := txs.(transfer := Some(txs.transfer.value + other.transfer.value));
        }
      } else {
        txs := txs.(transfer := other.transfer);
      }
      if txs.bond.Some? {
        if other.bond.Some? {
          txs := txs.(bond := Some(txs.bond.value + other.bond.value));
        }
      } else {
        txs := txs.(bond := other.bond);
      }
    }
  }
}
