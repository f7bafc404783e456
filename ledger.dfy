/**
 * The token balances the duel program moves: the players' token accounts and
 * the per-duel vaults. The SPL token program itself is an external
 * collaborator; only the effect of its `transfer` instruction is modelled.
 */
module Ledger {
  import opened Primitives

  /** Why the token program rejects a transfer. */
  datatype TokenError = InsufficientFunds | MintMismatch

  /**
   * A token account, identified by who holds it and the mint of its tokens.
   * A vault is the account the program derives from the seeds
   * `["vault", duel account, mint]`, so one vault exists per duel and mint.
   */
  datatype Account =
    | Wallet(owner: Pubkey, mint: Pubkey)
    | Vault(duel: Pubkey, mint: Pubkey)

  /** Balances of the accounts that exist; an absent account holds nothing. */
  type Balances = map<Account, nat>

  function Balance(b: Balances, a: Account): nat
  {
    if a in b then b[a] else 0
  }

  /** Two ledgers that agree on every account's balance. */
  ghost predicate SameBalances(b: Balances, b': Balances)
  {
    forall a :: Balance(b, a) == Balance(b', a)
  }

  /** The number of tokens held across all accounts. */
  ghost function Total(b: Balances): nat
    decreases |b|
  {
    if b == map[] then 0
    else
      var a :| a in b;
      assert |b - {a}| < |b| by { CardRemove(b, a); }
      b[a] + Total(b - {a})
  }

  lemma CardRemove(b: Balances, a: Account)
    requires a in b
    ensures |b - {a}| == |b| - 1
  {
  }

  /** Any account can be taken out of the sum first. */
  lemma {:induction false} TotalRemove(b: Balances, a: Account)
    requires a in b
    ensures Total(b) == b[a] + Total(b - {a})
    decreases |b|
  {
    var x :| x in b && Total(b) == b[x] + Total(b - {x});
    if x != a {
      CardRemove(b, x);
      CardRemove(b, a);
      TotalRemove(b - {x}, a);
      TotalRemove(b - {a}, x);
      assert b - {x} - {a} == b - {a} - {x};
    }
  }

  /** Setting one account's balance changes the total by the difference. */
  lemma TotalUpdate(b: Balances, a: Account, v: nat)
    ensures Total(b[a := v]) + Balance(b, a) == Total(b) + v
  {
    TotalRemove(b[a := v], a);
    if a in b {
      TotalRemove(b, a);
      assert b[a := v] - {a} == b - {a};
    } else {
      assert b[a := v] - {a} == b;
    }
  }

  /**
   * The token program's `transfer`: debit `from`, then credit `to`. It fails
   * when `from` holds less than `amount` or the two accounts are of different
   * mints, and then changes nothing. A transfer from an account to itself
   * succeeds and changes nothing.
   */
  function Transfer(b: Balances, from: Account, to: Account, amount: nat): (r: Result<Balances, TokenError>)
    ensures r == Err(InsufficientFunds) <==> Balance(b, from) < amount
    ensures r == Err(MintMismatch) <==> Balance(b, from) >= amount && from.mint != to.mint
    ensures r.Ok? ==> from != to ==>
      Balance(r.value, from) == Balance(b, from) - amount &&
      Balance(r.value, to) == Balance(b, to) + amount
    ensures r.Ok? ==> forall a :: a != from && a != to ==> Balance(r.value, a) == Balance(b, a)
    ensures r.Ok? && from == to ==> SameBalances(r.value, b)
  {
    if Balance(b, from) < amount then Err(InsufficientFunds)
    else if from.mint != to.mint then Err(MintMismatch)
    else
      var debited := b[from := Balance(b, from) - amount];
      Ok(debited[to := Balance(debited, to) + amount])
  }

  /** A transfer neither creates nor destroys tokens. */
  lemma TransferConserves(b: Balances, from: Account, to: Account, amount: nat)
    ensures Transfer(b, from, to, amount).Ok? ==> Total(Transfer(b, from, to, amount).value) == Total(b)
  {
    if Transfer(b, from, to, amount).Ok? {
      var debited := b[from := Balance(b, from) - amount];
      TotalUpdate(b, from, Balance(b, from) - amount);
      TotalUpdate(debited, to, Balance(debited, to) + amount);
    }
  }

  /** The token accounts, updated in place by the instructions that move tokens. */
  class TokenLedger {
    var balances: Balances

    constructor (initial: Balances)
      ensures balances == initial
    {
      balances := initial;
    }
  }
}
