/**
 * Properties of the duel program that relate several instructions or several
 * accounts: where a claim sends the vaults, what a repeated claim does, and
 * what a whole duel does to the players' balances.
 */
module DuelProperties {
  import opened Primitives
  import opened Ledger
  import opened DuelSpec

  /**
   * With the two stakes in different mints and the caller paying into wallets
   * of the right mints, an allowed claim with a positive amount succeeds and
   * moves each vault's whole balance to the matching wallet, emptying both
   * vaults, whatever amount it reports.
   */
  lemma ClaimPaysOutBothVaults(d: DuelRecord, b: Balances, account: Pubkey, caller: Pubkey,
                               to1: Account, to2: Account)
    requires ClaimAllowed(d, caller) && ReportedAmount(d, caller) > 0
    requires d.player1Mint != d.player2Mint
    requires to1.Wallet? && to1.mint == d.player1Mint && to2.Wallet? && to2.mint == d.player2Mint
    ensures var o := ClaimRewards(d, b, account, caller, to1, to2);
      o.result == Ok(RewardClaimedEvent(caller, ReportedAmount(d, caller))) &&
      Balance(o.balances, to1) == Balance(b, to1) + Balance(b, Vault(account, d.player1Mint)) &&
      Balance(o.balances, to2) == Balance(b, to2) + Balance(b, Vault(account, d.player2Mint)) &&
      Balance(o.balances, Vault(account, d.player1Mint)) == 0 &&
      Balance(o.balances, Vault(account, d.player2Mint)) == 0 &&
      (forall a :: a != Vault(account, d.player1Mint) && a != Vault(account, d.player2Mint) && a != to1 && a != to2
         ==> Balance(o.balances, a) == Balance(b, a))
  {
  }

  /**
   * An allowed claim that pays out into wallets (not back into a vault)
   * leaves both vaults of the duel empty.
   */
  lemma ClaimEmptiesVaults(d: DuelRecord, b: Balances, account: Pubkey, caller: Pubkey,
                           to1: Account, to2: Account)
    requires to1.Wallet? && to2.Wallet?
    requires ClaimRewards(d, b, account, caller, to1, to2).result.Ok? && ReportedAmount(d, caller) > 0
    ensures var o := ClaimRewards(d, b, account, caller, to1, to2);
      Balance(o.balances, Vault(account, d.player1Mint)) == 0 &&
      Balance(o.balances, Vault(account, d.player2Mint)) == 0
  {
  }

  /** A claim against two empty vaults moves nothing, whoever makes it. */
  lemma ClaimOnEmptyVaultsMovesNothing(d: DuelRecord, b: Balances, account: Pubkey, caller: Pubkey,
                                       to1: Account, to2: Account)
    requires Balance(b, Vault(account, d.player1Mint)) == 0 && Balance(b, Vault(account, d.player2Mint)) == 0
    ensures SameBalances(ClaimRewards(d, b, account, caller, to1, to2).balances, b)
  {
  }

  /**
   * There is no claimed flag: after a claim that paid out into wallets, a
   * second claim, by the same or the other player, leaves the duel as it is
   * and moves no tokens, though it may still succeed and report an amount.
   */
  lemma RepeatedClaimMovesNothing(d: DuelRecord, b: Balances, account: Pubkey,
                                  caller: Pubkey, to1: Account, to2: Account,
                                  caller': Pubkey, to1': Account, to2': Account)
    requires to1.Wallet? && to2.Wallet?
    requires ClaimRewards(d, b, account, caller, to1, to2).result.Ok? && ReportedAmount(d, caller) > 0
    ensures var first := ClaimRewards(d, b, account, caller, to1, to2);
      var second := ClaimRewards(first.record, first.balances, account, caller', to1', to2');
      second.record == d && SameBalances(second.balances, first.balances)
  {
  }

  /**
   * Nothing records that the winner has claimed: with stakes in two mints and
   * wallets of the right mints, the winner's second claim succeeds again and
   * reports the same amount, but moves no tokens.
   */
  lemma WinnerClaimsAgain(d: DuelRecord, b: Balances, account: Pubkey, caller: Pubkey, to1: Account, to2: Account)
    requires ClaimAllowed(d, caller) && caller == d.winner && d.stakeAmount > 0
    requires d.player1Mint != d.player2Mint
    requires to1.Wallet? && to1.mint == d.player1Mint && to2.Wallet? && to2.mint == d.player2Mint
    ensures var first := ClaimRewards(d, b, account, caller, to1, to2);
      var second := ClaimRewards(first.record, first.balances, account, caller, to1, to2);
      first.result == Ok(RewardClaimedEvent(caller, 2 * d.stakeAmount)) &&
      second.result == Ok(RewardClaimedEvent(caller, 2 * d.stakeAmount)) &&
      second.record == d && SameBalances(second.balances, first.balances)
  {
  }

  /**
   * After a draw with stakes in different mints, the first player to claim
   * takes both vaults although the claim reports a single stake; the other
   * player's claim then succeeds, reports a single stake too, and receives
   * nothing.
   */
  lemma DrawFirstClaimerTakesBothVaults(d: DuelRecord, b: Balances, account: Pubkey,
                                        first: Pubkey, to1: Account, to2: Account,
                                        second: Pubkey, to1': Account, to2': Account)
    requires d.status == Completed && d.winner == DEFAULT_PUBKEY && d.stakeAmount > 0
    requires first == d.player1 || first == d.player2
    requires second == d.player1 || second == d.player2
    requires first != DEFAULT_PUBKEY && second != DEFAULT_PUBKEY
    requires d.player1Mint != d.player2Mint
    requires to1 == Wallet(first, d.player1Mint) && to2 == Wallet(first, d.player2Mint)
    requires to1' == Wallet(second, d.player1Mint) && to2' == Wallet(second, d.player2Mint)
    ensures var o := ClaimRewards(d, b, account, first, to1, to2);
      var o' := ClaimRewards(o.record, o.balances, account, second, to1', to2');
      o.result == Ok(RewardClaimedEvent(first, d.stakeAmount)) &&
      Balance(o.balances, to1) == Balance(b, to1) + Balance(b, Vault(account, d.player1Mint)) &&
      Balance(o.balances, to2) == Balance(b, to2) + Balance(b, Vault(account, d.player2Mint)) &&
      o'.result == Ok(RewardClaimedEvent(second, d.stakeAmount)) &&
      SameBalances(o'.balances, o.balances)
  {
  }

  /**
   * When both players staked the same mint they share one vault. The claim
   * transfers the vault's balance as loaded at the start twice, and the
   * second transfer finds the vault already empty, so a claim with a positive
   * amount against a non-empty vault always fails and moves nothing.
   */
  lemma SameMintClaimReverts(d: DuelRecord, b: Balances, account: Pubkey, caller: Pubkey,
                             to1: Account, to2: Account)
    requires ClaimAllowed(d, caller) && ReportedAmount(d, caller) > 0
    requires d.player1Mint == d.player2Mint
    requires to1 != Vault(account, d.player1Mint)
    requires Balance(b, Vault(account, d.player1Mint)) > 0
    ensures var o := ClaimRewards(d, b, account, caller, to1, to2);
      o.result.Err? && o.result.error.Token? && o.balances == b
  {
  }

  /**
   * A whole duel from a zeroed account, stakes in two different mints: player
   * 1 stakes `stake1`, player 2 stakes its own `stake2`, the battle runs and
   * reveals 1, and player 1 claims into its own wallets. Player 1 gets its
   * stake back and player 2's whole stake on top, player 2 is down its stake,
   * the vaults end empty, while the claim reports twice player 1's stake.
   */
  lemma PlayerOneWinsWholeDuel(b: Balances, account: Pubkey, duelId: U64,
                               player1: Pubkey, mint1: Pubkey, stake1: U64, stats1: EncryptedStats,
                               player2: Pubkey, mint2: Pubkey, stake2: U64, stats2: EncryptedStats)
    requires player1 != DEFAULT_PUBKEY && player1 != player2 && mint1 != mint2
    requires stake1 > 0 && 2 * stake1 <= U64_MAX
    requires Balance(b, Wallet(player1, mint1)) >= stake1 && Balance(b, Wallet(player2, mint2)) >= stake2
    requires Balance(b, Vault(account, mint1)) == 0 && Balance(b, Vault(account, mint2)) == 0
    ensures var join1 := StakeAndJoin(ZEROED, b, account, duelId, stake1, stats1, player1, mint1);
      var join2 := StakeAndJoin(join1.record, join1.balances, account, duelId, stake2, stats2, player2, mint2);
      var start := StartBattle(join2.record);
      var callback := ExecuteBattleCallback(start.record, Success(1));
      var claim := ClaimRewards(callback.record, join2.balances, account, player1,
                                Wallet(player1, mint1), Wallet(player1, mint2));
      join1.result.Ok? && join2.result.Ok? && start.result.Ok? && callback.result.Ok? &&
      callback.record.winner == player1 && callback.record.status == Completed &&
      claim.result == Ok(RewardClaimedEvent(player1, 2 * stake1)) &&
      Balance(claim.balances, Wallet(player1, mint1)) == Balance(b, Wallet(player1, mint1)) &&
      Balance(claim.balances, Wallet(player1, mint2)) == Balance(b, Wallet(player1, mint2)) + stake2 &&
      Balance(claim.balances, Wallet(player2, mint2)) + stake2 == Balance(b, Wallet(player2, mint2)) &&
      Balance(claim.balances, Vault(account, mint1)) == 0 &&
      Balance(claim.balances, Vault(account, mint2)) == 0 &&
      Total(claim.balances) == Total(b)
  {
  }

  /**
   * The callback never checks the status: a second delivery for the same duel
   * is accepted and decides the winner again.
   */
  lemma RepeatedCallbackOverwritesWinner(d: DuelRecord)
    ensures var once := ExecuteBattleCallback(d, Success(1));
      var twice := ExecuteBattleCallback(once.record, Success(2));
      once.record.winner == d.player1 && twice.result.Ok? && twice.record.winner == d.player2 &&
      twice.record.status == Completed
  {
  }
}
