/**
 * The on-chain program: one `DuelOrder` account whose fields the instructions
 * update in place, and the token accounts they move stakes between. Each
 * instruction leaves the account and the balances exactly as the matching
 * transition in `DuelSpec` describes; the properties of the lifecycle are
 * proved there and in `DuelProperties`.
 */
module StaleSnake {
  import opened Primitives
  import opened Ledger
  import opened DuelSpec

  class DuelOrder {
    /** The account's own key, from which its vaults are derived. */
    const key: Pubkey

    var duelId: U64
    var player1: Pubkey
    var player2: Pubkey
    var player1Mint: Pubkey
    var player2Mint: Pubkey
    var player1Stats: EncryptedStats
    var player2Stats: EncryptedStats
    var stakeAmount: U64
    var winner: Pubkey
    var status: DuelStatus

    /** The account's fields as a value. */
    function Record(): DuelRecord
      reads this
    {
      DuelRecord(duelId, player1, player2, player1Mint, player2Mint,
                 player1Stats, player2Stats, stakeAmount, winner, status)
    }

    /** The account as `init_if_needed` creates it: every field zero. */
    constructor (key: Pubkey)
      ensures this.key == key && Record() == ZEROED && WellFormed(Record())
    {
      this.key := key;
      duelId, stakeAmount := 0, 0;
      player1, player2, player1Mint, player2Mint, winner :=
        DEFAULT_PUBKEY, DEFAULT_PUBKEY, DEFAULT_PUBKEY, DEFAULT_PUBKEY, DEFAULT_PUBKEY;
      player1Stats, player2Stats := ZERO_STATS, ZERO_STATS;
      status := WaitingForOpponent;
    }

    /**
     * `stake_and_join`. The guard and the token transfer are checked before
     * any field changes, which has the effect of the runtime discarding the
     * changes of a failed instruction.
     */
    method StakeAndJoin(duelId: U64, stakeAmount: U64, stats: EncryptedStats, player: Pubkey, mint: Pubkey,
                        ledger: TokenLedger)
      returns (r: Result<PlayerJoinedEvent, Error>)
      modifies this, ledger
      ensures var o := DuelSpec.StakeAndJoin(old(Record()), old(ledger.balances), key, duelId, stakeAmount,
                                             stats, player, mint);
        Record() == o.record && ledger.balances == o.balances && r == o.result
    {
      if player1 != DEFAULT_PUBKEY && status != WaitingForOpponent {
        return Err(Program(DuelNotOpen));
      }
      var moved := Transfer(ledger.balances, Wallet(player, mint), Vault(key, mint), stakeAmount);
      if moved.Err? {
        return Err(Token(moved.error));
      }
      if player1 == DEFAULT_PUBKEY {
        this.duelId := duelId;
        player1 := player;
        player1Stats := stats;
        player1Mint := mint;
        this.stakeAmount := stakeAmount;
        status := WaitingForOpponent;
      } else {
        player2 := player;
        player2Stats := stats;
        player2Mint := mint;
        status := ReadyToBattle;
      }
      ledger.balances := moved.value;
      r := Ok(PlayerJoinedEvent(duelId, player, stakeAmount));
    }

    /** `start_battle`; queueing the computation changes nothing modelled here. */
    method StartBattle() returns (r: Result<(), Error>)
      modifies this
      ensures var o := DuelSpec.StartBattle(old(Record()));
        Record() == o.record && r == o.result
    {
      if status != ReadyToBattle {
        return Err(Program(BattleNotReady));
      }
      status := BattleInProgress;
      r := Ok(());
    }

    /** `execute_battle_callback`, delivered by the confidential-computation service. */
    method ExecuteBattleCallback(output: ComputationOutputs) returns (r: Result<BattleCompletedEvent, Error>)
      modifies this
      ensures var o := DuelSpec.ExecuteBattleCallback(old(Record()), output);
        Record() == o.record && r == o.result
    {
      if output.Failure? {
        return Err(Program(BattleFailed));
      }
      var code := output.output;
      if code == 1 {
        winner := player1;
      } else if code == 2 {
        winner := player2;
      } else {
        winner := DEFAULT_PUBKEY;
      }
      status := Completed;
      r := Ok(BattleCompletedEvent(duelId, winner));
    }

    /**
     * `claim_rewards` by `caller` into the token accounts `to1` and `to2`.
     * The vault amounts are read once, before either transfer, as the
     * program reads them from the accounts loaded at the start.
     */
    method ClaimRewards(caller: Pubkey, to1: Account, to2: Account, ledger: TokenLedger)
      returns (r: Result<RewardClaimedEvent, Error>)
      modifies ledger
      ensures var o := DuelSpec.ClaimRewards(Record(), old(ledger.balances), key, caller, to1, to2);
        ledger.balances == o.balances && r == o.result
    {
      if status != Completed {
        return Err(Program(BattleNotCompleted));
      }
      if caller != player1 && caller != player2 {
        return Err(Program(NotAParticipant));
      }
      var amount: nat;
      if winner == caller {
        if stakeAmount * 2 > U64_MAX {
          return Err(ArithmeticOverflow);
        }
        amount := stakeAmount * 2;
      } else if winner == DEFAULT_PUBKEY {
        amount := stakeAmount;
      } else {
        amount := 0;
      }
      if amount > 0 {
        var vault1, vault2 := Vault(key, player1Mint), Vault(key, player2Mint);
        var amount1, amount2 := Balance(ledger.balances, vault1), Balance(ledger.balances, vault2);
        var first := Transfer(ledger.balances, vault1, to1, amount1);
        if first.Err? {
          return Err(Token(first.error));
        }
        var second := Transfer(first.value, vault2, to2, amount2);
        if second.Err? {
          return Err(Token(second.error));
        }
        ledger.balances := second.value;
      }
      r := Ok(RewardClaimedEvent(caller, amount));
    }
  }
}
