/**
 * The duel program's instructions as transitions of one duel record and the
 * token balances. Each function gives the record, the balances and the result
 * after the instruction; when an instruction fails, the runtime discards every
 * change it made, so a failing transition returns the record and balances it
 * was given.
 */
module DuelSpec {
  import opened Primitives
  import opened Ledger

  datatype DuelStatus = WaitingForOpponent | ReadyToBattle | BattleInProgress | Completed

  /** The program's own error codes. `ClusterNotSet` is declared but raised by no instruction modelled here. */
  datatype ErrorCode = DuelNotOpen | BattleNotReady | BattleFailed | BattleNotCompleted | NotAParticipant | ClusterNotSet

  /**
   * Why an instruction fails: one of the program's codes, a rejected token
   * transfer, or a panic on u64 overflow.
   */
  datatype Error = Program(code: ErrorCode) | Token(reason: TokenError) | ArithmeticOverflow

  const ZERO_BLOCK: seq<U8> := seq(32, _ => 0)

  /** A 32-byte ciphertext; the program only stores and forwards it. */
  type Ciphertext = s: seq<U8> | |s| == 32 witness ZERO_BLOCK

  datatype EncryptedStats = EncryptedStats(attack: Ciphertext, defense: Ciphertext, speed: Ciphertext)

  /** The fields of a `DuelOrder` account. */
  datatype DuelRecord = DuelRecord(
    duelId: U64,
    player1: Pubkey,
    player2: Pubkey,
    player1Mint: Pubkey,
    player2Mint: Pubkey,
    player1Stats: EncryptedStats,
    player2Stats: EncryptedStats,
    stakeAmount: U64,
    winner: Pubkey,
    status: DuelStatus)

  const ZERO_STATS: EncryptedStats := EncryptedStats(ZERO_BLOCK, ZERO_BLOCK, ZERO_BLOCK)

  /**
   * A duel account as `init_if_needed` creates it: all bytes zero, which reads
   * as default keys, zero amounts and the first status, `WaitingForOpponent`.
   */
  const ZEROED: DuelRecord := DuelRecord(0, DEFAULT_PUBKEY, DEFAULT_PUBKEY, DEFAULT_PUBKEY, DEFAULT_PUBKEY,
                                         ZERO_STATS, ZERO_STATS, 0, DEFAULT_PUBKEY, WaitingForOpponent)

  /** What the confidential-computation service delivers to the callback. */
  datatype ComputationOutputs = Success(output: U8) | Failure

  datatype PlayerJoinedEvent = PlayerJoinedEvent(duelId: U64, player: Pubkey, stake: U64)
  datatype BattleCompletedEvent = BattleCompletedEvent(duelId: U64, winner: Pubkey)
  datatype RewardClaimedEvent = RewardClaimedEvent(player: Pubkey, amount: U64)

  /** The record and result after an instruction that moves no tokens. */
  datatype Step<T> = Step(record: DuelRecord, result: Result<T, Error>)

  /** The record, the balances and the result after an instruction that may move tokens. */
  datatype LedgerStep<T> = LedgerStep(record: DuelRecord, balances: Balances, result: Result<T, Error>)

  /**
   * What holds of every duel record the instructions produce from a zeroed
   * account: no second player before a first, a winner only once completed
   * and then one of the two players or the default key (a draw), no second
   * player while waiting, and a first player once matched.
   */
  predicate WellFormed(d: DuelRecord)
  {
    (d.player1 == DEFAULT_PUBKEY ==> d.player2 == DEFAULT_PUBKEY) &&
    (d.winner == DEFAULT_PUBKEY || d.winner == d.player1 || d.winner == d.player2) &&
    (d.status != Completed ==> d.winner == DEFAULT_PUBKEY) &&
    (d.status == WaitingForOpponent ==> d.player2 == DEFAULT_PUBKEY) &&
    (d.status == ReadyToBattle || d.status == BattleInProgress ==> d.player1 != DEFAULT_PUBKEY)
  }

  /** The position of a status in the lifecycle. */
  function Rank(s: DuelStatus): nat
  {
    match s
    case WaitingForOpponent => 0
    case ReadyToBattle => 1
    case BattleInProgress => 2
    case Completed => 3
  }

  /** Once a duel has a first player, its status never moves back. */
  predicate Advances(d: DuelRecord, d': DuelRecord)
  {
    d.player1 != DEFAULT_PUBKEY ==> d'.player1 == d.player1 && Rank(d.status) <= Rank(d'.status)
  }

  /**
   * `stake_and_join` by `player` with tokens of `mint`, on the duel whose
   * account key is `account`. On a duel without a first player the caller
   * becomes player 1 and fixes the id, stake and mint; otherwise the caller
   * becomes player 2, but only while the duel waits for an opponent. Either
   * way the caller's own `stakeAmount` argument moves from the caller's
   * wallet to the duel's vault for that mint.
   */
  function StakeAndJoin(d: DuelRecord, b: Balances, account: Pubkey, duelId: U64, stakeAmount: U64,
                        stats: EncryptedStats, player: Pubkey, mint: Pubkey): (o: LedgerStep<PlayerJoinedEvent>)
    ensures o.result.Err? ==> o.record == d && o.balances == b
    ensures o.result == Err(Program(DuelNotOpen)) <==> d.player1 != DEFAULT_PUBKEY && d.status != WaitingForOpponent
    ensures o.result == Err(Token(InsufficientFunds)) <==>
      (d.player1 == DEFAULT_PUBKEY || d.status == WaitingForOpponent) && Balance(b, Wallet(player, mint)) < stakeAmount
    ensures o.result.Ok? <==>
      (d.player1 == DEFAULT_PUBKEY || d.status == WaitingForOpponent) && Balance(b, Wallet(player, mint)) >= stakeAmount
    ensures o.result.Ok? ==> o.result.value == PlayerJoinedEvent(duelId, player, stakeAmount)
    ensures o.result.Ok? && d.player1 == DEFAULT_PUBKEY ==>
      o.record == d.(duelId := duelId, player1 := player, player1Stats := stats, player1Mint := mint,
                     stakeAmount := stakeAmount, status := WaitingForOpponent)
    ensures o.result.Ok? && d.player1 != DEFAULT_PUBKEY ==>
      o.record == d.(player2 := player, player2Stats := stats, player2Mint := mint, status := ReadyToBattle)
    ensures o.result.Ok? ==>
      Balance(o.balances, Wallet(player, mint)) + stakeAmount == Balance(b, Wallet(player, mint)) &&
      Balance(o.balances, Vault(account, mint)) == Balance(b, Vault(account, mint)) + stakeAmount
    ensures forall a :: a != Wallet(player, mint) && a != Vault(account, mint) ==> Balance(o.balances, a) == Balance(b, a)
    ensures Total(o.balances) == Total(b)
    ensures WellFormed(d) ==> WellFormed(o.record)
    ensures Advances(d, o.record)
  {
    var from := Wallet(player, mint);
    var vault := Vault(account, mint);
    var joined: Result<DuelRecord, Error> :=
      if d.player1 == DEFAULT_PUBKEY then
        Ok(d.(duelId := duelId, player1 := player, player1Stats := stats, player1Mint := mint,
              stakeAmount := stakeAmount, status := WaitingForOpponent))
      else if d.status != WaitingForOpponent then
        Err(Program(DuelNotOpen))
      else
        Ok(d.(player2 := player, player2Stats := stats, player2Mint := mint, status := ReadyToBattle));
    TransferConserves(b, from, vault, stakeAmount);
    if joined.Err? then LedgerStep(d, b, Err(joined.error))
    else
      match Transfer(b, from, vault, stakeAmount)
      case Err(reason) => LedgerStep(d, b, Err(Token(reason)))
      case Ok(moved) => LedgerStep(joined.value, moved, Ok(PlayerJoinedEvent(duelId, player, stakeAmount)))
  }

  /**
   * `start_battle`: allowed only on a duel ready to battle, which it marks in
   * progress after handing the encrypted stats to the confidential-computation
   * service (an effect outside this model).
   */
  function StartBattle(d: DuelRecord): (o: Step<()>)
    ensures o.result.Err? <==> d.status != ReadyToBattle
    ensures o.result.Err? ==> o.result.error == Program(BattleNotReady) && o.record == d
    ensures o.result.Ok? ==> o.record == d.(status := BattleInProgress)
    ensures WellFormed(d) ==> WellFormed(o.record)
    ensures Advances(d, o.record)
  {
    if d.status != ReadyToBattle then Step(d, Err(Program(BattleNotReady)))
    else Step(d.(status := BattleInProgress), Ok(()))
  }

  /**
   * `execute_battle_callback`: a failed computation leaves the duel as it was;
   * a successful one names the winner from the revealed byte (1: player 1,
   * 2: player 2, anything else: a draw, recorded as the default key) and
   * completes the duel, whatever status it had.
   */
  function ExecuteBattleCallback(d: DuelRecord, output: ComputationOutputs): (o: Step<BattleCompletedEvent>)
    ensures output.Failure? ==> o == Step(d, Err(Program(BattleFailed)))
    ensures output.Success? ==> o.result.Ok? && o.record == d.(winner := o.record.winner, status := Completed)
    ensures output == Success(1) ==> o.record.winner == d.player1
    ensures output == Success(2) ==> o.record.winner == d.player2
    ensures output.Success? && output.output != 1 && output.output != 2 ==> o.record.winner == DEFAULT_PUBKEY
    ensures o.result.Ok? ==> o.result.value == BattleCompletedEvent(d.duelId, o.record.winner)
    ensures WellFormed(d) ==> WellFormed(o.record)
    ensures Advances(d, o.record)
  {
    match output
    case Failure => Step(d, Err(Program(BattleFailed)))
    case Success(code) =>
      var winner := if code == 1 then d.player1 else if code == 2 then d.player2 else DEFAULT_PUBKEY;
      var completed := d.(winner := winner, status := Completed);
      Step(completed, Ok(BattleCompletedEvent(d.duelId, winner)))
  }

  /**
   * The amount a claim reports: both stakes to the winner, one stake to
   * either player after a draw, nothing to the loser. It is computed from the
   * recorded `stakeAmount` alone.
   */
  function ReportedAmount(d: DuelRecord, caller: Pubkey): (amount: nat)
    ensures caller == d.winner ==> amount == 2 * d.stakeAmount
    ensures caller != d.winner && d.winner == DEFAULT_PUBKEY ==> amount == d.stakeAmount
    ensures caller != d.winner && d.winner != DEFAULT_PUBKEY ==> amount == 0
  {
    if d.winner == caller then d.stakeAmount * 2
    else if d.winner == DEFAULT_PUBKEY then d.stakeAmount
    else 0
  }

  /** True when the winner's `stake_amount * 2` exceeds u64 and the claim panics. */
  predicate ClaimOverflows(d: DuelRecord, caller: Pubkey)
  {
    caller == d.winner && 2 * d.stakeAmount > U64_MAX
  }

  /** The guards `claim_rewards` checks before computing the amount. */
  predicate ClaimAllowed(d: DuelRecord, caller: Pubkey)
  {
    d.status == Completed && (caller == d.player1 || caller == d.player2) && !ClaimOverflows(d, caller)
  }

  /**
   * `claim_rewards` by `caller`, paying into the token accounts `to1` and
   * `to2` the caller supplies. Only a participant of a completed duel may
   * claim. When the reported amount is positive, each vault's whole balance,
   * as loaded when the instruction starts, moves out: player 1's vault to
   * `to1`, then player 2's vault to `to2`. Nothing records the claim, so it
   * may be repeated.
   */
  function ClaimRewards(d: DuelRecord, b: Balances, account: Pubkey, caller: Pubkey, to1: Account, to2: Account)
    : (o: LedgerStep<RewardClaimedEvent>)
    ensures o.record == d
    ensures o.result == Err(Program(BattleNotCompleted)) <==> d.status != Completed
    ensures o.result == Err(Program(NotAParticipant)) <==>
      d.status == Completed && caller != d.player1 && caller != d.player2
    ensures o.result == Err(ArithmeticOverflow) <==>
      d.status == Completed && (caller == d.player1 || caller == d.player2) && ClaimOverflows(d, caller)
    ensures o.result.Err? ==> o.balances == b
    ensures o.result.Ok? ==> ClaimAllowed(d, caller) && o.result.value == RewardClaimedEvent(caller, ReportedAmount(d, caller))
    ensures ClaimAllowed(d, caller) && ReportedAmount(d, caller) == 0 ==> o.result.Ok? && o.balances == b
    ensures forall a ::
              a != Vault(account, d.player1Mint) && a != Vault(account, d.player2Mint) && a != to1 && a != to2 ==>
              Balance(o.balances, a) == Balance(b, a)
    ensures Total(o.balances) == Total(b)
  {
    if d.status != Completed then LedgerStep(d, b, Err(Program(BattleNotCompleted)))
    else if caller != d.player1 && caller != d.player2 then LedgerStep(d, b, Err(Program(NotAParticipant)))
    else if ClaimOverflows(d, caller) then LedgerStep(d, b, Err(ArithmeticOverflow))
    else
      var amount := ReportedAmount(d, caller);
      if amount == 0 then LedgerStep(d, b, Ok(RewardClaimedEvent(caller, 0)))
      else
        var vault1 := Vault(account, d.player1Mint);
        var vault2 := Vault(account, d.player2Mint);
        var amount1 := Balance(b, vault1);
        var amount2 := Balance(b, vault2);
        match Transfer(b, vault1, to1, amount1)
        case Err(reason) => LedgerStep(d, b, Err(Token(reason)))
        case Ok(b1) =>
          TransferConserves(b, vault1, to1, amount1);
          TransferConserves(b1, vault2, to2, amount2);
          match Transfer(b1, vault2, to2, amount2)
          case Err(reason) => LedgerStep(d, b, Err(Token(reason)))
          case Ok(b2) => LedgerStep(d, b2, Ok(RewardClaimedEvent(caller, amount)))
  }
}
