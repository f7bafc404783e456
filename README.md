# StaleSnake duel program and battle circuit, in Dafny

Two players stake tokens on a duel. Each submits encrypted fighter stats and a
strategy. A confidential-computation service runs the battle circuit and
reveals one byte naming the winner. This project models two parts: the on-chain
program that holds the duel record and moves the stakes
(`programs/stalesnake/src/lib.rs`), and the battle circuit that decides the
winner (`encrypted-ixs/src/lib.rs`).

- `primitives.dfy` (module `Primitives`): u8/u16/u64 ranges, public keys (0 is
  `Pubkey::default()`) and a `Result` type.
- `ledger.dfy` (module `Ledger`): token accounts (player wallets and the
  per-duel, per-mint vaults) as a map of balances. `Transfer` is the token
  program's transfer. `Total` sums all balances, and transfers are proved to
  conserve it. `TokenLedger` holds the balances as mutable state.
- `duel_spec.dfy` (module `DuelSpec`): the duel record, the error codes and the
  event payloads. Each of the four instructions is a transition function over
  the record and the balances. Their contracts state the guards, the new
  state, the all-or-nothing behaviour on failure, conservation of tokens, the
  `WellFormed` invariant and the forward-only lifecycle.
- `duel_properties.dfy` (module `DuelProperties`): properties that span several
  instructions. They cover where a claim sends the vaults, repeated claims, the
  draw payout, same-mint duels, a whole duel, and repeated callbacks.
- `stale_snake.dfy` (module `StaleSnake`): the `DuelOrder` account as a class.
  Its methods update the fields and the ledger in place. Each method is proved
  to leave exactly the state its `DuelSpec` transition describes.
- `circuits.dfy` (module `Circuits`): `execute_battle` and its helpers as pure
  functions, with the three random factors as parameters.

Arithmetic choices:
- The circuit's u16 product `base_stat * (multiplier + random_boost)` wraps
  around modulo 2^16. This is a choice about how the circuit compiler treats
  overflow, whose semantics are not part of this model; the on-chain program's
  checked arithmetic (below) is a separate build. It cannot overflow for a base
  stat of 471 or less. For 472 or more it can, and `EffectiveStatWrapsAround` shows an attack of 472
  turning into an effective attack of 0.
- `combo + 1` wraps modulo 2^8.
- The program's `stake_amount * 2` is checked u64 arithmetic: on overflow the
  claim fails (`ArithmeticOverflow`). This follows the `overflow-checks`
  release setting of Anchor projects. The build profile itself is not part of
  this model.

Behaviour modelled as the code has it, where the protocol's intended design
says otherwise:
- There is no claimed flag. A repeated claim succeeds and moves nothing once
  the vaults are empty.
- There is no separate draw status. A draw is `Completed` with the default key
  as winner.
- Nothing stops player 1 from joining again as player 2.
- The second player deposits their own `stake_amount` argument. The recorded
  stake stays player 1's.
- The callback does not check that the battle is in progress. On a failed
  computation it leaves the duel unchanged. Any byte other than 1 or 2 is a
  draw.
- After a draw, the first participant to claim drains both vaults, although
  the claim reports a single stake.
- The two combo bonuses exclude each other, so they never add up to 25.
- `target_stat` and `stake_amount` are carried in the circuit's input but never
  read.
- The claim reads both vault balances from the accounts as loaded at the start
  of the instruction. When both players staked the same mint they share one
  vault. The claim then transfers that vault's starting balance twice, the
  second transfer fails, and the claim reverts whenever the vault holds tokens
  (`SameMintClaimReverts`).

## Model

| member | source | states |
|---|---|---|
| `Ledger.Transfer` | programs/stalesnake/src/lib.rs:55-62 | A token transfer fails (insufficient balance, or accounts of different mints) and changes nothing; otherwise it lowers the sender by the amount, raises the receiver by it, leaves every other account alone, and a self-transfer changes nothing |
| `Ledger.TransferConserves` | programs/stalesnake/src/lib.rs:55-62 | A successful transfer leaves the sum of all balances unchanged |
| `DuelSpec.StakeAndJoin` | programs/stalesnake/src/lib.rs:21-71 | A duel without a first player takes the caller as player 1 with id, stats, mint and stake, status WaitingForOpponent. Otherwise the join fails with DuelNotOpen exactly when the duel is not waiting. On success the caller becomes player 2, status ReadyToBattle, player 1 and the stake unchanged. The caller's wallet loses exactly the argument stake and the vault for (duel, mint) gains it; all other balances and the total are unchanged; an insufficient balance fails and changes nothing; the invariant and forward-only status are kept |
| `DuelSpec.StartBattle` | programs/stalesnake/src/lib.rs:74-120 | Fails with BattleNotReady, changing nothing, exactly when the status is not ReadyToBattle; otherwise its only change is status BattleInProgress |
| `DuelSpec.ExecuteBattleCallback` | programs/stalesnake/src/lib.rs:124-158 | A failed computation returns BattleFailed and leaves the duel untouched; a success from any status sets status Completed and changes only the winner: player 1 on 1, player 2 on 2, the default key (draw) on anything else; the event carries the id and winner |
| `DuelSpec.ReportedAmount` | programs/stalesnake/src/lib.rs:174-183 | The claimed amount is twice the recorded stake for the winner, the stake after a draw, and 0 for the loser |
| `DuelSpec.ClaimRewards` | programs/stalesnake/src/lib.rs:161-233 | The duel record never changes (no claimed flag). Fails with BattleNotCompleted exactly when the status is not Completed. Fails with NotAParticipant exactly when the caller is neither player, the case the test at tests/stalesnake.ts:247-261 expects to be rejected. Fails with ArithmeticOverflow exactly when the winner's doubled stake exceeds u64. A failure moves nothing; a success reports the caller and the reported amount; an amount of 0 moves nothing; no account other than the two vaults and the two payee accounts changes; the total of all balances is conserved |
| `DuelProperties.ClaimPaysOutBothVaults` | programs/stalesnake/src/lib.rs:185-225 | With stakes in two mints and wallets of the right mints, an allowed claim with a positive amount succeeds and moves each vault's whole balance to the matching wallet, leaving both vaults empty and every other account unchanged |
| `DuelProperties.ClaimEmptiesVaults` | programs/stalesnake/src/lib.rs:185-225 | Any successful claim with a positive amount paid into wallets leaves both of the duel's vaults empty |
| `DuelProperties.ClaimOnEmptyVaultsMovesNothing` | programs/stalesnake/src/lib.rs:185-225 | A claim against two empty vaults leaves every balance as it was |
| `DuelProperties.RepeatedClaimMovesNothing` | programs/stalesnake/src/lib.rs:161-233 | After a claim that paid out, a second claim by either player leaves the duel and every balance unchanged |
| `DuelProperties.WinnerClaimsAgain` | programs/stalesnake/src/lib.rs:161-233 | Nothing records a claim: the winner's second claim succeeds again, reports twice the stake again, leaves the duel unchanged and moves no tokens |
| `DuelProperties.DrawFirstClaimerTakesBothVaults` | programs/stalesnake/src/lib.rs:174-225 | After a draw, the first claimant receives both vaults while the claim reports one stake; the other player's claim then reports one stake and receives nothing |
| `DuelProperties.SameMintClaimReverts` | programs/stalesnake/src/lib.rs:186-224 | When both stakes are in one mint, a claim with a positive amount against a non-empty vault fails with a token error and moves nothing |
| `DuelProperties.PlayerOneWinsWholeDuel` | programs/stalesnake/src/lib.rs:21-233 | Join, join, start, callback 1 and claim all succeed from a zeroed account; player 1 ends with its own stake back plus player 2's argument stake, player 2 is down that stake, both vaults are empty, the total is conserved, and the claim reports twice player 1's stake |
| `DuelProperties.RepeatedCallbackOverwritesWinner` | programs/stalesnake/src/lib.rs:124-150 | A second callback for the same duel is accepted and replaces the winner |
| `StaleSnake.DuelOrder.constructor` | programs/stalesnake/src/lib.rs:239-250 | A new duel account has every field zero: default keys, zero stake, status WaitingForOpponent, and it satisfies the invariant |
| `StaleSnake.DuelOrder.StakeAndJoin` | programs/stalesnake/src/lib.rs:21-71 | Updates the account fields and the ledger in place to exactly the state and result of `DuelSpec.StakeAndJoin` |
| `StaleSnake.DuelOrder.StartBattle` | programs/stalesnake/src/lib.rs:74-120 | Updates the status in place exactly as `DuelSpec.StartBattle` |
| `StaleSnake.DuelOrder.ExecuteBattleCallback` | programs/stalesnake/src/lib.rs:124-158 | Updates winner and status in place exactly as `DuelSpec.ExecuteBattleCallback` |
| `StaleSnake.DuelOrder.ClaimRewards` | programs/stalesnake/src/lib.rs:161-233 | Leaves the account unchanged and updates the ledger exactly as `DuelSpec.ClaimRewards` |
| `Circuits.Multiplier` | encrypted-ixs/src/lib.rs:130-139 | The multiplier is 120 exactly for (aggressive, attack) or (defensive, defense), 110 exactly for the balanced stance, 100 otherwise |
| `Circuits.EffectiveStat` | encrypted-ixs/src/lib.rs:129-145 | The result is at most 655. Without u16 overflow (always so for a base of at most 471) it is base × (multiplier + rng mod 20) / 100 rounded down, lies between base × multiplier / 100 and base × (multiplier + 19) / 100, and is at least the base |
| `Circuits.EffectiveStatWrapsAround` | encrypted-ixs/src/lib.rs:144 | An aggressive attack of 472 with random boost 19 overflows u16 and yields effective attack 0 |
| `Circuits.ComboBonus` | encrypted-ixs/src/lib.rs:147-159 | The bonus is 15 exactly for a double special, 10 exactly for a sequential combo (u8 increments), 0 otherwise; the two patterns exclude each other |
| `Circuits.FirstStrike` | encrypted-ixs/src/lib.rs:88-93 | Exactly one player gets the +10: player 1 exactly when strictly faster, player 2 on a tie or when faster |
| `Circuits.Damage` | encrypted-ixs/src/lib.rs:95-101 | Damage is positive exactly when attack exceeds defense, and then equals attack minus defense; it is otherwise 0 and never exceeds the attack |
| `Circuits.BattleScores` | encrypted-ixs/src/lib.rs:84-115 | Both scores are at most 680, so the u32 accumulators never overflow |
| `Circuits.Winner` | encrypted-ixs/src/lib.rs:117-124 | The byte is 1 exactly when score 1 is higher, 2 exactly when score 2 is higher, 0 exactly on equal scores |
| `Circuits.ExecuteBattle` | encrypted-ixs/src/lib.rs:33-127 | The revealed byte is in {0,1,2} and is 1, 2 or 0 exactly as player 1's score is greater than, less than or equal to player 2's |
| `Circuits.SwapPlayers` | encrypted-ixs/src/lib.rs:41-124 | With each random factor shared by both players for its stat and effective speeds that differ, swapping the players swaps the scores and turns result 1 into 2, 2 into 1, and keeps 0 |
| `Circuits.MirrorMatchGoesToPlayer2` | encrypted-ixs/src/lib.rs:88-93 | Two identical players tie on speed, and player 2 wins by exactly the 10-point first-strike bonus |
| `Circuits.FixedInputOutcome` | encrypted-ixs/src/lib.rs:33-127 | A balanced 100/50/80 fighter against an aggressive 90/60/70 one, with every random factor 10, gets effective stats 120/60/96 against 117/66/77 and scores 64 against 57, so player 1 wins |

## Left out

- Anchor account validation is not modelled: contexts, PDA seeds and bumps, `init_if_needed`, and rent paid in lamports. A duel's vault for a mint is the account `Vault(duel key, mint)`.
- Claim account validation is not modelled. The vault seeds of `claim_rewards` (programs/stalesnake/src/lib.rs:380 and :389) contain the vault's own address, which no account can satisfy. Both vaults must also have player 2's mint (lib.rs:378, 387). So as written, every `claim_rewards` fails account validation before line 164 runs. The claim members model the instruction body after validation, on the vaults its transfer signers name (lib.rs:190-213).
- The choice of the duel account from the `duel_id` seed is not modelled. The instruction acts on a given account and records `duel_id` as passed.
- The token program is reduced to one transfer function. Its failures are an insufficient balance (checked first) and a mint mismatch. Frozen accounts, owner, authority and delegate checks are not modelled. Balances are unbounded naturals rather than u64.
- `init_battle_comp_def` is not modelled. `queue_computation` and the argument list `start_battle` builds are not modelled either: they call the external confidential-computation service, and the argument list does not match the circuit's input struct. The model treats queueing as an effect that changes nothing and always succeeds, so `ClusterNotSet` is never raised.
- Decryption of the encrypted inputs (`Enc`, `to_arcis`), `reveal` and `ArcisRNG` come from the confidential-computation library. The three random factors are parameters, already reduced modulo 100 as the circuit does. The ciphertexts the program stores are opaque 32-byte values.
- `msg!` logging is not modelled. `emit!` events are the success value of each instruction.
- When both stakes share a mint, the same vault fills both vault slots of the claim. The model assumes the Anchor framework accepts that account twice. `SameMintClaimReverts` rests on this assumption.
- The test client is not modelled beyond the expected rejection of an outsider's claim: it makes network calls, airdrops and key exchanges, and its instruction names differ from the program's.
