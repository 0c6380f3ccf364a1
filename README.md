# Arena bookkeeping and policy layout of an AlphaZero training pipeline

This project models two small sequential parts of the AlphaZero training
pipeline in Dafny and proves properties about them.

1. **The evaluator's tournament round** (`evaluator.dfy`, module `Evaluator`).
   The challenger model plays `num_games` games against the best model so far.
   The class `Round` holds the evaluator's shared state:
   - the counters `win_counter`, `num_not_tie` and `finished_worker`, as `win`, `notTie` and `finished`;
   - the value of the `worker_lim` semaphore, as `freeSlots`;
   - the value of the `join_worker` semaphore, as `released`.

   Its methods are the steps of a round:
   - `Reset` zeroes the counters at the start of the round.
   - `Admit` is the `worker_lim.acquire()` made before each game starts.
   - `Report` is the bookkeeping at the end of each game.
   - `Dispatch` is the admission loop: it launches every scheduled game behind a slot, and the games report as they finish.
   - `Await` is the `join_worker.acquire()` that waits for the last game.
   - `RunRound` runs one whole pass of the main loop, from resetting the counters to sending the promotion message.

   The pure functions behind them are:
   - `ColorSchedule`, which gives the challenger's colour in each game;
   - `Tally` and `TallyAll`, which apply one report or a sequence of reports to the counters;
   - `PromotionTest`, which is `win > int(0.55 * notTie)` written in integers.

   The colours are two distinct non-zero codes, `BLACK = 1` and `WHITE = -1`.
   A game returns its winner as an `Option<int>`:
   - `None` means the game was aborted;
   - `Some(0)` means a tie;
   - `Some(colour)` means that colour won.
2. **The sequential network evaluator's move list** (`nn_eval_seq.dfy`, module
   `NNEvalSeq`). `Eval` turns a 362-entry policy row into a list of
   `(move, probability)` pairs. Entry `i < 361` is the board point
   `(i / 19, i % 19)` and entry 361 is the pass move.

The blocking semaphores become preconditions. `Admit` needs a free slot, and
`Await` needs the gate to have been released. In `Dispatch`, games finish one
at a time. When every slot is taken, the oldest running game is the one that
finishes. `TallyAllPermutation` shows that any other completion order leaves
the same counters.

With `num_games == 0` nothing releases `join_worker`, so `run` blocks at
`AlphaZero/train/parallel/evaluator.py:120`. The model follows the code:
`GateNeverReleasedWithoutGames` proves that no report opens the gate when
`numGames == 0`, and `RunRound` requires `numGames >= 1`.

## Model

| member | source | states |
|---|---|---|
| `Evaluator.Repeat` | AlphaZero/train/parallel/evaluator.py:114-115 | the list `pattern * k` has `k` times the pattern's length and holds only values of the pattern |
| `Evaluator.ColorSchedule` | AlphaZero/train/parallel/evaluator.py:114-115 | the colour list has exactly one entry per game |
| `Evaluator.ColorScheduleAt` | AlphaZero/train/parallel/evaluator.py:114-115 | game `i` has the challenger as BLACK when `i` is even and as WHITE when `i` is odd, so the extra last game of an odd round is BLACK |
| `Evaluator.ColorScheduleCounts` | AlphaZero/train/parallel/evaluator.py:114-115 | BLACK occurs ⌈n/2⌉ times and WHITE ⌊n/2⌋ times, and every entry is one of the two colours |
| `Evaluator.ColorScheduleFive` | AlphaZero/train/parallel/evaluator.py:114-115 | five games give the colours BLACK, WHITE, BLACK, WHITE, BLACK |
| `Evaluator.Tally` | AlphaZero/train/parallel/evaluator.py:86-95 | one report keeps `win <= notTie <= finished` when the challenger's colour is BLACK or WHITE; it releases the gate at most once, and exactly when it brings `finished` to `numGames` |
| `Evaluator.TallyEffect` | AlphaZero/train/parallel/evaluator.py:86-93 | a report adds a win exactly when the winner is the challenger's colour; it adds a decisive game exactly when the winner is neither `None` nor 0; it always adds a finished game |
| `Evaluator.TallyAllCounts` | AlphaZero/train/parallel/evaluator.py:86-95 | after a sequence of reports, `win` is the number of wins, `notTie` the number of decisive games and `finished` the number of games; the gate is released once if `finished` passed `numGames`, and never otherwise |
| `Evaluator.TallyAllPermutation` | AlphaZero/train/parallel/evaluator.py:86-95 | any reordering of the same reports leaves the same counters and the same gate value |
| `Evaluator.GateReleasedOnce` | AlphaZero/train/parallel/evaluator.py:93-95 | from zeroed counters with `numGames >= 1`, the first `numGames - 1` reports leave the gate closed, and the `numGames`-th report releases it exactly once |
| `Evaluator.GateNeverReleasedWithoutGames` | AlphaZero/train/parallel/evaluator.py:93-95 | with `numGames == 0`, no sequence of reports releases the gate |
| `Evaluator.TallyAllOrdered` | AlphaZero/train/parallel/evaluator.py:86-93 | when the challenger's colour is BLACK or WHITE, every report keeps `win <= notTie <= finished` |
| `Evaluator.PromotionTest` | AlphaZero/train/parallel/evaluator.py:122 | no promotion without at least one win; winning every one of at least one decisive game promotes |
| `Evaluator.PromotionTestExact` | AlphaZero/train/parallel/evaluator.py:122 | `win > int(0.55 * notTie)` holds exactly when `100 * win > 55 * notTie` |
| `Evaluator.PromotionTestExamples` | AlphaZero/train/parallel/evaluator.py:122 | 56 of 100 promotes; 55 of 100 does not; 0 of 0 does not |
| `Evaluator.Round.constructor` | AlphaZero/train/parallel/evaluator.py:48-55 | the counters start at zero, the admission semaphore starts at `numWorker` and the completion gate starts at 0 |
| `Evaluator.Round.Reset` | AlphaZero/train/parallel/evaluator.py:110-112 | the three counters become zero, and both semaphores keep their values |
| `Evaluator.Round.Admit` | AlphaZero/train/parallel/evaluator.py:117 | takes one free slot and adds one running game; it needs a free slot; `freeSlots + outstanding == numWorker` is kept, so at most `numWorker` games run at once |
| `Evaluator.Round.Report` | AlphaZero/train/parallel/evaluator.py:86-95 | the counters and the gate move as `Tally` says, the slot comes back, and `win <= notTie <= finished` is kept |
| `Evaluator.Round.Await` | AlphaZero/train/parallel/evaluator.py:120 | consumes one release of the completion gate and changes nothing else |
| `Evaluator.Round.Promote` | AlphaZero/train/parallel/evaluator.py:122 | the round's promotion test holds exactly when `100 * win > 55 * notTie` |
| `Evaluator.Round.Dispatch` | AlphaZero/train/parallel/evaluator.py:116-118 | every game is launched behind a slot and reports once; afterwards no game is running and the counters are those of all reports applied in launch order |
| `Evaluator.Round.RunRound` | AlphaZero/train/parallel/evaluator.py:110-126 | after a round, `win`, `notTie` and `finished` count the wins, the decisive games and all games of the scheduled colours; all slots are free again; the gate, closed on entry, was released once and consumed, so it is closed again; the path is sent exactly when the promotion test holds |
| `NNEvalSeq.Eval` | AlphaZero/train/sequential/nn_eval_seq.py:18-25 | the list has 362 entries; entry `k` pairs the move of index `k` with `rp[0][k]`, in the row's order; the value is `rv[0]` unchanged |
| `NNEvalSeq.MoveAt` | AlphaZero/train/sequential/nn_eval_seq.py:23-24 | index `i < 361` names the on-board point with `row * 19 + col == i`; index 361 names the pass move |
| `NNEvalSeq.MoveAtOnBoard` | AlphaZero/train/sequential/nn_eval_seq.py:22-23 | each index below 361 names a point with both coordinates in `[0, 19)`, and that point maps back to the index |
| `NNEvalSeq.IndexOfOnBoard` | AlphaZero/train/sequential/nn_eval_seq.py:22-23 | each point of the 19×19 board has the index `row * 19 + col`, which is below 361 and names that point |
| `NNEvalSeq.PointAppearsOnce` | AlphaZero/train/sequential/nn_eval_seq.py:22-24 | each board point appears at exactly one entry of the list, the one at `row * 19 + col` |
| `NNEvalSeq.PassAppearsOnce` | AlphaZero/train/sequential/nn_eval_seq.py:24 | the pass move is at index 361 and at no other index |
| `NNEvalSeq.RowMajor` | AlphaZero/train/sequential/nn_eval_seq.py:22-23 | a later board index is on a later row, or further right on the same row |

## Left out

- Processes and their lifecycle are not modelled: `mp.Process`, the `atexit` handler `kill_children`, `__enter__`/`__exit__`, and the endless `while True` loop around `r_conn.recv()`. `RunRound` models one pass of that loop. It takes the received path as a parameter and returns the sent path instead of writing to `s_conn`.
- Loading the challenger with `nn_eval_chal.load` is not modelled. It is a call into the network code, which is not part of this model.
- The reader/writer locks taken and released around each game are not modelled. They only order access to the two models.
- `mp.Value(...).value += 1` is not atomic across processes. The model treats each report as atomic, so two effects of the race are not captured: lost updates, and a double release of `join_worker` when two workers both read `finished_worker == num_games` at lines 93-94. A double release would let the next round's `acquire` at line 120 return before its games finish.
- Playing a game with `_gameplay.Game` and `start()` is not modelled. The game's winner is an input to `Report` and `RunRound`.
- If `game.start()` raises an exception, the source has no `try`/`finally`: the slot and the read locks are never released and the counters are not updated. `run` then blocks at line 117 (once such games hold every slot) or at line 120. The model has no exceptions, so it does not capture this.
- Evaluator.Round.RunRound: requires `numGames >= 1` and `numWorker >= 1`. With zero games the source blocks for ever at line 120, and with zero workers it blocks at line 117. A run that never ends is not modelled.
- Evaluator.Round.RunRound: requires the completion gate to be closed on entry (`released == 0`). The constructor sets it so and every `RunRound` leaves it so; a gate left open by the double release above, which would make line 120 return before the games finish, is not modelled.
- Evaluator.Round.Dispatch: only one completion order is modelled: when all slots are taken, the oldest running game finishes first. `TallyAllPermutation` shows that every other order gives the same counters.
- Evaluator.PromotionTest: `int(0.55 * notTie)` is modelled with exact arithmetic as `(55 * notTie) / 100`. Rounding of the binary floating-point constant 0.55 is not modelled.
- The printed win rate and every other `printlog` call are not modelled.
- The colour codes `BLACK = 1` and `WHITE = -1` belong to the game environment, which is not part of this model. The proofs only use that the two codes are distinct and non-zero.
- In `NNEvaluator.eval`, the state-to-tensor conversion and `Network.response` are calls into network code. `Eval` takes their outputs `rp` and `rv` as parameters.
- NNEvalSeq.Eval: requires a batch with a policy row of at least 362 entries and a value. With a shorter row the source raises an index error; the network's output shape rules this out.
- The NNEvaluator constructor, which builds and loads the network, is not modelled.
