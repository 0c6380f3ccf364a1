/** Bookkeeping of one evaluation round of the arena: the challenger plays
    `numGames` games against the best model, at most `numWorker` at a time;
    every finished game reports its winner, the last report opens the
    completion gate, and the round ends with the promotion test. */
module Evaluator {

  datatype Option<T> = None | Some(value: T)

  /** Colours of the game environment: two distinct, non-zero player codes. */
  const BLACK: int := 1
  const WHITE: int := -1

  predicate IsColor(c: int) { c == BLACK || c == WHITE }

  // ---------------------------------------------------------------------------
  // Colour schedule
  // ---------------------------------------------------------------------------

  /** `pattern * k` on a list. */
  function Repeat(pattern: seq<int>, k: nat): (r: seq<int>)
    ensures |r| == k * |pattern|
    ensures forall x :: x in r ==> x in pattern
  {
    if k == 0 then [] else Repeat(pattern, k - 1) + pattern
  }

  /** Colour of the challenger in each of the `n` games of a round:
      `[BLACK, WHITE] * (n // 2) + [BLACK] * (n % 2)`. */
  function ColorSchedule(n: nat): (s: seq<int>)
    ensures |s| == n
  {
    Repeat([BLACK, WHITE], n / 2) + Repeat([BLACK], n % 2)
  }

  /** The tail that an odd round adds. */
  lemma OddTail(n: nat)
    ensures Repeat([BLACK], n % 2) == if n % 2 == 0 then [] else [BLACK]
  {
    if n % 2 == 1 {
      assert Repeat([BLACK], 1) == Repeat([BLACK], 0) + [BLACK];
    }
  }

  lemma {:induction false} RepeatPairAt(k: nat, i: nat)
    requires i < 2 * k
    ensures |Repeat([BLACK, WHITE], k)| == 2 * k
    ensures Repeat([BLACK, WHITE], k)[i] == if i % 2 == 0 then BLACK else WHITE
  {
    if i < 2 * (k - 1) {
      RepeatPairAt(k - 1, i);
    }
  }

  /** The schedule has one entry per game; the challenger is BLACK in the
      even-numbered games and WHITE in the odd-numbered ones (so an extra
      last game of an odd round is BLACK). */
  lemma ColorScheduleAt(n: nat, i: nat)
    requires i < n
    ensures ColorSchedule(n)[i] == if i % 2 == 0 then BLACK else WHITE
  {
    OddTail(n);
    if i < 2 * (n / 2) {
      RepeatPairAt(n / 2, i);
    }
  }

  lemma {:induction false} RepeatPairCounts(k: nat)
    ensures multiset(Repeat([BLACK, WHITE], k))[BLACK] == k
    ensures multiset(Repeat([BLACK, WHITE], k))[WHITE] == k
  {
    if k > 0 {
      RepeatPairCounts(k - 1);
    }
  }

  /** Colour balance: BLACK in the ceiling of n/2 games, WHITE in the floor,
      and no other value. */
  lemma ColorScheduleCounts(n: nat)
    ensures multiset(ColorSchedule(n))[BLACK] == (n + 1) / 2
    ensures multiset(ColorSchedule(n))[WHITE] == n / 2
    ensures forall c :: c in ColorSchedule(n) ==> IsColor(c)
  {
    RepeatPairCounts(n / 2);
    OddTail(n);
    forall c | c in ColorSchedule(n) ensures IsColor(c) {
      var i :| 0 <= i < |ColorSchedule(n)| && ColorSchedule(n)[i] == c;
      ColorScheduleAt(n, i);
    }
  }

  lemma ColorScheduleFive()
    ensures ColorSchedule(5) == [BLACK, WHITE, BLACK, WHITE, BLACK]
  {
    forall i | 0 <= i < 5 ensures ColorSchedule(5)[i] == [BLACK, WHITE, BLACK, WHITE, BLACK][i] {
      ColorScheduleAt(5, i);
    }
  }

  // ---------------------------------------------------------------------------
  // Per-game result counting
  // ---------------------------------------------------------------------------

  /** One finished game: the winner reported by the game (`None` for an
      aborted game, `Some(0)` for a tie, `Some(colour)` otherwise) and the
      colour the challenger played. */
  datatype Game = Game(winner: Option<int>, colorOfNew: int)

  /** The round counters and the value of the completion gate. */
  datatype Counters = Counters(win: nat, notTie: nat, finished: nat, released: nat)

  predicate IsWin(g: Game) { g.winner == Some(g.colorOfNew) }

  predicate IsDecisive(g: Game) { g.winner.Some? && g.winner.value != 0 }

  /** The counter update one report makes; the gate opens on the report
      that brings `finished` to `numGames`. */
  function Tally(c: Counters, numGames: nat, g: Game): (r: Counters)
    ensures Ordered(c) && IsColor(g.colorOfNew) ==> Ordered(r)
    ensures r.released <= c.released + 1
    ensures r.released == c.released + 1 <==> c.finished + 1 == numGames
  {
    var finished := c.finished + 1;
    Counters(c.win + (if IsWin(g) then 1 else 0),
             c.notTie + (if IsDecisive(g) then 1 else 0),
             finished,
             c.released + (if finished == numGames then 1 else 0))
  }

  /** Reports applied one after another, in the order of `gs`. */
  function TallyAll(c: Counters, numGames: nat, gs: seq<Game>): Counters
    decreases |gs|
  {
    if gs == [] then c
    else Tally(TallyAll(c, numGames, gs[..|gs| - 1]), numGames, gs[|gs| - 1])
  }

  /** A report counts a win exactly when the winner is the challenger's
      colour, a decisive game exactly when there is a non-zero winner, and
      always one finished game. */
  lemma TallyEffect(c: Counters, numGames: nat, g: Game)
    ensures Tally(c, numGames, g).win == c.win + 1 <==> g.winner == Some(g.colorOfNew)
    ensures Tally(c, numGames, g).win == c.win <==> g.winner != Some(g.colorOfNew)
    ensures Tally(c, numGames, g).notTie == c.notTie + 1 <==> (g.winner != None && g.winner != Some(0))
    ensures Tally(c, numGames, g).notTie == c.notTie <==> (g.winner == None || g.winner == Some(0))
    ensures Tally(c, numGames, g).finished == c.finished + 1
  {
  }

  function CountIf<T>(s: seq<T>, p: T -> bool): nat
  {
    if s == [] then 0 else (if p(s[0]) then 1 else 0) + CountIf(s[1..], p)
  }

  lemma {:induction false} CountIfAppend<T>(a: seq<T>, b: seq<T>, p: T -> bool)
    ensures CountIf(a + b, p) == CountIf(a, p) + CountIf(b, p)
  {
    if a == [] {
      assert a + b == b;
    } else {
      assert (a + b)[1..] == a[1..] + b;
      CountIfAppend(a[1..], b, p);
    }
  }

  /** Taking one element out of a sequence takes its contribution out of
      the count. */
  lemma CountIfRemove<T>(b: seq<T>, j: nat, p: T -> bool)
    requires j < |b|
    ensures CountIf(b, p) == (if p(b[j]) then 1 else 0) + CountIf(b[..j] + b[j + 1..], p)
  {
    var front, x, back := b[..j], b[j], b[j + 1..];
    assert b == front + ([x] + back);
    CountIfAppend(front, [x] + back, p);
    assert CountIf([x] + back, p) == (if p(x) then 1 else 0) + CountIf(back, p) by {
      assert ([x] + back)[1..] == back;
    }
    CountIfAppend(front, back, p);
  }

  /** ... and out of the multiset. */
  lemma MultisetRemove<T>(b: seq<T>, j: nat)
    requires j < |b|
    ensures multiset(b[..j] + b[j + 1..]) == multiset(b) - multiset{b[j]}
  {
    assert b == b[..j] + [b[j]] + b[j + 1..];
  }

  /** A count depends only on the multiset of elements, not on their order. */
  lemma {:induction false} CountIfPermutation<T>(a: seq<T>, b: seq<T>, p: T -> bool)
    requires multiset(a) == multiset(b)
    ensures CountIf(a, p) == CountIf(b, p)
    decreases |a|
  {
    if a == [] {
      assert |b| == |multiset(b)| == 0;
    } else {
      var x := a[0];
      assert x in multiset(b);
      var j :| 0 <= j < |b| && b[j] == x;
      CountIfRemove(b, j, p);
      MultisetRemove(b, j);
      assert a == [x] + a[1..];
      assert multiset(a[1..]) == multiset(a) - multiset{x};
      CountIfPermutation(a[1..], b[..j] + b[j + 1..], p);
    }
  }

  /** After a sequence of reports the counters hold the number of wins, of
      decisive games and of games; the gate was released once if `finished`
      passed through `numGames`, and never otherwise. */
  lemma {:induction false} TallyAllCounts(c: Counters, numGames: nat, gs: seq<Game>)
    ensures TallyAll(c, numGames, gs).win == c.win + CountIf(gs, IsWin)
    ensures TallyAll(c, numGames, gs).notTie == c.notTie + CountIf(gs, IsDecisive)
    ensures TallyAll(c, numGames, gs).finished == c.finished + |gs|
    ensures TallyAll(c, numGames, gs).released
         == c.released + (if c.finished < numGames <= c.finished + |gs| then 1 else 0)
    decreases |gs|
  {
    if gs != [] {
      var init, last := gs[..|gs| - 1], gs[|gs| - 1];
      TallyAllCounts(c, numGames, init);
      assert gs == init + [last];
      CountIfAppend(init, [last], IsWin);
      CountIfAppend(init, [last], IsDecisive);
    }
  }

  /** Extending a prefix of reports by one applies one more report. */
  lemma TallyAllStep(c: Counters, numGames: nat, gs: seq<Game>, k: nat)
    requires k < |gs|
    ensures TallyAll(c, numGames, gs[..k + 1]) == Tally(TallyAll(c, numGames, gs[..k]), numGames, gs[k])
  {
    assert gs[..k + 1][..k] == gs[..k];
  }

  /** The order in which games report does not affect the final state. */
  lemma TallyAllPermutation(c: Counters, numGames: nat, gs: seq<Game>, hs: seq<Game>)
    requires multiset(gs) == multiset(hs)
    ensures TallyAll(c, numGames, gs) == TallyAll(c, numGames, hs)
  {
    assert |gs| == |multiset(gs)| == |multiset(hs)| == |hs|;
    TallyAllCounts(c, numGames, gs);
    TallyAllCounts(c, numGames, hs);
    CountIfPermutation(gs, hs, IsWin);
    CountIfPermutation(gs, hs, IsDecisive);
  }

  /** Starting from `finished == 0` with `numGames >= 1`, the gate is
      released by no report but the `numGames`-th, and by that one once. */
  lemma GateReleasedOnce(c: Counters, numGames: nat, gs: seq<Game>)
    requires 1 <= numGames == |gs| && c.finished == 0
    ensures forall k :: 0 <= k <= numGames ==>
      TallyAll(c, numGames, gs[..k]).released == c.released + (if k == numGames then 1 else 0)
  {
    forall k | 0 <= k <= numGames
      ensures TallyAll(c, numGames, gs[..k]).released == c.released + (if k == numGames then 1 else 0)
    {
      TallyAllCounts(c, numGames, gs[..k]);
    }
  }

  /** With `numGames == 0` no report ever releases the gate. */
  lemma GateNeverReleasedWithoutGames(c: Counters, gs: seq<Game>)
    ensures TallyAll(c, 0, gs).released == c.released
  {
    TallyAllCounts(c, 0, gs);
  }

  predicate Ordered(c: Counters) { c.win <= c.notTie <= c.finished }

  /** With non-zero colours, every win is decisive and every decisive game
      is finished, so `win <= notTie <= finished` is kept by every report. */
  lemma {:induction false} TallyAllOrdered(c: Counters, numGames: nat, gs: seq<Game>)
    requires Ordered(c)
    requires forall i :: 0 <= i < |gs| ==> IsColor(gs[i].colorOfNew)
    ensures Ordered(TallyAll(c, numGames, gs))
    decreases |gs|
  {
    if gs != [] {
      TallyAllOrdered(c, numGames, gs[..|gs| - 1]);
    }
  }

  // ---------------------------------------------------------------------------
  // Promotion test
  // ---------------------------------------------------------------------------

  /** `win > int(0.55 * notTie)`: the integer part of 0.55 times the number
      of decisive games, taken over non-negative counts. */
  predicate PromotionTest(win: nat, notTie: nat)
    ensures PromotionTest(win, notTie) ==> win >= 1
    ensures 0 < notTie <= win ==> PromotionTest(win, notTie)
  {
    win > (55 * notTie) / 100
  }

  /** The truncated threshold loses nothing: the test is exactly
      "more than 55 percent of the decisive games were won". */
  lemma PromotionTestExact(win: nat, notTie: nat)
    ensures PromotionTest(win, notTie) <==> 100 * win > 55 * notTie
  {
  }

  lemma PromotionTestExamples()
    ensures PromotionTest(56, 100)
    ensures !PromotionTest(55, 100)
    ensures !PromotionTest(0, 0)
  {
  }

  /** The games of a round: game `i` has winner `winners[i]` and the
      challenger plays `colors[i]`. */
  function Games(winners: seq<Option<int>>, colors: seq<int>): (gs: seq<Game>)
    requires |winners| == |colors|
    ensures |gs| == |winners|
    ensures forall i :: 0 <= i < |gs| ==> gs[i] == Game(winners[i], colors[i])
  {
    seq(|winners|, i requires 0 <= i < |winners| => Game(winners[i], colors[i]))
  }

  // ---------------------------------------------------------------------------
  // The evaluator's shared state
  // ---------------------------------------------------------------------------

  /** The evaluator's counters (`win_counter`, `num_not_tie`,
      `finished_worker`) and the values of its two semaphores: `released`
      for `join_worker`, `freeSlots` for `worker_lim`. */
  class Round {
    const numGames: nat
    const numWorker: nat
    var win: nat
    var notTie: nat
    var finished: nat
    var released: nat
    var freeSlots: nat
    /** Games admitted and not yet reported. */
    ghost var outstanding: nat

    ghost predicate Valid()
      reads this
    {
      win <= notTie <= finished &&
      freeSlots + outstanding == numWorker
    }

    function Snapshot(): Counters
      reads this
    {
      Counters(win, notTie, finished, released)
    }

    /** Counters at zero, `worker_lim` at `numWorker`, `join_worker` at 0. */
    constructor (numGames: nat, numWorker: nat)
      ensures Valid() && outstanding == 0
      ensures this.numGames == numGames && this.numWorker == numWorker
      ensures Snapshot() == Counters(0, 0, 0, 0) && freeSlots == numWorker
    {
      this.numGames := numGames;
      this.numWorker := numWorker;
      win, notTie, finished := 0, 0, 0;
      released := 0;
      freeSlots := numWorker;
      outstanding := 0;
    }

    /** Start of a round: the three counters are zeroed; the semaphores keep
        their values. */
    method Reset()
      requires Valid()
      modifies this
      ensures Valid()
      ensures Snapshot() == Counters(0, 0, 0, old(released))
      ensures freeSlots == old(freeSlots) && outstanding == old(outstanding)
    {
      win, notTie, finished := 0, 0, 0;
    }

    /** `worker_lim.acquire()` before launching a game: takes one slot. */
    method Admit()
      requires Valid() && freeSlots > 0
      modifies this
      ensures Valid()
      ensures freeSlots == old(freeSlots) - 1 && outstanding == old(outstanding) + 1
      ensures Snapshot() == old(Snapshot())
    {
      freeSlots := freeSlots - 1;
      outstanding := outstanding + 1;
    }

    /** The end of one game: count the result, give the slot back, count
        the game as finished and release the gate if it was the last one. */
    method Report(winner: Option<int>, colorOfNew: int)
      requires Valid() && outstanding > 0 && IsColor(colorOfNew)
      modifies this
      ensures Valid()
      ensures Snapshot() == Tally(old(Snapshot()), numGames, Game(winner, colorOfNew))
      ensures freeSlots == old(freeSlots) + 1 && outstanding == old(outstanding) - 1
    {
      if winner == Some(colorOfNew) {
        win := win + 1;
      }
      if winner.Some? && winner.value != 0 {
        notTie := notTie + 1;
      }
      freeSlots := freeSlots + 1;
      outstanding := outstanding - 1;
      finished := finished + 1;
      if finished == numGames {
        released := released + 1;
      }
    }

    /** `join_worker.acquire()`: consumes one release of the gate. */
    method Await()
      requires released > 0
      modifies this
      ensures released == old(released) - 1
      ensures win == old(win) && notTie == old(notTie) && finished == old(finished)
      ensures freeSlots == old(freeSlots) && outstanding == old(outstanding)
    {
      released := released - 1;
    }

    predicate Promote()
      reads this
      ensures Promote() <==> 100 * win > 55 * notTie
    {
      PromotionTestExact(win, notTie);
      PromotionTest(win, notTie)
    }

    /** The admission loop of a round and the completion of its games:
        game `i` is launched behind a slot with colour `colors[i]` and
        reports `winners[i]`. When every slot is taken, the oldest running
        game is the one that finishes and frees a slot. */
    method Dispatch(winners: seq<Option<int>>, colors: seq<int>)
      requires Valid() && outstanding == 0 && 1 <= numWorker
      requires |winners| == |colors|
      requires forall i :: 0 <= i < |colors| ==> IsColor(colors[i])
      modifies this
      ensures Valid() && outstanding == 0
      ensures Snapshot() == TallyAll(old(Snapshot()), numGames, Games(winners, colors))
    {
      ghost var games := Games(winners, colors);
      ghost var start := Snapshot();
      var launched, done := 0, 0;
      while launched < |colors|
        invariant Valid()
        invariant done <= launched <= |colors|
        invariant outstanding == launched - done
        invariant Snapshot() == TallyAll(start, numGames, games[..done])
      {
        if freeSlots == 0 {
          Report(winners[done], colors[done]);
          TallyAllStep(start, numGames, games, done);
          done := done + 1;
        }
        Admit();
        launched := launched + 1;
      }
      while done < launched
        invariant Valid() && launched == |colors|
        invariant done <= launched
        invariant outstanding == launched - done
        invariant Snapshot() == TallyAll(start, numGames, games[..done])
      {
        Report(winners[done], colors[done]);
        TallyAllStep(start, numGames, games, done);
        done := done + 1;
      }
      assert games[..done] == games;
    }

    /** One pass of the evaluator's main loop after the challenger is
        loaded: reset the counters, dispatch the scheduled games, wait for
        the gate, and send `path` when the challenger is promoted.
        `winners[i]` is what game `i` returns. */
    method RunRound<P>(path: P, winners: seq<Option<int>>) returns (sent: Option<P>)
      requires Valid() && outstanding == 0
      requires 1 <= numWorker
      requires 1 <= numGames == |winners|
      requires released == 0
      modifies this
      ensures Valid() && outstanding == 0 && freeSlots == numWorker
      ensures var gs := Games(winners, ColorSchedule(numGames));
        win == CountIf(gs, IsWin) && notTie == CountIf(gs, IsDecisive) && finished == numGames
      ensures released == 0
      ensures sent == if PromotionTest(win, notTie) then Some(path) else None
    {
      Reset();
      var colors := ColorSchedule(numGames);
      ColorScheduleCounts(numGames);
      forall i | 0 <= i < |colors| ensures IsColor(colors[i]) {
        assert colors[i] in colors;
      }
      Dispatch(winners, colors);
      TallyAllCounts(Counters(0, 0, 0, old(released)), numGames, Games(winners, colors));
      Await();
      if Promote() {
        sent := Some(path);
      } else {
        sent := None;
      }
    }
  }
}
