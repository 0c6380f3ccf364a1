/** The sequential network evaluator's layout of a policy row: entry `i`
    of the 362-entry row is the probability of the board point in row
    `i / 19`, column `i % 19` of a 19x19 board, and entry 361 that of
    passing. */
module NNEvalSeq {

  const BoardSize: nat := 19
  /** Index of the pass move, one past the last board point. */
  const PassIndex: nat := BoardSize * BoardSize
  const PolicySize: nat := PassIndex + 1

  datatype Move = Point(row: nat, col: nat) | Pass

  predicate OnBoard(m: Move)
  {
    m.Point? && m.row < BoardSize && m.col < BoardSize
  }

  /** The move that entry `i` of a policy row stands for. */
  function MoveAt(i: nat): (m: Move)
    requires i < PolicySize
    ensures i < PassIndex ==> OnBoard(m) && m.row * BoardSize + m.col == i
    ensures i == PassIndex ==> m == Pass
  {
    if i < PassIndex then Point(i / BoardSize, i % BoardSize) else Pass
  }

  /** The entry of a policy row that stands for move `m`. */
  function IndexOf(m: Move): nat
    requires m.Pass? || OnBoard(m)
  {
    if m.Pass? then PassIndex else m.row * BoardSize + m.col
  }

  /** Every board entry names a point on the board, and the point leads back
      to the entry. */
  lemma MoveAtOnBoard(i: nat)
    requires i < PassIndex
    ensures OnBoard(MoveAt(i))
    ensures IndexOf(MoveAt(i)) == i
  {
  }

  /** Every point of the board has an entry, at `row * 19 + col`, and that
      entry names the point. */
  lemma IndexOfOnBoard(m: Move)
    requires OnBoard(m)
    ensures IndexOf(m) < PassIndex
    ensures MoveAt(IndexOf(m)) == m
  {
  }

  /** Each point of the board appears at exactly one entry of a policy row. */
  lemma PointAppearsOnce(m: Move, k: nat)
    requires OnBoard(m) && k < PolicySize
    ensures MoveAt(k) == m <==> k == m.row * BoardSize + m.col
  {
  }

  /** The pass move is the last entry and only that one. */
  lemma PassAppearsOnce(k: nat)
    requires k < PolicySize
    ensures MoveAt(k) == Pass <==> k == PassIndex
  {
  }

  /** Entries are laid out row by row: a later board entry is on a later
      row, or on the same row further right. */
  lemma RowMajor(i: nat, j: nat)
    requires i < j < PassIndex
    ensures MoveAt(i).row < MoveAt(j).row
         || (MoveAt(i).row == MoveAt(j).row && MoveAt(i).col < MoveAt(j).col)
  {
  }

  /** The move list the evaluator returns for the first position of a
      batch: `moves[i]` pairs the move of entry `i` with `rp[0][i]`, and the
      value is `rv[0]`. */
  method Eval<P, V>(rp: seq<seq<P>>, rv: seq<V>) returns (moves: seq<(Move, P)>, value: V)
    requires |rp| >= 1 && |rp[0]| >= PolicySize
    requires |rv| >= 1
    ensures |moves| == PolicySize
    ensures forall k :: 0 <= k < PolicySize ==> moves[k] == (MoveAt(k), rp[0][k])
    ensures value == rv[0]
  {
    value := rv[0];
    moves := [];
    for i := 0 to PassIndex
      invariant |moves| == i
      invariant forall k :: 0 <= k < i ==> moves[k] == (MoveAt(k), rp[0][k])
    {
      moves := moves + [(Point(i / BoardSize, i % BoardSize), rp[0][i])];
    }
    moves := moves + [(Pass, rp[0][PassIndex])];
  }
}
