/** Dense real matrices that keep their shape, as numpy's `shape` does, even with zero rows. */
module Matrices {

  datatype Grid = Grid(rows: nat, cols: nat, cells: seq<seq<real>>)

  predicate Rectangular(g: Grid) {
    |g.cells| == g.rows && forall r :: 0 <= r < |g.cells| ==> |g.cells[r]| == g.cols
  }

  /** A rows x cols matrix. */
  type Matrix = g: Grid | Rectangular(g) witness Grid(0, 0, [])

  predicate IsZero(m: Matrix) {
    forall r, c :: 0 <= r < m.rows && 0 <= c < m.cols ==> m.cells[r][c] == 0.0
  }

  /** `np.zeros([rows, cols])`. */
  function Zeros(rows: nat, cols: nat): (m: Matrix)
    ensures m.rows == rows && m.cols == cols && IsZero(m)
  {
    Grid(rows, cols, seq(rows, _ => seq(cols, _ => 0.0)))
  }

  /** `np.zeros(n)`. */
  function ZeroVector(n: nat): (v: seq<real>)
    ensures |v| == n && forall k :: 0 <= k < n ==> v[k] == 0.0
  {
    seq(n, _ => 0.0)
  }

  /** The process-wide random source: its k-th standard normal draw. */
  type NormalStream = nat -> real

  /**
   * `np.random.normal(loc=0, scale=sigma, size=(rows, cols))`, filled in row-major
   * order from the draws of `stream` starting at position `offset`.
   */
  function NormalDraws(stream: NormalStream, offset: nat, rows: nat, cols: nat, sigma: real): (m: Matrix)
    ensures m.rows == rows && m.cols == cols
  {
    Grid(rows, cols, seq(rows, r requires 0 <= r < rows => seq(cols, c requires 0 <= c < cols => sigma * stream(offset + r * cols + c))))
  }
}
