/**
 * Index arithmetic of the Previous/Next buttons. The index is 1-based and
 * wraps within [1, count], where count is the number of shapefiles.
 */
module Navigation {

  /** `index -= 1; if index < 1: index = count` */
  function PrevIndex(index: int, count: nat): (r: int)
    ensures 1 <= index <= count ==> 1 <= r <= count
  {
    if index - 1 < 1 then count else index - 1
  }

  /** `index += 1; if index > count: index = 1` */
  function NextIndex(index: int, count: nat): (r: int)
    ensures 1 <= index <= count ==> 1 <= r <= count
  {
    if index + 1 > count then 1 else index + 1
  }

  /** The button flags of one page run. */
  datatype Clicks = Clicks(previous: bool, next: bool)

  /** One page run: `if previous: ... elif next: ...`; at most one step is taken. */
  function StepIndex(index: int, count: nat, c: Clicks): (r: int)
    ensures 1 <= index <= count ==> 1 <= r <= count
  {
    if c.previous then PrevIndex(index, count)
    else if c.next then NextIndex(index, count)
    else index
  }

  /**
   * The index after a series of page runs, taken in order. From any valid
   * start it stays a valid 1-based position, so `index - 1` always selects a file.
   */
  function Run(index: int, count: nat, runs: seq<Clicks>): (r: int)
    ensures 1 <= index <= count ==> 1 <= r <= count
    decreases runs
  {
    if runs == [] then index
    else Run(StepIndex(index, count, runs[0]), count, runs[1..])
  }

  /** The signed step one page run takes: Previous wins over Next. */
  function Offset(c: Clicks): (d: int)
    ensures -1 <= d <= 1
  {
    if c.previous then -1 else if c.next then 1 else 0
  }

  /** Net number of steps forward over a series of page runs. */
  function Net(runs: seq<Clicks>): (d: int)
    ensures -|runs| <= d <= |runs|
  {
    if runs == [] then 0 else Offset(runs[0]) + Net(runs[1..])
  }

  /** Wrap-around at the bottom: Previous from 1 gives the last index. */
  lemma PrevWraps(index: int, count: nat)
    requires 1 <= index <= count
    ensures PrevIndex(index, count) == (if index == 1 then count else index - 1)
  {
  }

  /** Wrap-around at the top: Next from the last index gives 1. */
  lemma NextWraps(index: int, count: nat)
    requires 1 <= index <= count
    ensures NextIndex(index, count) == (if index == count then 1 else index + 1)
  {
  }

  /**
   * At most one step per page run: with both flags set Previous wins,
   * with neither set the index is unchanged, and the step is exactly one place.
   */
  lemma StepPriority(index: int, count: nat, c: Clicks)
    requires 1 <= index <= count
    ensures c.previous ==> StepIndex(index, count, c) == PrevIndex(index, count)
    ensures !c.previous && c.next ==> StepIndex(index, count, c) == NextIndex(index, count)
    ensures !c.previous && !c.next ==> StepIndex(index, count, c) == index
    ensures StepIndex(index, count, c) == index + Offset(c)
         || (index == 1 && Offset(c) == -1 && StepIndex(index, count, c) == count)
         || (index == count && Offset(c) == 1 && StepIndex(index, count, c) == 1)
  {
  }

  /** Next followed by Previous returns to the starting index, and so does the reverse order. */
  lemma NextPrevInverse(index: int, count: nat)
    requires 1 <= index <= count
    ensures PrevIndex(NextIndex(index, count), count) == index
    ensures NextIndex(PrevIndex(index, count), count) == index
  {
  }

  /** A positive multiple of n is at least n. */
  lemma {:induction false} MulAtLeast(n: int, m: int)
    requires 0 < n && 1 <= m
    ensures n * m >= n
    decreases m
  {
    if m > 1 {
      MulAtLeast(n, m - 1);
      assert n * m == n * (m - 1) + n;
    }
  }

  /** Euclidean remainder is determined by any quotient/remainder split. */
  lemma ModUnique(x: int, n: int, k: int, r: int)
    requires 0 < n && 0 <= r < n && x == n * k + r
    ensures x % n == r
  {
    var q, s := x / n, x % n;
    assert x == n * q + s && 0 <= s < n;
    if q > k {
      MulAtLeast(n, q - k);
    } else if q < k {
      MulAtLeast(n, k - q);
    }
  }

  /** Shifting a remainder and reducing again is the same as reducing the shifted value. */
  lemma ModShift(x: int, d: int, n: int)
    requires 0 < n
    ensures (x % n + d) % n == (x + d) % n
  {
    var y := x % n + d;
    assert x + d == n * (x / n + y / n) + y % n;
    ModUnique(x + d, n, x / n + y / n, y % n);
  }

  /** One page run moves the index one place around a cycle of length count. */
  lemma StepIndexCyclic(index: int, count: nat, c: Clicks)
    requires 1 <= index <= count
    ensures StepIndex(index, count, c) - 1 == (index - 1 + Offset(c)) % count
  {
    var r := StepIndex(index, count, c);
    if c.previous && index == 1 {
      ModUnique(index - 1 + Offset(c), count, -1, count - 1);
    } else if !c.previous && c.next && index == count {
      ModUnique(index - 1 + Offset(c), count, 1, 0);
    } else {
      ModUnique(index - 1 + Offset(c), count, 0, r - 1);
    }
  }

  /**
   * Closed form of navigation: after any series of page runs, the 0-based
   * position is the start position plus the net number of steps, modulo count.
   */
  lemma {:induction false} RunCyclic(index: int, count: nat, runs: seq<Clicks>)
    requires 1 <= index <= count
    ensures Run(index, count, runs) - 1 == (index - 1 + Net(runs)) % count
    decreases runs
  {
    if runs == [] {
      ModUnique(index - 1, count, 0, index - 1);
    } else {
      var j := StepIndex(index, count, runs[0]);
      StepIndexCyclic(index, count, runs[0]);
      RunCyclic(j, count, runs[1..]);
      ModShift(index - 1 + Offset(runs[0]), Net(runs[1..]), count);
    }
  }

  /** count presses of Next and nothing else. */
  function NextPresses(k: nat): (runs: seq<Clicks>)
    ensures |runs| == k
    ensures forall i :: 0 <= i < k ==> runs[i] == Clicks(false, true)
  {
    if k == 0 then [] else [Clicks(false, true)] + NextPresses(k - 1)
  }

  lemma {:induction false} NetNextPresses(k: nat)
    ensures Net(NextPresses(k)) == k
  {
    if k > 0 {
      NetNextPresses(k - 1);
    }
  }

  /** Pressing Next count times brings the browser back to where it started. */
  lemma FullCycle(index: int, count: nat)
    requires 1 <= index <= count
    ensures Run(index, count, NextPresses(count)) == index
  {
    RunCyclic(index, count, NextPresses(count));
    NetNextPresses(count);
    ModUnique(index - 1 + count, count, 1, index - 1);
  }
}
