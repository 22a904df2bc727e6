/** Percent-complete arithmetic: `Math.round((completed / total) * 100)` in
    exact integers. `Math.round` rounds to the nearest integer with halves
    going toward +infinity (section 21.3.2.28 of ECMA-262), that is
    floor(x + 1/2); for x = 100c/n this is floor((200c + n) / (2n)). */
module Rounding {

  /** `Math.round((part / whole) * 100)` for whole > 0: the unique p with
      p - 1/2 <= 100*part/whole < p + 1/2. */
  function RoundedPercent(part: nat, whole: nat): (p: nat)
    requires whole > 0
    ensures 2 * whole * p <= 200 * part + whole < 2 * whole * (p + 1)
  {
    var q := (200 * part + whole) / (2 * whole);
    assert 200 * part + whole == (2 * whole) * q + (200 * part + whole) % (2 * whole);
    q
  }

  /** Progress of a project with `total` tasks of which `completed` are done:
      0 for no tasks, otherwise the rounded percentage. */
  function Progress(completed: nat, total: nat): (p: nat)
    requires completed <= total
    ensures p <= 100
    ensures total == 0 ==> p == 0
    ensures total > 0 ==> 2 * total * p <= 200 * completed + total < 2 * total * (p + 1)
  {
    if total == 0 then 0
    else
      var p := RoundedPercent(completed, total);
      AtMostHundred(completed, total, p);
      p
  }

  lemma AtMostHundred(c: nat, n: nat, p: nat)
    requires 0 < n && c <= n
    requires 2 * n * p <= 200 * c + n
    ensures p <= 100
  {
    if p >= 101 {
      MulMonotone(2 * n, 101, p);
      assert false;
    }
  }

  lemma MulCancel(k: nat, a: nat, b: nat)
    requires k * a < k * b
    ensures a < b
  {
    if b <= a {
      MulMonotone(k, b, a);
    }
  }

  lemma MulMonotone(k: nat, a: nat, b: nat)
    requires a <= b
    ensures k * a <= k * b
  {
  }

  /** The rounded percentage is the only integer within one half of 100c/n:
      any p meeting the rounding bounds is the one Progress yields. */
  lemma {:induction false} ProgressUnique(c: nat, n: nat, p: nat)
    requires 0 < n && c <= n
    requires 2 * n * p <= 200 * c + n < 2 * n * (p + 1)
    ensures Progress(c, n) == p
  {
    var q := Progress(c, n);
    if q < p {
      MulMonotone(2 * n, q + 1, p);
      assert false;
    } else if p < q {
      MulMonotone(2 * n, p + 1, q);
      assert false;
    }
  }

  /** A project reads 100% exactly when the incomplete share is at most half
      a percent: 200 * (n - c) <= n. */
  lemma {:induction false} ProgressFullIff(c: nat, n: nat)
    requires 0 < n && c <= n
    ensures Progress(c, n) == 100 <==> 200 * (n - c) <= n
  {
    if 200 * (n - c) <= n {
      assert 2 * n * 100 <= 200 * c + n < 2 * n * 101;
      ProgressUnique(c, n, 100);
    } else {
      var p := Progress(c, n);
      if p == 100 {
        assert false;
      }
    }
  }

  /** With fewer than 200 tasks, 100% means every task is complete. */
  lemma ProgressFullIffAllDone(c: nat, n: nat)
    requires 0 < n < 200 && c <= n
    ensures Progress(c, n) == 100 <==> c == n
  {
    ProgressFullIff(c, n);
  }

  /** A project reads 0% exactly when the complete share is below half a
      percent: 200 * c < n. */
  lemma {:induction false} ProgressZeroIff(c: nat, n: nat)
    requires 0 < n && c <= n
    ensures Progress(c, n) == 0 <==> 200 * c < n
  {
    if 200 * c < n {
      ProgressUnique(c, n, 0);
    } else {
      var p := Progress(c, n);
      if p == 0 {
        assert false;
      }
    }
  }

  /** More completed tasks never lower the progress. */
  lemma {:induction false} ProgressMonotone(c1: nat, c2: nat, n: nat)
    requires c1 <= c2 <= n
    ensures Progress(c1, n) <= Progress(c2, n)
  {
    if n > 0 {
      var p1, p2 := Progress(c1, n), Progress(c2, n);
      if p2 < p1 {
        MulMonotone(2 * n, p2 + 1, p1);
        assert false;
      }
    }
  }

  /** Three tasks with one done read 33%; 199 of 200 done already reads 100%. */
  lemma ProgressExamples()
    ensures Progress(1, 3) == 33
    ensures Progress(2, 3) == 67
    ensures Progress(1, 2) == 50
    ensures Progress(199, 200) == 100
    ensures Progress(1, 201) == 0
  {
    ProgressUnique(1, 3, 33);
    ProgressUnique(2, 3, 67);
    ProgressUnique(1, 2, 50);
    ProgressUnique(199, 200, 100);
    ProgressUnique(1, 201, 0);
  }
}
