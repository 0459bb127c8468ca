/** The few Python built-ins the cleaner relies on, stated as Dafny functions:
    results that may raise, `range` with a non-negative step, slicing,
    `str.__contains__` and `str.endswith`. (`any` over the markers and over
    a folder listing is written out where it is used, in `Cleanup`.) */
module Builtins {

  /** A value, or the Python exception that was raised instead. */
  datatype Result<+T, +E> = Ok(value: T) | Err(error: E)

  datatype Option<+T> = None | Some(value: T)

  /** The Python exceptions that can end a cleanup pass. */
  datatype PyError =
    | ZeroStep           // ValueError: range() arg 3 must not be zero
    | IndexOutOfRange    // IndexError: list index out of range
    | DirectoryNotEmpty  // OSError raised by os.rmdir on a folder that still has entries

  /** `range(start, stop, step)` for a non-negative step; a zero step raises. */
  function Range(start: nat, stop: int, step: nat): (r: Result<seq<nat>, PyError>)
    ensures r.Err? <==> step == 0
    ensures r.Err? ==> r.error == ZeroStep
    ensures r.Ok? ==> forall k {:trigger r.value[k]} :: 0 <= k < |r.value| ==> r.value[k] == start + Times(k, step)
    ensures r.Ok? ==> forall k {:trigger r.value[k]} :: 0 <= k < |r.value| ==> r.value[k] < stop
    decreases if start < stop then stop - start else 0
  {
    if step == 0 then Err(ZeroStep)
    else if start >= stop then Ok([])
    else
      var rest := Range(start + step, stop, step).value;
      var r := [start] + rest;
      assert forall k :: 1 <= k < |r| ==> r[k] == rest[k - 1];
      Ok(r)
  }

  /** `k * c` as repeated addition, so that offsets can be reasoned
      about without non-linear arithmetic. */
  function Times(k: nat, c: nat): nat
  {
    if k == 0 then 0 else Times(k - 1, c) + c
  }

  lemma {:induction false} TimesIsProduct(k: nat, c: nat)
    ensures Times(k, c) == k * c
  {
    if k > 0 {
      TimesIsProduct(k - 1, c);
    }
  }

  lemma {:induction false} TimesMonotone(j: nat, k: nat, c: nat)
    requires j <= k
    ensures Times(j, c) <= Times(k, c)
  {
    if j < k {
      TimesMonotone(j, k - 1, c);
    }
  }

  /** Dividing by `d` after taking `d` away drops the quotient by one. */
  lemma DivStep(x: nat, d: nat)
    requires d > 0
    ensures x >= d ==> (x - d) / d + 1 == x / d
    ensures x < d ==> x / d == 0
  {
    if x >= d {
      DivUnique(x, d, (x - d) / d + 1, (x - d) % d);
    } else {
      DivUnique(x, d, 0, x);
    }
  }

  /** Quotient and remainder are determined by `n == d * q + m` with `0 <= m < d`. */
  lemma DivUnique(n: int, d: int, q: int, m: int)
    requires d > 0 && 0 <= m < d && n == d * q + m
    ensures n / d == q && n % d == m
  {
    var q', m' := n / d, n % d;
    if q' > q {
      MulMonotone(q + 1, q', d);
    } else if q' < q {
      MulMonotone(q' + 1, q, d);
    }
  }

  lemma MulMonotone(a: int, b: int, d: int)
    requires a <= b && d >= 0
    ensures a * d <= b * d
  {
  }

  /** `range(start, stop, step)` has `ceil((stop - start) / step)` elements. */
  lemma {:induction false} RangeLength(start: nat, stop: int, step: nat)
    requires step >= 1
    ensures |Range(start, stop, step).value| == if start < stop then (stop - start - 1) / step + 1 else 0
    decreases if start < stop then stop - start else 0
  {
    if start < stop {
      RangeLength(start + step, stop, step);
      DivStep(stop - start - 1, step);
    }
  }

  /** `s[lo:hi]` for non-negative bounds: Python clamps both bounds to the
      sequence and never raises. */
  function Slice<T>(s: seq<T>, lo: nat, hi: nat): (r: seq<T>)
    ensures lo <= hi <= |s| ==> r == s[lo..hi]
    ensures |r| <= |s|
  {
    var a := if lo < |s| then lo else |s|;
    var b := if hi < a then a else if hi < |s| then hi else |s|;
    s[a..b]
  }

  /** `s[-k:]` for `k >= 1`: the last `k` elements, or all of `s` when it is shorter. */
  function Tail<T>(s: seq<T>, k: nat): (r: seq<T>)
    requires k >= 1
    ensures k <= |s| ==> |r| == k && r == s[|s| - k..]
    ensures k > |s| ==> r == s
  {
    s[|s| - (if k < |s| then k else |s|)..]
  }

  /** `p` occurs in `t` at index `i`. */
  ghost predicate OccursAt(p: string, t: string, i: int)
  {
    0 <= i && i + |p| <= |t| && t[i..i + |p|] == p
  }

  /** `p in t` on Python strings: a left-to-right substring search. */
  function Contains(p: string, t: string): bool
    decreases |t|
  {
    if |p| > |t| then false
    else if t[..|p|] == p then true
    else Contains(p, t[1..])
  }

  /** The search finds `p` exactly when `p` occurs somewhere in `t`. */
  lemma {:induction false} ContainsMeaning(p: string, t: string)
    ensures Contains(p, t) <==> exists i :: OccursAt(p, t, i)
    decreases |t|
  {
    if |p| > |t| {
      assert forall i :: !OccursAt(p, t, i);
    } else if t[..|p|] == p {
      assert OccursAt(p, t, 0);
    } else {
      ShiftOccurrence(p, t);
      ContainsMeaning(p, t[1..]);
    }
  }

  /** Past index 0, the occurrences of `p` in `t` are those in `t[1..]`, moved by one. */
  lemma ShiftOccurrence(p: string, t: string)
    requires |t| >= 1 && !OccursAt(p, t, 0)
    ensures (exists i :: OccursAt(p, t, i)) <==> (exists i :: OccursAt(p, t[1..], i))
  {
    forall i | OccursAt(p, t, i) ensures OccursAt(p, t[1..], i - 1) {
      assert t[1..][i - 1..i - 1 + |p|] == t[i..i + |p|];
    }
    forall i | OccursAt(p, t[1..], i) ensures OccursAt(p, t, i + 1) {
      assert t[1..][i..i + |p|] == t[i + 1..i + 1 + |p|];
    }
  }

  /** `s.endswith(suffix)`. */
  predicate EndsWith(s: string, suffix: string)
  {
    |suffix| <= |s| && s[|s| - |suffix|..] == suffix
  }
}
