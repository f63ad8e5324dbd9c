/** Option, Result, the string searches and the induction principle that the components share. */
module Common {

  datatype Option<+T> = None | Some(value: T)

  datatype Result<+T, +E> = Success(value: T) | Failure(error: E)

  /** The position of the first `c` in `s` from `k` on, or -1. */
  function IndexFrom(s: string, c: char, k: nat): (i: int)
    requires k <= |s|
    ensures i == -1 || (k <= i < |s| && s[i] == c)
    decreases |s| - k
  {
    if k == |s| then -1 else if s[k] == c then k else IndexFrom(s, c, k + 1)
  }

  function IndexOf(s: string, c: char): (i: int)
    ensures i == -1 || (0 <= i < |s| && s[i] == c)
  {
    IndexFrom(s, c, 0)
  }

  lemma {:induction false} FirstFrom(s: string, c: char, k: nat)
    requires k <= |s|
    ensures var i := IndexFrom(s, c, k); forall j | k <= j < if i < 0 then |s| else i :: s[j] != c
    decreases |s| - k
  {
    if k < |s| && s[k] != c {
      FirstFrom(s, c, k + 1);
    }
  }

  lemma IndexOfIs(s: string, c: char, i: nat)
    requires i < |s| && s[i] == c && forall j | 0 <= j < i :: s[j] != c
    ensures IndexOf(s, c) == i
  {
    FirstFrom(s, c, 0);
  }

  lemma IndexOfAbsent(s: string, c: char)
    ensures IndexOf(s, c) < 0 <==> c !in s
  {
    FirstFrom(s, c, 0);
  }

  /** `s` around its first `c`, when there is one. */
  function Cut(s: string, c: char): Option<(string, string)> {
    var i := IndexOf(s, c);
    if i < 0 then None else Some((s[..i], s[i+1..]))
  }

  /** Cutting at a separator that is absent from the head gives the head back. */
  lemma CutAtSeparator(head: string, rest: string, c: char)
    requires IndexOf(head, c) < 0
    ensures IndexOf(head + [c] + rest, c) == |head|
    ensures Cut(head + [c] + rest, c) == Some((head, rest))
  {
    IndexOfAbsent(head, c);
    var s := head + [c] + rest;
    assert forall j | 0 <= j < |head| :: s[j] == head[j];
    IndexOfIs(s, c, |head|);
    assert s[..|head|] == head && s[|head|+1..] == rest;
  }

  /** The head of a cut does not contain the separator. */
  lemma CutHead(s: string, c: char)
    requires IndexOf(s, c) >= 0
    ensures IndexOf(s[..IndexOf(s, c)], c) < 0
  {
    FirstFrom(s, c, 0);
    IndexOfAbsent(s[..IndexOf(s, c)], c);
  }

  /** What only single steps bring about, some step has brought about. */
  lemma {:induction false} Accumulates(reached: nat -> bool, step: nat -> bool, i: nat, n: nat)
    requires i <= n && forall k: nat | i <= k < n :: reached(k + 1) <==> reached(k) || step(k)
    ensures reached(n) <==> reached(i) || exists k: nat :: i <= k < n && step(k)
  {
    if i < n {
      Accumulates(reached, step, i, n - 1);
      assert reached(n - 1 + 1) <==> reached(n - 1) || step(n - 1);
    }
  }
}
