/** Shared vocabulary of the model: optional values, outcomes of remote calls, and counting. */
module Common {

  datatype Option<T> = None | Some(value: T)

  /** A value, or the exception an operation threw. */
  datatype Result<T, E> = Ok(value: T) | Err(error: E)

  /** The JavaScript `Error` object the scripts catch; only its `message` is ever read. */
  datatype Error = Error(message: string)

  /** The settled outcome of one awaited remote call: the response it resolved to, or the error it rejected with. */
  datatype Attempt<T, E> = Sent(response: T) | Threw(error: E)

  /** Number of occurrences of `x` in `s`, the `filter(...).length` idiom of the scripts. */
  function Count<T(==)>(s: seq<T>, x: T): (c: nat)
    ensures c <= |s|
    ensures c == 0 <==> x !in s
  {
    if s == [] then 0 else (if s[0] == x then 1 else 0) + Count(s[1..], x)
  }

  /** Replacing one element changes the count only by what was removed and what was put in. */
  lemma {:induction false} CountUpdate<T>(s: seq<T>, k: nat, v: T, x: T)
    requires k < |s|
    ensures Count(s[k := v], x) + (if s[k] == x then 1 else 0) == Count(s, x) + (if v == x then 1 else 0)
  {
    if k > 0 {
      assert s[k := v][1..] == s[1..][k - 1 := v];
      CountUpdate(s[1..], k - 1, v, x);
    } else {
      assert s[k := v][1..] == s[1..];
    }
  }

  /** Every flag is either true or false, so the two counts add up to the length. */
  lemma {:induction false} CountBothFlags(s: seq<bool>)
    ensures Count(s, true) + Count(s, false) == |s|
  {
    if s != [] {
      CountBothFlags(s[1..]);
      assert Count(s, true) == (if s[0] then 1 else 0) + Count(s[1..], true);
      assert Count(s, false) == (if s[0] then 0 else 1) + Count(s[1..], false);
    }
  }

  /** Two distinct values occur at most `|s|` times together, and exactly `|s|` times only if nothing else occurs. */
  lemma {:induction false} CountTwo<T>(s: seq<T>, a: T, b: T)
    requires a != b
    ensures Count(s, a) + Count(s, b) <= |s|
    ensures Count(s, a) + Count(s, b) == |s| ==> forall j :: 0 <= j < |s| ==> s[j] == a || s[j] == b
  {
    if s != [] {
      CountTwo(s[1..], a, b);
      if Count(s, a) + Count(s, b) == |s| {
        forall j | 0 <= j < |s|
          ensures s[j] == a || s[j] == b
        {
          if j > 0 {
            assert s[j] == s[1..][j - 1];
          }
        }
      }
    }
  }

  /** A sequence made only of `x` counts `x` once per element. */
  lemma {:induction false} CountAll<T>(s: seq<T>, x: T)
    requires forall j :: 0 <= j < |s| ==> s[j] == x
    ensures Count(s, x) == |s|
  {
    if s != [] {
      CountAll(s[1..], x);
    }
  }

  /** When exactly the flag at `k0` is false, one false and `|s| - 1` trues are counted. */
  lemma {:induction false} CountSingleFalse(s: seq<bool>, k0: nat)
    requires k0 < |s|
    requires forall k :: 0 <= k < |s| ==> (s[k] <==> k != k0)
    ensures Count(s, false) == 1 && Count(s, true) == |s| - 1
  {
    if k0 > 0 {
      CountSingleFalse(s[1..], k0 - 1);
    } else {
      assert false !in s[1..];
    }
    CountBothFlags(s);
  }
}
