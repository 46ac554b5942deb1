/** Text helpers used to build and inspect error messages. */
module Strings {

  /** Python's `sep.join(xs)`: the items of `xs` with `sep` between neighbours. */
  function Join(sep: string, xs: seq<string>): string
  {
    if |xs| == 0 then ""
    else if |xs| == 1 then xs[0]
    else xs[0] + sep + Join(sep, xs[1..])
  }

  /** `t` occurs in `s` as a contiguous piece (Python's `t in s`). */
  ghost predicate Contains(s: string, t: string)
  {
    exists i, j :: 0 <= i <= j <= |s| && s[i..j] == t
  }

  /** Text found in `t` is still found once `t` is wrapped in other text. */
  lemma ContainsInside(a: string, t: string, b: string, x: string)
    requires Contains(t, x)
    ensures Contains(a + t + b, x)
  {
    var i, j :| 0 <= i <= j <= |t| && t[i..j] == x;
    var s := a + t + b;
    assert s[|a| + i..|a| + j] == x;
  }

  /** Every item of a joined list can be found in the joined text. */
  lemma {:induction false} JoinContains(sep: string, xs: seq<string>, x: string)
    requires x in xs
    ensures Contains(Join(sep, xs), x)
  {
    if |xs| == 1 {
      assert Join(sep, xs)[0..|x|] == x;
    } else if xs[0] == x {
      assert Join(sep, xs)[0..|x|] == x;
    } else {
      JoinContains(sep, xs[1..], x);
      ContainsInside(xs[0] + sep, Join(sep, xs[1..]), "", x);
      assert xs[0] + sep + Join(sep, xs[1..]) + "" == Join(sep, xs);
    }
  }

  /** Every item of both joined lists can be found in a message of the
      shape `prefix + Join(sep, xs) + middle + Join(sep, ys)`. */
  lemma JoinedMessageContains(prefix: string, sep: string, xs: seq<string>, middle: string,
                              ys: seq<string>)
    ensures forall x :: x in xs ==> Contains(prefix + Join(sep, xs) + middle + Join(sep, ys), x)
    ensures forall y :: y in ys ==> Contains(prefix + Join(sep, xs) + middle + Join(sep, ys), y)
  {
    var msg := prefix + Join(sep, xs) + middle + Join(sep, ys);
    forall x | x in xs
      ensures Contains(msg, x)
    {
      JoinContains(sep, xs, x);
      ContainsInside(prefix, Join(sep, xs), middle + Join(sep, ys), x);
      assert prefix + Join(sep, xs) + (middle + Join(sep, ys)) == msg;
    }
    forall y | y in ys
      ensures Contains(msg, y)
    {
      JoinContains(sep, ys, y);
      ContainsInside(prefix + Join(sep, xs) + middle, Join(sep, ys), "", y);
      assert prefix + Join(sep, xs) + middle + Join(sep, ys) + "" == msg;
    }
  }
}
