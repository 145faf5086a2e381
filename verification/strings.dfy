/** Joining strings with a separator, as Rust's `[String]::join` does.

    `Join` is the definition the rest of the model uses; `Prefixed` is an
    independent description ("a separator before every element") that the
    lemmas below tie it to, and `JoinLoop` is the left-to-right loop the
    standard library runs, proved to compute `Join`. */
module Strings {

  /** Sum of the lengths of all the strings in `xs`. */
  function TotalLength(xs: seq<string>): nat
  {
    if |xs| == 0 then 0 else |xs[0]| + TotalLength(xs[1..])
  }

  /** The elements of `xs` in order, with `sep` between every two neighbours. */
  function Join(sep: string, xs: seq<string>): (r: string)
    ensures |xs| == 0 ==> r == ""
    ensures |xs| > 0 ==> |r| == TotalLength(xs) + (|xs| - 1) * |sep|
    ensures |xs| > 0 ==> xs[0] <= r
    decreases |xs|
  {
    if |xs| == 0 then ""
    else if |xs| == 1 then xs[0]
    else xs[0] + sep + Join(sep, xs[1..])
  }

  /** Every element of `xs`, each preceded by `sep`, concatenated in order. */
  function Prefixed(sep: string, xs: seq<string>): (r: string)
    ensures |r| == TotalLength(xs) + |xs| * |sep|
    decreases |xs|
  {
    if |xs| == 0 then "" else sep + xs[0] + Prefixed(sep, xs[1..])
  }

  /** Adding one more element at the end of a `Prefixed` string appends
      the separator and the element. */
  lemma {:induction false} PrefixedSnoc(sep: string, xs: seq<string>, y: string)
    ensures Prefixed(sep, xs + [y]) == Prefixed(sep, xs) + sep + y
    decreases |xs|
  {
    if |xs| == 0 {
      assert xs + [y] == [y];
      assert [y][1..] == [];
    } else {
      assert (xs + [y])[0] == xs[0];
      assert (xs + [y])[1..] == xs[1..] + [y];
      PrefixedSnoc(sep, xs[1..], y);
    }
  }

  /** A joined string is its first element followed by every other element
      preceded by the separator. */
  lemma {:induction false} JoinIsHeadPrefixed(sep: string, x: string, xs: seq<string>)
    ensures Join(sep, [x] + xs) == x + Prefixed(sep, xs)
    decreases |xs|
  {
    var all := [x] + xs;
    if |xs| == 0 {
      assert all == [x];
    } else {
      assert all[1..] == xs;
      assert xs == [xs[0]] + xs[1..];
      JoinIsHeadPrefixed(sep, xs[0], xs[1..]);
    }
  }

  /** The same law on any non-empty sequence, split into its head and rest. */
  lemma {:induction false} JoinHeadRest(sep: string, xs: seq<string>)
    ensures |xs| > 0 ==> Join(sep, xs) == xs[0] + Prefixed(sep, xs[1..])
  {
    if |xs| > 0 {
      assert xs == [xs[0]] + xs[1..];
      JoinIsHeadPrefixed(sep, xs[0], xs[1..]);
    }
  }

  /** Joining one more element onto a non-empty sequence appends the
      separator and that element; nothing earlier changes. */
  lemma JoinSnoc(sep: string, xs: seq<string>, y: string)
    requires |xs| > 0
    ensures Join(sep, xs + [y]) == Join(sep, xs) + sep + y
  {
    var x, rest := xs[0], xs[1..];
    assert xs == [x] + rest;
    assert xs + [y] == [x] + (rest + [y]);
    JoinIsHeadPrefixed(sep, x, rest + [y]);
    JoinIsHeadPrefixed(sep, x, rest);
    PrefixedSnoc(sep, rest, y);
  }

  /** Joining a concatenation of two non-empty sequences joins each half and
      puts one separator between them. */
  lemma {:induction false} JoinConcat(sep: string, xs: seq<string>, ys: seq<string>)
    requires |xs| > 0 && |ys| > 0
    ensures Join(sep, xs + ys) == Join(sep, xs) + sep + Join(sep, ys)
    decreases |ys|
  {
    var init, last := ys[..|ys| - 1], ys[|ys| - 1];
    assert ys == init + [last];
    if |init| == 0 {
      assert ys == [last];
      JoinSnoc(sep, xs, last);
    } else {
      assert xs + ys == (xs + init) + [last];
      JoinSnoc(sep, xs + init, last);
      JoinConcat(sep, xs, init);
      JoinSnoc(sep, init, last);
    }
  }

  /** The loop the standard library runs: start from the first element, then
      for every further element push the separator and the element. */
  method JoinLoop(sep: string, xs: seq<string>) returns (r: string)
    ensures r == Join(sep, xs)
  {
    if |xs| == 0 {
      return "";
    }
    r := xs[0];
    var i := 1;
    while i < |xs|
      invariant 1 <= i <= |xs|
      invariant r == Join(sep, xs[..i])
    {
      assert xs[..i + 1] == xs[..i] + [xs[i]];
      JoinSnoc(sep, xs[..i], xs[i]);
      r := r + sep + xs[i];
      i := i + 1;
    }
    assert xs[..i] == xs;
  }
}
