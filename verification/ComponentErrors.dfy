/** Errors as messages, and how a list of them becomes one. */
module ComponentErrors {
  import opened Options

  function Join(errs: seq<string>): string
    requires errs != []
  {
    if |errs| == 1 then errs[0] else errs[0] + "; " + Join(errs[1..])
  }

  /** CombineErrors: no error for none, the error itself for one, a bracketed list for more. */
  function CombineErrors(errs: seq<string>): (r: Option<string>)
    ensures r.None? <==> errs == []
    ensures |errs| == 1 ==> r == Some(errs[0])
  {
    if errs == [] then None else if |errs| == 1 then Some(errs[0]) else Some("[" + Join(errs) + "]")
  }

  lemma {:induction false} JoinConcat(xs: seq<string>, ys: seq<string>)
    requires xs != [] && ys != []
    ensures Join(xs + ys) == Join(xs) + "; " + Join(ys)
    decreases |xs|
  {
    if |xs| == 1 {
      assert (xs + ys)[1..] == ys;
    } else {
      JoinConcat(xs[1..], ys);
      assert (xs + ys)[1..] == xs[1..] + ys;
      assert (xs + ys)[0] == xs[0];
      Assoc(xs[0] + "; ", Join(xs[1..]), "; ", Join(ys));
    }
  }

  lemma Assoc(a: string, b: string, c: string, d: string)
    ensures a + (b + c + d) == a + b + c + d
  {
  }

  /** The text for several errors: theirs in order, separated and in brackets. */
  lemma CombinedText(xs: seq<string>, ys: seq<string>)
    requires xs != [] && ys != []
    ensures CombineErrors(xs + ys) == Some("[" + (Join(xs) + "; " + Join(ys)) + "]")
  {
    JoinConcat(xs, ys);
  }
}
