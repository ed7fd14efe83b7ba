/** The greedy line wrapper of the input bar (`src/input_bar.rs`): where lines start,
    and why no other breaking needs fewer. */
module Wrap {

  type Width = r: real | r >= 0.0

  /** The total width of the characters from `a` up to `b`. */
  function Sum(widths: seq<Width>, a: nat, b: nat): (r: Width)
    requires b <= |widths|
    decreases b
  {
    if b <= a then 0.0 else Sum(widths, a, b - 1) + widths[b - 1]
  }

  /** The starts found so far, and the width of the open line. */
  datatype Found = Found(starts: seq<nat>, acc: Width)

  /** `multiline_starts` over the first `i` characters. */
  function Greedy(chars: string, widths: seq<Width>, max: real, i: nat): (f: Found)
    requires |chars| == |widths| && i <= |chars|
    ensures f.starts != [] && f.starts[|f.starts| - 1] <= i
  {
    if i == 0 then Found([0], 0.0)
    else
      var f := Greedy(chars, widths, max, i - 1);
      var w := widths[i - 1];
      if chars[i - 1] == '\n' then Found(f.starts + [i], 0.0)
      else if i - 1 > f.starts[|f.starts| - 1] && f.acc + w > max then Found(f.starts + [i - 1], w)
      else Found(f.starts, f.acc + w)
  }

  method MultilineStarts(chars: string, widths: seq<Width>, max: real) returns (starts: seq<nat>)
    requires |chars| == |widths|
    ensures starts == Greedy(chars, widths, max, |chars|).starts
  {
    starts := [0];
    var acc: Width := 0.0;
    for i := 0 to |chars|
      invariant Found(starts, acc) == Greedy(chars, widths, max, i)
    {
      if chars[i] == '\n' {
        starts, acc := starts + [i + 1], 0.0;
        continue;
      }
      if i > starts[|starts| - 1] && acc + widths[i] > max {
        starts, acc := starts + [i], 0.0;
      }
      acc := acc + widths[i];
    }
  }

  // ---- what a breaking is ----

  function Last(starts: seq<nat>): nat
    requires starts != []
  {
    starts[|starts| - 1]
  }

  ghost predicate NoFeed(chars: string, a: nat, b: nat)
    requires b <= |chars|
  {
    forall i :: a <= i < b ==> chars[i] != '\n'
  }

  /** The characters fit on a line, or there is at most one. */
  ghost predicate Fits(widths: seq<Width>, max: real, a: nat, b: nat)
    requires b <= |widths|
  {
    b <= a + 1 || Sum(widths, a, b) <= max
  }

  /** The end of a line without the line feed that may end it. */
  function Body(chars: string, a: nat, b: nat): nat
    requires b <= |chars|
  {
    if b > a && chars[b - 1] == '\n' then b - 1 else b
  }

  /** A finished line: a line feed at most as its very last character, and it fits. */
  ghost predicate Line(chars: string, widths: seq<Width>, max: real, a: nat, b: nat)
    requires |chars| == |widths| && b <= |chars|
  {
    a < b && NoFeed(chars, a, Body(chars, a, b)) && Fits(widths, max, a, Body(chars, a, b))
  }

  /** Lines start at 0 and follow one another. */
  ghost predicate Chain(chars: string, widths: seq<Width>, max: real, starts: seq<nat>)
    requires |chars| == |widths|
  {
    && starts != []
    && Last(starts) <= |chars|
    && if |starts| == 1 then Last(starts) == 0
       else
         var init := starts[..|starts| - 1];
         Chain(chars, widths, max, init) && Line(chars, widths, max, Last(init), Last(starts))
  }

  /** A breaking of the first `n` characters: a chain of lines, and behind it the last
      line, which fits, holds no line feed, and is empty only after one (or at 0). */
  ghost predicate Breaking(chars: string, widths: seq<Width>, max: real, starts: seq<nat>, n: nat)
    requires |chars| == |widths| && n <= |chars|
  {
    && starts != []
    && Chain(chars, widths, max, starts)
    && Last(starts) <= n
    && NoFeed(chars, Last(starts), n)
    && Fits(widths, max, Last(starts), n)
    && (|starts| > 1 && Last(starts) == n ==> chars[n - 1] == '\n')
  }

  // ---- the greedy starts are a breaking ----

  lemma {:induction false} GreedyBreaks(chars: string, widths: seq<Width>, max: real, i: nat)
    requires |chars| == |widths| && i <= |chars|
    ensures var f := Greedy(chars, widths, max, i);
            Breaking(chars, widths, max, f.starts, i) && f.acc == Sum(widths, Last(f.starts), i)
  {
    hide Breaking, Sum, Greedy;
    if i == 0 {
      GreedyStart(chars, widths, max);
    } else {
      GreedyBreaks(chars, widths, max, i - 1);
      GreedyStep(chars, widths, max, i - 1, Greedy(chars, widths, max, i - 1));
    }
  }

  lemma GreedyStart(chars: string, widths: seq<Width>, max: real)
    requires |chars| == |widths|
    ensures Greedy(chars, widths, max, 0) == Found([0], 0.0)
    ensures Breaking(chars, widths, max, [0], 0) && Sum(widths, 0, 0) == 0.0
  {
  }

  lemma AfterFeed(chars: string, widths: seq<Width>, max: real, starts: seq<nat>, i: nat)
    requires |chars| == |widths| && i < |chars| && Breaking(chars, widths, max, starts, i) && chars[i] == '\n'
    ensures Breaking(chars, widths, max, starts + [i + 1], i + 1)
  {
    hide Sum;
  }

  lemma AfterSoftBreak(chars: string, widths: seq<Width>, max: real, starts: seq<nat>, i: nat)
    requires |chars| == |widths| && i < |chars| && Breaking(chars, widths, max, starts, i) && chars[i] != '\n'
    requires Last(starts) < i
    ensures Breaking(chars, widths, max, starts + [i], i + 1)
  {
    hide Sum;
  }

  lemma AfterPlain(chars: string, widths: seq<Width>, max: real, starts: seq<nat>, i: nat)
    requires |chars| == |widths| && i < |chars| && Breaking(chars, widths, max, starts, i) && chars[i] != '\n'
    requires i <= Last(starts) || Sum(widths, Last(starts), i) + widths[i] <= max
    ensures Breaking(chars, widths, max, starts, i + 1)
  {
    hide Chain;
  }

  lemma SumEnds(widths: seq<Width>, a: nat, b: nat)
    requires b <= |widths|
    ensures b <= a ==> Sum(widths, a, b) == 0.0
    ensures a < b ==> Sum(widths, a, b) == Sum(widths, a, b - 1) + widths[b - 1]
  {
  }

  lemma GreedyStep(chars: string, widths: seq<Width>, max: real, i: nat, f: Found)
    requires |chars| == |widths| && i < |chars| && f == Greedy(chars, widths, max, i)
    requires Breaking(chars, widths, max, f.starts, i) && f.acc == Sum(widths, Last(f.starts), i)
    ensures var f' := Greedy(chars, widths, max, i + 1);
            Breaking(chars, widths, max, f'.starts, i + 1) && f'.acc == Sum(widths, Last(f'.starts), i + 1)
  {
    hide Breaking, Sum;
    if chars[i] == '\n' {
      AfterFeed(chars, widths, max, f.starts, i);
      SumEnds(widths, i + 1, i + 1);
    } else if i > Last(f.starts) && f.acc + widths[i] > max {
      AfterSoftBreak(chars, widths, max, f.starts, i);
      SumEnds(widths, i, i + 1);
      SumEnds(widths, i, i);
    } else {
      AfterPlain(chars, widths, max, f.starts, i);
      SumEnds(widths, Last(f.starts), i + 1);
    }
  }

  // ---- and no breaking is shorter ----

  lemma {:induction false} SumShrinks(widths: seq<Width>, a: nat, a': nat, b: nat)
    requires a <= a' && b <= |widths|
    ensures Sum(widths, a', b) <= Sum(widths, a, b)
    decreases b
  {
    if b > a' {
      SumShrinks(widths, a, a', b - 1);
    }
  }

  /** A chain whose last line stands open at `n`, without a pointless empty line. */
  function Cut(chars: string, starts: seq<nat>, n: nat): seq<nat>
    requires starts != [] && n <= |chars|
  {
    if |starts| > 1 && Last(starts) == n && n > 0 && chars[n - 1] != '\n' then starts[..|starts| - 1] else starts
  }

  lemma CutBreaks(chars: string, widths: seq<Width>, max: real, starts: seq<nat>, n: nat)
    requires |chars| == |widths| && n <= |chars| && Chain(chars, widths, max, starts)
    requires Last(starts) <= n && NoFeed(chars, Last(starts), n) && Fits(widths, max, Last(starts), n)
    ensures Breaking(chars, widths, max, Cut(chars, starts, n), n)
  {
    if |starts| > 1 && Last(starts) == n {
      assert Line(chars, widths, max, Last(starts[..|starts| - 1]), n);
    }
  }

  /** A breaking is no better than the greedy one: longer, or equally long with its last
      line starting no later. */
  ghost predicate NoBetter(greedy: seq<nat>, t: seq<nat>)
    requires greedy != [] && t != []
  {
    |greedy| < |t| || (|greedy| == |t| && Last(t) <= Last(greedy))
  }

  lemma FeedNoBetter(chars: string, widths: seq<Width>, max: real, t: seq<nat>, i: nat) returns (t': seq<nat>)
    requires |chars| == |widths| && i < |chars| && chars[i] == '\n'
    requires Breaking(chars, widths, max, t, i + 1)
    ensures t' != [] && Breaking(chars, widths, max, t', i) && |t'| < |t| && Last(t) == i + 1
  {
    assert Last(t) == i + 1;
    var init := t[..|t| - 1];
    assert Line(chars, widths, max, Last(init), i + 1);
    CutBreaks(chars, widths, max, init, i);
    t' := Cut(chars, init, i);
  }

  lemma PlainNoBetter(chars: string, widths: seq<Width>, max: real, greedy: seq<nat>, t: seq<nat>, i: nat)
    requires |chars| == |widths| && i < |chars| && chars[i] != '\n'
    requires Breaking(chars, widths, max, t, i + 1) && Breaking(chars, widths, max, greedy, i)
    requires NoBetter(greedy, Cut(chars, t, i))
    ensures var soft := i > Last(greedy) && Sum(widths, Last(greedy), i) + widths[i] > max;
            NoBetter(if soft then greedy + [i] else greedy, t)
  {
    hide Chain, Sum;
    if Last(t) <= Last(greedy) {
      SumShrinks(widths, Last(t), Last(greedy), i + 1);
      SumEnds(widths, Last(greedy), i + 1);
    }
  }

  lemma NothingIsBest(chars: string, widths: seq<Width>, max: real, t: seq<nat>)
    requires |chars| == |widths| && Breaking(chars, widths, max, t, 0)
    ensures NoBetter(Greedy(chars, widths, max, 0).starts, t)
  {
    hide Line, Fits, NoFeed, Sum;
  }

  lemma GreedyNext(chars: string, widths: seq<Width>, max: real, i: nat)
    requires |chars| == |widths| && i < |chars|
    ensures var f := Greedy(chars, widths, max, i);
            Greedy(chars, widths, max, i + 1).starts
            == if chars[i] == '\n' then f.starts + [i + 1]
               else if i > Last(f.starts) && Sum(widths, Last(f.starts), i) + widths[i] > max then f.starts + [i]
               else f.starts
  {
    hide Breaking, Sum;
    GreedyBreaks(chars, widths, max, i);
  }

  lemma CutOfPlain(chars: string, widths: seq<Width>, max: real, t: seq<nat>, i: nat)
    requires |chars| == |widths| && i < |chars| && chars[i] != '\n' && Breaking(chars, widths, max, t, i + 1)
    ensures t != [] && Breaking(chars, widths, max, Cut(chars, t, i), i)
  {
    hide Sum, Line;
    SumEnds(widths, Last(t), i + 1);
    CutBreaks(chars, widths, max, t, i);
  }

  lemma {:induction false} GreedyIsBest(chars: string, widths: seq<Width>, max: real, t: seq<nat>, i: nat)
    requires |chars| == |widths| && i <= |chars| && Breaking(chars, widths, max, t, i)
    ensures NoBetter(Greedy(chars, widths, max, i).starts, t)
    decreases i
  {
    hide Chain, Line, Fits, NoFeed, Sum, Breaking, Cut, Greedy;
    if i == 0 {
      NothingIsBest(chars, widths, max, t);
    } else {
      var f := Greedy(chars, widths, max, i - 1);
      GreedyNext(chars, widths, max, i - 1);
      if chars[i - 1] == '\n' {
        var t' := FeedNoBetter(chars, widths, max, t, i - 1);
        GreedyIsBest(chars, widths, max, t', i - 1);
      } else {
        CutOfPlain(chars, widths, max, t, i - 1);
        GreedyIsBest(chars, widths, max, Cut(chars, t, i - 1), i - 1);
        GreedyBreaks(chars, widths, max, i - 1);
        PlainNoBetter(chars, widths, max, f.starts, t, i - 1);
      }
    }
  }

  /** The wrapper's starts break the whole text, with the fewest lines of all breakings. */
  lemma GreedyIsOptimal(chars: string, widths: seq<Width>, max: real, t: seq<nat>)
    requires |chars| == |widths|
    ensures var starts := Greedy(chars, widths, max, |chars|).starts;
            && Breaking(chars, widths, max, starts, |chars|)
            && (Breaking(chars, widths, max, t, |chars|) ==> |starts| <= |t|)
  {
    GreedyBreaks(chars, widths, max, |chars|);
    if Breaking(chars, widths, max, t, |chars|) {
      GreedyIsBest(chars, widths, max, t, |chars|);
    }
  }

  // ---- what a breaking means for single positions ----

  /** Starts begin at 0 and strictly increase. */
  lemma {:induction false} ChainIncreases(chars: string, widths: seq<Width>, max: real, starts: seq<nat>,
                                          j: nat, k: nat)
    requires |chars| == |widths| && Chain(chars, widths, max, starts) && j < k < |starts|
    ensures starts[0] == 0 && starts[j] < starts[k]
    decreases |starts|
  {
    var init := starts[..|starts| - 1];
    if k < |init| {
      ChainIncreases(chars, widths, max, init, j, k);
    } else if j < |init| - 1 {
      ChainIncreases(chars, widths, max, init, j, |init| - 1);
    } else if |init| > 1 {
      ChainIncreases(chars, widths, max, init, 0, |init| - 1);
    }
  }

  /** Behind every line feed a line starts. */
  lemma {:induction false} FeedsBreak(chars: string, widths: seq<Width>, max: real, starts: seq<nat>, i: nat)
    requires |chars| == |widths| && Chain(chars, widths, max, starts)
    requires i < Last(starts) && chars[i] == '\n'
    ensures i + 1 in starts
    decreases |starts|
  {
    var init := starts[..|starts| - 1];
    if i < Last(init) {
      FeedsBreak(chars, widths, max, init, i);
    } else {
      assert Line(chars, widths, max, Last(init), Last(starts));
      assert starts[|starts| - 1] == i + 1;
    }
  }
}
