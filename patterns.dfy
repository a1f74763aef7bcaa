/**
  The fragment of Python's `re` that the lmstat parsers use: a pattern is a
  sequence of elements (literal text, greedy `[c]+` and `[c]*` over a
  character class, an optional character `c?`, and the checkout handle
  `[^)]+\s+\d+`), and a match reports one piece of text per element.

  `MatchAt` is the matcher, with every greedy element taking the longest run
  it can. For a pattern in which each greedy run is followed by something
  that cannot continue it (`Guarded`), a backtracking regex engine can only
  succeed with those same runs, so `MatchAt` returns exactly the match the
  engine reports: `MatchAt` is sound (its result pieces have the elements'
  shapes and lie back to back in the line) and complete (lemma
  `MatchAtComplete`: any such pieces are what it returns).
*/
module Patterns {
  import opened Wrappers
  import opened Text

  datatype Elem =
    | Lit(text: string)     // the literal text
    | Plus(cl: Class)       // [cl]+, greedy
    | Star(cl: Class)       // [cl]*, greedy
    | Opt(c: char)          // c?, greedy
    | Handle                // [^)]+\s+\d+

  /** A pattern: its elements in order. */
  datatype Pattern = End | Then(first: Elem, rest: Pattern)

  function Len(pat: Pattern): nat {
    match pat
    case End => 0
    case Then(_, r) => 1 + Len(r)
  }

  /** Element `k` of the pattern (from 0). */
  function Nth(pat: Pattern, k: nat): Elem
    requires k < Len(pat)
  {
    match pat
    case Then(e, r) => if k == 0 then e else Nth(r, k - 1)
  }

  /** The last element, if any. */
  function Last(pat: Pattern): Option<Elem> {
    match pat
    case End => None
    case Then(e, End) => Some(e)
    case Then(_, r) => Last(r)
  }

  /** The pattern `a` followed by the pattern `b`. */
  function Cat(a: Pattern, b: Pattern): (r: Pattern)
    ensures Len(r) == Len(a) + Len(b)
  {
    match a
    case End => b
    case Then(e, rest) => Then(e, Cat(rest, b))
  }

  /** `x` is a word of `[^)]+\s+\d+`: no `)`, and it ends in a run of digits
      that follows a whitespace character that is not the first character. */
  predicate HandleText(x: string) {
    && AllOf(Except(')'), x)
    && var f := SpanBackWhile(Digit, x, 0, |x|);
       2 <= f < |x| && In(Space, x[f - 1])
  }

  /** `x` is a word of the language of element `e`. */
  predicate ElemText(e: Elem, x: string) {
    match e
    case Lit(t) => x == t
    case Plus(cl) => RunOf(cl, x)
    case Star(cl) => AllOf(cl, x)
    case Opt(c) => x == [] || x == [c]
    case Handle => HandleText(x)
  }

  /** Each piece is a word of its element's language. */
  predicate Fits(pat: Pattern, ps: seq<string>) {
    match pat
    case End => ps == []
    case Then(e, r) => |ps| > 0 && ElemText(e, ps[0]) && Fits(r, ps[1..])
  }

  /** The pieces written one after the other: the text of the whole match. */
  function Concat(ps: seq<string>): string
    decreases |ps|
  {
    if ps == [] then [] else ps[0] + Concat(ps[1..])
  }

  /** The greedy run that ends at `j` cannot be extended: `j` is the end of
      `s` or `s[j]` is outside class `p`. */
  predicate RunStops(p: Class, s: string, j: nat) {
    j <= |s| && (j == |s| || !In(p, s[j]))
  }

  /** What the end of element `e`'s piece at `k` must look like for the
      greedy choice to be the one that ends there. */
  predicate StopsAfter(e: Elem, s: string, k: nat) {
    match e
    case Lit(_) => true
    case Plus(cl) => RunStops(cl, s, k)
    case Star(cl) => RunStops(cl, s, k)
    case Opt(c) => k == |s| || (k < |s| && s[k] != c)
    case Handle => k < |s| && s[k] == ')'
  }

  /** A match of `pat` that ends at `e` ends where the greedy last element
      stops (only a final `+` or `*` run has anything to say). */
  predicate Ends(pat: Pattern, s: string, e: nat) {
    e <= |s| && (Last(pat).Some? && (Last(pat).value.Plus? || Last(pat).value.Star?) ==> StopsAfter(Last(pat).value, s, e))
  }

  /** Element `e` tried at `j`: where its piece ends. */
  function Step(e: Elem, s: string, j: nat): (r: Option<nat>)
    requires j <= |s|
    ensures r.Some? ==> j <= r.value <= |s| && ElemText(e, s[j..r.value])
    ensures r.Some? && (e.Plus? || e.Star?) ==> StopsAfter(e, s, r.value)
  {
    match e
    case Lit(t) => if j + |t| <= |s| && s[j..j + |t|] == t then Some(j + |t|) else None
    case Plus(cl) =>
      var k := SpanWhile(cl, s, j);
      if k == j then None else Some(k)
    case Star(cl) => Some(SpanWhile(cl, s, j))
    case Opt(c) => if j < |s| && s[j] == c then Some(j + 1) else Some(j)
    case Handle =>
      var k := SpanWhile(Except(')'), s, j);
      if HandleText(s[j..k]) then Some(k) else None
  }

  /** `re.match` of `pat` at position `j`: the pieces, one per element
      (lemma MatchAtSound states what they are). */
  function MatchAt(pat: Pattern, s: string, j: nat): (r: Option<seq<string>>)
    requires j <= |s|
    ensures r.Some? ==> |r.value| == Len(pat)
  {
    match pat
    case End => Some([])
    case Then(e, r) =>
      match Step(e, s, j)
      case None => None
      case Some(k) =>
        match MatchAt(r, s, k)
        case None => None
        case Some(rest) => Some([s[j..k]] + rest)
  }

  lemma {:induction false} MatchAtFits(pat: Pattern, s: string, j: nat)
    requires j <= |s|
    ensures var r := MatchAt(pat, s, j);
      r.Some? ==> Fits(pat, r.value)
  {
    match pat
    case End =>
    case Then(e, r) =>
      if MatchAt(pat, s, j).Some? {
        var k := Step(e, s, j).value;
        var rest := MatchAt(r, s, k).value;
        MatchAtFits(r, s, k);
        var ps := [s[j..k]] + rest;
        assert ps[1..] == rest;
      }
  }

  lemma {:induction false} MatchAtHasAt(pat: Pattern, s: string, j: nat)
    requires j <= |s|
    ensures var r := MatchAt(pat, s, j);
      r.Some? ==> HasAt(s, j, Concat(r.value))
  {
    match pat
    case End =>
    case Then(e, r) =>
      if MatchAt(pat, s, j).Some? {
        var k := Step(e, s, j).value;
        var rest := MatchAt(r, s, k).value;
        MatchAtHasAt(r, s, k);
        var ps := [s[j..k]] + rest;
        assert ps[1..] == rest;
        WriteSlice(s, j, k);
        HasAtConcat(s, j, s[j..k], Concat(rest));
      }
  }

  lemma MatchAtSound(pat: Pattern, s: string, j: nat)
    requires j <= |s|
    ensures var r := MatchAt(pat, s, j);
      r.Some? ==> Fits(pat, r.value) && HasAt(s, j, Concat(r.value))
  {
    MatchAtFits(pat, s, j);
    MatchAtHasAt(pat, s, j);
  }

  /** The greedy last run of a match cannot be extended. */
  lemma {:induction false} MatchAtEnds(pat: Pattern, s: string, j: nat)
    requires j <= |s|
    ensures var r := MatchAt(pat, s, j);
      r.Some? ==> Ends(pat, s, j + |Concat(r.value)|)
  {
    match pat
    case End =>
    case Then(e, r) =>
      if MatchAt(pat, s, j).Some? {
        var k := Step(e, s, j).value;
        var rest := MatchAt(r, s, k).value;
        var ps := [s[j..k]] + rest;
        assert ps[1..] == rest;
        ConcatCons(ps);
        assert j + |Concat(ps)| == k + |Concat(rest)|;
        if r.End? {
          assert rest == [] && Last(pat) == Some(e);
        } else {
          MatchAtEnds(r, s, k);
          assert Last(pat) == Last(r);
        }
      }
  }

  /** `re.search` of `pat` from position `from` on: the leftmost position
      where it matches, and its pieces there (lemma SearchLeftmost). */
  function Search(pat: Pattern, s: string, from: nat): (r: Option<(nat, seq<string>)>)
    ensures r.Some? ==> from <= r.value.0 <= |s|
    decreases |s| + 1 - from
  {
    if from > |s| then None
    else match MatchAt(pat, s, from)
      case Some(ps) => Some((from, ps))
      case None => Search(pat, s, from + 1)
  }

  /** Search finds a match at the leftmost position where there is one, and
      finds none when there is none. */
  lemma {:induction false} SearchLeftmost(pat: Pattern, s: string, from: nat)
    ensures var r := Search(pat, s, from);
      && (r.Some? ==> MatchAt(pat, s, r.value.0) == Some(r.value.1))
      && (r.Some? ==> forall q: nat :: from <= q < r.value.0 ==> MatchAt(pat, s, q).None?)
      && (r.None? ==> forall q: nat :: from <= q <= |s| ==> MatchAt(pat, s, q).None?)
    decreases |s| + 1 - from
  {
    if from <= |s| && MatchAt(pat, s, from).None? {
      SearchLeftmost(pat, s, from + 1);
      assert Search(pat, s, from) == Search(pat, s, from + 1);
      forall q: nat | from <= q <= |s| && MatchAt(pat, s, q).Some?
        ensures from + 1 <= q
      {
      }
    }
  }

  /** Where the search reports a match, the pattern matches with those pieces. */
  lemma SearchHit(pat: Pattern, s: string, from: nat)
    ensures var r := Search(pat, s, from);
      r.Some? ==> r.value.0 <= |s| && MatchAt(pat, s, r.value.0) == Some(r.value.1)
  {
    SearchLeftmost(pat, s, from);
  }

  // ---------------------------------------------------------------------------
  // Patterns whose greedy choices are forced
  // ---------------------------------------------------------------------------

  /** Every piece of `next` starts with a character that cannot continue a
      run of class `cl`. */
  predicate Stops(cl: Class, next: Elem) {
    match next
    case Lit(t) => t != [] && !In(cl, t[0])
    case Plus(cl2) => (cl == Space && cl2 == NonSpace) || (cl == NonSpace && cl2 == Space)
    case _ => false
  }

  /** What `next` must look like for the greedy choice of `e` to be forced. */
  predicate Separates(e: Elem, next: Elem) {
    match e
    case Lit(_) => true
    case Plus(cl) => Stops(cl, next)
    case Star(cl) => Stops(cl, next)
    case Opt(c) => next.Lit? && next.text != [] && next.text[0] != c
    case Handle => next.Lit? && next.text != [] && next.text[0] == ')'
  }

  /** Each element is separated from the next, and the pattern does not end
      in an optional character or a handle. */
  predicate Guarded(pat: Pattern) {
    match pat
    case End => true
    case Then(e, End) => !e.Opt? && !e.Handle?
    case Then(e, r) => Separates(e, r.first) && Guarded(r)
  }

  /** Each element is separated from the next, and the last one from `next`. */
  predicate GuardedBefore(pat: Pattern, next: Elem) {
    match pat
    case End => true
    case Then(e, End) => Separates(e, next)
    case Then(e, r) => Separates(e, r.first) && GuardedBefore(r, next)
  }

  /** A guarded pattern after one whose elements are separated up to it. */
  lemma {:induction false} GuardedCat(a: Pattern, b: Pattern)
    requires b.Then? && GuardedBefore(a, b.first) && Guarded(b)
    ensures Guarded(Cat(a, b))
  {
    match a
    case End =>
    case Then(e, r) => GuardedCat(r, b);
  }

  // ---------------------------------------------------------------------------
  // The handle language
  // ---------------------------------------------------------------------------

  /** Any text made of `[^)]+`, then `\s+`, then `\d+` is a handle. */
  lemma HandleTextOf(a: string, b: string, c: string)
    requires RunOf(Except(')'), a) && RunOf(Space, b) && RunOf(Digit, c)
    ensures HandleText(a + b + c)
  {
    var x := a + b + c;
    var f := |a| + |b|;
    forall k | 0 <= k < |x| ensures In(Except(')'), x[k]) {
      if k < |a| { assert x[k] == a[k]; }
      else if k < f { assert x[k] == b[k - |a|]; }
      else { assert x[k] == c[k - f]; }
    }
    forall k | f <= k < |x| ensures In(Digit, x[k]) {
      assert x[k] == c[k - f];
    }
    assert x[f - 1] == b[|b| - 1];
    SpanBackWhileAt(Digit, x, 0, f, |x|);
  }

  /** A handle splits into `[^)]+`, `\s+` and `\d+`. */
  lemma HandleTextSplit(x: string) returns (a: string, b: string, c: string)
    requires HandleText(x)
    ensures x == a + b + c
    ensures RunOf(Except(')'), a) && RunOf(Space, b) && RunOf(Digit, c)
  {
    var f := SpanBackWhile(Digit, x, 0, |x|);
    a, b, c := x[..f - 1], x[f - 1..f], x[f..];
    assert x == a + b + c;
  }

  // ---------------------------------------------------------------------------
  // Completeness
  // ---------------------------------------------------------------------------

  lemma ConcatCons(ps: seq<string>)
    requires ps != []
    ensures Concat(ps) == ps[0] + Concat(ps[1..])
  {
  }

  /** A piece of the right shape followed by what its element needs is the
      one the greedy step takes. */
  lemma StepComplete(e: Elem, s: string, j: nat, x: string)
    requires HasAt(s, j, x) && ElemText(e, x) && StopsAfter(e, s, j + |x|)
    ensures Step(e, s, j) == Some(j + |x|)
  {
    HasAtSliceEq(s, j, x);
    match e
    case Lit(t) =>
    case Plus(cl) => ReadLastRun(cl, s, j, x);
    case Star(cl) => ReadLastRun(cl, s, j, x);
    case Opt(c) =>
      if x == [] {
        Mismatch(s, j, [c], 0);
      }
    case Handle =>
      ReadLastRun(Except(')'), s, j, x);
  }

  /** The element after `e` starts where `e`'s piece ends, in a way that
      makes the greedy choice of `e` stop there. */
  lemma SeparatedStop(e: Elem, next: Elem, s: string, k: nat, y: string)
    requires Separates(e, next) && ElemText(next, y) && HasAt(s, k, y)
    ensures StopsAfter(e, s, k)
  {
    match e
    case Lit(_) =>
    case Plus(cl) => FirstChar(s, k, y);
    case Star(cl) => FirstChar(s, k, y);
    case Opt(c) => FirstChar(s, k, y);
    case Handle => FirstChar(s, k, y);
  }

  /** Pieces of the pattern's shapes lying back to back at `j`, with a final
      greedy run that cannot be extended, are exactly what `MatchAt` finds
      (for a guarded pattern). */
  lemma {:induction false} MatchAtComplete(pat: Pattern, s: string, j: nat, ps: seq<string>)
    requires Guarded(pat) && Fits(pat, ps)
    requires HasAt(s, j, Concat(ps)) && Ends(pat, s, j + |Concat(ps)|)
    ensures j <= |s| && MatchAt(pat, s, j) == Some(ps)
  {
    match pat
    case End =>
    case Then(e, r) =>
      var x, rest := ps[0], ps[1..];
      var k := j + |x|;
      ConcatCons(ps);
      HasAtConcat(s, j, x, Concat(rest));
      if r.Then? {
        ConcatCons(rest);
        HasAtConcat(s, k, rest[0], Concat(rest[1..]));
        SeparatedStop(e, r.first, s, k, rest[0]);
      }
      StepComplete(e, s, j, x);
      MatchAtComplete(r, s, k, rest);
      assert ps == [s[j..k]] + rest by { HasAtSliceEq(s, j, x); }
  }

  /** The pieces a match reports, one element at a time. */
  lemma {:induction false} FitsLen(pat: Pattern, ps: seq<string>)
    requires Fits(pat, ps)
    ensures |ps| == Len(pat)
  {
    match pat
    case End =>
    case Then(_, r) => FitsLen(r, ps[1..]);
  }

  lemma {:induction false} LastCat(a: Pattern, b: Pattern)
    requires b.Then?
    ensures Last(Cat(a, b)) == Last(b)
  {
    match a
    case End =>
    case Then(_, r) => LastCat(r, b);
  }

  lemma {:induction false} FitsAt(pat: Pattern, ps: seq<string>, k: nat)
    requires Fits(pat, ps) && k < Len(pat)
    ensures k < |ps| && ElemText(Nth(pat, k), ps[k])
  {
    if k > 0 {
      FitsAt(pat.rest, ps[1..], k - 1);
    }
  }

  /** Pieces for `a` followed by `b` are pieces for `a`, then pieces for `b`. */
  lemma {:induction false} FitsCat(a: Pattern, b: Pattern, ps: seq<string>)
    requires Fits(Cat(a, b), ps)
    ensures Len(a) <= |ps| && Fits(a, ps[..Len(a)]) && Fits(b, ps[Len(a)..])
  {
    match a
    case End =>
      assert ps[0..] == ps;
    case Then(e, r) =>
      FitsCat(r, b, ps[1..]);
      assert ps[..Len(a)][1..] == ps[1..][..Len(r)];
      assert ps[1..][Len(r)..] == ps[Len(a)..];
  }

  /** Concat distributes over sequence concatenation. */
  lemma {:induction false} ConcatAppend(a: seq<string>, b: seq<string>)
    ensures Concat(a + b) == Concat(a) + Concat(b)
    decreases |a|
  {
    if a == [] {
      assert a + b == b;
    } else {
      assert (a + b)[1..] == a[1..] + b;
      ConcatAppend(a[1..], b);
    }
  }

  /** `re.search` finds the leftmost position where the pattern matches. */
  lemma {:induction false} SearchComplete(pat: Pattern, s: string, from: nat, q: nat, ps: seq<string>)
    requires from <= q <= |s| && MatchAt(pat, s, q) == Some(ps)
    requires forall q': nat :: from <= q' < q ==> MatchAt(pat, s, q').None?
    ensures Search(pat, s, from) == Some((q, ps))
    decreases q - from
  {
    if from < q {
      SearchComplete(pat, s, from + 1, q, ps);
    }
  }

  /** The pattern has the literal `t` among its elements. */
  predicate HasLit(pat: Pattern, t: string) {
    match pat
    case End => false
    case Then(e, r) => e == Lit(t) || HasLit(r, t)
  }

  lemma {:induction false} HasLitCat(a: Pattern, b: Pattern, t: string)
    requires HasLit(b, t)
    ensures HasLit(Cat(a, b), t)
  {
    match a
    case End =>
    case Then(_, r) => HasLitCat(r, b, t);
  }

  /** A pattern with a literal element matches only where the literal occurs. */
  lemma {:induction false} MatchContainsLit(pat: Pattern, s: string, j: nat, t: string)
    requires j <= |s| && HasLit(pat, t)
    ensures MatchAt(pat, s, j).Some? ==> Contains(s, t)
  {
    if MatchAt(pat, s, j).Some? {
      var ps := MatchAt(pat, s, j).value;
      var k := Step(pat.first, s, j).value;
      if pat.first == Lit(t) {
        MatchAtHasAt(pat, s, j);
        ConcatCons(ps);
        HasAtConcat(s, j, ps[0], Concat(ps[1..]));
        assert HasAt(s, j, t);
      } else {
        MatchContainsLit(pat.rest, s, k, t);
      }
    }
  }
}
