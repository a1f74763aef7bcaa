/**
  Strings as sequences of characters, and the pieces of Python's `re` and `str`
  that the lmstat parsers and the directory helper rely on: the character
  classes `\s`, `\S`, `\w`, `\d` (ASCII approximations), greedy maximal runs,
  `str.strip`, `str.split`, `str.join`, `str.replace`, `int()` on digit
  strings and decimal rendering of integers.
*/
module Text {

  // ---------------------------------------------------------------------------
  // Character classes (ASCII)
  // ---------------------------------------------------------------------------

  /** `\s` and `str.isspace()` restricted to ASCII: \t \n \v \f \r, the
      separators \x1c-\x1f and the space. */
  predicate IsSpace(c: char) {
    var n := c as int; n == 32 || 9 <= n <= 13 || 28 <= n <= 31
  }

  /** `\w`, ASCII: letters, digits and the underscore. */
  predicate IsWordChar(c: char) {
    'a' <= c <= 'z' || 'A' <= c <= 'Z' || '0' <= c <= '9' || c == '_'
  }

  /** `\d`, ASCII */
  predicate IsDigit(c: char) { '0' <= c <= '9' }

  /** The character classes the patterns use. */
  datatype Class =
    | Space                   // \s
    | NonSpace                // \S
    | Word                    // \w
    | Digit                   // \d
    | Version                 // [0-9.]
    | Except(x: char)         // [^x], and `.` as Except('\n')
    | ExceptEither(x: char, y: char)

  predicate In(cl: Class, c: char) {
    match cl
    case Space => IsSpace(c)
    case NonSpace => !IsSpace(c)
    case Word => IsWordChar(c)
    case Digit => IsDigit(c)
    case Version => IsDigit(c) || c == '.'
    case Except(x) => c != x
    case ExceptEither(x, y) => c != x && c != y
  }

  /** Every character of `s` is in class `cl`. */
  predicate AllOf(cl: Class, s: string) {
    forall k :: 0 <= k < |s| ==> In(cl, s[k])
  }

  /** `s` is what `[cl]+` matches: a nonempty run of class `cl`. */
  predicate RunOf(cl: Class, s: string) {
    |s| > 0 && AllOf(cl, s)
  }

  // ---------------------------------------------------------------------------
  // Maximal runs (greedy quantifiers)
  // ---------------------------------------------------------------------------

  /** The end of the longest run of class `p` that starts at `i`. */
  function SpanWhile(p: Class, s: string, i: nat): (j: nat)
    requires i <= |s|
    ensures i <= j <= |s|
    ensures forall k :: i <= k < j ==> In(p, s[k])
    ensures j == |s| || !In(p, s[j])
    decreases |s| - i
  {
    if i == |s| || !In(p, s[i]) then i else SpanWhile(p, s, i + 1)
  }

  /** The start of the longest run of class `p` inside s[lo..hi] that ends at `hi`. */
  function SpanBackWhile(p: Class, s: string, lo: nat, hi: nat): (f: nat)
    requires lo <= hi <= |s|
    ensures lo <= f <= hi
    ensures forall k :: f <= k < hi ==> In(p, s[k])
    ensures f == lo || !In(p, s[f - 1])
    decreases hi - lo
  {
    if hi == lo || !In(p, s[hi - 1]) then hi else SpanBackWhile(p, s, lo, hi - 1)
  }

  /** A run of class `p` from `i` to `j` that stops at a character outside `p`
      (or at the end) is the one SpanWhile finds. */
  lemma SpanWhileAt(p: Class, s: string, i: nat, j: nat)
    requires i <= j <= |s|
    requires forall k :: i <= k < j ==> In(p, s[k])
    requires j == |s| || !In(p, s[j])
    ensures SpanWhile(p, s, i) == j
  {
  }

  /** The backward counterpart of SpanWhileAt. */
  lemma SpanBackWhileAt(p: Class, s: string, lo: nat, f: nat, hi: nat)
    requires lo <= f <= hi <= |s|
    requires forall k :: f <= k < hi ==> In(p, s[k])
    requires f == lo || !In(p, s[f - 1])
    ensures SpanBackWhile(p, s, lo, hi) == f
  {
  }

  // ---------------------------------------------------------------------------
  // Literals at a position, startswith, `in`
  // ---------------------------------------------------------------------------

  /** `lit` occurs in `s` starting at index `i` (character by character, so
      that the verifier looks inside only as far as a proof asks it to). */
  predicate HasAt(s: string, i: nat, lit: string)
    decreases |lit|
  {
    i + |lit| <= |s| && (lit == [] || (s[i] == lit[0] && HasAt(s, i + 1, lit[1..])))
  }

  /** Python's `s.startswith(prefix)`. */
  predicate StartsWith(s: string, prefix: string) {
    HasAt(s, 0, prefix)
  }

  /** Python's `sub in s`. */
  predicate Contains(s: string, sub: string) {
    exists i :: 0 <= i <= |s| && HasAt(s, i, sub)
  }

  /** One character of a literal read at `i`. */
  lemma {:induction false} HasAtIndex(s: string, i: nat, lit: string, k: nat)
    requires HasAt(s, i, lit) && k < |lit|
    ensures s[i + k] == lit[k]
    decreases k
  {
    if k > 0 {
      HasAtIndex(s, i + 1, lit[1..], k - 1);
    }
  }

  /** A literal whose characters all sit at `i` onwards is read there. */
  lemma {:induction false} HasAtByIndex(s: string, i: nat, lit: string)
    requires i + |lit| <= |s|
    requires forall k :: 0 <= k < |lit| ==> s[i + k] == lit[k]
    ensures HasAt(s, i, lit)
    decreases |lit|
  {
    if lit != [] {
      assert s[i + 0] == lit[0];
      forall k | 0 <= k < |lit| - 1 ensures s[i + 1 + k] == lit[1..][k] {
        assert s[i + (k + 1)] == lit[k + 1];
      }
      HasAtByIndex(s, i + 1, lit[1..]);
    }
  }

  /** A literal with a wrong (or missing) character at offset `k` is not read at `i`. */
  lemma {:induction false} Mismatch(s: string, i: nat, lit: string, k: nat)
    requires k < |lit| && (i + k >= |s| || s[i + k] != lit[k])
    ensures !HasAt(s, i, lit)
    decreases k
  {
    if k > 0 {
      Mismatch(s, i + 1, lit[1..], k - 1);
    }
  }

  /** HasAt is the slice comparison `s[i:i + len(lit)] == lit`. */
  lemma HasAtSliceEq(s: string, i: nat, lit: string)
    ensures HasAt(s, i, lit) <==> i + |lit| <= |s| && s[i..i + |lit|] == lit
  {
    if HasAt(s, i, lit) {
      forall k | 0 <= k < |lit| ensures s[i..i + |lit|][k] == lit[k] {
        HasAtIndex(s, i, lit, k);
      }
    }
    if i + |lit| <= |s| && s[i..i + |lit|] == lit {
      forall k | 0 <= k < |lit| ensures s[i + k] == lit[k] {
        assert s[i..i + |lit|][k] == s[i + k];
      }
      HasAtByIndex(s, i, lit);
    }
  }

  /** Reading `a + b` at `i` is reading `a` at `i` and then `b` right after it. */
  lemma {:induction false} HasAtConcat(s: string, i: nat, a: string, b: string)
    ensures HasAt(s, i, a + b) <==> HasAt(s, i, a) && HasAt(s, i + |a|, b)
    decreases |a|
  {
    if a == [] {
      assert a + b == b;
    } else {
      assert (a + b)[0] == a[0];
      assert (a + b)[1..] == a[1..] + b;
      HasAtConcat(s, i + 1, a[1..], b);
    }
  }

  /** A literal that lies inside a slice can be read in the whole string. */
  lemma HasAtSlice(s: string, a: nat, b: nat, i: nat, lit: string)
    requires a <= b <= |s|
    requires HasAt(s[a..b], i, lit)
    ensures HasAt(s, a + i, lit)
  {
    forall k | 0 <= k < |lit| ensures s[a + i + k] == lit[k] {
      HasAtIndex(s[a..b], i, lit, k);
    }
    HasAtByIndex(s, a + i, lit);
  }

  /** The first character of a literal read at `i`. */
  lemma FirstChar(s: string, i: nat, lit: string)
    requires HasAt(s, i, lit) && |lit| > 0
    ensures i < |s| && s[i] == lit[0]
  {
  }

  /** Reading a literal followed by more text. */
  lemma ReadLit(s: string, j: nat, lit: string, rest: string)
    requires HasAt(s, j, lit + rest)
    ensures HasAt(s, j, lit) && HasAt(s, j + |lit|, rest)
  {
    HasAtConcat(s, j, lit, rest);
  }

  /** Reading a run of class `p` that cannot be extended (the string ends or
      the next character is outside `p`): the greedy scan stops exactly at
      its end. */
  lemma ReadLastRun(p: Class, s: string, j: nat, run: string)
    requires HasAt(s, j, run) && AllOf(p, run)
    requires j + |run| == |s| || !In(p, s[j + |run|])
    ensures SpanWhile(p, s, j) == j + |run|
    ensures s[j..j + |run|] == run
  {
    HasAtSliceEq(s, j, run);
    forall k | j <= k < j + |run| ensures In(p, s[k]) {
      HasAtIndex(s, j, run, k - j);
    }
    SpanWhileAt(p, s, j, j + |run|);
  }

  /** Reading a run of class `p` that is followed by text starting outside `p`. */
  lemma ReadRun(p: Class, s: string, j: nat, run: string, rest: string)
    requires HasAt(s, j, run + rest)
    requires AllOf(p, run)
    requires rest != [] && !In(p, rest[0])
    ensures j + |run| < |s|
    ensures SpanWhile(p, s, j) == j + |run|
    ensures s[j..j + |run|] == run
    ensures HasAt(s, j + |run|, rest)
  {
    HasAtConcat(s, j, run, rest);
    ReadLastRun(p, s, j, run);
  }

  /** Writing a literal, then more text. */
  lemma WriteLit(s: string, j: nat, lit: string, rest: string)
    requires HasAt(s, j, lit) && HasAt(s, j + |lit|, rest)
    ensures HasAt(s, j, lit + rest)
  {
    HasAtConcat(s, j, lit, rest);
  }

  /** The slice s[i..j] can be read at `i`. */
  lemma WriteSlice(s: string, i: nat, j: nat)
    requires i <= j <= |s|
    ensures HasAt(s, i, s[i..j])
  {
    HasAtSliceEq(s, i, s[i..j]);
  }

  /** A string in which character `c` never occurs does not contain any text
      that has `c` in it. */
  lemma NoCharNotContains(s: string, sub: string, k: nat, c: char)
    requires forall j :: 0 <= j < |s| ==> s[j] != c
    requires k < |sub| && sub[k] == c
    ensures !Contains(s, sub)
  {
    forall i | 0 <= i <= |s| ensures !HasAt(s, i, sub) {
      Mismatch(s, i, sub, k);
    }
  }

  // ---------------------------------------------------------------------------
  // str.strip()
  // ---------------------------------------------------------------------------

  /** `r` is `s` with a whitespace prefix of length `a` and a whitespace suffix removed. */
  predicate StrippedAt(s: string, a: nat, r: string) {
    && a + |r| <= |s|
    && s[a..a + |r|] == r
    && (forall k :: 0 <= k < a ==> In(Space, s[k]))
    && (forall k :: a + |r| <= k < |s| ==> In(Space, s[k]))
  }

  /** Python's `s.strip()`: the text between the leading and the trailing
      whitespace; it starts and ends with a non-space character (or is empty,
      when `s` is all whitespace). */
  function Strip(s: string): (r: string)
    ensures exists a :: StrippedAt(s, a, r)
    ensures r == [] ==> AllOf(Space, s)
    ensures r != [] ==> In(NonSpace, r[0]) && In(NonSpace, r[|r| - 1])
  {
    var a := SpanWhile(Space, s, 0);
    var b := SpanBackWhile(Space, s, a, |s|);
    assert StrippedAt(s, a, s[a..b]);
    s[a..b]
  }

  /** Stripping whitespace padding gives back the padded text when the text
      neither starts nor ends with whitespace. */
  lemma StripPadded(w1: string, t: string, w2: string)
    requires AllOf(Space, w1) && AllOf(Space, w2)
    requires t != [] ==> In(NonSpace, t[0]) && In(NonSpace, t[|t| - 1])
    ensures Strip(w1 + t + w2) == t
  {
    var s := w1 + t + w2;
    if t == [] {
      assert AllOf(Space, s) by {
        forall k | 0 <= k < |s| ensures In(Space, s[k]) {
          if k < |w1| { assert s[k] == w1[k]; } else { assert s[k] == w2[k - |w1|]; }
        }
      }
      var a := SpanWhile(Space, s, 0);
      assert a == |s|;
    } else {
      var a := |w1|;
      var b := |w1| + |t|;
      assert s[a] == t[0];
      assert s[b - 1] == t[|t| - 1];
      SpanWhileAt(Space, s, 0, a);
      SpanBackWhileAt(Space, s, a, b, |s|);
      assert s[a..b] == t;
    }
  }

  /** A line that is all whitespace strips to the empty string. */
  lemma StripBlank(s: string)
    requires AllOf(Space, s)
    ensures Strip(s) == []
  {
    StripPadded(s, [], []);
    assert s + [] + [] == s;
  }

  // ---------------------------------------------------------------------------
  // str.split(sep) and sep.join(parts)
  // ---------------------------------------------------------------------------

  /** Python's `s.split(sep)` for a one-character separator: always at least
      one piece (lemma SplitPieces: none of them contains the separator). */
  function Split(s: string, sep: char): (parts: seq<string>)
    ensures |parts| >= 1
    decreases |s|
  {
    var i := SpanWhile(Except(sep), s, 0);
    if i == |s| then [s] else [s[..i]] + Split(s[i + 1..], sep)
  }

  /** No piece of a split contains the separator. */
  lemma {:induction false} SplitPieces(s: string, sep: char)
    ensures var parts := Split(s, sep);
      forall k, j :: 0 <= k < |parts| && 0 <= j < |parts[k]| ==> parts[k][j] != sep
    decreases |s|
  {
    var i := SpanWhile(Except(sep), s, 0);
    if i < |s| {
      SplitPieces(s[i + 1..], sep);
      var parts := Split(s, sep);
      assert parts[1..] == Split(s[i + 1..], sep);
      forall k, j | 0 <= k < |parts| && 0 <= j < |parts[k]| ensures parts[k][j] != sep {
        if k > 0 {
          assert parts[k] == parts[1..][k - 1];
        }
      }
    }
  }

  /** Python's `sep.join(parts)`. */
  function Join(parts: seq<string>, sep: string): string
    decreases |parts|
  {
    if |parts| == 0 then ""
    else if |parts| == 1 then parts[0]
    else parts[0] + sep + Join(parts[1..], sep)
  }

  /** Splitting and joining again gives back the original text. */
  lemma {:induction false} JoinSplit(s: string, sep: char)
    ensures Join(Split(s, sep), [sep]) == s
    decreases |s|
  {
    var i := SpanWhile(Except(sep), s, 0);
    if i < |s| {
      JoinSplit(s[i + 1..], sep);
      var tail := Split(s[i + 1..], sep);
      assert Split(s, sep) == [s[..i]] + tail;
      JoinPieceAndRest(s, sep, i, tail);
    } else {
      assert Split(s, sep) == [s];
    }
  }

  /** The step of JoinSplit: a piece, the separator, and the rest joined back. */
  lemma JoinPieceAndRest(s: string, sep: char, i: nat, tail: seq<string>)
    requires i < |s| && s[i] == sep && |tail| >= 1
    requires Join(tail, [sep]) == s[i + 1..]
    ensures Join([s[..i]] + tail, [sep]) == s
  {
    JoinCons(s[..i], tail, [sep]);
    assert s == s[..i] + [sep] + s[i + 1..];
  }

  /** Joining a piece in front of at least one other. */
  lemma JoinCons(p: string, tail: seq<string>, sep: string)
    requires |tail| >= 1
    ensures Join([p] + tail, sep) == p + sep + Join(tail, sep)
  {
    assert ([p] + tail)[1..] == tail;
  }

  /** Joining pieces that do not contain the separator and splitting again
      gives back the pieces. */
  lemma {:induction false} SplitJoin(parts: seq<string>, sep: char)
    requires |parts| >= 1
    requires forall k, j :: 0 <= k < |parts| && 0 <= j < |parts[k]| ==> parts[k][j] != sep
    ensures Split(Join(parts, [sep]), sep) == parts
    decreases |parts|
  {
    var s := Join(parts, [sep]);
    var p := parts[0];
    if |parts| == 1 {
      SpanWhileAt(Except(sep), s, 0, |s|);
    } else {
      var rest := Join(parts[1..], [sep]);
      assert s == p + [sep] + rest;
      assert s[|p|] == sep;
      SpanWhileAt(Except(sep), s, 0, |p|);
      assert s[..|p|] == p;
      assert s[|p| + 1..] == rest;
      SplitJoin(parts[1..], sep);
      assert parts == [p] + parts[1..];
    }
  }

  // ---------------------------------------------------------------------------
  // str.replace(old, new) for a one-character `old`
  // ---------------------------------------------------------------------------

  /** Python's `s.replace(c, r)` when `c` is a single character. */
  function Replace(s: string, c: char, r: string): string
    decreases |s|
  {
    if s == [] then []
    else (if s[0] == c then r else [s[0]]) + Replace(s[1..], c, r)
  }

  lemma {:induction false} ReplaceAppend(a: string, b: string, c: char, r: string)
    ensures Replace(a + b, c, r) == Replace(a, c, r) + Replace(b, c, r)
    decreases |a|
  {
    if a != [] {
      assert (a + b)[1..] == a[1..] + b;
      ReplaceAppend(a[1..], b, c, r);
    } else {
      assert a + b == b;
    }
  }

  /** Text without the replaced character is left as it is. */
  lemma {:induction false} ReplaceAbsent(s: string, c: char, r: string)
    requires forall k :: 0 <= k < |s| ==> s[k] != c
    ensures Replace(s, c, r) == s
    decreases |s|
  {
    if s != [] {
      ReplaceAbsent(s[1..], c, r);
      assert s == [s[0]] + s[1..];
    }
  }

  /** Replacing the separator of a join by `r` is joining with `r`. */
  lemma {:induction false} ReplaceJoin(parts: seq<string>, c: char, r: string)
    requires forall k, j :: 0 <= k < |parts| && 0 <= j < |parts[k]| ==> parts[k][j] != c
    ensures Replace(Join(parts, [c]), c, r) == Join(parts, r)
    decreases |parts|
  {
    if |parts| == 1 {
      ReplaceAbsent(parts[0], c, r);
    } else if |parts| > 1 {
      var rest := Join(parts[1..], [c]);
      ReplaceJoin(parts[1..], c, r);
      ReplaceAppend(parts[0] + [c], rest, c, r);
      ReplaceAppend(parts[0], [c], c, r);
      ReplaceAbsent(parts[0], c, r);
      assert Replace([c], c, r) == r + Replace([], c, r);
    }
  }

  // ---------------------------------------------------------------------------
  // int() on digit strings, and decimal rendering
  // ---------------------------------------------------------------------------

  function DigitValue(c: char): nat
    requires IsDigit(c)
  {
    (c as int) - ('0' as int)
  }

  function DigitChar(d: nat): (c: char)
    requires d < 10
    ensures IsDigit(c) && DigitValue(c) == d
  {
    ('0' as int + d) as char
  }

  /** Python's `int(d)` on a string of ASCII digits (leading zeros allowed). */
  function ParseNat(d: string): nat
    requires AllOf(Digit, d)
    decreases |d|
  {
    if d == [] then 0 else ParseNat(d[..|d| - 1]) * 10 + DigitValue(d[|d| - 1])
  }

  /** The decimal digits of `n`, as Python's `str(n)` writes them. */
  function ShowNat(n: nat): (d: string)
    ensures RunOf(Digit, d)
    decreases n
  {
    if n < 10 then [DigitChar(n)] else ShowNat(n / 10) + [DigitChar(n % 10)]
  }

  /** Python's `str(n)` (or `f"{n}"`) for any integer. */
  function ShowInt(n: int): string {
    if n < 0 then "-" + ShowNat(-n) else ShowNat(n)
  }

  /** Parsing the rendering of a number gives the number back. */
  lemma {:induction false} ParseShowNat(n: nat)
    ensures ParseNat(ShowNat(n)) == n
    decreases n
  {
    var d := ShowNat(n);
    if n >= 10 {
      ParseShowNat(n / 10);
      assert d[..|d| - 1] == ShowNat(n / 10);
    }
  }
}
