/** The string operations the tools and the prompt builder are made of:
    ASCII lower-casing, substring search, `str.join` and `str.split`. */
module Text {

  /** Lower-cases one character; only the ASCII letters A-Z change. */
  function LowerChar(c: char): (r: char)
    ensures 'A' <= c <= 'Z' ==> r as int == c as int + 32
    ensures !('A' <= c <= 'Z') ==> r == c
    ensures !('A' <= r <= 'Z')
  {
    if 'A' <= c <= 'Z' then (c as int + 32) as char else c
  }

  /** `str.lower()`, restricted to ASCII: every character is lowered in place. */
  function Lower(s: string): string
  {
    seq(|s|, i requires 0 <= i < |s| => LowerChar(s[i]))
  }

  /** Text without upper-case ASCII letters is its own lowering. */
  lemma LowerOfLowercase(s: string)
    requires forall i :: 0 <= i < |s| ==> !('A' <= s[i] <= 'Z')
    ensures Lower(s) == s
  {
  }

  /** Lowering distributes over concatenation. */
  lemma LowerAppend(a: string, b: string)
    ensures Lower(a + b) == Lower(a) + Lower(b)
  {
  }

  /** Characters other than letters survive lowering exactly where they were. */
  lemma LowerKeepsNonLetter(s: string, c: char)
    requires !('a' <= c <= 'z') && !('A' <= c <= 'Z')
    ensures c in Lower(s) <==> c in s
  {
    if c in Lower(s) {
      var i :| 0 <= i < |s| && Lower(s)[i] == c;
    }
    if c in s {
      var i :| 0 <= i < |s| && s[i] == c;
      assert Lower(s)[i] == c;
    }
  }

  /** A lower-case pattern placed between two texts is found in the
      lowering of the whole. */
  lemma ContainsPlaced(a: string, p: string, b: string)
    requires Lower(p) == p
    ensures Contains(Lower(a + p + b), p)
  {
    LowerAppend(a + p, b);
    LowerAppend(a, p);
    var l := Lower(a + p + b);
    assert l == Lower(a) + p + Lower(b);
    assert l[|a|..|a| + |p|] == p;
    assert OccursAt(l, p, |a|);
  }

  /** No position of `s` holds `x` followed by `y`, up to case. */
  ghost predicate NoPairIgnoringCase(s: string, x: char, y: char)
  {
    forall i :: 0 <= i < |s| - 1 ==> !(LowerChar(s[i]) == x && LowerChar(s[i + 1]) == y)
  }

  /** Pair-freeness survives concatenation when the seam is not a pair. */
  lemma NoPairAppend(a: string, b: string, x: char, y: char)
    requires NoPairIgnoringCase(a, x, y) && NoPairIgnoringCase(b, x, y)
    requires |a| > 0 && |b| > 0 ==> !(LowerChar(a[|a| - 1]) == x && LowerChar(b[0]) == y)
    ensures NoPairIgnoringCase(a + b, x, y)
  {
    var s := a + b;
    forall i | 0 <= i < |s| - 1
      ensures !(LowerChar(s[i]) == x && LowerChar(s[i + 1]) == y)
    {
      if i + 1 < |a| {
        assert s[i] == a[i] && s[i + 1] == a[i + 1];
      } else if i >= |a| {
        assert s[i] == b[i - |a|] && s[i + 1] == b[i - |a| + 1];
      }
    }
  }

  /** A pattern opening with `x` then `y` cannot be found, in any case, in
      text that has no such pair. */
  lemma NoPairNotContained(s: string, p: string)
    requires |p| >= 2 && NoPairIgnoringCase(s, p[0], p[1])
    ensures !Contains(Lower(s), p)
  {
  }

  /** Lowering twice is lowering once. */
  lemma LowerIdempotent(s: string)
    ensures Lower(Lower(s)) == Lower(s)
  {
  }

  /** `p` occurs in `s` starting at index `i`. */
  predicate OccursAt(s: string, p: string, i: int)
  {
    0 <= i && i + |p| <= |s| && s[i..i + |p|] == p
  }

  /** Python's `p in s` for strings. */
  predicate Contains(s: string, p: string)
  {
    exists i :: 0 <= i <= |s| - |p| && OccursAt(s, p, i)
  }

  /** Characters of `s` from `i` on equal those of `p` once both are lowered. */
  ghost predicate MatchesIgnoringCaseAt(s: string, p: string, i: int)
  {
    0 <= i && i + |p| <= |s| &&
    forall k :: 0 <= k < |p| ==> LowerChar(p[k]) == LowerChar(s[i + k])
  }

  /** `p` occurs in `s` when upper and lower case are not told apart. */
  ghost predicate ContainsIgnoringCase(s: string, p: string)
  {
    exists i :: MatchesIgnoringCaseAt(s, p, i)
  }

  /** Searching the lowered text for a lowered pattern is exactly a
      case-insensitive search. */
  lemma ContainsLowerIff(s: string, p: string)
    ensures Contains(Lower(s), Lower(p)) <==> ContainsIgnoringCase(s, p)
  {
    if Contains(Lower(s), Lower(p)) {
      var i :| 0 <= i <= |s| - |p| && OccursAt(Lower(s), Lower(p), i);
      forall k | 0 <= k < |p|
        ensures LowerChar(p[k]) == LowerChar(s[i + k])
      {
        assert Lower(s)[i..i + |p|][k] == Lower(s)[i + k];
      }
      assert MatchesIgnoringCaseAt(s, p, i);
    }
    if ContainsIgnoringCase(s, p) {
      var i :| MatchesIgnoringCaseAt(s, p, i);
      assert Lower(s)[i..i + |p|] == Lower(p);
      assert OccursAt(Lower(s), Lower(p), i);
    }
  }

  /** If `p` occurs in `q` and `q` occurs in `s`, then `p` occurs in `s`. */
  lemma ContainsTransitive(s: string, q: string, p: string)
    requires Contains(s, q) && Contains(q, p)
    ensures Contains(s, p)
  {
    var i :| 0 <= i <= |s| - |q| && OccursAt(s, q, i);
    var j :| 0 <= j <= |q| - |p| && OccursAt(q, p, j);
    forall k | 0 <= k < |p|
      ensures s[i + j + k] == p[k]
    {
      assert s[i..i + |q|][j + k] == q[j + k];
      assert q[j..j + |p|][k] == q[j + k];
    }
    assert OccursAt(s, p, i + j);
  }

  /** A pattern holding a character the text lacks cannot occur in it. */
  lemma AbsentCharNotContained(s: string, p: string, c: char)
    requires c in p && c !in s
    ensures !Contains(s, p)
  {
  }

  /** `s[:n]` in Python: the first `n` characters, or all of `s` if shorter. */
  function Take(s: string, n: nat): (r: string)
    ensures |r| == if n < |s| then n else |s|
    ensures r <= s
  {
    if n < |s| then s[..n] else s
  }

  /** `sep.join(xs)`: the pieces in order with `sep` between neighbours and
      nothing before the first or after the last. */
  function Join(xs: seq<string>, sep: string): string
    decreases |xs|
  {
    if |xs| == 0 then ""
    else if |xs| == 1 then xs[0]
    else xs[0] + sep + Join(xs[1..], sep)
  }

  /** Joining one more piece in front adds it and one separator. */
  lemma JoinCons(x: string, ys: seq<string>, sep: string)
    requires |ys| > 0
    ensures Join([x] + ys, sep) == x + sep + Join(ys, sep)
  {
    assert ([x] + ys)[1..] == ys;
  }

  /** The first piece opens the joined text. */
  lemma {:induction false} JoinStartsWithFirst(xs: seq<string>, sep: string)
    requires |xs| > 0
    ensures xs[0] <= Join(xs, sep)
  {
  }

  /** The last piece closes the joined text: no trailing separator. */
  lemma {:induction false} JoinEndsWithLast(xs: seq<string>, sep: string)
    requires |xs| > 0
    ensures var j := Join(xs, sep);
      |xs[|xs| - 1]| <= |j| && j[|j| - |xs[|xs| - 1]|..] == xs[|xs| - 1]
    decreases |xs|
  {
    if |xs| > 1 {
      JoinEndsWithLast(xs[1..], sep);
      var j' := Join(xs[1..], sep);
      var prefix := xs[0] + sep;
      assert Join(xs, sep) == prefix + j';
      assert xs[1..][|xs[1..]| - 1] == xs[|xs| - 1];
      var n := |xs[|xs| - 1]|;
      assert (prefix + j')[|prefix + j'| - n..] == j'[|j'| - n..];
    }
  }

  /** Where the `i`-th piece starts in `Join(xs, sep)`: the lengths of the
      pieces before it, each with the separator that follows it. */
  function Offset(xs: seq<string>, sep: string, i: nat): nat
    requires i <= |xs|
    decreases i
  {
    if i == 0 then 0 else |xs[0]| + |sep| + Offset(xs[1..], sep, i - 1)
  }

  /** Each piece moves the next offset on by its own length and one separator. */
  lemma {:induction false} OffsetStep(xs: seq<string>, sep: string, i: nat)
    requires i < |xs|
    ensures Offset(xs, sep, i + 1) == Offset(xs, sep, i) + |xs[i]| + |sep|
    decreases i
  {
    if i > 0 {
      OffsetStep(xs[1..], sep, i - 1);
      assert xs[1..][i - 1] == xs[i];
    }
  }

  /** `x` occurs in `s` starting at index `k`. */
  ghost predicate PlacedAt(s: string, x: string, k: nat)
  {
    k + |x| <= |s| && s[k..k + |x|] == x
  }

  /** Text placed in `b` keeps its place, shifted by `|a|`, in `a + b`. */
  lemma PlacedAfter(a: string, b: string, x: string, k: nat)
    requires PlacedAt(b, x, k)
    ensures PlacedAt(a + b, x, |a| + k)
  {
    assert (a + b)[|a| + k..|a| + k + |x|] == b[k..k + |x|];
  }

  /** The joined text is as long as the offset of the last piece plus
      that piece. */
  lemma {:induction false} JoinLength(xs: seq<string>, sep: string)
    requires |xs| > 0
    ensures |Join(xs, sep)| == Offset(xs, sep, |xs| - 1) + |xs[|xs| - 1]|
    decreases |xs|
  {
    if |xs| > 1 {
      var tail := xs[1..];
      JoinLength(tail, sep);
      assert Join(xs, sep) == xs[0] + sep + Join(tail, sep);
      assert tail[|tail| - 1] == xs[|xs| - 1];
    }
  }

  /** Piece `i` of a join sits at `Offset(xs, sep, i)`. */
  lemma {:induction false} JoinPiecePlaced(xs: seq<string>, sep: string, i: nat)
    requires i < |xs|
    ensures PlacedAt(Join(xs, sep), xs[i], Offset(xs, sep, i))
    decreases i
  {
    if |xs| == 1 {
      assert Join(xs, sep)[0..|xs[0]|] == xs[0];
    } else {
      var tail := xs[1..];
      var head := xs[0] + sep;
      assert Join(xs, sep) == head + Join(tail, sep);
      if i == 0 {
        assert Join(xs, sep)[0..|xs[0]|] == xs[0];
      } else {
        JoinPiecePlaced(tail, sep, i - 1);
        assert tail[i - 1] == xs[i];
        PlacedAfter(head, Join(tail, sep), xs[i], Offset(tail, sep, i - 1));
      }
    }
  }

  /** Right after every piece but the last comes one separator. */
  lemma {:induction false} JoinSeparatorPlaced(xs: seq<string>, sep: string, i: nat)
    requires i + 1 < |xs|
    ensures PlacedAt(Join(xs, sep), sep, Offset(xs, sep, i) + |xs[i]|)
    decreases i
  {
    var tail := xs[1..];
    var head := xs[0] + sep;
    assert Join(xs, sep) == head + Join(tail, sep);
    if i == 0 {
      assert Join(xs, sep)[|xs[0]|..|xs[0]| + |sep|] == sep;
    } else {
      JoinSeparatorPlaced(tail, sep, i - 1);
      assert tail[i - 1] == xs[i];
      PlacedAfter(head, Join(tail, sep), sep, Offset(tail, sep, i - 1) + |tail[i - 1]|);
    }
  }

  /** The layout of `Join(xs, sep)` for any pieces: piece `i` sits at
      `Offset(xs, sep, i)`, one separator follows every piece but the last,
      and the last piece ends the text. */
  lemma JoinPlaces(xs: seq<string>, sep: string)
    requires |xs| > 0
    ensures |Join(xs, sep)| == Offset(xs, sep, |xs| - 1) + |xs[|xs| - 1]|
    ensures forall i :: 0 <= i < |xs| ==> PlacedAt(Join(xs, sep), xs[i], Offset(xs, sep, i))
    ensures forall i :: 0 <= i < |xs| - 1 ==>
      PlacedAt(Join(xs, sep), sep, Offset(xs, sep, i) + |xs[i]|)
  {
    JoinLength(xs, sep);
    forall i | 0 <= i < |xs|
      ensures PlacedAt(Join(xs, sep), xs[i], Offset(xs, sep, i))
    {
      JoinPiecePlaced(xs, sep, i);
    }
    forall i | 0 <= i < |xs| - 1
      ensures PlacedAt(Join(xs, sep), sep, Offset(xs, sep, i) + |xs[i]|)
    {
      JoinSeparatorPlaced(xs, sep, i);
    }
  }

  /** The joined text is empty exactly when there is nothing to join or
      the only piece is empty. */
  lemma {:induction false} JoinEmptyIff(xs: seq<string>, sep: string)
    requires |sep| > 0
    ensures Join(xs, sep) == "" <==> |xs| == 0 || (|xs| == 1 && xs[0] == "")
  {
    if |xs| > 1 {
      assert |Join(xs, sep)| >= |sep|;
    }
  }

  /** Python's `s.split(c)` for a one-character separator: the maximal
      pieces between separators, empty ones included, so at least one. */
  function Split(s: string, c: char): (r: seq<string>)
    ensures |r| > 0
    decreases |s|
  {
    if |s| == 0 then [""]
    else
      var rest := Split(s[1..], c);
      if s[0] == c then [""] + rest
      else [[s[0]] + rest[0]] + rest[1..]
  }

  /** Text without the separator splits into itself alone. */
  lemma {:induction false} SplitWithoutSeparator(x: string, c: char)
    requires c !in x
    ensures Split(x, c) == [x]
    decreases |x|
  {
    if |x| > 0 {
      SplitWithoutSeparator(x[1..], c);
      assert [x[0]] + x[1..] == x;
    }
  }

  /** A separator-free piece followed by the separator splits off as one piece. */
  lemma {:induction false} SplitAfterPiece(x: string, rest: string, c: char)
    requires c !in x
    ensures Split(x + [c] + rest, c) == [x] + Split(rest, c)
    decreases |x|
  {
    var s := x + [c] + rest;
    if |x| == 0 {
      assert s[1..] == rest;
    } else {
      assert s[1..] == x[1..] + [c] + rest;
      SplitAfterPiece(x[1..], rest, c);
      assert [x[0]] + x[1..] == x;
    }
  }

  /** `split` undoes `join` when no piece holds the separator. */
  lemma {:induction false} SplitJoin(xs: seq<string>, c: char)
    requires |xs| > 0
    requires forall i :: 0 <= i < |xs| ==> c !in xs[i]
    ensures Split(Join(xs, [c]), c) == xs
    decreases |xs|
  {
    if |xs| == 1 {
      SplitWithoutSeparator(xs[0], c);
    } else {
      SplitJoin(xs[1..], c);
      SplitAfterPiece(xs[0], Join(xs[1..], [c]), c);
      assert [xs[0]] + xs[1..] == xs;
    }
  }

  /** The pieces with an empty piece between each pair of neighbours. */
  function Spaced(xs: seq<string>): (r: seq<string>)
    ensures |xs| > 0 ==> |r| == 2 * |xs| - 1
    ensures |xs| > 0 ==> forall i :: 0 <= i < |r| ==> r[i] == if i % 2 == 0 then xs[i / 2] else ""
    decreases |xs|
  {
    if |xs| <= 1 then xs else [xs[0], ""] + Spaced(xs[1..])
  }

  /** Joining with a doubled separator is joining the spaced-out pieces
      with a single one. */
  lemma {:induction false} JoinDoubled(xs: seq<string>, c: char)
    ensures Join(xs, [c, c]) == Join(Spaced(xs), [c])
    decreases |xs|
  {
    if |xs| > 1 {
      JoinDoubled(xs[1..], c);
      var tail := Spaced(xs[1..]);
      JoinCons("", tail, [c]);
      JoinCons(xs[0], [""] + tail, [c]);
      assert [xs[0], ""] + tail == [xs[0]] + ([""] + tail);
    }
  }
}
