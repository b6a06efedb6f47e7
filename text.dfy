/** The JavaScript string and array operations the generator is built from:
    `Array.prototype.join`, `String.prototype.split` with a one-character
    separator, and `String.prototype.replace` with a one-character pattern
    (which replaces the FIRST occurrence only). */
module Text {

  /** `xs.join(sep)`: the pieces with `sep` between neighbours; `[]` joins to
      the empty sequence. Used both on strings and on lists of lines. */
  function Join<T>(xs: seq<seq<T>>, sep: seq<T>): seq<T>
  {
    if |xs| == 0 then []
    else if |xs| == 1 then xs[0]
    else xs[0] + sep + Join(xs[1..], sep)
  }

  /** Joining two non-empty lists is joining each and putting `sep` between. */
  lemma {:induction false} JoinAppend<T>(xs: seq<seq<T>>, ys: seq<seq<T>>, sep: seq<T>)
    requires |xs| > 0 && |ys| > 0
    ensures Join(xs + ys, sep) == Join(xs, sep) + sep + Join(ys, sep)
  {
    if |xs| == 1 {
      assert (xs + ys)[1..] == ys;
    } else {
      assert (xs + ys)[1..] == xs[1..] + ys;
      JoinAppend(xs[1..], ys, sep);
    }
  }

  /** Joining a list with one more piece in front. */
  lemma JoinCons<T>(x: seq<T>, xs: seq<seq<T>>, sep: seq<T>)
    requires |xs| > 0
    ensures Join([x] + xs, sep) == x + sep + Join(xs, sep)
  {
    assert ([x] + xs)[1..] == xs;
  }

  /** Concatenation is associative. */
  lemma Concat<T>(a: seq<T>, b: seq<T>, c: seq<T>)
    ensures a + (b + c) == a + b + c
  {
  }

  /** Four lines joined by newlines. */
  lemma JoinFour(a: string, b: string, c: string, d: string)
    ensures Join([a, b, c, d], "\n") == a + "\n" + b + "\n" + c + "\n" + d
  {
    JoinCons(c, [d], "\n");
    JoinCons(b, [c, d], "\n");
    JoinCons(a, [b, c, d], "\n");
  }

  /** Five lines joined by newlines. */
  lemma JoinFive(a: string, b: string, c: string, d: string, e: string)
    ensures Join([a, b, c, d, e], "\n") == a + "\n" + b + "\n" + c + "\n" + d + "\n" + e
  {
    JoinFour(b, c, d, e);
    JoinCons(a, [b, c, d, e], "\n");
  }

  /** Number of occurrences of `c` in `s`. */
  function Count(s: string, c: char): nat
  {
    if |s| == 0 then 0 else (if s[0] == c then 1 else 0) + Count(s[1..], c)
  }

  /** `s` ends with `x`. */
  predicate EndsWith(s: string, x: string)
  {
    |s| >= |x| && s[|s| - |x|..] == x
  }

  /** A text of sections separated by `sep` starts with its first section and
      the separator, and ends the way its last section does, plus `nl`. */
  lemma SectionsFrame(h: string, e: string, t: string, k: string, sep: string, nl: string, x: string)
    requires EndsWith(k, x)
    ensures h + sep <= h + sep + e + sep + t + sep + k + nl
    ensures EndsWith(h + sep + e + sep + t + sep + k + nl, x + nl)
  {
    var p := h + sep + e + sep + t + sep;
    var r := p + k + nl;
    assert r[..|h + sep|] == h + sep by {
      assert p[..|h + sep|] == h + sep;
    }
    assert r[|r| - |x + nl|..] == x + nl by {
      assert r == p + (k + nl);
      assert (k + nl)[|k + nl| - |x + nl|..] == x + nl by {
        assert (k + nl)[|k| - |x|..] == k[|k| - |x|..] + nl;
      }
    }
  }

  /** `s.split(c)`: the maximal runs between occurrences of `c`. Like
      JavaScript's, it never returns an empty list: `"".split(",")` is `[""]`. */
  function Split(s: string, c: char): (r: seq<string>)
    ensures |r| >= 1
  {
    if |s| == 0 then [""]
    else
      var rest := Split(s[1..], c);
      if s[0] == c then [""] + rest else [[s[0]] + rest[0]] + rest[1..]
  }

  /** Splitting yields one more piece than there are separators. */
  lemma {:induction false} SplitCount(s: string, c: char)
    ensures |Split(s, c)| == Count(s, c) + 1
  {
    if |s| > 0 {
      SplitCount(s[1..], c);
    }
  }

  /** No piece contains the separator, nor any character absent from `s`. */
  lemma {:induction false} SplitPiecesExclude(s: string, c: char, d: char)
    requires d == c || d !in s
    ensures forall i :: 0 <= i < |Split(s, c)| ==> d !in Split(s, c)[i]
  {
    if |s| > 0 {
      SplitPiecesExclude(s[1..], c, d);
    }
  }

  /** A string without the separator splits into itself. */
  lemma {:induction false} SplitFree(s: string, c: char)
    requires c !in s
    ensures Split(s, c) == [s]
  {
    if |s| > 0 {
      assert c !in s[1..];
      SplitFree(s[1..], c);
      assert [s[0]] + s[1..] == s;
    }
  }

  /** Splitting distributes over a separator occurrence. */
  lemma {:induction false} SplitAppend(a: string, b: string, c: char)
    ensures Split(a + [c] + b, c) == Split(a, c) + Split(b, c)
  {
    if |a| == 0 {
      assert a + [c] + b == [c] + b;
      assert ([c] + b)[1..] == b;
    } else {
      assert (a + [c] + b)[1..] == a[1..] + [c] + b;
      assert (a + [c] + b)[0] == a[0];
      SplitAppend(a[1..], b, c);
    }
  }

  /** Joining the pieces of a split with the separator gives back the string. */
  lemma {:induction false} JoinSplit(s: string, c: char)
    ensures Join(Split(s, c), [c]) == s
  {
    if |s| > 0 {
      var rest := Split(s[1..], c);
      JoinSplit(s[1..], c);
      if s[0] == c {
        assert ([""] + rest)[1..] == rest;
      } else if |rest| > 1 {
        assert ([[s[0]] + rest[0]] + rest[1..])[1..] == rest[1..];
        assert s == [s[0]] + s[1..];
      } else {
        assert s == [s[0]] + s[1..];
      }
    }
  }

  /** Splitting a join of separator-free pieces gives back the pieces. */
  lemma {:induction false} SplitJoin(xs: seq<string>, c: char)
    requires |xs| >= 1
    requires forall i :: 0 <= i < |xs| ==> c !in xs[i]
    ensures Split(Join(xs, [c]), c) == xs
  {
    if |xs| == 1 {
      SplitFree(xs[0], c);
    } else {
      SplitJoin(xs[1..], c);
      SplitFree(xs[0], c);
      SplitAppend(xs[0], Join(xs[1..], [c]), c);
      assert xs[0] + [c] + Join(xs[1..], [c]) == Join(xs, [c]);
      assert [xs[0]] + xs[1..] == xs;
    }
  }

  /** `s.replace(c, '')`: deletes the first occurrence of `c`, if any. */
  function ReplaceFirst(s: string, c: char): (r: string)
    ensures c !in s ==> r == s
    ensures c in s ==> |r| == |s| - 1 && Count(r, c) == Count(s, c) - 1
    ensures forall d :: d in r ==> d in s
    ensures forall d :: d != c ==> Count(r, d) == Count(s, d)
  {
    if |s| == 0 then s
    else if s[0] == c then s[1..]
    else [s[0]] + ReplaceFirst(s[1..], c)
  }

  /** The deleted character is exactly the first occurrence. */
  lemma {:induction false} ReplaceFirstAt(s: string, c: char, i: nat)
    requires i < |s| && s[i] == c && c !in s[..i]
    ensures ReplaceFirst(s, c) == s[..i] + s[i + 1..]
  {
    if i > 0 {
      assert s[0] in s[..i];
      assert s[1..][..i - 1] == s[1..i];
      assert c !in s[1..][..i - 1];
      ReplaceFirstAt(s[1..], c, i - 1);
      assert s[..i] == [s[0]] + s[1..i];
      assert s[1..][i..] == s[i + 1..];
    }
  }

  /** Every element of every piece appears in the join. */
  lemma {:induction false} JoinContains<T>(xs: seq<seq<T>>, sep: seq<T>, i: nat, x: T)
    requires i < |xs| && x in xs[i]
    ensures x in Join(xs, sep)
  {
    if |xs| > 1 && i > 0 {
      JoinContains(xs[1..], sep, i - 1, x);
    }
  }

  /** A newline-free list of lines. */
  ghost predicate NoNewline(ls: seq<string>)
  {
    forall l | l in ls :: '\n' !in l
  }

  /** Joining newline-free line lists with a newline-free separator list gives
      newline-free lines. */
  lemma {:induction false} JoinNoNewline(bs: seq<seq<string>>, sep: seq<string>)
    requires forall i :: 0 <= i < |bs| ==> NoNewline(bs[i])
    requires NoNewline(sep)
    ensures NoNewline(Join(bs, sep))
  {
    if |bs| > 1 {
      JoinNoNewline(bs[1..], sep);
    }
  }

  /** Blocks of lines separated by one blank line; no blocks show as a single
      empty line (what `[].join('\n\n')` contributes to a template). */
  function Blocks(bs: seq<seq<string>>): seq<string>
  {
    if |bs| == 0 then [""] else Join(bs, [""])
  }

  /** A join whose first piece is non-empty is non-empty. */
  lemma {:induction false} JoinNonEmpty<T>(xs: seq<seq<T>>, sep: seq<T>)
    requires |xs| > 0 && |xs[0]| > 0
    ensures |Join(xs, sep)| > 0
  {
  }

  /** Joining texts with a blank line between them is the same as joining, line
      by line, their blocks of lines separated by an empty line. */
  lemma {:induction false} JoinBlocks(texts: seq<string>, bs: seq<seq<string>>)
    requires |texts| == |bs|
    requires forall i :: 0 <= i < |bs| ==> |bs[i]| > 0 && texts[i] == Join(bs[i], "\n")
    ensures Join(texts, "\n\n") == Join(Blocks(bs), "\n")
  {
    if |bs| > 1 {
      JoinBlocks(texts[1..], bs[1..]);
      var rest := Blocks(bs[1..]);
      JoinNonEmpty(bs[1..], [""]);
      assert Blocks(bs) == bs[0] + ([""] + rest);
      JoinAppend(bs[0], [""] + rest, "\n");
      assert ([""] + rest)[1..] == rest;
      assert Join([""] + rest, "\n") == "" + "\n" + Join(rest, "\n");
    }
  }

  /** Two lines, a non-empty block, two lines. */
  lemma JoinFramed<T>(a: seq<T>, b: seq<T>, body: seq<seq<T>>, c: seq<T>, d: seq<T>, sep: seq<T>)
    requires |body| > 0
    ensures Join([a, b] + body + [c, d], sep)
         == a + sep + b + sep + Join(body, sep) + sep + c + sep + d
  {
    var jb := Join(body, sep);
    var tail := body + [c, d];
    JoinCons(c, [d], sep);
    assert Join([c, d], sep) == c + sep + d;
    JoinAppend(body, [c, d], sep);
    assert Join(tail, sep) == jb + sep + (c + sep + d);
    JoinCons(b, tail, sep);
    JoinCons(a, [b] + tail, sep);
    assert [a, b] + body + [c, d] == [a] + ([b] + tail);
    assert Join([a, b] + body + [c, d], sep) == a + sep + (b + sep + (jb + sep + (c + sep + d)));
    FlattenFramed(a, b, jb, c, d, sep);
  }

  lemma FlattenFramed<T>(a: seq<T>, b: seq<T>, jb: seq<T>, c: seq<T>, d: seq<T>, sep: seq<T>)
    ensures a + sep + (b + sep + (jb + sep + (c + sep + d))) == a + sep + b + sep + jb + sep + c + sep + d
  {
  }

  /** A header line and three non-empty sections, each preceded by an empty
      line, and a final empty line. */
  lemma JoinSections<T>(h: seq<T>, e: seq<seq<T>>, t: seq<seq<T>>, k: seq<seq<T>>, sep: seq<T>)
    requires |e| > 0 && |t| > 0 && |k| > 0
    ensures Join([h, []] + e + [[]] + t + [[]] + k + [[]], sep)
         == h + (sep + sep) + Join(e, sep) + (sep + sep) + Join(t, sep) + (sep + sep) + Join(k, sep) + sep
  {
    var ss := sep + sep;
    var je, jt, jk := Join(e, sep), Join(t, sep), Join(k, sep);
    var s3 := k + [[]];
    var s2 := t + ([[]] + s3);
    var s1 := e + ([[]] + s2);
    JoinAppend(k, [[]], sep);
    assert Join(s3, sep) == jk + sep;
    JoinGap(t, s3, sep);
    assert Join(s2, sep) == jt + ss + (jk + sep);
    JoinGap(e, s2, sep);
    assert Join(s1, sep) == je + ss + (jt + ss + (jk + sep));
    JoinGap([h], s1, sep);
    assert Join([h], sep) == h;
    assert Join([h] + ([[]] + s1), sep) == h + ss + (je + ss + (jt + ss + (jk + sep)));
    SectionsShape(h, e, t, k);
    FlattenSections(h, je, jt, jk, sep, ss);
  }

  lemma SectionsShape<T>(h: seq<T>, e: seq<seq<T>>, t: seq<seq<T>>, k: seq<seq<T>>)
    ensures [h, []] + e + [[]] + t + [[]] + k + [[]] == [h] + ([[]] + (e + ([[]] + (t + ([[]] + (k + [[]]))))))
  {
  }

  lemma FlattenSections<T>(h: seq<T>, je: seq<T>, jt: seq<T>, jk: seq<T>, sep: seq<T>, ss: seq<T>)
    ensures h + ss + (je + ss + (jt + ss + (jk + sep))) == h + ss + je + ss + jt + ss + jk + sep
  {
  }

  /** Two non-empty line lists with one empty line between them. */
  lemma JoinGap<T>(x: seq<seq<T>>, y: seq<seq<T>>, sep: seq<T>)
    requires |x| > 0 && |y| > 0
    ensures Join(x + ([[]] + y), sep) == Join(x, sep) + (sep + sep) + Join(y, sep)
  {
    var jx := Join(x, sep);
    var jy := Join(y, sep);
    JoinCons([], y, sep);
    assert Join([[]] + y, sep) == sep + jy;
    JoinAppend(x, [[]] + y, sep);
    assert Join(x + ([[]] + y), sep) == jx + sep + (sep + jy);
    Concat(jx + sep, sep, jy);
    Concat(jx, sep, sep);
  }
}
