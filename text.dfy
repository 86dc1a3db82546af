/**
 * The string operations of .NET that the client relies on, on `string`
 * (that is, `seq<char>`): `string.Replace` with a one-character pattern,
 * ordinal `string.Contains`, and joining pieces with a separator the way the
 * client's `foreach` loops and `StringBuilder` appends do.
 */
module Text {

  /** The pieces of `xs`, one after another. */
  function Concat(xs: seq<string>): string
  {
    if |xs| == 0 then [] else xs[0] + Concat(xs[1..])
  }

  lemma {:induction false} ConcatAppend(xs: seq<string>, ys: seq<string>)
    ensures Concat(xs + ys) == Concat(xs) + Concat(ys)
  {
    if |xs| == 0 {
      assert xs + ys == ys;
    } else {
      assert (xs + ys)[0] == xs[0];
      assert (xs + ys)[1..] == xs[1..] + ys;
      ConcatAppend(xs[1..], ys);
    }
  }

  /**
   * `s.Replace(c.ToString(), r)`: every occurrence of `c`, scanned left to
   * right, becomes `r`, and every other character stays as it is.
   */
  function ReplaceChar(s: string, c: char, r: string): string
  {
    Concat(seq(|s|, i requires 0 <= i < |s| => if s[i] == c then r else [s[i]]))
  }

  /** Replacing a character distributes over concatenation. */
  lemma ReplaceCharAppend(a: string, b: string, c: char, r: string)
    ensures ReplaceChar(a + b, c, r) == ReplaceChar(a, c, r) + ReplaceChar(b, c, r)
  {
    var pa := seq(|a|, i requires 0 <= i < |a| => if a[i] == c then r else [a[i]]);
    var pb := seq(|b|, i requires 0 <= i < |b| => if b[i] == c then r else [b[i]]);
    var ab := a + b;
    assert seq(|ab|, i requires 0 <= i < |ab| => if ab[i] == c then r else [ab[i]]) == pa + pb;
    ConcatAppend(pa, pb);
  }

  /** One character: `r` if it is `c`, itself otherwise. */
  lemma ReplaceCharSingle(x: char, c: char, r: string)
    ensures ReplaceChar([x], c, r) == if x == c then r else [x]
  {
    var s := [x];
    var p := seq(|s|, i requires 0 <= i < |s| => if s[i] == c then r else [s[i]]);
    assert p[1..] == [];
    assert Concat(p) == p[0] + Concat([]);
  }

  /** A string without `c` is left as it is. */
  lemma {:induction false} ReplaceCharNone(s: string, c: char, r: string)
    requires forall i :: 0 <= i < |s| ==> s[i] != c
    ensures ReplaceChar(s, c, r) == s
  {
    if |s| != 0 {
      assert s == [s[0]] + s[1..];
      ReplaceCharAppend([s[0]], s[1..], c, r);
      ReplaceCharSingle(s[0], c, r);
      ReplaceCharNone(s[1..], c, r);
    } else {
      assert ReplaceChar(s, c, r) == Concat([]);
    }
  }

  /** `p` occurs in `s` starting at index `i`. */
  predicate OccursAt(s: string, p: string, i: int)
  {
    0 <= i && i + |p| <= |s| && s[i..i + |p|] == p
  }

  /** Ordinal `s.Contains(p)`: compare `p` with every window of `s`, from the left. */
  function Contains(s: string, p: string): bool
    decreases |s|
  {
    |p| <= |s| && (s[..|p|] == p || Contains(s[1..], p))
  }

  /** `Contains` finds exactly the occurrences `OccursAt` describes. */
  lemma {:induction false} ContainsIffOccurs(s: string, p: string)
    ensures Contains(s, p) <==> exists i :: OccursAt(s, p, i)
    decreases |s|
  {
    if |p| > |s| {
      assert forall i :: !OccursAt(s, p, i);
    } else if s[..|p|] == p {
      assert OccursAt(s, p, 0);
    } else {
      ContainsIffOccurs(s[1..], p);
      forall i | OccursAt(s, p, i)
        ensures OccursAt(s[1..], p, i - 1)
      {
        assert i != 0;
        assert s[1..][i - 1..i - 1 + |p|] == s[i..i + |p|];
      }
      if Contains(s[1..], p) {
        var i :| OccursAt(s[1..], p, i);
        assert s[1..][i..i + |p|] == s[i + 1..i + 1 + |p|];
        assert OccursAt(s, p, i + 1);
      }
    }
  }

  /**
   * `xs` with `sep` between consecutive elements and nowhere else. Defined
   * from the right end, so that the loop that appends one more element
   * (`acc += (acc.Length != 0 ? sep : "") + x`) is one unfolding away.
   */
  function Join(sep: string, xs: seq<string>): string
  {
    if |xs| == 0 then ""
    else if |xs| == 1 then xs[0]
    else Join(sep, xs[..|xs| - 1]) + sep + xs[|xs| - 1]
  }

  /** Appending one element: the separator goes in only when something is already there. */
  lemma JoinSnoc(sep: string, xs: seq<string>, x: string)
    ensures Join(sep, xs + [x]) == if xs == [] then x else Join(sep, xs) + sep + x
  {
    assert (xs + [x])[..|xs|] == xs;
  }

  /** A join of non-empty pieces is empty exactly when there are no pieces. */
  lemma {:induction false} JoinEmptyIff(sep: string, xs: seq<string>)
    requires forall i :: 0 <= i < |xs| ==> xs[i] != ""
    ensures Join(sep, xs) == "" <==> xs == []
  {
    if |xs| > 1 {
      assert |Join(sep, xs)| >= |xs[|xs| - 1]| > 0;
    }
  }

  /** A non-empty join ends with its last piece. */
  lemma JoinEndsWithLast(sep: string, xs: seq<string>)
    requires xs != []
    ensures |Join(sep, xs)| >= |xs[|xs| - 1]|
    ensures Join(sep, xs)[|Join(sep, xs)| - |xs[|xs| - 1]|..] == xs[|xs| - 1]
  {
  }

  /** A braced join ends with the last character of its last piece, then the brace. */
  lemma BracedJoinEnd(sep: string, xs: seq<string>)
    requires xs != [] && xs[|xs| - 1] != []
    ensures var o := "{" + Join(sep, xs) + "}"; var x := xs[|xs| - 1];
      |o| >= 3 && o[0] == '{' && o[|o| - 1] == '}' && o[|o| - 2] == x[|x| - 1]
  {
    JoinEndsWithLast(sep, xs);
  }

  /** A braced join whose last piece does not end with `c` has no `c` before the closing brace. */
  lemma BracedJoinLastChar(sep: string, xs: seq<string>, c: char)
    requires xs != [] && xs[|xs| - 1] != [] && xs[|xs| - 1][|xs[|xs| - 1]| - 1] != c
    ensures var o := "{" + Join(sep, xs) + "}";
      |o| >= 3 && o[0] == '{' && o[|o| - 1] == '}' && o[|o| - 2] != c
  {
    BracedJoinEnd(sep, xs);
  }

  /**
   * One turn of the joining loop: appending the next non-empty piece, after
   * the separator when something is already there, extends the join by
   * that piece.
   */
  lemma JoinStep(sep: string, pieces: seq<string>, i: nat, acc: string)
    requires i < |pieces| && pieces[i] != ""
    requires acc == Join(sep, pieces[..i]) && (acc == "" <==> i == 0)
    ensures var acc' := acc + (if |acc| != 0 then sep else "") + pieces[i];
      acc' == Join(sep, pieces[..i + 1]) && acc' != ""
  {
    TakeSnoc(pieces, i);
    JoinSnoc(sep, pieces[..i], pieces[i]);
  }

  /** `f` applied to every element of `xs`, in order. */
  function Map<A, B>(f: A -> B, xs: seq<A>): (r: seq<B>)
    ensures |r| == |xs| && forall i :: 0 <= i < |xs| ==> r[i] == f(xs[i])
  {
    seq(|xs|, i requires 0 <= i < |xs| => f(xs[i]))
  }

  /** Extending a prefix by one element (stated once, so that callers do not reason about sequence equality). */
  lemma TakeSnoc<T>(s: seq<T>, i: nat)
    requires i < |s|
    ensures s[..i + 1] == s[..i] + [s[i]]
  {
  }

  lemma TakeAll<T>(s: seq<T>)
    ensures s[..|s|] == s
  {
  }

  lemma MapSnoc<A, B>(f: A -> B, xs: seq<A>, x: A)
    ensures Map(f, xs + [x]) == Map(f, xs) + [f(x)]
  {
  }
}
