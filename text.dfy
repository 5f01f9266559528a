/**
 * The handful of JavaScript string operations the portal's pages rely on:
 * `toLowerCase` (restricted to ASCII letters), `includes`, `trim`,
 * `split` on a one-character separator and `Array.prototype.join`.
 */
module Text {

  // ---------------------------------------------------------------------------
  // Lower-casing (ASCII letters only)
  // ---------------------------------------------------------------------------

  predicate IsAsciiUpper(c: char) {
    'A' <= c <= 'Z'
  }

  function LowerChar(c: char): char {
    if IsAsciiUpper(c) then (c as int + 32) as char else c
  }

  /** `s.toLowerCase()` for ASCII: every upper-case letter is mapped to its lower-case form, nothing else moves. */
  function Lower(s: string): (r: string)
    ensures |r| == |s|
    ensures forall i :: 0 <= i < |s| ==> !IsAsciiUpper(r[i])
    ensures forall i :: 0 <= i < |s| && !IsAsciiUpper(s[i]) ==> r[i] == s[i]
    ensures forall i :: 0 <= i < |s| && IsAsciiUpper(s[i]) ==> r[i] as int == s[i] as int + 32
  {
    seq(|s|, i requires 0 <= i < |s| => LowerChar(s[i]))
  }

  /** Lower-casing twice is lower-casing once, so a lower-cased search term is unaffected by a second `toLowerCase`. */
  lemma LowerIdempotent(s: string)
    ensures Lower(Lower(s)) == Lower(s)
  {
  }

  // ---------------------------------------------------------------------------
  // Substring search
  // ---------------------------------------------------------------------------

  /** `s.includes(t)`: `t` is a prefix of `s` or of one of its suffixes. */
  predicate Includes(s: string, t: string)
    decreases |s|
  {
    t <= s || (|s| > 0 && Includes(s[1..], t))
  }

  /** Reference definition: `t` occurs in `s` starting at index `i`. */
  ghost predicate OccursAt(s: string, t: string, i: int) {
    0 <= i && i + |t| <= |s| && s[i..i + |t|] == t
  }

  /** When `t` is not a prefix of a non-empty `s`, it occurs in `s` iff it occurs in `s[1..]`. */
  lemma OccursInTail(s: string, t: string)
    requires |s| > 0 && !(t <= s)
    ensures (exists i :: OccursAt(s, t, i)) <==> (exists j :: OccursAt(s[1..], t, j))
  {
    if exists i :: OccursAt(s, t, i) {
      var i :| OccursAt(s, t, i);
      assert s[1..][i - 1..i - 1 + |t|] == s[i..i + |t|];
      assert OccursAt(s[1..], t, i - 1);
    }
    if exists j :: OccursAt(s[1..], t, j) {
      var j :| OccursAt(s[1..], t, j);
      assert s[1..][j..j + |t|] == s[j + 1..j + 1 + |t|];
      assert OccursAt(s, t, j + 1);
    }
  }

  /** The recursive search agrees with the positional definition in both directions. */
  lemma {:induction false} IncludesIffOccurs(s: string, t: string)
    ensures Includes(s, t) <==> exists i :: OccursAt(s, t, i)
    decreases |s|
  {
    if t <= s {
      assert OccursAt(s, t, 0);
    } else if |s| > 0 {
      IncludesIffOccurs(s[1..], t);
      OccursInTail(s, t);
    }
  }

  /** Every string includes the empty string. */
  lemma IncludesEmpty(s: string)
    ensures Includes(s, "")
  {
  }

  // ---------------------------------------------------------------------------
  // trim()
  // ---------------------------------------------------------------------------

  /**
   * The characters `String.prototype.trim` removes: ECMAScript WhiteSpace
   * (tab, vertical tab, form feed, byte-order mark and every space separator)
   * and LineTerminator (LF, CR, line and paragraph separators).
   */
  predicate IsWhitespace(c: char) {
    || c == '\t' || c == '\U{000B}' || c == '\U{000C}' || c == '\U{FEFF}'
    || c == ' ' || c == '\U{00A0}' || c == '\U{1680}' || ('\U{2000}' <= c <= '\U{200A}')
    || c == '\U{202F}' || c == '\U{205F}' || c == '\U{3000}'
    || c == '\n' || c == '\r' || c == '\U{2028}' || c == '\U{2029}'
  }

  predicate AllWhitespace(s: string) {
    forall i :: 0 <= i < |s| ==> IsWhitespace(s[i])
  }

  /** Neither end of `s` is whitespace: what `trim` leaves behind. */
  predicate IsTrimmed(s: string) {
    |s| == 0 || (!IsWhitespace(s[0]) && !IsWhitespace(s[|s| - 1]))
  }

  /** Drops the leading whitespace: the result is a suffix, the dropped part is whitespace, and the result does not start with whitespace. */
  function TrimStart(s: string): (r: string)
    ensures |r| <= |s| && r == s[|s| - |r|..]
    ensures AllWhitespace(s[..|s| - |r|])
    ensures |r| == 0 || !IsWhitespace(r[0])
    decreases |s|
  {
    if |s| > 0 && IsWhitespace(s[0]) then
      var r := TrimStart(s[1..]);
      assert s[..|s| - |r|] == [s[0]] + s[1..][..|s| - 1 - |r|];
      r
    else s
  }

  /** Drops the trailing whitespace: the result is a prefix, the dropped part is whitespace, and the result does not end with whitespace. */
  function TrimEnd(s: string): (r: string)
    ensures |r| <= |s| && r == s[..|r|]
    ensures AllWhitespace(s[|r|..])
    ensures |r| == 0 || !IsWhitespace(r[|r| - 1])
    decreases |s|
  {
    if |s| > 0 && IsWhitespace(s[|s| - 1]) then
      var r := TrimEnd(s[..|s| - 1]);
      assert s[|r|..] == s[..|s| - 1][|r|..] + [s[|s| - 1]];
      r
    else s
  }

  /** `s.trim()`: a contiguous piece of `s` with no whitespace at either end. */
  function Trim(s: string): (r: string)
    ensures IsTrimmed(r)
    ensures |r| <= |s|
  {
    TrimEnd(TrimStart(s))
  }

  lemma {:induction false} TrimStartSkips(p: string, y: string)
    requires AllWhitespace(p)
    requires |y| == 0 || !IsWhitespace(y[0])
    ensures TrimStart(p + y) == y
    decreases |p|
  {
    if |p| > 0 {
      assert (p + y)[1..] == p[1..] + y;
      TrimStartSkips(p[1..], y);
    }
  }

  lemma {:induction false} TrimEndSkips(y: string, q: string)
    requires AllWhitespace(q)
    requires |y| == 0 || !IsWhitespace(y[|y| - 1])
    ensures TrimEnd(y + q) == y
    decreases |q|
  {
    if |q| > 0 {
      assert (y + q)[..|y + q| - 1] == y + q[..|q| - 1];
      TrimEndSkips(y, q[..|q| - 1]);
    }
  }

  /** `trim` removes exactly the whitespace padding around an already-trimmed string. */
  lemma TrimUnpads(p: string, x: string, q: string)
    requires AllWhitespace(p) && AllWhitespace(q) && IsTrimmed(x)
    ensures Trim(p + x + q) == x
  {
    if |x| == 0 {
      assert p + x + q == (p + q) + "";
      TrimStartSkips(p + q, "");
    } else {
      assert p + x + q == p + (x + q);
      TrimStartSkips(p, x + q);
      TrimEndSkips(x, q);
    }
  }

  /** `xs.map(s => s.trim())`. */
  function TrimAll(xs: seq<string>): (r: seq<string>)
    ensures |r| == |xs|
    ensures forall i :: 0 <= i < |r| ==> IsTrimmed(r[i])
  {
    seq(|xs|, i requires 0 <= i < |xs| => Trim(xs[i]))
  }

  // ---------------------------------------------------------------------------
  // split(sep) and join(sep)
  // ---------------------------------------------------------------------------

  /** Number of occurrences of `c` in `s`. */
  function Count(s: string, c: char): nat
    decreases |s|
  {
    if |s| == 0 then 0 else (if s[0] == c then 1 else 0) + Count(s[1..], c)
  }

  /**
   * `s.split(sep)` for a one-character separator: one more piece than there
   * are separators (so `""` gives `[""]` and empty pieces are kept), and no
   * piece contains the separator.
   */
  function Split(s: string, sep: char): (r: seq<string>)
    ensures |r| == Count(s, sep) + 1
    ensures forall i :: 0 <= i < |r| ==> sep !in r[i]
    decreases |s|
  {
    if |s| == 0 then [""]
    else
      var rest := Split(s[1..], sep);
      if s[0] == sep then [""] + rest
      else [[s[0]] + rest[0]] + rest[1..]
  }

  /** `xs.join(sep)`: the pieces in order with `sep` between neighbours. */
  function Join(xs: seq<string>, sep: string): string
    decreases |xs|
  {
    if |xs| == 0 then ""
    else if |xs| == 1 then xs[0]
    else xs[0] + sep + Join(xs[1..], sep)
  }

  lemma JoinCons(x: string, ys: seq<string>, sep: string)
    requires |ys| >= 1
    ensures Join([x] + ys, sep) == x + sep + Join(ys, sep)
  {
    assert ([x] + ys)[1..] == ys;
  }

  /** Joining the pieces of a split with the same separator gives back the original string. */
  lemma {:induction false} JoinSplit(s: string, c: char)
    ensures Join(Split(s, c), [c]) == s
    decreases |s|
  {
    if |s| > 0 {
      var rest := Split(s[1..], c);
      JoinSplit(s[1..], c);
      if s[0] == c {
        JoinCons("", rest, [c]);
        assert s == [c] + s[1..];
      } else if |rest| == 1 {
        assert s == [s[0]] + s[1..];
      } else {
        JoinCons([s[0]] + rest[0], rest[1..], [c]);
        JoinCons(rest[0], rest[1..], [c]);
        assert rest == [rest[0]] + rest[1..];
        assert s == [s[0]] + s[1..];
      }
    }
  }

  lemma {:induction false} SplitNoSeparator(a: string, c: char)
    requires c !in a
    ensures Split(a, c) == [a]
    decreases |a|
  {
    if |a| > 0 {
      SplitNoSeparator(a[1..], c);
      assert a == [a[0]] + a[1..];
    }
  }

  lemma {:induction false} SplitAtSeparator(a: string, c: char, b: string)
    requires c !in a
    ensures Split(a + [c] + b, c) == [a] + Split(b, c)
    decreases |a|
  {
    var s := a + [c] + b;
    if |a| == 0 {
      assert s[1..] == b;
    } else {
      assert s[1..] == a[1..] + [c] + b;
      SplitAtSeparator(a[1..], c, b);
      assert a == [a[0]] + a[1..];
    }
  }

  /** Splitting a join of separator-free pieces gives back the pieces (a non-empty list: `[].join` is `""`, whose split is `[""]`). */
  lemma {:induction false} SplitJoin(xs: seq<string>, c: char)
    requires |xs| >= 1
    requires forall i :: 0 <= i < |xs| ==> c !in xs[i]
    ensures Split(Join(xs, [c]), c) == xs
    decreases |xs|
  {
    if |xs| == 1 {
      SplitNoSeparator(xs[0], c);
    } else {
      SplitJoin(xs[1..], c);
      SplitAtSeparator(xs[0], c, Join(xs[1..], [c]));
      assert xs == [xs[0]] + xs[1..];
    }
  }

  /** The pieces after the first, each preceded by a space. */
  function Spaced(ys: seq<string>): seq<string> {
    seq(|ys|, i requires 0 <= i < |ys| => " " + ys[i])
  }

  lemma JoinHeadPrefix(p: string, h: string, zs: seq<string>, sep: string)
    ensures Join([p + h] + zs, sep) == p + Join([h] + zs, sep)
  {
    if |zs| >= 1 {
      JoinCons(p + h, zs, sep);
      JoinCons(h, zs, sep);
    }
  }

  /** A `", "`-join is a `","`-join of the pieces with a space put in front of every piece but the first. */
  lemma {:induction false} JoinCommaSpace(h: string, ys: seq<string>)
    ensures Join([h] + ys, ", ") == Join([h] + Spaced(ys), ",")
    decreases |ys|
  {
    if |ys| >= 1 {
      JoinCons(h, ys, ", ");
      JoinCons(h, Spaced(ys), ",");
      assert ys == [ys[0]] + ys[1..];
      JoinCommaSpace(ys[0], ys[1..]);
      assert Spaced(ys) == [" " + ys[0]] + Spaced(ys[1..]);
      JoinHeadPrefix(" ", ys[0], Spaced(ys[1..]), ",");
    }
  }

  /** The pieces of a `", "`-join, seen as a `","`-join: every piece but the first gains a leading space. */
  function Padded(xs: seq<string>): (r: seq<string>)
    requires |xs| >= 1
    ensures |r| == |xs| && r[0] == xs[0]
    ensures forall i :: 1 <= i < |xs| ==> r[i] == " " + xs[i]
  {
    [xs[0]] + Spaced(xs[1..])
  }

  lemma PaddedCommaFree(xs: seq<string>)
    requires |xs| >= 1
    requires forall i :: 0 <= i < |xs| ==> ',' !in xs[i]
    ensures forall i :: 0 <= i < |Padded(xs)| ==> ',' !in Padded(xs)[i]
  {
    var padded := Padded(xs);
    forall i | 0 <= i < |padded|
      ensures ',' !in padded[i]
    {
      if i > 0 {
        assert padded[i] == " " + xs[i];
      }
    }
  }

  /** An already-trimmed string is its own `trim`. */
  lemma TrimTrimmed(x: string)
    requires IsTrimmed(x)
    ensures Trim(x) == x
  {
    TrimUnpads("", x, "");
    assert "" + x + "" == x;
  }

  /** Trimming a trimmed string with one leading space gives the string back. */
  lemma TrimSpaced(x: string)
    requires IsTrimmed(x)
    ensures Trim(" " + x) == x
  {
    TrimUnpads(" ", x, "");
    assert " " + x + "" == " " + x;
  }

  /** Piece `i` of a `", "`-join is trimmed back to `xs[i]`. */
  lemma TrimPaddedAt(xs: seq<string>, i: nat)
    requires i < |xs| && IsTrimmed(xs[i])
    ensures Trim(Padded(xs)[i]) == xs[i]
  {
    if i == 0 {
      TrimTrimmed(xs[0]);
    } else {
      TrimSpaced(xs[i]);
    }
  }

  /** The pieces of a `", "`-join are trimmed back to the original pieces. */
  lemma TrimPadded(xs: seq<string>)
    requires |xs| >= 1
    requires forall i :: 0 <= i < |xs| ==> IsTrimmed(xs[i])
    ensures TrimAll(Padded(xs)) == xs
  {
    var padded := Padded(xs);
    var r := TrimAll(padded);
    assert |r| == |xs|;
    forall i | 0 <= i < |xs|
      ensures r[i] == xs[i]
    {
      assert r[i] == Trim(padded[i]);
      TrimPaddedAt(xs, i);
    }
  }

  /** A `", "`-join of a non-empty list is the `","`-join of its padded pieces. */
  lemma JoinPadded(xs: seq<string>)
    requires |xs| >= 1
    ensures Join(xs, ", ") == Join(Padded(xs), ",")
  {
    assert xs == [xs[0]] + xs[1..];
    JoinCommaSpace(xs[0], xs[1..]);
  }

  /**
   * Round trip of the skills field: a non-empty list of trimmed, comma-free
   * entries, joined with `", "`, then split on `","` and trimmed, is the list
   * itself.
   */
  lemma SplitTrimJoin(xs: seq<string>)
    requires |xs| >= 1
    requires forall i :: 0 <= i < |xs| ==> ',' !in xs[i] && IsTrimmed(xs[i])
    ensures TrimAll(Split(Join(xs, ", "), ',')) == xs
  {
    JoinPadded(xs);
    PaddedCommaFree(xs);
    SplitJoin(Padded(xs), ',');
    TrimPadded(xs);
  }
}
