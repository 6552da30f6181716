/**
 The parts of Go's `strings` package that the driver relies on, on sequences of characters:
 white space, trimming, fields, splitting and the occurrence of one string in another.
 */
module GoStrings {

  /** Go's unicode.IsSpace, which TrimSpace and Fields use. */
  predicate IsSpace(c: char) {
    var n := c as int;
    || 9 <= n <= 13 || n == 0x20 || n == 0x85 || n == 0xA0 || n == 0x1680
    || 0x2000 <= n <= 0x200A || n == 0x2028 || n == 0x2029 || n == 0x202F || n == 0x205F || n == 0x3000
  }

  predicate Blank(s: string) {
    forall c | c in s :: IsSpace(c)
  }

  predicate HasPrefix(s: string, p: string) {
    p <= s
  }

  predicate HasSuffix(s: string, p: string) {
    |p| <= |s| && s[|s| - |p|..] == p
  }

  predicate OccursAt(sub: string, s: string, i: int) {
    0 <= i <= |s| - |sub| && s[i..i + |sub|] == sub
  }

  /** `sub` occurs in `s`: what the driver's own contains() is meant to decide. */
  predicate Occurs(sub: string, s: string) {
    exists i | 0 <= i <= |s| :: OccursAt(sub, s, i)
  }

  lemma OccursInside(sub: string, before: string, after: string)
    ensures Occurs(sub, before + sub + after)
  {
    assert OccursAt(sub, before + sub + after, |before|);
  }

  /** Putting text around a string keeps everything that occurs in it. */
  lemma OccursWrapped(sub: string, before: string, s: string, after: string)
    requires Occurs(sub, s)
    ensures Occurs(sub, before + s + after)
  {
    var i :| 0 <= i <= |s| && OccursAt(sub, s, i);
    var t := before + s + after;
    assert t[|before| + i..|before| + i + |sub|] == s[i..i + |sub|];
    assert OccursAt(sub, t, |before| + i);
  }

  /** What occurs around a separator that is not part of it occurs on one side. */
  lemma OccursApart(sub: string, before: string, sep: char, after: string)
    requires sep !in sub
    ensures Occurs(sub, before + [sep] + after) <==> Occurs(sub, before) || Occurs(sub, after)
  {
    var s := before + [sep] + after;
    if Occurs(sub, s) {
      var i :| 0 <= i <= |s| && OccursAt(sub, s, i);
      forall m | i <= m < i + |sub| ensures s[m] != sep && s[m] == sub[m - i] {
        assert s[i..i + |sub|][m - i] == s[m];
      }
      assert s[|before|] == sep;
      if i + |sub| <= |before| {
        assert before[i..i + |sub|] == sub;
        assert OccursAt(sub, before, i);
      } else {
        var j := i - |before| - 1;
        assert s[|before| + 1..] == after;
        assert s[i..i + |sub|] == s[|before| + 1..][j..j + |sub|];
        assert OccursAt(sub, after, j);
      }
    }
    if Occurs(sub, before) {
      OccursWrapped(sub, "", before, [sep] + after);
      assert "" + before + ([sep] + after) == s;
    }
    if Occurs(sub, after) {
      OccursWrapped(sub, before + [sep], after, "");
      assert before + [sep] + after + "" == s;
    }
  }

  /** A character in front matters only to what starts with it. */
  lemma OccursBehind(sub: string, c: char, s: string)
    requires sub != "" && sub[0] != c
    ensures Occurs(sub, [c] + s) <==> Occurs(sub, s)
  {
    var t := [c] + s;
    if Occurs(sub, t) {
      var i :| 0 <= i <= |t| && OccursAt(sub, t, i);
      assert t[i] == sub[0];
      assert s[i - 1..i - 1 + |sub|] == t[i..i + |sub|];
      assert OccursAt(sub, s, i - 1);
    }
    if Occurs(sub, s) {
      OccursWrapped(sub, [c], s, "");
      assert [c] + s + "" == t;
    }
  }

  /** Nothing occurs in a string that lacks one of its characters. */
  lemma LacksCharacter(sub: string, s: string, k: nat)
    requires k < |sub| && sub[k] !in s
    ensures !Occurs(sub, s)
  {
    forall i | 0 <= i <= |s| - |sub| ensures !OccursAt(sub, s, i) {
      assert s[i..i + |sub|][k] == s[i + k];
      assert s[i + k] in s;
    }
  }

  // ---------------------------------------------------------------- trimming

  /** Drops the characters of `cut` at both ends, as strings.Trim and strings.TrimSpace do. */
  function TrimFunc(s: string, cut: char -> bool): (r: string)
    decreases |s|
    ensures |r| <= |s|
    ensures r != "" ==> !cut(r[0]) && !cut(r[|r| - 1])
  {
    if s == "" then ""
    else if cut(s[0]) then TrimFunc(s[1..], cut)
    else if cut(s[|s| - 1]) then TrimFunc(s[..|s| - 1], cut)
    else s
  }

  function TrimSpace(s: string): string {
    TrimFunc(s, IsSpace)
  }

  /** Nothing to cut at either end. */
  predicate Tight(s: string, cut: char -> bool) {
    s != "" ==> !cut(s[0]) && !cut(s[|s| - 1])
  }

  /** Trimming removes exactly the padding: whatever is padded with cut characters comes back. */
  lemma {:induction false} TrimPadded(left: string, s: string, right: string, cut: char -> bool)
    requires Tight(s, cut)
    requires forall c | c in left :: cut(c)
    requires forall c | c in right :: cut(c)
    ensures TrimFunc(left + s + right, cut) == s
    decreases |left| + |right|
  {
    var t := left + s + right;
    if left != "" {
      assert t[0] == left[0] && t[1..] == left[1..] + s + right;
      TrimPadded(left[1..], s, right, cut);
    } else if s == "" && right != "" {
      assert t[0] == right[0] && t[1..] == "" + s + right[1..];
      TrimPadded("", s, right[1..], cut);
    } else if right != "" {
      assert t[|t| - 1] == right[|right| - 1];
      assert t[..|t| - 1] == "" + s + right[..|right| - 1];
      assert t[0] == s[0];
      TrimPadded("", s, right[..|right| - 1], cut);
    } else {
      assert t == s;
    }
  }

  // ---------------------------------------------------------------- lines

  /** strings.Split(s, string(sep)): the pieces between the separators, never empty. */
  function Split(s: string, sep: char): (r: seq<string>)
    ensures |r| >= 1
  {
    if s == "" then [""]
    else
      var rest := Split(s[1..], sep);
      if s[0] == sep then [""] + rest
      else [[s[0]] + rest[0]] + rest[1..]
  }

  /** The pieces with a separator after each. */
  function Terminated(pieces: seq<string>, sep: char): string {
    if pieces == [] then "" else pieces[0] + [sep] + Terminated(pieces[1..], sep)
  }

  /** No piece contains the separator. */
  predicate Pieces(pieces: seq<string>, sep: char) {
    forall i | 0 <= i < |pieces| :: sep !in pieces[i]
  }

  lemma {:induction false} SplitAtSeparator(piece: string, rest: string, sep: char)
    requires sep !in piece
    ensures Split(piece + [sep] + rest, sep) == [piece] + Split(rest, sep)
  {
    var s := piece + [sep] + rest;
    if piece == "" {
      assert s[1..] == rest;
    } else {
      assert s[1..] == piece[1..] + [sep] + rest;
      SplitAtSeparator(piece[1..], rest, sep);
      assert [s[0]] + piece[1..] == piece;
    }
  }

  /** What a first character does to the pieces. */
  function Prepend(c: char, sep: char, pieces: seq<string>): seq<string>
    requires |pieces| >= 1
  {
    if c == sep then [""] + pieces else [[c] + pieces[0]] + pieces[1..]
  }

  lemma PrependToFirst(c: char, sep: char, p: seq<string>, q: seq<string>)
    requires |p| >= 1
    ensures Prepend(c, sep, p + q) == Prepend(c, sep, p) + q
  {
    assert (p + q)[1..] == p[1..] + q;
  }

  /** A separator between two strings splits them apart. */
  lemma {:induction false} SplitJoined(a: string, sep: char, b: string)
    ensures Split(a + [sep] + b, sep) == Split(a, sep) + Split(b, sep)
  {
    var s := a + [sep] + b;
    if a == "" {
      assert s[1..] == b;
    } else {
      assert s[1..] == a[1..] + [sep] + b;
      SplitJoined(a[1..], sep, b);
      PrependToFirst(a[0], sep, Split(a[1..], sep), Split(b, sep));
      assert Split(s, sep) == Prepend(a[0], sep, Split(s[1..], sep));
      assert Split(a, sep) == Prepend(a[0], sep, Split(a[1..], sep));
    }
  }

  lemma {:induction false} SplitPiece(piece: string, sep: char)
    requires sep !in piece
    ensures Split(piece, sep) == [piece]
  {
    if piece != "" {
      SplitPiece(piece[1..], sep);
      assert [piece[0]] + piece[1..] == piece;
    }
  }

  /** Splitting terminated lines gives the lines back, and the empty piece behind the last. */
  lemma {:induction false} SplitTerminated(pieces: seq<string>, sep: char)
    requires Pieces(pieces, sep)
    ensures Split(Terminated(pieces, sep), sep) == pieces + [""]
  {
    if pieces != [] {
      SplitTerminated(pieces[1..], sep);
      SplitAtSeparator(pieces[0], Terminated(pieces[1..], sep), sep);
      assert pieces == [pieces[0]] + pieces[1..];
    }
  }

  // ---------------------------------------------------------------- fields

  /** How far the string runs before its first white space. */
  function WordLength(s: string): (n: nat)
    ensures n <= |s|
    ensures n < |s| ==> IsSpace(s[n])
    ensures forall i | 0 <= i < n :: !IsSpace(s[i])
  {
    if s == "" || IsSpace(s[0]) then 0 else 1 + WordLength(s[1..])
  }

  /** strings.Fields: the maximal runs of characters that are not white space. */
  function Fields(s: string): seq<string>
    decreases |s|
  {
    if s == "" then []
    else if IsSpace(s[0]) then Fields(s[1..])
    else
      var n := WordLength(s);
      [s[..n]] + Fields(s[n..])
  }

  predicate Word(w: string) {
    w != "" && forall c | c in w :: !IsSpace(c)
  }

  lemma {:induction false} WordLengthAt(w: string, rest: string)
    requires forall c | c in w :: !IsSpace(c)
    requires rest != "" ==> IsSpace(rest[0])
    ensures WordLength(w + rest) == |w|
  {
    if w == "" {
      assert w + rest == rest;
    } else {
      assert (w + rest)[1..] == w[1..] + rest;
      WordLengthAt(w[1..], rest);
    }
  }

  lemma FieldsOfWord(w: string, rest: string)
    requires Word(w)
    requires rest != "" ==> IsSpace(rest[0])
    ensures Fields(w + rest) == [w] + Fields(rest)
  {
    var s := w + rest;
    assert s[0] == w[0];
    WordLengthAt(w, rest);
    assert s[..|w|] == w && s[|w|..] == rest;
  }
}
