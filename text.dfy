/**
 * The few Python string builtins the bot relies on, on `seq<char>`:
 * `str.lower` (ASCII only), `str.splitlines` (on "\n" only), `"\n".join`,
 * the substring test `k in t`, `str.startswith`, the slice `s[n:]` and
 * `str(n)` of an integer, with a decimal parser as its inverse.
 */
module Text {
  import opened Wrappers

  // ---------------------------------------------------------------------------
  // Lower-casing
  // ---------------------------------------------------------------------------

  predicate IsUpper(c: char) {
    'A' <= c <= 'Z'
  }

  function LowerChar(c: char): (r: char)
    ensures !IsUpper(r)
    ensures !IsUpper(c) ==> r == c
  {
    if IsUpper(c) then (c as int + 32) as char else c
  }

  /** `s.lower()`, restricted to the ASCII letters. */
  function Lower(s: string): (r: string)
    ensures |r| == |s|
    ensures forall i :: 0 <= i < |r| ==> !IsUpper(r[i])
    ensures forall i :: 0 <= i < |s| && !IsUpper(s[i]) ==> r[i] == s[i]
    ensures forall i :: 0 <= i < |s| && IsUpper(s[i]) ==> r[i] == (s[i] as int + 32) as char
  {
    seq(|s|, i requires 0 <= i < |s| => LowerChar(s[i]))
  }

  /** Lower-casing twice is lower-casing once. */
  lemma LowerIdempotent(s: string)
    ensures Lower(Lower(s)) == Lower(s)
  {
  }

  // ---------------------------------------------------------------------------
  // Slicing and prefixes
  // ---------------------------------------------------------------------------

  /** Python's `s[n:]`: empty when `n` is past the end, never an error. */
  function SliceFrom(s: string, n: nat): (r: string)
    ensures n <= |s| ==> s == s[..n] + r
    ensures |s| <= n ==> r == ""
  {
    if n <= |s| then s[n..] else ""
  }

  /** Python's `s.startswith(p)`. */
  predicate StartsWith(s: string, p: string) {
    |p| <= |s| && s[..|p|] == p
  }

  /** Two prefixes of one string are prefixes of each other. */
  lemma PrefixesCompare(s: string, p: string, q: string)
    requires StartsWith(s, p) && StartsWith(s, q) && |p| <= |q|
    ensures StartsWith(q, p)
  {
    assert q[..|p|] == s[..|q|][..|p|] == s[..|p|];
  }

  // ---------------------------------------------------------------------------
  // Substring test
  // ---------------------------------------------------------------------------

  /** Python's `k in t` for strings, scanning `t` from the left. */
  function Contains(t: string, k: string): bool
    decreases |t|
  {
    StartsWith(t, k) || (|t| > 0 && Contains(t[1..], k))
  }

  /** `k` is found in `t` at position `i`. */
  ghost predicate OccursAt(t: string, k: string, i: int) {
    0 <= i && i + |k| <= |t| && t[i..i + |k|] == k
  }

  /** The scan finds `k` exactly when `k` occurs somewhere in `t`. */
  lemma {:induction false} ContainsIff(t: string, k: string)
    ensures Contains(t, k) <==> exists i :: OccursAt(t, k, i)
    decreases |t|
  {
    if StartsWith(t, k) {
      assert OccursAt(t, k, 0);
    } else if |t| > 0 {
      ContainsIff(t[1..], k);
      if exists i :: OccursAt(t[1..], k, i) {
        var i :| OccursAt(t[1..], k, i);
        assert t[i + 1..i + 1 + |k|] == t[1..][i..i + |k|];
        assert OccursAt(t, k, i + 1);
      }
      forall i | OccursAt(t, k, i) ensures OccursAt(t[1..], k, i - 1) {
        assert i != 0;
        assert t[1..][i - 1..i - 1 + |k|] == t[i..i + |k|];
      }
    }
  }

  /** A string is found inside anything built around it. */
  lemma ContainsInfix(a: string, k: string, b: string)
    ensures Contains(a + k + b, k)
  {
    var t := a + k + b;
    assert t[|a|..|a| + |k|] == k;
    assert OccursAt(t, k, |a|);
    ContainsIff(t, k);
  }

  /** What is found in a part is found in the whole. */
  lemma ContainsWithin(a: string, b: string, c: string, k: string)
    requires Contains(b, k)
    ensures Contains(a + b + c, k)
  {
    ContainsIff(b, k);
    var i :| OccursAt(b, k, i);
    var t := a + b + c;
    assert t[|a| + i..|a| + i + |k|] == b[i..i + |k|];
    assert OccursAt(t, k, |a| + i);
    ContainsIff(t, k);
  }

  /** Every occurrence of `k` in a lower-cased string is lower-case itself. */
  lemma ContainsLowered(t: string, k: string, j: nat)
    requires Contains(Lower(t), k) && j < |k|
    ensures !IsUpper(k[j])
  {
    ContainsIff(Lower(t), k);
    var i :| OccursAt(Lower(t), k, i);
    assert k[j] == Lower(t)[i..i + |k|][j] == Lower(t)[i + j];
  }

  /** Lower-casing keeps every occurrence: what `t` contains in any casing, `Lower(t)` contains lower-cased. */
  lemma ContainsLower(t: string, w: string)
    requires Contains(t, w)
    ensures Contains(Lower(t), Lower(w))
  {
    ContainsIff(t, w);
    var i :| OccursAt(t, w, i);
    forall j | 0 <= j < |w| ensures Lower(t)[i..i + |w|][j] == Lower(w)[j] {
      assert t[i + j] == t[i..i + |w|][j] == w[j];
    }
    assert Lower(t)[i..i + |w|] == Lower(w);
    assert OccursAt(Lower(t), Lower(w), i);
    ContainsIff(Lower(t), Lower(w));
  }

  // ---------------------------------------------------------------------------
  // Lines: split, join and Python's splitlines
  // ---------------------------------------------------------------------------

  /** Cut `s` at every "\n"; always at least one piece (Python's `s.split("\n")`). */
  function Split(s: string): (r: seq<string>)
    ensures |r| >= 1
  {
    if s == [] then [""]
    else if s[0] == '\n' then [""] + Split(s[1..])
    else var t := Split(s[1..]); [[s[0]] + t[0]] + t[1..]
  }

  /** `"\n".join(ls)`. */
  function Join(ls: seq<string>): string {
    if |ls| == 0 then ""
    else if |ls| == 1 then ls[0]
    else ls[0] + "\n" + Join(ls[1..])
  }

  /**
   * `s.splitlines()`, with "\n" as the only line break: the pieces of `s`,
   * without the empty piece after a final "\n"; the empty text has no lines.
   */
  function Lines(s: string): seq<string> {
    if s == "" then []
    else
      var p := Split(s);
      if p[|p| - 1] == "" then p[..|p| - 1] else p
  }

  predicate NoNewline(l: string) {
    '\n' !in l
  }

  lemma SplitNewlineCons(r: string)
    ensures Split("\n" + r) == [""] + Split(r)
  {
    assert ("\n" + r)[1..] == r;
  }

  lemma SplitCharCons(c: char, r: string)
    requires c != '\n'
    ensures Split([c] + r) == [[c] + Split(r)[0]] + Split(r)[1..]
  {
    assert ([c] + r)[1..] == r;
  }

  /** Cutting at the newline between two texts cuts each of them on its own. */
  lemma {:induction false} SplitAppend(a: string, b: string)
    ensures Split(a + "\n" + b) == Split(a) + Split(b)
    decreases |a|
  {
    var s := a + "\n" + b;
    if a == [] {
      assert s == "\n" + b;
      SplitNewlineCons(b);
    } else {
      assert s[0] == a[0] && s[1..] == a[1..] + "\n" + b;
      SplitAppend(a[1..], b);
      var u, v := Split(a[1..]), Split(b);
      if a[0] == '\n' {
        PushAppend(u, v);
      } else {
        ExtendAppend([a[0]], u, v);
      }
    }
  }

  lemma PushAppend(u: seq<string>, v: seq<string>)
    ensures [""] + (u + v) == ([""] + u) + v
  {
  }

  lemma ExtendAppend(x: string, u: seq<string>, v: seq<string>)
    requires |u| >= 1
    ensures [x + (u + v)[0]] + (u + v)[1..] == ([x + u[0]] + u[1..]) + v
  {
    assert (u + v)[0] == u[0];
    assert (u + v)[1..] == u[1..] + v;
  }

  /** Joining the pieces gives the text back. */
  lemma {:induction false} JoinSplit(s: string)
    ensures Join(Split(s)) == s
    decreases |s|
  {
    if s != [] {
      JoinSplit(s[1..]);
      var t := Split(s[1..]);
      if s[0] == '\n' {
        assert Split(s)[1..] == t;
      } else {
        if |t| > 1 {
          assert Join(t) == t[0] + "\n" + Join(t[1..]);
          assert Split(s)[1..] == t[1..];
        }
      }
    }
  }

  /** No piece holds a line break. */
  lemma {:induction false} SplitNoNewline(s: string)
    ensures forall l :: l in Split(s) ==> NoNewline(l)
    decreases |s|
  {
    if s != [] {
      SplitNoNewline(s[1..]);
      var t := Split(s[1..]);
      if s[0] != '\n' {
        assert t[0] in t;
        assert forall l :: l in t[1..] ==> l in t;
      }
    }
  }

  /** A text without line breaks is a single piece. */
  lemma {:induction false} SplitSingle(s: string)
    requires NoNewline(s)
    ensures Split(s) == [s]
    decreases |s|
  {
    if s != [] {
      assert s[0] in s;
      assert forall c :: c in s[1..] ==> c in s;
      SplitSingle(s[1..]);
      assert [s[0]] + s[1..] == s;
    }
  }

  /** Pieces without line breaks survive a join followed by a split. */
  lemma {:induction false} SplitJoin(ls: seq<string>)
    requires |ls| >= 1
    requires forall l :: l in ls ==> NoNewline(l)
    ensures Split(Join(ls)) == ls
    decreases |ls|
  {
    if |ls| == 1 {
      SplitSingle(ls[0]);
    } else {
      assert ls[0] in ls;
      assert forall l :: l in ls[1..] ==> l in ls;
      SplitJoin(ls[1..]);
      SplitSingle(ls[0]);
      SplitAppend(ls[0], Join(ls[1..]));
    }
  }

  /** Every character of a piece is a character of the text. */
  lemma {:induction false} SplitChars(s: string)
    ensures forall l, c :: l in Split(s) && c in l ==> c in s
    decreases |s|
  {
    if s != [] {
      SplitChars(s[1..]);
      var t := Split(s[1..]);
      forall l, c | l in Split(s) && c in l ensures c in s {
        if s[0] != '\n' && l == [s[0]] + t[0] && c != s[0] {
          assert c in t[0];
          assert c in s[1..];
        } else if l != [s[0]] + t[0] && c != s[0] {
          assert l in t;
          assert c in s[1..];
        }
      }
    }
  }

  /** The lines are the pieces, save one empty piece at the very end. */
  lemma LinesOfSplit(s: string)
    ensures Lines(s) <= Split(s)
    ensures Split(s) == Lines(s) || Split(s) == Lines(s) + [""]
  {
    var p := Split(s);
    if s == "" {
      assert p == [""];
    } else if p[|p| - 1] == "" {
      assert p == p[..|p| - 1] + [""];
    }
  }

  /** No line holds a line break, and every character of a line is one of the text's. */
  lemma LinesAreClean(s: string)
    ensures forall l :: l in Lines(s) ==> NoNewline(l)
    ensures forall l, c :: l in Lines(s) && c in l ==> c in s
  {
    SplitNoNewline(s);
    SplitChars(s);
    LinesOfSplit(s);
    forall l | l in Lines(s) ensures l in Split(s) {
      var i :| 0 <= i < |Lines(s)| && Lines(s)[i] == l;
      assert Split(s)[i] == l;
    }
  }

  /** The last piece is empty only for the empty text or one ending in a line break. */
  lemma {:induction false} SplitLastEmpty(s: string)
    ensures var p := Split(s); p[|p| - 1] == "" ==> s == "" || s[|s| - 1] == '\n'
    decreases |s|
  {
    if s != [] {
      SplitLastEmpty(s[1..]);
      var t := Split(s[1..]);
      if s[0] != '\n' && |t| > 1 {
        assert Split(s)[|Split(s)| - 1] == t[|t| - 1];
      }
      if s[1..] != [] {
        assert s[|s| - 1] == s[1..][|s[1..]| - 1];
      }
    }
  }

  /** A text not ending in a line break, and not empty, has all its pieces as lines. */
  lemma LinesAllPieces(s: string)
    requires s != "" && s[|s| - 1] != '\n'
    ensures Lines(s) == Split(s)
  {
    SplitLastEmpty(s);
  }

  /**
   * Appending "\n" and a further text to a file: the old text's pieces are kept
   * in full (an old trailing empty piece becomes an empty line), followed by
   * the new text's lines.
   */
  lemma LinesAppend(a: string, b: string)
    ensures Lines(a + "\n" + b) == Split(a) + Lines(b)
  {
    var s := a + "\n" + b;
    SplitAppend(a, b);
    var x, q := Split(a), Split(b);
    DropLastAppend(x, q);
    assert s != "";
    if b == "" {
      assert q == [""];
    }
  }

  lemma DropLastAppend(x: seq<string>, q: seq<string>)
    requires |q| >= 1
    ensures (x + q)[|x + q| - 1] == q[|q| - 1]
    ensures (x + q)[..|x + q| - 1] == x + q[..|q| - 1]
  {
  }

  /** Python's `str.splitlines` result joined back: the text, less at most one final "\n". */
  lemma JoinLines(s: string)
    ensures Join(Lines(s)) == s || Join(Lines(s)) + "\n" == s
  {
    JoinSplit(s);
    LinesOfSplit(s);
    var p := Split(s);
    if p != Lines(s) {
      var ls := Lines(s);
      if |ls| == 0 {
        assert p == [""];
      } else {
        JoinSnoc(ls, "");
      }
    }
  }

  /** Joining one more part puts a separator before it. */
  lemma {:induction false} JoinSnoc(ls: seq<string>, x: string)
    requires |ls| >= 1
    ensures Join(ls + [x]) == Join(ls) + "\n" + x
    decreases |ls|
  {
    if |ls| == 1 {
      assert (ls + [x])[1..] == [x];
    } else {
      JoinSnoc(ls[1..], x);
      assert (ls + [x])[1..] == ls[1..] + [x];
    }
  }

  // ---------------------------------------------------------------------------
  // Decimal numbers: Python's str(n) and its inverse
  // ---------------------------------------------------------------------------

  predicate IsDigit(c: char) {
    '0' <= c <= '9'
  }

  function DigitChar(d: nat): (c: char)
    requires d < 10
    ensures IsDigit(c)
  {
    ('0' as int + d) as char
  }

  function DigitValue(c: char): nat
    requires IsDigit(c)
  {
    c as int - '0' as int
  }

  function NatToString(n: nat): (r: string)
    ensures |r| >= 1
    ensures forall i :: 0 <= i < |r| ==> IsDigit(r[i])
    decreases n
  {
    if n < 10 then [DigitChar(n)] else NatToString(n / 10) + [DigitChar(n % 10)]
  }

  /** Python's `str(n)` for an int: decimal digits, "-" in front of a negative value. */
  function IntToString(n: int): string {
    if n < 0 then "-" + NatToString(-n) else NatToString(n)
  }

  predicate AllDigits(s: string) {
    forall i :: 0 <= i < |s| ==> IsDigit(s[i])
  }

  function DigitsValue(s: string): nat
    requires AllDigits(s)
  {
    if s == [] then 0 else DigitsValue(s[..|s| - 1]) * 10 + DigitValue(s[|s| - 1])
  }

  /** The integer a decimal text with an optional leading "-" denotes. */
  function ParseInt(s: string): Option<int> {
    if |s| >= 2 && s[0] == '-' && AllDigits(s[1..]) then Some(-(DigitsValue(s[1..]) as int))
    else if |s| >= 1 && AllDigits(s) then Some(DigitsValue(s))
    else None
  }

  lemma {:induction false} NatToStringValue(n: nat)
    ensures DigitsValue(NatToString(n)) == n
    decreases n
  {
    var s := NatToString(n);
    if n < 10 {
      assert s == [DigitChar(n)];
      assert s[..|s| - 1] == [];
    } else {
      NatToStringValue(n / 10);
      assert s[..|s| - 1] == NatToString(n / 10);
      assert s[|s| - 1] == DigitChar(n % 10);
      assert DigitValue(DigitChar(n % 10)) == n % 10;
      assert (n / 10) * 10 + n % 10 == n;
    }
  }

  /** Reading back what `str(n)` wrote gives `n`. */
  lemma ParseIntToString(n: int)
    ensures ParseInt(IntToString(n)) == Some(n)
  {
    var s := IntToString(n);
    if n < 0 {
      NatToStringValue(-n);
      assert s == "-" + NatToString(-n);
      assert s[0] == '-' && |s| >= 2;
      assert s[1..] == NatToString(-n);
      assert AllDigits(s[1..]);
    } else {
      NatToStringValue(n);
      assert s == NatToString(n);
      assert s[0] != '-';
      assert AllDigits(s);
    }
  }

  /** Different integers print differently. */
  lemma IntToStringInjective(m: int, n: int)
    requires IntToString(m) == IntToString(n)
    ensures m == n
  {
    ParseIntToString(m);
    ParseIntToString(n);
  }
}
