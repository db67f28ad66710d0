/**
  The string primitives the FIRMS parser relies on: JavaScript's
  `String.prototype.trim`, `toLowerCase` (restricted to ASCII letters),
  `split(',')` on a single character, and `split(/\r?\n/)`.
 */
module Text {

  /** The characters `trim` removes: ECMAScript WhiteSpace and LineTerminator. */
  predicate IsWs(c: char)
  {
    || c == '\t' || c == '\n' || c == '\U{000B}' || c == '\U{000C}' || c == '\r' || c == ' '
    || c == '\U{00A0}' || c == '\U{1680}' || ('\U{2000}' <= c <= '\U{200A}')
    || c == '\U{2028}' || c == '\U{2029}' || c == '\U{202F}' || c == '\U{205F}'
    || c == '\U{3000}' || c == '\U{FEFF}'
  }

  /** A string with no removable whitespace at either end. */
  predicate Trimmed(s: string)
  {
    s == [] || (!IsWs(s[0]) && !IsWs(s[|s| - 1]))
  }

  /** `s` with its leading whitespace removed. */
  function TrimStart(s: string): (r: string)
    ensures |r| <= |s|
  {
    if s != [] && IsWs(s[0]) then TrimStart(s[1..]) else s
  }

  /** `TrimStart(s)` is the suffix of `s` after its leading whitespace. */
  lemma {:induction false} TrimStartSpec(s: string)
    ensures var r := TrimStart(s);
      && |r| <= |s| && r == s[|s| - |r|..]
      && (forall k :: 0 <= k < |s| - |r| ==> IsWs(s[k]))
      && (r == [] || !IsWs(r[0]))
  {
    if s != [] && IsWs(s[0]) {
      TrimStartSpec(s[1..]);
    }
  }

  /** `s` with its trailing whitespace removed. */
  function TrimEnd(s: string): (r: string)
    ensures |r| <= |s|
  {
    if s != [] && IsWs(s[|s| - 1]) then TrimEnd(s[..|s| - 1]) else s
  }

  /** `TrimEnd(s)` is the prefix of `s` before its trailing whitespace. */
  lemma {:induction false} TrimEndSpec(s: string)
    ensures var r := TrimEnd(s);
      && |r| <= |s| && r == s[..|r|]
      && (forall k :: |r| <= k < |s| ==> IsWs(s[k]))
      && (r == [] || !IsWs(r[|r| - 1]))
  {
    if s != [] && IsWs(s[|s| - 1]) {
      TrimEndSpec(s[..|s| - 1]);
    }
  }

  /** `s.trim()`: whitespace removed from both ends. */
  function Trim(s: string): string
  {
    TrimEnd(TrimStart(s))
  }

  /** What `trim` leaves has no whitespace at either end. */
  lemma TrimTrimmed(s: string)
    ensures Trimmed(Trim(s))
  {
    var t := TrimStart(s);
    TrimStartSpec(s);
    TrimEndSpec(t);
    assert TrimEnd(t) == [] || TrimEnd(t)[0] == t[0];
  }

  /** `Trim(s)` is the infix of `s` that starts after its leading whitespace. */
  lemma TrimInfix(s: string)
    ensures var i := |s| - |TrimStart(s)|;
      i + |Trim(s)| <= |s| && Trim(s) == s[i..i + |Trim(s)|]
  {
    var t := TrimStart(s);
    TrimStartSpec(s);
    TrimEndSpec(t);
    var r, i := TrimEnd(t), |s| - |t|;
    assert t == s[i..] && r == t[..|r|];
  }

  /** Only whitespace is removed: every character around `Trim(s)` is whitespace. */
  lemma TrimRemovesWhitespace(s: string)
    ensures var i := |s| - |TrimStart(s)|;
      forall k :: 0 <= k < |s| && !(i <= k < i + |Trim(s)|) ==> IsWs(s[k])
  {
    var t := TrimStart(s);
    TrimStartSpec(s);
    TrimEndSpec(t);
    var r, i := TrimEnd(t), |s| - |t|;
    assert t == s[i..];
    forall k | i + |r| <= k < |s| ensures IsWs(s[k]) {
      assert s[k] == t[k - i];
    }
  }

  /** Trimming cannot introduce a character. */
  lemma TrimKeepsOut(s: string, c: char)
    requires c !in s
    ensures c !in Trim(s)
  {
    TrimInfix(s);
    var r, i := Trim(s), |s| - |TrimStart(s)|;
    forall k | 0 <= k < |r| ensures r[k] != c {
      assert r[k] == s[i + k];
    }
  }

  /** A trimmed string is left alone. */
  lemma TrimOfTrimmed(s: string)
    requires Trimmed(s)
    ensures Trim(s) == s
  {
  }

  /** Trimming twice is trimming once. */
  lemma TrimIdempotent(s: string)
    ensures Trim(Trim(s)) == Trim(s)
  {
    TrimTrimmed(s);
    TrimOfTrimmed(Trim(s));
  }

  /** `xs.map((s) => s.trim())`. */
  function TrimAll(xs: seq<string>): (r: seq<string>)
    ensures |r| == |xs|
    ensures forall k :: 0 <= k < |r| ==> r[k] == Trim(xs[k])
  {
    seq(|xs|, k requires 0 <= k < |xs| => Trim(xs[k]))
  }

  /** Every trimmed element is trimmed, so trimming the elements again changes nothing. */
  lemma TrimAllTrimmed(xs: seq<string>)
    ensures forall k :: 0 <= k < |TrimAll(xs)| ==> Trimmed(TrimAll(xs)[k])
    ensures TrimAll(TrimAll(xs)) == TrimAll(xs)
  {
    forall k | 0 <= k < |xs| ensures Trimmed(Trim(xs[k])) && Trim(Trim(xs[k])) == Trim(xs[k]) {
      TrimTrimmed(xs[k]);
      TrimIdempotent(xs[k]);
    }
  }

  /** ASCII case folding, one character. */
  function LowerChar(c: char): (r: char)
  {
    if 'A' <= c <= 'Z' then (c as int - 'A' as int + 'a' as int) as char else c
  }

  /** `s.toLowerCase()` restricted to the ASCII letters. */
  function Lower(s: string): (r: string)
    ensures |r| == |s|
    ensures forall k :: 0 <= k < |s| ==> r[k] == LowerChar(s[k])
  {
    seq(|s|, k requires 0 <= k < |s| => LowerChar(s[k]))
  }

  /** An ASCII capital letter. */
  predicate IsUpper(c: char)
  {
    'A' <= c <= 'Z'
  }

  /**
    Lower-casing leaves no capital letter, so doing it again changes
    nothing, and it leaves a string alone exactly when it has no capital.
   */
  lemma LowerLowers(s: string)
    ensures forall k :: 0 <= k < |Lower(s)| ==> !IsUpper(Lower(s)[k])
    ensures Lower(Lower(s)) == Lower(s)
    ensures Lower(s) == s <==> forall k :: 0 <= k < |s| ==> !IsUpper(s[k])
  {
    if Lower(s) == s {
      forall k | 0 <= k < |s| ensures !IsUpper(s[k]) {
        assert LowerChar(s[k]) == s[k];
      }
    }
  }

  /** The number of occurrences of `d` in `s`. */
  function Count(s: string, d: char): (n: nat)
    ensures n <= |s|
    ensures d !in s ==> n == 0
  {
    if s == [] then 0 else Count(s[..|s| - 1], d) + (if s[|s| - 1] == d then 1 else 0)
  }

  /**
    `s.split(d)` for a one-character separator `d`, defined on the prefixes
    of `s`: the last character either starts a new, empty piece or extends
    the last piece. There is always one more piece than separators.
   */
  function Split(s: string, d: char): (r: seq<string>)
    ensures |r| == Count(s, d) + 1
  {
    if s == [] then [""]
    else
      var f := Split(s[..|s| - 1], d);
      var c := s[|s| - 1];
      if c == d then f + [""] else f[..|f| - 1] + [f[|f| - 1] + [c]]
  }

  /** `xs.join(d)`. */
  function Join(xs: seq<string>, d: char): (r: string)
  {
    if xs == [] then ""
    else if |xs| == 1 then xs[0]
    else Join(xs[..|xs| - 1], d) + [d] + xs[|xs| - 1]
  }

  lemma JoinNewPiece(xs: seq<string>, d: char)
    requires xs != []
    ensures Join(xs + [""], d) == Join(xs, d) + [d]
  {
    assert (xs + [""])[..|xs|] == xs;
  }

  lemma {:induction false} JoinExtendLast(xs: seq<string>, d: char, c: char)
    requires xs != []
    ensures Join(xs[..|xs| - 1] + [xs[|xs| - 1] + [c]], d) == Join(xs, d) + [c]
  {
    var ys := xs[..|xs| - 1] + [xs[|xs| - 1] + [c]];
    if |xs| > 1 {
      assert ys[..|ys| - 1] == xs[..|xs| - 1];
    }
  }

  /** Splitting and joining on the same separator gives the string back. */
  lemma {:induction false} SplitJoin(s: string, d: char)
    ensures Join(Split(s, d), d) == s
  {
    if s != [] {
      var p, c := s[..|s| - 1], s[|s| - 1];
      SplitJoin(p, d);
      var f := Split(p, d);
      if c == d {
        JoinNewPiece(f, d);
      } else {
        JoinExtendLast(f, d, c);
      }
      assert p + [c] == s;
    }
  }

  /** No piece of a split contains the separator. */
  lemma {:induction false} SplitPiecesFree(s: string, d: char)
    ensures forall k :: 0 <= k < |Split(s, d)| ==> d !in Split(s, d)[k]
  {
    if s != [] {
      var p := s[..|s| - 1];
      SplitPiecesFree(p, d);
    }
  }

  /** A string without the separator splits into itself. */
  lemma {:induction false} SplitWithoutSeparator(s: string, d: char)
    requires d !in s
    ensures Split(s, d) == [s]
  {
    if s != [] {
      var p := s[..|s| - 1];
      assert d !in p by {
        forall k | 0 <= k < |p| ensures p[k] != d { assert p[k] == s[k]; }
      }
      SplitWithoutSeparator(p, d);
      assert p + [s[|s| - 1]] == s;
    }
  }

  /** One trailing carriage return removed, if there is one. */
  function DropCR(p: string): (r: string)
  {
    if p != [] && p[|p| - 1] == '\r' then p[..|p| - 1] else p
  }

  /**
    `s.split(/\r?\n/)`: split on line feeds, and every piece that a line feed
    ends loses one carriage return before it. The last piece, which no line
    feed ends, keeps its characters.
   */
  function SplitLines(s: string): (r: seq<string>)
    ensures |r| == Count(s, '\n') + 1
    ensures forall k :: 0 <= k < |r| ==> '\n' !in r[k]
  {
    var ps := Split(s, '\n');
    SplitPiecesFree(s, '\n');
    seq(|ps|, k requires 0 <= k < |ps| => if k < |ps| - 1 then DropCR(ps[k]) else ps[k])
  }
}
