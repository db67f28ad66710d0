/**
  The quote-aware line tokenizer `safeSplitCSV` of
  frontend_vue_app/src/services/firms.ts.

  The loop's state is the list of pushed fields, the field being
  accumulated and the quote flag. `Scan(p)` is that state after reading the
  prefix `p`; `Step` is one turn of the loop. A double quote only toggles
  the flag, so `""` is two toggles and an unbalanced quote is no error.
 */
module CsvTokenizer {
  import opened Text

  /** The variables `result`, `current` and `inQuotes` of the loop. */
  datatype ScanState = ScanState(result: seq<string>, current: string, inQuotes: bool)

  /** One turn of the loop, reading `c`. */
  function Step(st: ScanState, c: char): ScanState
  {
    if c == '"' then st.(inQuotes := !st.inQuotes)
    else if c == ',' && !st.inQuotes then ScanState(st.result + [st.current], "", st.inQuotes)
    else st.(current := st.current + [c])
  }

  /** The loop's state after reading all of `s`, from an empty state. */
  function Scan(s: string): ScanState
  {
    if s == [] then ScanState([], "", false) else Step(Scan(s[..|s| - 1]), s[|s| - 1])
  }

  /** The untrimmed fields of `s`: every pushed field and the final buffer. */
  function RawFields(s: string): (r: seq<string>)
  {
    Scan(s).result + [Scan(s).current]
  }

  /** What `safeSplitCSV(line)` returns. */
  function Tokenize(line: string): (r: seq<string>)
  {
    TrimAll(RawFields(line))
  }

  /** The commas of `s` preceded by an even number of double quotes. */
  function UnquotedCommas(s: string): (n: nat)
    ensures n <= Count(s, ',')
  {
    if s == [] then 0
    else
      var p := s[..|s| - 1];
      UnquotedCommas(p) + (if s[|s| - 1] == ',' && Count(p, '"') % 2 == 0 then 1 else 0)
  }

  /** `s` with every double quote deleted. */
  function RemoveQuotes(s: string): (r: string)
    ensures |r| == |s| - Count(s, '"')
    ensures '"' !in r
  {
    if s == [] then ""
    else
      var p := RemoveQuotes(s[..|s| - 1]);
      if s[|s| - 1] == '"' then p else p + [s[|s| - 1]]
  }

  /** The flag is up exactly when an odd number of double quotes was read. */
  lemma {:induction false} ScanQuoteParity(s: string)
    ensures Scan(s).inQuotes <==> Count(s, '"') % 2 == 1
  {
    if s != [] {
      ScanQuoteParity(s[..|s| - 1]);
    }
  }

  /** One field is pushed per comma read outside quotes. */
  lemma {:induction false} ScanCount(s: string)
    ensures |Scan(s).result| == UnquotedCommas(s)
  {
    if s != [] {
      var p := s[..|s| - 1];
      ScanCount(p);
      ScanQuoteParity(p);
    }
  }

  /** No field, pushed or pending, holds a double quote: quotes are dropped. */
  lemma {:induction false} ScanQuoteFree(s: string)
    ensures '"' !in Scan(s).current
    ensures forall k :: 0 <= k < |Scan(s).result| ==> '"' !in Scan(s).result[k]
  {
    if s != [] {
      ScanQuoteFree(s[..|s| - 1]);
    }
  }

  /** Joining the raw fields with commas gives the line without its quotes. */
  lemma {:induction false} RawFieldsJoin(s: string)
    ensures Join(RawFields(s), ',') == RemoveQuotes(s)
  {
    if s != [] {
      var p, c := s[..|s| - 1], s[|s| - 1];
      RawFieldsJoin(p);
      var st := Scan(p);
      var f := RawFields(p);
      assert f[..|f| - 1] == st.result;
      if c == '"' {
      } else if c == ',' && !st.inQuotes {
        JoinNewPiece(f, ',');
        assert RawFields(s) == f + [""];
      } else {
        JoinExtendLast(f, ',', c);
        assert RawFields(s) == f[..|f| - 1] + [f[|f| - 1] + [c]];
      }
    }
  }

  /** A line without double quotes is tokenized like a plain `split(',')`. */
  lemma {:induction false} RawFieldsUnquoted(s: string)
    requires '"' !in s
    ensures RawFields(s) == Split(s, ',')
  {
    if s != [] {
      var p := s[..|s| - 1];
      assert '"' !in p by {
        forall k | 0 <= k < |p| ensures p[k] != '"' { assert p[k] == s[k]; }
      }
      RawFieldsUnquoted(p);
      ScanQuoteParity(p);
      assert Count(p, '"') == 0;
      var f := RawFields(p);
      assert f[..|f| - 1] == Scan(p).result;
    }
  }

  /**
    What reading `w` after `p` does when `w` has no double quotes and
    either the flag is up or `w` has no commas: it only extends the
    current field. In particular commas inside quotes do not end a field.
   */
  lemma {:induction false} ScanChunk(p: string, w: string)
    requires '"' !in w
    requires Scan(p).inQuotes || ',' !in w
    ensures Scan(p + w) == Scan(p).(current := Scan(p).current + w)
  {
    if w == [] {
      assert p + w == p;
      assert Scan(p).current + w == Scan(p).current;
    } else {
      var v := w[..|w| - 1];
      assert '"' !in v && (Scan(p).inQuotes || ',' !in v) by {
        forall k | 0 <= k < |v| ensures v[k] == w[k] { }
      }
      ScanChunk(p, v);
      assert (p + w)[..|p + w| - 1] == p + v;
      assert Scan(p).current + v + [w[|w| - 1]] == Scan(p).current + w;
    }
  }

  /**
    A comma read outside quotes ends everything before it: what follows is
    scanned as if it were a line of its own, after the fields already there.
   */
  lemma {:induction false} ScanAfterComma(p: string, t: string)
    requires !Scan(p).inQuotes
    ensures Scan(p + [','] + t) ==
      var st := Scan(t); st.(result := Scan(p).result + [Scan(p).current] + st.result)
  {
    if t == [] {
      assert p + [','] + t == p + [','];
      assert (p + [','])[..|p|] == p;
    } else {
      var v := t[..|t| - 1];
      ScanAfterComma(p, v);
      assert (p + [','] + t)[..|p + [','] + t| - 1] == p + [','] + v;
    }
  }

  /**
    The properties of a tokenized line: one field more than the commas seen
    outside quotes (so the result is never empty), no field holds a double
    quote, and every field is trimmed.
   */
  lemma TokenizeFields(line: string)
    ensures |Tokenize(line)| == UnquotedCommas(line) + 1
    ensures forall k :: 0 <= k < |Tokenize(line)| ==>
      '"' !in Tokenize(line)[k] && Trimmed(Tokenize(line)[k])
  {
    ScanCount(line);
    ScanQuoteFree(line);
    var raw := RawFields(line);
    forall k | 0 <= k < |raw| ensures '"' !in Trim(raw[k]) && Trimmed(Trim(raw[k])) {
      TrimKeepsOut(raw[k], '"');
      TrimTrimmed(raw[k]);
    }
  }

  /** For a line without double quotes, the tokenizer is split-then-trim. */
  lemma TokenizeUnquoted(line: string)
    requires '"' !in line
    ensures Tokenize(line) == TrimAll(Split(line, ','))
  {
    RawFieldsUnquoted(line);
  }

  /** `safeSplitCSV`: one left-to-right pass, then every field is trimmed. */
  method SafeSplitCSV(line: string) returns (fields: seq<string>)
    ensures fields == Tokenize(line)
    ensures |fields| == UnquotedCommas(line) + 1
    ensures forall k :: 0 <= k < |fields| ==> '"' !in fields[k] && Trimmed(fields[k])
  {
    var result: seq<string> := [];
    var current := "";
    var inQuotes := false;
    for i := 0 to |line|
      invariant ScanState(result, current, inQuotes) == Scan(line[..i])
    {
      var ch := line[i];
      assert line[..i + 1][..i] == line[..i];
      if ch == '"' {
        inQuotes := !inQuotes;
        continue;
      }
      if ch == ',' && !inQuotes {
        result := result + [current];
        current := "";
      } else {
        current := current + [ch];
      }
    }
    assert line[..|line|] == line;
    result := result + [current];
    fields := TrimAll(result);
    TokenizeFields(line);
  }

  /** The raw fields of the line `"w",x,y` are `w`, `x` and `y`. */
  lemma QuotedCommaRawFields(w: string, x: string, y: string)
    requires '"' !in w
    requires '"' !in x && ',' !in x && '"' !in y && ',' !in y
    ensures RawFields(['"'] + w + ['"'] + [','] + (x + [','] + y)) == [w, x, y]
  {
    var q := ['"'] + w + ['"'];
    assert Scan(q) == ScanState([], w, false) by {
      assert Scan(['"']) == ScanState([], "", true) by {
        assert ['"'][..0] == [];
      }
      ScanChunk(['"'], w);
      assert q[..|q| - 1] == ['"'] + w;
      assert "" + w == w;
    }
    assert Scan(x) == ScanState([], x, false) && Scan(y) == ScanState([], y, false) by {
      ScanChunk([], x);
      ScanChunk([], y);
      assert [] + x == x && [] + y == y && "" + x == x && "" + y == y;
    }
    ScanAfterComma(x, y);
    ScanAfterComma(q, x + [','] + y);
  }

  /**
    The line `"w",x,y` has exactly the three fields `w`, `x` and `y`
    (trimmed): the commas inside the quotes do not split `w`.
   */
  lemma QuotedCommaLine(w: string, x: string, y: string)
    requires '"' !in w
    requires '"' !in x && ',' !in x && '"' !in y && ',' !in y
    ensures Tokenize(['"'] + w + ['"'] + [','] + (x + [','] + y)) == [Trim(w), Trim(x), Trim(y)]
  {
    QuotedCommaRawFields(w, x, y);
    var fs := TrimAll([w, x, y]);
    assert fs[0] == Trim(w) && fs[1] == Trim(x) && fs[2] == Trim(y);
  }
}
