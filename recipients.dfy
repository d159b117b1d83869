/** How the dashboard page reads the recipient field before it submits
    (public/script.js line 127): it cuts the text at every run of commas and
    newlines, trims each piece and drops the pieces left empty, following
    JavaScript's own splitting and trimming rules. */
module Recipients {

  /** The characters of the separator class `[\n,]`. */
  predicate IsSeparator(c: char)
  {
    c == '\n' || c == ','
  }

  /** The characters `String.prototype.trim` removes: the ECMAScript
      WhiteSpace and LineTerminator code points. */
  predicate IsWhitespace(c: char)
  {
    || c == '\t' || c == '\n' || c == '\U{000B}' || c == '\U{000C}' || c == '\r' || c == ' '
    || c == '\U{00A0}' || c == '\U{1680}' || ('\U{2000}' <= c <= '\U{200A}')
    || c == '\U{2028}' || c == '\U{2029}' || c == '\U{202F}' || c == '\U{205F}'
    || c == '\U{3000}' || c == '\U{FEFF}'
  }

  predicate AllWhitespace(s: string)
  {
    forall i :: 0 <= i < |s| ==> IsWhitespace(s[i])
  }

  predicate NoSeparator(s: string)
  {
    forall i :: 0 <= i < |s| ==> !IsSeparator(s[i])
  }

  /** `split(/[\n,]+/)`: the pieces between maximal runs of separators. A
      leading or trailing run yields an empty first or last piece, and the
      empty string splits into one empty piece. */
  function SplitRuns(s: string): (r: seq<string>)
    ensures 1 <= |r| <= |s| + 1
    decreases |s|
  {
    if s == [] then [[]]
    else
      var rest := SplitRuns(s[1..]);
      if IsSeparator(s[0]) then
        if |s| > 1 && IsSeparator(s[1]) then rest else [[]] + rest
      else
        [[s[0]] + rest[0]] + rest[1..]
  }

  /** No piece contains a separator. */
  lemma {:induction false} PiecesHaveNoSeparator(s: string)
    ensures forall k :: 0 <= k < |SplitRuns(s)| ==> NoSeparator(SplitRuns(s)[k])
    decreases |s|
  {
    if s != [] {
      PiecesHaveNoSeparator(s[1..]);
    }
  }

  /** Leading whitespace removed. */
  function TrimStart(s: string): string
    decreases |s|
  {
    if s != [] && IsWhitespace(s[0]) then TrimStart(s[1..]) else s
  }

  /** Trailing whitespace removed. */
  function TrimEnd(s: string): string
    decreases |s|
  {
    if s != [] && IsWhitespace(s[|s| - 1]) then TrimEnd(s[..|s| - 1]) else s
  }

  /** `String.prototype.trim`: never longer than its argument, and with no
      whitespace left at either end (`TrimSpec` shows what it keeps). */
  function Trim(s: string): (r: string)
    ensures |r| <= |s|
    ensures r != [] ==> !IsWhitespace(r[0]) && !IsWhitespace(r[|r| - 1])
  {
    TrimStartSpec(s);
    TrimEndSpec(TrimStart(s));
    TrimEnd(TrimStart(s))
  }

  lemma {:induction false} TrimStartSpec(s: string)
    ensures var r := TrimStart(s);
            && |r| <= |s| && r == s[|s| - |r|..]
            && AllWhitespace(s[..|s| - |r|])
            && (r != [] ==> !IsWhitespace(r[0]))
    decreases |s|
  {
    if s != [] && IsWhitespace(s[0]) {
      TrimStartSpec(s[1..]);
      var r := TrimStart(s[1..]);
      assert s[..|s| - |r|] == [s[0]] + s[1..][..|s| - 1 - |r|];
    }
  }

  lemma {:induction false} TrimEndSpec(s: string)
    ensures var r := TrimEnd(s);
            && |r| <= |s| && r == s[..|r|]
            && AllWhitespace(s[|r|..])
            && (r != [] ==> !IsWhitespace(r[|r| - 1]))
    decreases |s|
  {
    if s != [] && IsWhitespace(s[|s| - 1]) {
      TrimEndSpec(s[..|s| - 1]);
      var r := TrimEnd(s[..|s| - 1]);
      assert s[|r|..] == s[..|s| - 1][|r|..] + [s[|s| - 1]];
    }
  }

  /** `Trim` keeps a slice of its argument and removes only whitespace, from
      the two ends, until both ends are not whitespace. */
  lemma TrimSpec(s: string)
    ensures exists i, j :: 0 <= i <= j <= |s| && Trim(s) == s[i..j]
                           && AllWhitespace(s[..i]) && AllWhitespace(s[j..])
  {
    var i, j := TrimBounds(s);
  }

  /** Where the trimmed text sits in its argument. */
  lemma TrimBounds(s: string) returns (i: nat, j: nat)
    ensures i <= j <= |s| && Trim(s) == s[i..j]
    ensures AllWhitespace(s[..i]) && AllWhitespace(s[j..])
  {
    var t := TrimStart(s);
    var r := TrimEnd(t);
    TrimStartSpec(s);
    TrimEndSpec(t);
    i, j := |s| - |t|, |s| - |t| + |r|;
    assert r == s[i..j];
    assert s[j..] == t[|r|..];
  }

  /** Trim each piece and keep the non-empty ones. */
  function Clean(pieces: seq<string>): seq<string>
  {
    if pieces == [] then []
    else (if Trim(pieces[0]) != [] then [Trim(pieces[0])] else []) + Clean(pieces[1..])
  }

  /** A number as the page submits it: non-empty, with no whitespace at
      either end, and with neither a comma nor a newline inside. */
  predicate WellFormedNumber(n: string)
  {
    n != [] && !IsWhitespace(n[0]) && !IsWhitespace(n[|n| - 1]) && NoSeparator(n)
  }

  /** The recipient list the page submits for the text of the field. */
  function ParseNumbers(input: string): (r: seq<string>)
    ensures forall k :: 0 <= k < |r| ==> WellFormedNumber(r[k])
  {
    PiecesHaveNoSeparator(input);
    CleanWellFormed(SplitRuns(input));
    Clean(SplitRuns(input))
  }

  lemma {:induction false} CleanWellFormed(pieces: seq<string>)
    requires forall k :: 0 <= k < |pieces| ==> NoSeparator(pieces[k])
    ensures forall k :: 0 <= k < |Clean(pieces)| ==> WellFormedNumber(Clean(pieces)[k])
  {
    if pieces != [] {
      var p := pieces[0];
      var rest := Clean(pieces[1..]);
      assert forall k :: 0 <= k < |pieces[1..]| ==> NoSeparator(pieces[1..][k]) by {
        forall k | 0 <= k < |pieces[1..]| ensures NoSeparator(pieces[1..][k]) {
          assert pieces[1..][k] == pieces[k + 1];
        }
      }
      CleanWellFormed(pieces[1..]);
      if Trim(p) != [] {
        var i, j := TrimBounds(p);
        assert NoSeparator(p);
        assert NoSeparator(Trim(p)) by {
          forall m | 0 <= m < |Trim(p)| ensures !IsSeparator(Trim(p)[m]) {
            assert Trim(p)[m] == p[i + m];
          }
        }
        assert Clean(pieces) == [Trim(p)] + rest;
        forall k | 0 <= k < |Clean(pieces)| ensures WellFormedNumber(Clean(pieces)[k]) {
          if k > 0 {
            assert Clean(pieces)[k] == rest[k - 1];
          }
        }
      } else {
        assert Clean(pieces) == [] + rest;
      }
    }
  }

  lemma {:induction false} CleanConcat(a: seq<string>, b: seq<string>)
    ensures Clean(a + b) == Clean(a) + Clean(b)
  {
    if a == [] {
      assert a + b == b;
    } else {
      assert (a + b)[1..] == a[1..] + b;
      CleanConcat(a[1..], b);
    }
  }

  /** Parsing a text is cleaning its first piece, then the others. */
  lemma ParseByHead(s: string)
    ensures Clean(SplitRuns(s)) == Clean([SplitRuns(s)[0]]) + Clean(SplitRuns(s)[1..])
  {
    var p := SplitRuns(s);
    assert p == [p[0]] + p[1..];
    CleanConcat([p[0]], p[1..]);
  }

  /** A piece that starts with a separator: its first piece is empty and the
      remaining pieces clean to the parse of what follows the separator. */
  lemma SeparatorHead(x: char, t: string)
    requires IsSeparator(x)
    ensures SplitRuns([x] + t)[0] == []
    ensures Clean(SplitRuns([x] + t)[1..]) == Clean(SplitRuns(t))
  {
    assert ([x] + t)[1..] == t;
    if |t| > 0 && IsSeparator(t[0]) {
      assert t == [t[0]] + t[1..];
      assert SplitRuns(t)[0] == [];
      ParseByHead(t);
      assert Trim([]) == [];
    }
  }

  /** A separator at the front changes nothing. */
  lemma ParseSkipsSeparator(x: char, t: string)
    requires IsSeparator(x)
    ensures ParseNumbers([x] + t) == ParseNumbers(t)
  {
    SeparatorHead(x, t);
    ParseByHead([x] + t);
    assert Trim([]) == [];
  }

  /** A text that starts with an ordinary character: that character joins
      the first piece of the rest. */
  lemma OrdinaryHead(x: char, t: string)
    requires !IsSeparator(x)
    ensures SplitRuns([x] + t)[0] == [x] + SplitRuns(t)[0]
    ensures SplitRuns([x] + t)[1..] == SplitRuns(t)[1..]
  {
    assert ([x] + t)[1..] == t;
  }

  lemma SplitAtLeadingSeparator(w: string, c: char, b: string)
    requires IsSeparator(c)
    ensures Clean([w + SplitRuns([c] + b)[0]]) + Clean(SplitRuns([c] + b)[1..])
         == Clean([w + SplitRuns([])[0]]) + Clean(SplitRuns([])[1..]) + Clean(SplitRuns(b))
  {
    SeparatorHead(c, b);
    assert w + [] == w;
    assert SplitRuns([]) == [[]];
    assert SplitRuns([])[1..] == [];
  }

  /** The induction behind `ParseSplitsAtSeparator`, carrying the part `w`
      of the first piece that has been read already. */
  lemma {:induction false} SplitAtSeparatorWithPrefix(w: string, a: string, c: char, b: string)
    requires IsSeparator(c)
    ensures Clean([w + SplitRuns(a + [c] + b)[0]]) + Clean(SplitRuns(a + [c] + b)[1..])
         == Clean([w + SplitRuns(a)[0]]) + Clean(SplitRuns(a)[1..]) + Clean(SplitRuns(b))
    decreases |a|, 0
  {
    if a == [] {
      SplitAtLeadingSeparator(w, c, b);
      assert a + [c] + b == [c] + b;
    } else {
      var x, t := a[0], a[1..];
      assert a + [c] + b == [x] + (t + [c] + b);
      assert a == [x] + t;
      if IsSeparator(x) {
        SplitAtSeparatorAfterSeparator(w, x, t, c, b);
      } else {
        SplitAtSeparatorAfterOrdinary(w, x, t, c, b);
      }
    }
  }

  lemma {:induction false} SplitAtSeparatorAfterOrdinary(w: string, x: char, t: string, c: char, b: string)
    requires !IsSeparator(x) && IsSeparator(c)
    ensures Clean([w + SplitRuns([x] + (t + [c] + b))[0]]) + Clean(SplitRuns([x] + (t + [c] + b))[1..])
         == Clean([w + SplitRuns([x] + t)[0]]) + Clean(SplitRuns([x] + t)[1..]) + Clean(SplitRuns(b))
    decreases |t|, 1
  {
    var l := t + [c] + b;
    OrdinaryHead(x, l);
    OrdinaryHead(x, t);
    calc {
      Clean([w + SplitRuns([x] + l)[0]]) + Clean(SplitRuns([x] + l)[1..]);
      { assert w + SplitRuns([x] + l)[0] == (w + [x]) + SplitRuns(l)[0]; }
      Clean([(w + [x]) + SplitRuns(l)[0]]) + Clean(SplitRuns(l)[1..]);
      { SplitAtSeparatorWithPrefix(w + [x], t, c, b); }
      Clean([(w + [x]) + SplitRuns(t)[0]]) + Clean(SplitRuns(t)[1..]) + Clean(SplitRuns(b));
      { assert w + SplitRuns([x] + t)[0] == (w + [x]) + SplitRuns(t)[0]; }
      Clean([w + SplitRuns([x] + t)[0]]) + Clean(SplitRuns([x] + t)[1..]) + Clean(SplitRuns(b));
    }
  }

  lemma {:induction false} SplitAtSeparatorAfterSeparator(w: string, x: char, t: string, c: char, b: string)
    requires IsSeparator(x) && IsSeparator(c)
    ensures Clean([w + SplitRuns([x] + (t + [c] + b))[0]]) + Clean(SplitRuns([x] + (t + [c] + b))[1..])
         == Clean([w + SplitRuns([x] + t)[0]]) + Clean(SplitRuns([x] + t)[1..]) + Clean(SplitRuns(b))
    decreases |t|, 1
  {
    var l := t + [c] + b;
    SeparatorHead(x, l);
    SeparatorHead(x, t);
    // what remains is the statement for `t` itself, with nothing read yet
    assert Clean(SplitRuns(l)) == Clean(SplitRuns(t)) + Clean(SplitRuns(b)) by {
      SplitAtSeparatorWithPrefix([], t, c, b);
      ParseByHead(l);
      ParseByHead(t);
      assert [] + SplitRuns(l)[0] == SplitRuns(l)[0];
      assert [] + SplitRuns(t)[0] == SplitRuns(t)[0];
    }
    calc {
      Clean([w + SplitRuns([x] + l)[0]]) + Clean(SplitRuns([x] + l)[1..]);
      { assert w + SplitRuns([x] + l)[0] == w; }
      Clean([w]) + Clean(SplitRuns(l));
      Clean([w]) + (Clean(SplitRuns(t)) + Clean(SplitRuns(b)));
      (Clean([w]) + Clean(SplitRuns(t))) + Clean(SplitRuns(b));
      { assert w + SplitRuns([x] + t)[0] == w; }
      Clean([w + SplitRuns([x] + t)[0]]) + Clean(SplitRuns([x] + t)[1..]) + Clean(SplitRuns(b));
    }
  }

  /** Cutting the field at any comma or newline and parsing both sides gives
      the same list, in the same order: numbers keep their input order and
      runs of separators never produce extra entries. */
  lemma ParseSplitsAtSeparator(a: string, c: char, b: string)
    requires IsSeparator(c)
    ensures ParseNumbers(a + [c] + b) == ParseNumbers(a) + ParseNumbers(b)
  {
    SplitAtSeparatorWithPrefix([], a, c, b);
    ParseByHead(a + [c] + b);
    ParseByHead(a);
    assert [] + SplitRuns(a + [c] + b)[0] == SplitRuns(a + [c] + b)[0];
    assert [] + SplitRuns(a)[0] == SplitRuns(a)[0];
  }

  /** A field without separators is one number, trimmed, or nothing. */
  lemma {:induction false} ParseSingleNumber(s: string)
    requires NoSeparator(s)
    ensures ParseNumbers(s) == if Trim(s) == [] then [] else [Trim(s)]
  {
    SplitRunsWithoutSeparator(s);
    assert [s][1..] == [];
    assert ParseNumbers(s) == (if Trim(s) != [] then [Trim(s)] else []) + Clean([]);
  }

  lemma {:induction false} SplitRunsWithoutSeparator(s: string)
    requires NoSeparator(s)
    ensures SplitRuns(s) == [s]
    decreases |s|
  {
    if s != [] {
      SplitRunsWithoutSeparator(s[1..]);
      assert [s[0]] + s[1..] == s;
    }
  }
}
