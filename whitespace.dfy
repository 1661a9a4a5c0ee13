/** `s.replace(/\s+/g, ' ').trim()` as the street-name composer uses it, with a
    reference definition (the words of `s` joined by single spaces) it is proved
    equal to. */
module Whitespace {

  /** The characters JavaScript's `\s` class and `String.prototype.trim` treat as
      white space: the WhiteSpace and LineTerminator code points of ECMA-262. */
  predicate IsSpace(c: char) {
    || c == ' ' || c == '\t' || c == '\n' || c == '\r'
    || c as int == 0x0B || c as int == 0x0C || c as int == 0xA0 || c as int == 0x1680
    || (0x2000 <= c as int <= 0x200A)
    || c as int == 0x2028 || c as int == 0x2029 || c as int == 0x202F
    || c as int == 0x205F || c as int == 0x3000 || c as int == 0xFEFF
  }

  predicate NoSpace(s: string) {
    forall i :: 0 <= i < |s| ==> !IsSpace(s[i])
  }

  /** A word: a non-empty run of characters none of which is white space. */
  predicate IsWord(w: string) {
    w != [] && NoSpace(w)
  }

  /** `s` with its leading run of white space removed (`trimStart`). */
  function SkipSpaces(s: string): (r: string)
    ensures |r| <= |s|
    ensures r == [] || !IsSpace(r[0])
  {
    if s != [] && IsSpace(s[0]) then SkipSpaces(s[1..]) else s
  }

  /** `s` with its trailing run of white space removed (`trimEnd`). */
  function TrimEnd(s: string): (r: string)
    ensures r == [] || !IsSpace(r[|r| - 1])
  {
    if s != [] && IsSpace(s[|s| - 1]) then TrimEnd(s[..|s| - 1]) else s
  }

  /** `s.trim()`. */
  function Trim(s: string): string {
    TrimEnd(SkipSpaces(s))
  }

  /** `s.replace(/\s+/g, ' ')`: each maximal run of white space becomes one space. */
  function CollapseRuns(s: string): string
    decreases |s|
  {
    if s == [] then []
    else if IsSpace(s[0]) then " " + CollapseRuns(SkipSpaces(s[1..]))
    else [s[0]] + CollapseRuns(s[1..])
  }

  /** `s.replace(/\s+/g, ' ').trim()`. */
  function Normalize(s: string): string {
    Trim(CollapseRuns(s))
  }

  /** The leading run of non-space characters of `s`. */
  function WordPrefix(s: string): (w: string)
    ensures |w| <= |s|
    ensures s != [] && !IsSpace(s[0]) ==> w != []
  {
    if s != [] && !IsSpace(s[0]) then [s[0]] + WordPrefix(s[1..]) else []
  }

  /** The maximal runs of non-space characters of `s`, in order. */
  function Words(s: string): seq<string>
    decreases |s|
  {
    var t := SkipSpaces(s);
    if t == [] then []
    else
      var w := WordPrefix(t);
      [w] + Words(t[|w|..])
  }

  /** The words joined by single spaces. */
  function Join(ws: seq<string>): string {
    if |ws| == 0 then ""
    else if |ws| == 1 then ws[0]
    else ws[0] + " " + Join(ws[1..])
  }

  /** A string in the shape the composer produces: no white space at either end,
      and every white-space character is a plain space followed by a non-space. */
  predicate Collapsed(r: string) {
    && (r == [] || (!IsSpace(r[0]) && !IsSpace(r[|r| - 1])))
    && forall i :: 0 <= i < |r| && IsSpace(r[i]) ==> r[i] == ' ' && i + 1 < |r| && !IsSpace(r[i + 1])
  }

  // ---------------------------------------------------------------------------
  // Helpers about the scanning functions

  lemma SkipSpacesNoLead(s: string)
    requires s == [] || !IsSpace(s[0])
    ensures SkipSpaces(s) == s
  {
  }

  /** What `SkipSpaces` drops is white space, and what it keeps is a suffix. */
  lemma {:induction false} SkipSpacesSuffix(s: string)
    ensures SkipSpaces(s) == s[|s| - |SkipSpaces(s)|..]
    ensures forall i :: 0 <= i < |s| - |SkipSpaces(s)| ==> IsSpace(s[i])
  {
    if s != [] && IsSpace(s[0]) {
      SkipSpacesSuffix(s[1..]);
      assert s[1..][|s| - 1 - |SkipSpaces(s)|..] == s[|s| - |SkipSpaces(s)|..];
      forall i | 1 <= i < |s| - |SkipSpaces(s)| ensures IsSpace(s[i]) {
        assert s[i] == s[1..][i - 1];
      }
    }
  }

  /** `WordPrefix` is a prefix without white space, ended by white space or the end. */
  lemma {:induction false} WordPrefixFacts(s: string)
    ensures WordPrefix(s) == s[..|WordPrefix(s)|]
    ensures NoSpace(WordPrefix(s))
    ensures |WordPrefix(s)| < |s| ==> IsSpace(s[|WordPrefix(s)|])
  {
    if s != [] && !IsSpace(s[0]) {
      WordPrefixFacts(s[1..]);
      var w := WordPrefix(s[1..]);
      assert WordPrefix(s) == [s[0]] + w;
      forall i | 0 <= i < |w| + 1 ensures !IsSpace(WordPrefix(s)[i]) {
        if i > 0 {
          assert WordPrefix(s)[i] == w[i - 1];
        }
      }
      assert |w| < |s[1..]| ==> s[|w| + 1] == s[1..][|w|];
    }
  }

  /** Every element of `Words(s)` is a word. */
  lemma {:induction false} WordsAreWords(s: string)
    ensures forall i :: 0 <= i < |Words(s)| ==> IsWord(Words(s)[i])
    decreases |s|
  {
    var t := SkipSpaces(s);
    if t != [] {
      var w := WordPrefix(t);
      WordPrefixFacts(t);
      WordsAreWords(t[|w|..]);
      assert Words(s) == [w] + Words(t[|w|..]);
      forall i | 1 <= i < |Words(s)| ensures IsWord(Words(s)[i]) {
        assert Words(s)[i] == Words(t[|w|..])[i - 1];
      }
    }
  }

  lemma {:induction false} WordPrefixOfWord(w: string)
    requires NoSpace(w)
    ensures WordPrefix(w) == w
  {
    if w != [] {
      assert NoSpace(w[1..]) by {
        forall i | 0 <= i < |w| - 1 ensures !IsSpace(w[1..][i]) {
          assert w[1..][i] == w[i + 1];
        }
      }
      WordPrefixOfWord(w[1..]);
    }
  }

  /** The words of `s` are those of `s` without its leading white space. */
  lemma WordsSkip(s: string)
    ensures Words(SkipSpaces(s)) == Words(s)
  {
    SkipSpacesNoLead(SkipSpaces(s));
  }

  lemma {:induction false} JoinShape(ws: seq<string>)
    requires forall i :: 0 <= i < |ws| ==> IsWord(ws[i])
    ensures Join(ws) == [] <==> ws == []
    ensures ws != [] ==> !IsSpace(Join(ws)[0]) && !IsSpace(Join(ws)[|Join(ws)| - 1])
  {
    if |ws| > 1 {
      assert IsWord(ws[0]) && IsWord(ws[1]);
      JoinShape(ws[1..]);
      var r := Join(ws[1..]);
      assert Join(ws) == ws[0] + " " + r;
      assert Join(ws)[0] == ws[0][0];
      assert Join(ws)[|Join(ws)| - 1] == r[|r| - 1];
    } else if |ws| == 1 {
      assert IsWord(ws[0]);
      assert ws[0][|ws[0]| - 1] in ws[0];
    }
  }

  lemma {:induction false} TrimEndClean(x: string)
    requires x == [] || !IsSpace(x[|x| - 1])
    ensures TrimEnd(x) == x && TrimEnd(x + " ") == x
  {
    assert (x + " ")[..|x|] == x;
  }

  /** Collapsing a string that starts with a word emits the word, then continues. */
  lemma {:induction false} CollapseWord(s: string)
    ensures CollapseRuns(s) == WordPrefix(s) + CollapseRuns(s[|WordPrefix(s)|..])
    decreases |s|
  {
    if s != [] && !IsSpace(s[0]) {
      CollapseWord(s[1..]);
      var w := WordPrefix(s[1..]);
      assert s[1..][|w|..] == s[|w| + 1..];
    }
  }

  /** One step of the scan: a string that starts with a word followed by white
      space is that word, one space, and whatever follows the white space. */
  lemma WordThenSpace(s: string)
    requires s != [] && !IsSpace(s[0]) && |WordPrefix(s)| < |s|
    ensures var w := WordPrefix(s);
            var u := SkipSpaces(s[|w| + 1..]);
            && |u| < |s|
            && Words(s) == [w] + Words(u)
            && CollapseRuns(s) == w + " " + CollapseRuns(u)
            && (u == [] ==> IsSpace(s[|s| - 1]))
            && (u != [] ==> s[|s| - 1] == u[|u| - 1])
  {
    var w := WordPrefix(s);
    WordPrefixFacts(s);
    var rest := s[|w|..];
    assert rest != [] && IsSpace(rest[0]) && rest[1..] == s[|w| + 1..];
    var u := SkipSpaces(rest[1..]);
    WordThenSpaceWords(s, w, rest, u);
    WordThenSpaceCollapse(s, w, rest, u);
    SkipSpacesSuffix(rest[1..]);
    LastOfSuffix(s, rest[1..], u);
  }

  lemma WordThenSpaceWords(s: string, w: string, rest: string, u: string)
    requires s != [] && !IsSpace(s[0]) && w == WordPrefix(s) && |w| < |s|
    requires rest == s[|w|..] && IsSpace(rest[0]) && u == SkipSpaces(rest[1..])
    ensures Words(s) == [w] + Words(u)
  {
    assert SkipSpaces(rest) == u;
    SkipSpacesNoLead(s);
    WordsSkip(rest);
  }

  lemma WordThenSpaceCollapse(s: string, w: string, rest: string, u: string)
    requires w == WordPrefix(s) && |w| < |s|
    requires rest == s[|w|..] && IsSpace(rest[0]) && u == SkipSpaces(rest[1..])
    ensures CollapseRuns(s) == w + " " + CollapseRuns(u)
  {
    CollapseWord(s);
  }

  /** The last character of a string is that of any non-empty suffix of it, and
      white space when the string ends in a run of white space. */
  lemma LastOfSuffix(s: string, t: string, u: string)
    requires |t| < |s| && t == s[|s| - |t|..]
    requires |u| <= |t| && u == t[|t| - |u|..] && forall i :: 0 <= i < |t| - |u| ==> IsSpace(t[i])
    ensures u == [] && t != [] ==> IsSpace(s[|s| - 1])
    ensures u != [] ==> s[|s| - 1] == u[|u| - 1]
  {
    if u == [] && t != [] {
      assert s[|s| - 1] == t[|t| - 1] && IsSpace(t[|t| - 1]);
    } else if u != [] {
      assert s[|s| - 1] == t[|t| - 1];
    }
  }

  /** The shape of a collapsed string that does not start with white space: its
      words joined by single spaces, plus one space if it ended with white space. */
  lemma {:induction false} CollapseNoLead(s: string)
    requires s == [] || !IsSpace(s[0])
    ensures CollapseRuns(s) == Join(Words(s)) + (if s != [] && IsSpace(s[|s| - 1]) then " " else "")
    decreases |s|, 1
  {
    if s != [] {
      WordPrefixFacts(s);
      if |WordPrefix(s)| == |s| {
        CollapseOneWord(s);
      } else {
        CollapseWordThenSpace(s);
      }
    }
  }

  lemma {:induction false} CollapseWordThenSpace(s: string)
    requires s != [] && !IsSpace(s[0]) && |WordPrefix(s)| < |s|
    ensures CollapseRuns(s) == Join(Words(s)) + (if IsSpace(s[|s| - 1]) then " " else "")
    decreases |s|, 0
  {
    var w := WordPrefix(s);
    WordThenSpace(s);
    var u := SkipSpaces(s[|w| + 1..]);
    if u != [] {
      CollapseNoLead(u);
      WordsNonEmpty(u);
      JoinCons(w, Words(u));
      var e := if IsSpace(s[|s| - 1]) then " " else "";
      assert w + " " + (Join(Words(u)) + e) == (w + " " + Join(Words(u))) + e;
    }
  }

  /** A string with no white space collapses to itself and is its only word. */
  lemma CollapseOneWord(s: string)
    requires s != [] && WordPrefix(s) == s
    ensures CollapseRuns(s) == s && Words(s) == [s] && Join(Words(s)) == s
    ensures !IsSpace(s[|s| - 1])
  {
    WordPrefixFacts(s);
    CollapseWord(s);
    SkipSpacesNoLead(s);
    assert s[|s|..] == [];
  }

  lemma WordsNonEmpty(u: string)
    requires u != [] && !IsSpace(u[0])
    ensures Words(u) != []
  {
    SkipSpacesNoLead(u);
  }

  lemma JoinCons(w: string, ws: seq<string>)
    requires ws != []
    ensures Join([w] + ws) == w + " " + Join(ws)
  {
    assert ([w] + ws)[1..] == ws;
  }

  // ---------------------------------------------------------------------------
  // What the composer's normalisation computes

  /** Collapsing a string without leading white space and trimming the result
      gives its words joined by single spaces. */
  lemma CollapseTrimmed(u: string)
    requires u == [] || !IsSpace(u[0])
    ensures SkipSpaces(CollapseRuns(u)) == CollapseRuns(u)
    ensures TrimEnd(CollapseRuns(u)) == Join(Words(u))
  {
    CollapseNoLead(u);
    var j := Join(Words(u));
    WordsAreWords(u);
    JoinShape(Words(u));
    var c := CollapseRuns(u);
    assert u != [] ==> Words(u) != [] by {
      if u != [] {
        SkipSpacesNoLead(u);
        WordPrefixFacts(u);
      }
    }
    assert c == [] || !IsSpace(c[0]) by {
      if c != [] {
        assert j != [] ==> c[0] == j[0];
      }
    }
    SkipSpacesNoLead(c);
    TrimEndClean(j);
  }

  /** `replace(/\s+/g, ' ').trim()` yields exactly the words of its input joined by
      single spaces. */
  lemma NormalizeIsJoinOfWords(s: string)
    ensures Normalize(s) == Join(Words(s))
  {
    var u := SkipSpaces(s);
    WordsSkip(s);
    CollapseTrimmed(u);
    assert SkipSpaces(CollapseRuns(s)) == CollapseRuns(u) by {
      if s != [] && IsSpace(s[0]) {
        assert u == SkipSpaces(s[1..]);
        assert CollapseRuns(s) == " " + CollapseRuns(u);
        assert (" " + CollapseRuns(u))[1..] == CollapseRuns(u);
      } else {
        SkipSpacesNoLead(s);
      }
    }
  }

  /** The words of a string with a space inserted between two parts are the words
      of the parts. */
  lemma {:induction false} WordsAroundSpace(x: string, y: string)
    ensures Words(x + " " + y) == Words(x) + Words(y)
    decreases |x|, 1
  {
    if x == [] {
      var z := x + " " + y;
      assert z == " " + y && z[1..] == y;
      WordsLeadSpace(z);
    } else if IsSpace(x[0]) {
      WordsAroundLeadSpace(x, y);
    } else {
      WordsAroundWord(x, y);
    }
  }

  lemma {:induction false} WordsAroundLeadSpace(x: string, y: string)
    requires x != [] && IsSpace(x[0])
    ensures Words(x + " " + y) == Words(x) + Words(y)
    decreases |x|, 0
  {
    var z := x + " " + y;
    assert z[1..] == x[1..] + " " + y;
    WordsLeadSpace(z);
    WordsLeadSpace(x);
    WordsAroundSpace(x[1..], y);
  }

  lemma {:induction false} WordsAroundWord(x: string, y: string)
    requires x != [] && !IsSpace(x[0])
    ensures Words(x + " " + y) == Words(x) + Words(y)
    decreases |x|, 0
  {
    var z := x + " " + y;
    var w := WordPrefix(x);
    var rest := x[|w|..];
    WordPrefixBeforeSpace(x, y);
    assert z[|w|..] == rest + " " + y;
    WordsStep(z);
    WordsStep(x);
    WordsAroundSpace(rest, y);
  }

  /** A leading white-space character does not change the words. */
  lemma WordsLeadSpace(s: string)
    requires s != [] && IsSpace(s[0])
    ensures Words(s) == Words(s[1..])
  {
    WordsSkip(s[1..]);
  }

  lemma WordPrefixBeforeSpace(x: string, y: string)
    requires x != [] && !IsSpace(x[0])
    ensures (x + " " + y)[0] == x[0]
    ensures WordPrefix(x + " " + y) == WordPrefix(x) && WordPrefix(x) != []
  {
    assert x + " " + y == x + (" " + y);
    WordPrefixPrefix(x, " " + y);
  }

  /** The words of a string that starts with a word: that word, then the words of
      what follows it. */
  lemma WordsStep(t: string)
    requires t != [] && !IsSpace(t[0])
    ensures Words(t) == [WordPrefix(t)] + Words(t[|WordPrefix(t)|..])
  {
    SkipSpacesNoLead(t);
  }

  lemma {:induction false} WordPrefixPrefix(x: string, z: string)
    requires z != [] && IsSpace(z[0])
    ensures WordPrefix(x + z) == WordPrefix(x)
  {
    if x == [] {
      assert x + z == z;
    } else if !IsSpace(x[0]) {
      assert (x + z)[1..] == x[1..] + z;
      WordPrefixPrefix(x[1..], z);
    }
  }

  /** A single word is its own only word. */
  lemma WordsOfWord(w: string)
    requires IsWord(w)
    ensures Words(w) == [w]
  {
    WordPrefixOfWord(w);
    assert w[|w|..] == [];
  }

  /** The joined words of a sequence of words are the same words again. */
  lemma {:induction false} WordsOfJoin(ws: seq<string>)
    requires forall i :: 0 <= i < |ws| ==> IsWord(ws[i])
    ensures Words(Join(ws)) == ws
  {
    if |ws| == 1 {
      WordsOfWord(ws[0]);
    } else if |ws| > 1 {
      WordsAroundSpace(ws[0], Join(ws[1..]));
      WordsOfWord(ws[0]);
      WordsOfJoin(ws[1..]);
    }
  }

  /** Joining words by single spaces gives a collapsed string. */
  lemma {:induction false} JoinCollapsed(ws: seq<string>)
    requires forall i :: 0 <= i < |ws| ==> IsWord(ws[i])
    ensures Collapsed(Join(ws))
  {
    JoinShape(ws);
    if |ws| == 1 {
      assert IsWord(ws[0]);
    } else if |ws| > 1 {
      var w, rest := ws[0], Join(ws[1..]);
      assert IsWord(w);
      JoinCollapsed(ws[1..]);
      JoinShape(ws[1..]);
      var r := w + " " + rest;
      assert forall i :: 0 <= i < |w| ==> r[i] == w[i];
      assert forall i :: |w| < i < |r| ==> r[i] == rest[i - |w| - 1];
      assert r[|w|] == ' ' && r[|w| + 1] == rest[0];
    }
  }

  // ---------------------------------------------------------------------------
  // Properties of the normalisation

  /** The result has no white space at either end and no run of two. */
  lemma NormalizeCollapsed(s: string)
    ensures Collapsed(Normalize(s))
  {
    NormalizeIsJoinOfWords(s);
    WordsAreWords(s);
    JoinCollapsed(Words(s));
  }

  /** Normalisation keeps the words of its input, in order. */
  lemma NormalizeKeepsWords(s: string)
    ensures Words(Normalize(s)) == Words(s)
  {
    NormalizeIsJoinOfWords(s);
    WordsAreWords(s);
    WordsOfJoin(Words(s));
  }

  /** Normalising twice is normalising once. */
  lemma NormalizeIdempotent(s: string)
    ensures Normalize(Normalize(s)) == Normalize(s)
  {
    NormalizeKeepsWords(s);
    NormalizeIsJoinOfWords(Normalize(s));
    NormalizeIsJoinOfWords(s);
  }

  /** The three-part template `${a} ${b} ${c}` normalises to the words of the three
      parts joined by single spaces; an empty middle part leaves no gap. */
  lemma NormalizeThreeParts(a: string, b: string, c: string)
    ensures Normalize(a + " " + b + " " + c) == Join(Words(a) + Words(b) + Words(c))
    ensures Words(Normalize(a + " " + b + " " + c)) == Words(a) + Words(b) + Words(c)
  {
    NormalizeIsJoinOfWords(a + " " + b + " " + c);
    NormalizeKeepsWords(a + " " + b + " " + c);
    WordsAroundSpace(a + " " + b, c);
    WordsAroundSpace(a, b);
  }
}
