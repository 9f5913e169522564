/** The parser of the "If" header and the texts themselves: it accepts the laid-out spellings
    of a header structure and no other text. */
module IfHeaderAccepts {
  import opened Wrappers
  import opened IfHeader
  import opened IfHeaderText
  import opened IfHeaderRoundTrip

  /*** what the lexer passes over ***/

  lemma {:induction false} GapBefore(s: string) returns (gap: string)
    ensures s == gap + SkipBlanks(s) && Blanks(gap)
  {
    gap := "";
    if s != [] && Blank(s[0]) {
      var more := GapBefore(s[1..]);
      gap := [s[0]] + more;
      assert s == [s[0]] + s[1..];
    }
  }

  /** A word goes up to the first delimiter or the end. */
  lemma {:induction false} WordIsMaximal(s: string)
    ensures var n := WordLength(s); NoDelimiters(s[..n]) && (s[n..] == "" || Delimiter(s[n]))
  {
    if s != [] && !Delimiter(s[0]) {
      WordIsMaximal(s[1..]);
      var n := WordLength(s);
      forall i | 0 <= i < n ensures !Delimiter(s[..n][i]) {
        assert i > 0 ==> s[i] == s[1..][..n - 1][i - 1];
      }
    }
  }

  lemma {:induction false} IndexIsFirst(s: string, c: char)
    requires IndexOf(s, c).Some?
    ensures c !in s[..IndexOf(s, c).value]
  {
    if s[0] != c {
      IndexIsFirst(s[1..], c);
      var i := IndexOf(s, c).value;
      assert s[..i] == [s[0]] + s[1..][..i - 1];
    }
  }

  predicate Parens(ts: seq<Token>) {
    forall i :: 0 <= i < |ts| ==> ts[i].Single? ==> ts[i].c == '(' || ts[i].c == ')'
  }

  lemma {:induction false} FrontWritten(s: string)
    requires var t := LexFront(s).0; !t.Eof? && !t.Bad? && Parens([t])
    ensures var (t, rest) := LexFront(s); TokenOk(t) && s == TokenText(t) + rest
    ensures var (t, rest) := LexFront(s); Wordy(t) ==> rest == "" || Delimiter(rest[0])
  {
    var n := WordLength(s);
    WordIsMaximal(s);
    var (t, rest) := LexFront(s);
    assert [t][0] == t;
    if n != 0 {
      assert s == s[..n] + s[n..];
    } else if s[0] == '<' {
      BracketsWritten(s, '>');
    } else if s[0] == '[' {
      BracketsWritten(s, ']');
    } else {
      assert s == [s[0]] + s[1..];
    }
  }

  lemma {:induction false} BracketsWritten(s: string, close: char)
    requires s != [] && IndexOf(s, close).Some?
    requires (s[0] == '<' && close == '>') || (s[0] == '[' && close == ']')
    ensures var j := IndexOf(s, close).value;
      0 < j < |s| && close !in s[1..j] && s == [s[0]] + s[1..j] + [close] + s[j + 1..]
  {
    IndexIsFirst(s, close);
    var j := IndexOf(s, close).value;
    forall i | 0 <= i < |s[1..j]| ensures s[1..j][i] != close {
      assert s[1..j][i] == s[..j][i + 1];
    }
  }

  /** One more token in front, with the gap before it. */
  lemma {:induction false} OneMoreRendered(s: string, gap: string, t: Token, rest: string, ts: seq<Token>,
                                           more: seq<string>, tail: string, afterWord: bool)
    requires ts != [] && ts[0] == t && TokenOk(t) && TokensOk(ts[1..]) && Blanks(gap)
    requires (afterWord && Wordy(t) ==> gap != "") && GapsOk(ts[1..], more, Wordy(t))
    requires s == gap + (TokenText(t) + rest) && rest == Render(ts[1..], more) + tail
    ensures TokensOk(ts) && GapsOk(ts, [gap] + more, afterWord)
    ensures s == Render(ts, [gap] + more) + tail
  {
    assert ([gap] + more)[1..] == more;
    assert ts == [t] + ts[1..];
    assert s == gap + TokenText(t) + Render(ts[1..], more) + tail;
  }

  /** Two words are never next to each other. */
  lemma {:induction false} WordsNeedGap(s: string, gap: string, t: Token, rest: string)
    requires s == gap + (TokenText(t) + rest) && TokenOk(t) && Wordy(t) && Delimiter(s[0])
    ensures gap != ""
  {
  }

  /** A text in which these tokens are found is their rendering, up to blanks at the end. */
  lemma {:induction false} LexedIsRendered(s: string, ts: seq<Token>, afterWord: bool)
      returns (gaps: seq<string>, tail: string)
    requires Lexes(s, ts) && Parens(ts) && (afterWord ==> s == "" || Delimiter(s[0]))
    ensures TokensOk(ts) && GapsOk(ts, gaps, afterWord)
    ensures s == Render(ts, gaps) + tail && Blanks(tail)
    decreases |ts|
  {
    var gap := GapBefore(s);
    if ts == [] {
      gaps, tail := [], gap;
    } else {
      var (t, rest) := Lex(s);
      assert ts[0] == t;
      FrontWritten(SkipBlanks(s));
      if afterWord && Wordy(t) {
        WordsNeedGap(s, gap, t, rest);
      }
      var more;
      more, tail := LexedIsRendered(rest, ts[1..], Wordy(t));
      gaps := [gap] + more;
      OneMoreRendered(s, gap, t, rest, ts, more, tail, afterWord);
    }
  }

  /*** the tokens of a header ***/

  lemma {:induction false} ConcatParens(words: seq<seq<Token>>, cs: seq<Condition>)
    requires AllSpell(words, cs)
    ensures Parens(Concat(words))
    decreases |words|
  {
    if words != [] {
      assert Spells(words[0], cs[0]);
      assert AllSpell(words[1..], cs[1..]);
      ConcatParens(words[1..], cs[1..]);
    }
  }

  lemma {:induction false} TokensParens(items: seq<Item>)
    requires ItemsOk(items)
    ensures Parens(Tokens(items))
    decreases |items|
  {
    if items != [] {
      assert ItemOk(items[0]);
      ConcatParens(items[0].words, items[0].list.conditions);
      TokensParens(items[1..]);
    }
  }

  /*** the white space around a header ***/

  lemma {:induction false} LeadBefore(s: string) returns (lead: string)
    ensures s == lead + TrimLeft(s) && Spaces(lead) && (TrimLeft(s) == "" || !Space(TrimLeft(s)[0]))
  {
    lead := "";
    if s != "" && Space(s[0]) {
      var more := LeadBefore(s[1..]);
      lead := [s[0]] + more;
      assert s == [s[0]] + s[1..];
    }
  }

  lemma {:induction false} TrailAfter(s: string) returns (trail: string)
    ensures s == TrimRight(s) + trail && Spaces(trail)
    decreases |s|
  {
    trail := "";
    if s != "" && Space(s[|s| - 1]) {
      var more := TrailAfter(s[..|s| - 1]);
      trail := more + [s[|s| - 1]];
      assert s == s[..|s| - 1] + [s[|s| - 1]];
    }
  }

  lemma {:induction false} StartsWithGap(ts: seq<Token>, gaps: seq<string>)
    requires |gaps| == |ts| && ts != []
    ensures gaps[0] <= Render(ts, gaps)
  {
  }

  /** A text without white space around it has no blanks there. */
  lemma {:induction false} NoBlanksAround(gap: string, text: string, tail: string)
    requires Blanks(gap) && Blanks(tail) && gap <= text
    requires var s := text + tail; s == "" || (!Space(s[0]) && !Space(s[|s| - 1]))
    ensures gap == "" && tail == ""
  {
  }

  /** The text writes the header out: its tokens one after the other, with blanks between
      them at will and at least one between two words, and white space around it all. */
  ghost predicate Writes(header: string, h: seq<IfList>, items: seq<Item>, gaps: seq<string>, lead: string,
                         trail: string) {
    && Grammar(items) && Lists(items) == h
    && TokensOk(Tokens(items)) && GapsOk(Tokens(items), gaps, false) && gaps != [] && gaps[0] == ""
    && Spaces(lead) && Spaces(trail)
    && header == lead + Render(Tokens(items), gaps) + trail
  }

  /** A text without white space around it is just its tokens and the gaps between them. */
  lemma {:induction false} TightlyRendered(s: string, ts: seq<Token>) returns (gaps: seq<string>)
    requires ts != [] && Parens(ts) && Lexes(s, ts)
    requires s == "" || (!Space(s[0]) && !Space(s[|s| - 1]))
    ensures TokensOk(ts) && GapsOk(ts, gaps, false) && gaps[0] == "" && s == Render(ts, gaps)
  {
    var tail;
    gaps, tail := LexedIsRendered(s, ts, false);
    StartsWithGap(ts, gaps);
    NoBlanksAround(gaps[0], Render(ts, gaps), tail);
    assert Render(ts, gaps) + tail == Render(ts, gaps);
  }

  lemma {:induction false} AcceptedIsWritten(header: string, items: seq<Item>)
      returns (gaps: seq<string>, lead: string, trail: string)
    requires Grammar(items) && Lexes(TrimRight(TrimLeft(header)), Tokens(items))
    ensures Writes(header, Lists(items), items, gaps, lead, trail)
  {
    lead := LeadBefore(header);
    var left := TrimLeft(header);
    trail := TrailAfter(left);
    var s := TrimRight(left);
    TrimRightTrimmed(left);
    assert s != "" ==> s[0] == left[0];
    TokensParens(items);
    TokensEnds(items);
    gaps := TightlyRendered(s, Tokens(items));
    assert header == lead + s + trail;
  }

  /** The parser accepts exactly the texts that write a header out, each as that header. */
  lemma {:induction false} AcceptedIff(header: string, h: seq<IfList>)
    ensures ParseIfHeader(header) == Some(h) <==>
      exists items, gaps, lead, trail :: Writes(header, h, items, gaps, lead, trail)
  {
    if ParseIfHeader(header) == Some(h) {
      ParsedIffSpelled(header, h);
      var items :| Grammar(items) && Lexes(TrimRight(TrimLeft(header)), Tokens(items)) && Lists(items) == h;
      var gaps, lead, trail := AcceptedIsWritten(header, items);
    }
    if items, gaps, lead, trail :| Writes(header, h, items, gaps, lead, trail) {
      RoundTrip(items, gaps, lead, trail);
    }
  }
}
