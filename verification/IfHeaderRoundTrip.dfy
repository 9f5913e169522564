/** What is parsed was spelled, and what is printed is parsed: the "If" header parser and
    the printers of its structures undo each other. */
module IfHeaderRoundTrip {
  import opened Wrappers
  import opened IfHeader
  import opened IfHeaderText

  /*** what is parsed was spelled ***/

  lemma {:induction false} ConditionSpelled(s: string, rest: seq<Token>) returns (ts: seq<Token>)
    requires ParseCondition(s).Some? && Lexes(ParseCondition(s).value.1, rest)
    ensures Spells(ts, ParseCondition(s).value.0) && Lexes(s, ts + rest)
  {
    var (t0, s1) := Lex(s);
    if t0.Not? {
      var (t, s2) := Lex(s1);
      LexesCons(s1, t, s2, rest);
      LexesCons(s, Not, s1, [t] + rest);
      ts := [Not, t];
      assert ts + rest == [Not] + ([t] + rest);
      assert ts == [Not] + [ts[1]];
    } else {
      LexesCons(s, t0, s1, rest);
      ts := [t0];
      assert ts == [] + [ts[0]];
    }
  }

  lemma {:induction false} ConditionsSpelled(s: string, found: seq<Condition>, rest: seq<Token>)
    returns (cs: seq<Condition>, words: seq<seq<Token>>)
    requires ParseConditions(s, found).Some? && Lexes(ParseConditions(s, found).value.1, rest)
    ensures ParseConditions(s, found).value.0 == found + cs && found + cs != []
    ensures AllSpell(words, cs) && Lexes(s, Concat(words) + [Single(')')] + rest)
    decreases |s|
  {
    var (t, s1) := Lex(s);
    if t == Single(')') {
      cs, words := [], [];
      LexesCons(s, t, s1, rest);
      assert Concat(words) + [Single(')')] + rest == [t] + rest;
      assert found + cs == found;
    } else {
      var (c, remaining) := ParseCondition(s).value;
      var more, others := ConditionsSpelled(remaining, found + [c], rest);
      var ts := ConditionSpelled(s, Concat(others) + [Single(')')] + rest);
      WordsCons(ts, others, c, more, found, rest);
      cs, words := [c] + more, [ts] + others;
    }
  }

  lemma {:induction false} WordsCons(ts: seq<Token>, others: seq<seq<Token>>, c: Condition, more: seq<Condition>,
                                     found: seq<Condition>, rest: seq<Token>)
    requires Spells(ts, c) && AllSpell(others, more)
    ensures AllSpell([ts] + others, [c] + more) && found + [c] + more == found + ([c] + more)
    ensures Concat([ts] + others) + [Single(')')] + rest == ts + (Concat(others) + [Single(')')] + rest)
  {
    assert ([ts] + others)[1..] == others;
  }

  lemma {:induction false} ListSpelled(s: string, tag: string, rest: seq<Token>) returns (it: Item)
    requires ParseList(s).Some? && Lexes(ParseList(s).value.1, rest)
    ensures it.list == IfList(tag, ParseList(s).value.0) && !it.tagged && ItemOk(it)
    ensures Lexes(s, ListTokens(it.words) + rest)
  {
    var (t, s1) := Lex(s);
    var cs, words := ConditionsSpelled(s1, [], rest);
    assert [] + cs == cs;
    it := Item(false, IfList(tag, cs), words);
    var after := Concat(words) + [Single(')')] + rest;
    LexesCons(s, t, s1, after);
    assert ListTokens(words) + rest == [t] + after;
  }

  /** Putting one more item in front. */
  lemma {:induction false} ItemsCons(it: Item, more: seq<Item>, found: seq<IfList>)
    requires ItemOk(it) && ItemsOk(more) && !it.tagged
    ensures var items := [it] + more;
      && ItemsOk(items) && Tokens(items) == ListTokens(it.words) + Tokens(more)
      && found + Lists(items) == found + [it.list] + Lists(more)
  {
    var items := [it] + more;
    assert items[1..] == more;
    TokensFirst(items);
    ListsCons(items, found);
  }

  lemma {:induction false} NoTagSpelled(s: string, found: seq<IfList>) returns (items: seq<Item>)
    requires ParseNoTagLists(s, found).Some?
    ensures ParseNoTagLists(s, found).value == found + Lists(items)
    ensures items != [] && ItemsOk(items) && Untagged(items) && Lexes(s, Tokens(items))
    decreases |s|
  {
    var (cs, remaining) := ParseList(s).value;
    var more := [];
    if remaining != "" {
      more := NoTagSpelled(remaining, found + [IfList("", cs)]);
    }
    var it := ListSpelled(s, "", Tokens(more));
    ItemsCons(it, more, found);
    items := [it] + more;
  }

  lemma {:induction false} TaggedSpelled(s: string, first: bool, tag: string, bare: bool, found: seq<IfList>)
      returns (items: seq<Item>)
    requires ParseTaggedLists(s, first, tag, bare, found).Some?
    ensures ParseTaggedLists(s, first, tag, bare, found).value == found + Lists(items)
    ensures items != [] && ItemsOk(items) && Follows(items, tag) && Lexes(s, Tokens(items))
    ensures items[0].tagged <==> Lex(s).0.Angle?
    ensures !first && bare ==> !items[0].tagged
    decreases |s|
  {
    var (t, rest) := Lex(s);
    if t.Angle? {
      var plain := TaggedSpelled(rest, false, t.text, true, found);
      items := [plain[0].(tagged := true)] + plain[1..];
      assert [items[0].(tagged := false)] + items[1..] == plain;
      assert items[1..] == plain[1..];
      TokensFirst(items);
      LexesCons(s, t, rest, Tokens(plain));
      assert Lists(items) == Lists(plain);
      forall i | 0 <= i < |items| ensures ItemOk(items[i]) {
        assert ItemOk(plain[i]);
      }
    } else {
      var (cs, remaining) := ParseList(s).value;
      var more := [];
      if remaining != "" {
        more := TaggedSpelled(remaining, false, tag, false, found + [IfList(tag, cs)]);
      }
      var it := ListSpelled(s, tag, Tokens(more));
      ItemsCons(it, more, found);
      items := [it] + more;
      assert items[1..] == more;
    }
  }

  /** The parser accepts a text exactly when its tokens spell a header, and then returns
      that header. */
  lemma {:induction false} ParsedIffSpelled(header: string, h: seq<IfList>)
    ensures ParseIfHeader(header) == Some(h) <==>
      exists items :: Grammar(items) && Lexes(TrimRight(TrimLeft(header)), Tokens(items)) && Lists(items) == h
  {
    if items :| Grammar(items) && Lexes(TrimRight(TrimLeft(header)), Tokens(items)) && Lists(items) == h {
      SpellingsParse(header, items);
    }
    if ParseIfHeader(header) == Some(h) {
      var s := TrimRight(TrimLeft(header));
      var items;
      if Lex(s).0 == Single('(') {
        items := NoTagSpelled(s, []);
      } else {
        items := TaggedSpelled(s, true, "", true, []);
      }
      assert [] + Lists(items) == Lists(items);
      assert Grammar(items);
    }
  }

  /*** writing tokens down ***/

  function TokenText(t: Token): string {
    match t
    case Word(text) => text
    case Not => "Not"
    case Angle(text) => "<" + text + ">"
    case Square(text) => "[" + text + "]"
    case Single(c) => [c]
    case _ => ""
  }

  predicate NoDelimiters(s: string) {
    forall i :: 0 <= i < |s| ==> !Delimiter(s[i])
  }

  /** The token can be written. */
  predicate TokenOk(t: Token) {
    match t
    case Word(text) => text != "" && text != "Not" && NoDelimiters(text)
    case Not => true
    case Angle(text) => '>' !in text
    case Square(text) => ']' !in text
    case Single(c) => c == '(' || c == ')'
    case _ => false
  }

  predicate Wordy(t: Token) {
    t.Word? || t.Not?
  }

  predicate Blanks(s: string) {
    forall i :: 0 <= i < |s| ==> Blank(s[i])
  }

  /** Each token with blanks before it. */
  function Render(ts: seq<Token>, gaps: seq<string>): string
    requires |gaps| == |ts|
  {
    if ts == [] then "" else gaps[0] + TokenText(ts[0]) + Render(ts[1..], gaps[1..])
  }

  /** Words next to each other are kept apart. */
  predicate GapsOk(ts: seq<Token>, gaps: seq<string>, afterWord: bool) {
    && |gaps| == |ts|
    && (ts != [] ==>
          && Blanks(gaps[0]) && (afterWord && Wordy(ts[0]) ==> gaps[0] != "")
          && GapsOk(ts[1..], gaps[1..], Wordy(ts[0])))
  }

  predicate TokensOk(ts: seq<Token>) {
    forall i :: 0 <= i < |ts| ==> TokenOk(ts[i])
  }

  lemma {:induction false} SkipGap(gap: string, s: string)
    requires Blanks(gap) && s != "" && !Blank(s[0])
    ensures SkipBlanks(gap + s) == s
  {
    if gap == "" {
      assert gap + s == s;
    } else {
      assert (gap + s)[1..] == gap[1..] + s;
      SkipGap(gap[1..], s);
    }
  }

  lemma {:induction false} WordEnds(w: string, rest: string)
    requires NoDelimiters(w) && (rest == "" || Delimiter(rest[0]))
    ensures WordLength(w + rest) == |w|
  {
    if w == "" {
      assert w + rest == rest;
    } else {
      assert (w + rest)[1..] == w[1..] + rest;
      WordEnds(w[1..], rest);
    }
  }

  lemma {:induction false} IndexAfter(x: string, c: char, rest: string)
    requires c !in x
    ensures IndexOf(x + [c] + rest, c) == Some(|x|)
  {
    if x != "" {
      assert (x + [c] + rest)[1..] == x[1..] + [c] + rest;
      IndexAfter(x[1..], c, rest);
    }
  }

  lemma {:induction false} FrontToken(t: Token, rest: string)
    requires TokenOk(t) && (Wordy(t) ==> rest == "" || Delimiter(rest[0]))
    ensures LexFront(TokenText(t) + rest) == (t, rest)
  {
    var s := TokenText(t) + rest;
    match t
    case Word(text) => WordEnds(text, rest); assert s[..|text|] == text;
    case Not =>
      assert NoDelimiters("Not");
      WordEnds("Not", rest);
      assert s[..3] == "Not";
    case Angle(text) => BracketedToken(text, '<', '>', rest);
    case Square(text) => BracketedToken(text, '[', ']', rest);
    case Single(c) =>
  }

  lemma {:induction false} BracketedToken(text: string, open: char, close: char, rest: string)
    requires close !in text && ((open == '<' && close == '>') || (open == '[' && close == ']'))
    ensures var s := [open] + text + [close] + rest;
      LexFront(s) == (if open == '<' then Angle(text) else Square(text), rest)
  {
    var s := [open] + text + [close] + rest;
    assert s == ([open] + text) + [close] + rest;
    IndexAfter([open] + text, close, rest);
    assert s[1..|text| + 1] == text;
    assert s[|text| + 2..] == rest;
  }

  lemma {:induction false} RenderStarts(ts: seq<Token>, gaps: seq<string>)
    requires TokensOk(ts) && GapsOk(ts, gaps, true)
    ensures var s := Render(ts, gaps); s == "" || Delimiter(s[0])
  {
    if ts != [] {
      assert TokenOk(ts[0]);
    }
  }

  /** Whatever the blanks, the tokens are found again. */
  lemma {:induction false} RenderLexes(ts: seq<Token>, gaps: seq<string>, afterWord: bool)
    requires TokensOk(ts) && GapsOk(ts, gaps, afterWord)
    ensures Lexes(Render(ts, gaps), ts)
    decreases |ts|
  {
    if ts != [] {
      var t, rest := ts[0], Render(ts[1..], gaps[1..]);
      assert TokenOk(t);
      if Wordy(t) {
        RenderStarts(ts[1..], gaps[1..]);
      }
      FrontToken(t, rest);
      var text := TokenText(t) + rest;
      assert !Blank(text[0]);
      SkipGap(gaps[0], text);
      assert Render(ts, gaps) == gaps[0] + text;
      RenderLexes(ts[1..], gaps[1..], Wordy(t));
    }
  }

  /*** printing a header ***/

  predicate Spaces(s: string) {
    forall i :: 0 <= i < |s| ==> Space(s[i])
  }

  lemma {:induction false} TrimmedLeft(lead: string, s: string)
    requires Spaces(lead) && s != "" && !Space(s[0])
    ensures TrimLeft(lead + s) == s
    decreases |lead|
  {
    if lead == "" {
      assert lead + s == s;
    } else {
      assert (lead + s)[1..] == lead[1..] + s;
      TrimmedLeft(lead[1..], s);
    }
  }

  lemma {:induction false} TrimmedRight(s: string, trail: string)
    requires Spaces(trail) && s != "" && !Space(s[|s| - 1])
    ensures TrimRight(s + trail) == s
    decreases |trail|
  {
    if trail == "" {
      assert s + trail == s;
    } else {
      var last := |trail| - 1;
      assert (s + trail)[..|s + trail| - 1] == s + trail[..last];
      TrimmedRight(s, trail[..last]);
    }
  }

  lemma {:induction false} TrimmedBoth(lead: string, s: string, trail: string)
    requires Spaces(lead) && Spaces(trail) && s != "" && !Space(s[0]) && !Space(s[|s| - 1])
    ensures TrimRight(TrimLeft(lead + s + trail)) == s
  {
    assert lead + s + trail == lead + (s + trail);
    TrimmedLeft(lead, s + trail);
    TrimmedRight(s, trail);
  }

  lemma {:induction false} FirstChar(ts: seq<Token>, gaps: seq<string>)
    requires ts != [] && |gaps| == |ts| && gaps[0] == "" && (ts[0] == Single('(') || ts[0].Angle?)
    ensures var s := Render(ts, gaps); s != "" && !Space(s[0])
  {
  }

  /** The text of a header starts and ends with visible characters. */
  lemma {:induction false} RenderEnds(ts: seq<Token>, gaps: seq<string>)
    requires ts != [] && |gaps| == |ts| && ts[|ts| - 1] == Single(')')
    ensures var s := Render(ts, gaps); s != "" && s[|s| - 1] == ')'
    decreases |ts|
  {
    if |ts| == 1 {
      assert Render(ts[1..], gaps[1..]) == "";
    } else {
      RenderEnds(ts[1..], gaps[1..]);
    }
  }

  lemma {:induction false} TokensEnds(items: seq<Item>)
    requires items != []
    ensures var ts := Tokens(items); ts != [] && ts[|ts| - 1] == Single(')') && !Wordy(ts[0])
    ensures Tokens(items)[0] == Single('(') || Tokens(items)[0].Angle?
    decreases |items|
  {
    if |items| > 1 {
      TokensEnds(items[1..]);
    }
  }

  /** Every spelling of a header, with any blanks between its tokens and white space around
      it, is read back as that header. */
  lemma {:induction false} RoundTrip(items: seq<Item>, gaps: seq<string>, lead: string, trail: string)
    requires Grammar(items) && TokensOk(Tokens(items)) && GapsOk(Tokens(items), gaps, false) && gaps[0] == ""
    requires Spaces(lead) && Spaces(trail)
    ensures ParseIfHeader(lead + Render(Tokens(items), gaps) + trail) == Some(Lists(items))
  {
    var ts := Tokens(items);
    var s := Render(ts, gaps);
    TokensEnds(items);
    RenderEnds(ts, gaps);
    FirstChar(ts, gaps);
    TrimmedBoth(lead, s, trail);
    RenderLexes(ts, gaps, false);
    SpellingsParse(lead + s + trail, items);
  }

  /*** a canonical printer ***/

  /** The structures that can be written: every list has a condition, a condition has a
      token or an entity tag, and no text holds the bracket that would end it. */
  ghost predicate Printable(h: seq<IfList>) {
    && h != []
    && (forall i :: 0 <= i < |h| ==> ListPrintable(h[i]))
  }

  ghost predicate ListPrintable(l: IfList) {
    '>' !in l.resourceTag && l.conditions != [] && forall i :: 0 <= i < |l.conditions| ==>
      ConditionPrintable(l.conditions[i])
  }

  predicate ConditionPrintable(c: Condition) {
    (c.etag == "" || c.token == "") && '>' !in c.token && ']' !in c.etag
  }

  function Words(c: Condition): seq<Token> {
    (if c.not then [Not] else []) + [if c.etag == "" then Angle(c.token) else Square(c.etag)]
  }

  function AllWords(cs: seq<Condition>): (r: seq<seq<Token>>)
    ensures |r| == |cs| && forall i :: 0 <= i < |r| ==> r[i] == Words(cs[i])
  {
    seq(|cs|, i requires 0 <= i < |cs| => Words(cs[i]))
  }

  /** Every list with its tag. */
  function Items(h: seq<IfList>): (r: seq<Item>)
    ensures |r| == |h| && forall i :: 0 <= i < |r| ==> r[i] == Item(true, h[i], AllWords(h[i].conditions))
  {
    seq(|h|, i requires 0 <= i < |h| => Item(true, h[i], AllWords(h[i].conditions)))
  }

  function NoGaps(n: nat): (r: seq<string>)
    ensures |r| == n && forall i :: 0 <= i < n ==> r[i] == ""
  {
    seq(n, _ => "")
  }

  function Print(h: seq<IfList>): string {
    Render(Tokens(Items(h)), NoGaps(|Tokens(Items(h))|))
  }

  lemma {:induction false} TaggedFollow(items: seq<Item>, tag: string)
    requires forall i :: 0 <= i < |items| ==> items[i].tagged
    ensures Follows(items, tag)
    decreases |items|
  {
    if items != [] {
      TaggedFollow(items[1..], items[0].list.resourceTag);
    }
  }

  lemma {:induction false} WordsSpell(c: Condition)
    requires ConditionPrintable(c)
    ensures Spells(Words(c), c)
  {
    var ts := Words(c);
    assert ts == (if c.not then [Not] else []) + [ts[|ts| - 1]];
  }

  /** The tokens are writable, and no two words are next to each other. */
  predicate Apart(ts: seq<Token>) {
    TokensOk(ts) && forall i :: 0 <= i < |ts| ==> !ts[i].Word?
  }

  lemma {:induction false} ConcatApart(cs: seq<Condition>)
    requires forall i :: 0 <= i < |cs| ==> ConditionPrintable(cs[i])
    ensures Apart(Concat(AllWords(cs))) && LastNotWordy(Concat(AllWords(cs))) && NotsApart(Concat(AllWords(cs)))
    decreases |cs|
  {
    if cs != [] {
      assert AllWords(cs)[1..] == AllWords(cs[1..]);
      ConcatApart(cs[1..]);
      var ts := Words(cs[0]);
      assert Apart(ts) && LastNotWordy(ts) && NotsApart(ts);
      JoinApart(ts, Concat(AllWords(cs[1..])));
    }
  }

  predicate LastNotWordy(ts: seq<Token>) {
    ts == [] || !Wordy(ts[|ts| - 1])
  }

  predicate NotsApart(ts: seq<Token>) {
    forall i :: 0 < i < |ts| ==> !(Wordy(ts[i - 1]) && Wordy(ts[i]))
  }

  lemma {:induction false} JoinApart(xs: seq<Token>, ys: seq<Token>)
    requires Apart(xs) && Apart(ys) && NotsApart(xs) && NotsApart(ys) && LastNotWordy(xs) && LastNotWordy(ys)
    ensures Apart(xs + ys) && NotsApart(xs + ys) && LastNotWordy(xs + ys)
  {
  }

  lemma {:induction false} ItemsApart(h: seq<IfList>)
    requires forall i :: 0 <= i < |h| ==> ListPrintable(h[i])
    ensures var ts := Tokens(Items(h)); Apart(ts) && NotsApart(ts) && LastNotWordy(ts)
    decreases |h|
  {
    if h != [] {
      var it := Items(h)[0];
      assert Items(h)[1..] == Items(h[1..]);
      ItemsApart(h[1..]);
      ConcatApart(h[0].conditions);
      assert ListPrintable(h[0]);
      JoinApart([Angle(h[0].resourceTag)], [Single('(')]);
      JoinApart([Angle(h[0].resourceTag)] + [Single('(')], Concat(it.words));
      JoinApart([Angle(h[0].resourceTag)] + [Single('(')] + Concat(it.words), [Single(')')]);
      assert ItemTokens(it) == [Angle(h[0].resourceTag)] + [Single('(')] + Concat(it.words) + [Single(')')];
      JoinApart(ItemTokens(it), Tokens(Items(h[1..])));
    }
  }

  lemma {:induction false} NoGapsOk(ts: seq<Token>, afterWord: bool)
    requires NotsApart(ts) && (afterWord ==> ts == [] || !Wordy(ts[0]))
    ensures GapsOk(ts, NoGaps(|ts|), afterWord)
    decreases |ts|
  {
    if ts != [] {
      assert NoGaps(|ts|)[1..] == NoGaps(|ts[1..]|);
      assert ts[1..] != [] ==> ts[1] == ts[1..][0];
      forall i | 0 < i < |ts[1..]| ensures !(Wordy(ts[1..][i - 1]) && Wordy(ts[1..][i])) {
        assert ts[1..][i - 1] == ts[i] && ts[1..][i] == ts[i + 1];
      }
      NoGapsOk(ts[1..], Wordy(ts[0]));
    }
  }

  /** Parsing undoes printing. */
  lemma {:induction false} PrintThenParse(h: seq<IfList>)
    requires Printable(h)
    ensures ParseIfHeader(Print(h)) == Some(h)
  {
    var items := Items(h);
    forall i | 0 <= i < |items| ensures ItemOk(items[i]) {
      assert ListPrintable(h[i]);
      forall j | 0 <= j < |h[i].conditions| ensures Spells(items[i].words[j], h[i].conditions[j]) {
        WordsSpell(h[i].conditions[j]);
      }
    }
    TaggedFollow(items, "");
    ItemsApart(h);
    var ts := Tokens(items);
    TokensEnds(items);
    NoGapsOk(ts, false);
    RoundTrip(items, NoGaps(|ts|), "", "");
    assert "" + Print(h) + "" == Print(h);
    assert Lists(items) == h;
  }
}
