/** What texts the parser of the "If" header accepts: exactly the spellings of a header
    structure as tokens; and how to write a structure down so that it is read back. */
module IfHeaderText {
  import opened Wrappers
  import opened IfHeader

  /*** texts and their tokens ***/

  /** The lexer, called again and again, finds exactly these tokens. */
  predicate Lexes(s: string, ts: seq<Token>)
    decreases |ts|
  {
    if ts == [] then SkipBlanks(s) == []
    else Lex(s).0 == ts[0] && !ts[0].Eof? && !ts[0].Bad? && Lexes(Lex(s).1, ts[1..])
  }

  lemma {:induction false} LexesHead(s: string, t: Token, ts: seq<Token>)
    requires Lexes(s, [t] + ts)
    ensures Lex(s).0 == t && !t.Eof? && !t.Bad? && Lexes(Lex(s).1, ts)
  {
    assert ([t] + ts)[1..] == ts;
  }

  lemma {:induction false} LexesCons(s: string, t: Token, rest: string, ts: seq<Token>)
    requires Lex(s) == (t, rest) && !t.Eof? && !t.Bad? && Lexes(rest, ts)
    ensures Lexes(s, [t] + ts)
  {
    assert ([t] + ts)[1..] == ts;
  }

  /** One of the ways to write a condition. */
  predicate Spells(ts: seq<Token>, c: Condition) {
    |ts| > 0 && Names(ts[|ts| - 1], c) && ts == (if c.not then [Not] else []) + [ts[|ts| - 1]]
  }

  predicate Names(t: Token, c: Condition) {
    || ((t == Word(c.token) || t == Angle(c.token)) && c.etag == "")
    || (t == Square(c.etag) && c.token == "")
  }

  function Concat(tss: seq<seq<Token>>): seq<Token> {
    if tss == [] then [] else tss[0] + Concat(tss[1..])
  }

  ghost predicate AllSpell(tss: seq<seq<Token>>, cs: seq<Condition>) {
    |tss| == |cs| && forall i :: 0 <= i < |cs| ==> Spells(tss[i], cs[i])
  }

  /** A list as it is written: with or without its tag, and its conditions in tokens. */
  datatype Item = Item(tagged: bool, list: IfList, words: seq<seq<Token>>)

  function ListTokens(words: seq<seq<Token>>): seq<Token> {
    [Single('(')] + Concat(words) + [Single(')')]
  }

  function ItemTokens(it: Item): seq<Token> {
    (if it.tagged then [Angle(it.list.resourceTag)] else []) + ListTokens(it.words)
  }

  function Tokens(items: seq<Item>): seq<Token> {
    if items == [] then [] else ItemTokens(items[0]) + Tokens(items[1..])
  }

  function Lists(items: seq<Item>): (r: seq<IfList>)
    ensures |r| == |items| && forall i :: 0 <= i < |r| ==> r[i] == items[i].list
  {
    seq(|items|, i requires 0 <= i < |items| => items[i].list)
  }

  ghost predicate ItemOk(it: Item) {
    it.list.conditions != [] && AllSpell(it.words, it.list.conditions)
  }

  ghost predicate ItemsOk(items: seq<Item>) {
    forall i :: 0 <= i < |items| ==> ItemOk(items[i])
  }

  /** Without tags, or each list with its own tag or that of the list before it. */
  predicate Untagged(items: seq<Item>) {
    forall i :: 0 <= i < |items| ==> !items[i].tagged && items[i].list.resourceTag == ""
  }

  predicate Follows(items: seq<Item>, tag: string) {
    items == [] ||
    ((items[0].tagged || items[0].list.resourceTag == tag) && Follows(items[1..], items[0].list.resourceTag))
  }

  ghost predicate Grammar(items: seq<Item>) {
    items != [] && ItemsOk(items) && (Untagged(items) || (items[0].tagged && Follows(items, "")))
  }

  /*** what has these tokens is parsed to the structure ***/

  lemma {:induction false} ConditionParsed(s: string, ts: seq<Token>, c: Condition, rest: seq<Token>)
    requires Spells(ts, c) && Lexes(s, ts + rest)
    ensures ParseCondition(s).Some? && ParseCondition(s).value.0 == c && Lexes(ParseCondition(s).value.1, rest)
    ensures Lex(s).0 != Single(')')
  {
    var t := ts[|ts| - 1];
    if c.not {
      assert ts + rest == [Not] + ([t] + rest);
      LexesHead(s, Not, [t] + rest);
      LexesHead(Lex(s).1, t, rest);
    } else {
      assert ts + rest == [t] + rest;
      LexesHead(s, t, rest);
    }
  }

  lemma {:induction false} WordsFirst(words: seq<seq<Token>>, rest: seq<Token>)
    requires words != []
    ensures Concat(words) + [Single(')')] + rest == words[0] + (Concat(words[1..]) + [Single(')')] + rest)
  {
  }

  lemma {:induction false} ConditionsParsed(s: string, words: seq<seq<Token>>, cs: seq<Condition>, rest: seq<Token>,
                                            found: seq<Condition>)
    requires AllSpell(words, cs) && Lexes(s, Concat(words) + [Single(')')] + rest) && found + cs != []
    ensures ParseConditions(s, found).Some? && ParseConditions(s, found).value.0 == found + cs
    ensures Lexes(ParseConditions(s, found).value.1, rest)
    decreases |words|
  {
    if words == [] {
      assert found + cs == found;
      assert Concat(words) + [Single(')')] + rest == [Single(')')] + rest;
      LexesHead(s, Single(')'), rest);
    } else {
      var after := Concat(words[1..]) + [Single(')')] + rest;
      WordsFirst(words, rest);
      ConditionParsed(s, words[0], cs[0], after);
      assert found + [cs[0]] + cs[1..] == found + cs;
      ConditionsParsed(ParseCondition(s).value.1, words[1..], cs[1..], rest, found + [cs[0]]);
    }
  }

  lemma {:induction false} ListParsed(s: string, words: seq<seq<Token>>, cs: seq<Condition>, rest: seq<Token>)
    requires AllSpell(words, cs) && cs != [] && Lexes(s, ListTokens(words) + rest)
    ensures Lex(s).0 == Single('(')
    ensures ParseList(s).Some? && ParseList(s).value.0 == cs && Lexes(ParseList(s).value.1, rest)
  {
    var after := Concat(words) + [Single(')')] + rest;
    assert ListTokens(words) + rest == [Single('(')] + after;
    LexesHead(s, Single('('), after);
    ConditionsParsed(Lex(s).1, words, cs, rest, []);
    assert [] + cs == cs;
  }

  /*** rests of trimmed texts ***/

  /** r is what is left of s. */
  predicate Rest(r: string, s: string) {
    |r| <= |s| && r == s[|s| - |r|..]
  }

  lemma {:induction false} BlanksRest(s: string)
    ensures Rest(SkipBlanks(s), s)
  {
    if s != [] && Blank(s[0]) {
      BlanksRest(s[1..]);
    }
  }

  lemma {:induction false} LexRest(s: string)
    requires !Lex(s).0.Bad? && !Lex(s).0.Eof?
    ensures Rest(Lex(s).1, s)
  {
    BlanksRest(s);
    FrontRest(SkipBlanks(s));
  }

  lemma {:induction false} FrontRest(s: string)
    requires !LexFront(s).0.Bad? && !LexFront(s).0.Eof?
    ensures Rest(LexFront(s).1, s)
  {
  }

  lemma {:induction false} ConditionRest(s: string)
    requires ParseCondition(s).Some?
    ensures Rest(ParseCondition(s).value.1, s)
  {
    LexRest(s);
    if Lex(s).0.Not? {
      LexRest(Lex(s).1);
    }
  }

  lemma {:induction false} ConditionsRest(s: string, found: seq<Condition>)
    requires ParseConditions(s, found).Some?
    ensures Rest(ParseConditions(s, found).value.1, s)
    decreases |s|
  {
    if Lex(s).0 == Single(')') {
      LexRest(s);
    } else {
      ConditionRest(s);
      var (c, remaining) := ParseCondition(s).value;
      ConditionsRest(remaining, found + [c]);
    }
  }

  lemma {:induction false} ListRest(s: string)
    requires ParseList(s).Some?
    ensures Rest(ParseList(s).value.1, s)
  {
    LexRest(s);
    ConditionsRest(Lex(s).1, []);
  }

  /** The text does not end in white space. */
  predicate Trimmed(s: string) {
    s == [] || !Space(s[|s| - 1])
  }

  lemma {:induction false} RestTrimmed(r: string, s: string)
    requires Rest(r, s) && Trimmed(s)
    ensures Trimmed(r)
  {
  }

  /** In a trimmed text, nothing is left exactly when no token is left. */
  lemma {:induction false} NothingLeft(s: string)
    requires Trimmed(s) && SkipBlanks(s) == []
    ensures s == []
  {
    if s != [] {
      assert Blank(s[0]);
      if |s| > 1 {
        NothingLeft(s[1..]);
      }
    }
  }

  /*** every spelling is parsed ***/

  lemma {:induction false} TokensFirst(items: seq<Item>)
    requires items != []
    ensures Tokens(items) != []
    ensures !items[0].tagged ==> Tokens(items) == ListTokens(items[0].words) + Tokens(items[1..])
    ensures items[0].tagged ==>
      Tokens(items) == [Angle(items[0].list.resourceTag)] + Tokens([items[0].(tagged := false)] + items[1..])
  {
    var same := [items[0].(tagged := false)] + items[1..];
    assert same[1..] == items[1..];
    var list := ListTokens(items[0].words);
    assert Tokens(same) == list + Tokens(items[1..]);
    assert items[0].tagged ==> Tokens(items) == [Angle(items[0].list.resourceTag)] + list + Tokens(items[1..]);
  }

  /** The first list, without a tag in front. */
  lemma {:induction false} FirstParsed(s: string, items: seq<Item>)
    requires items != [] && ItemOk(items[0]) && !items[0].tagged && Lexes(s, Tokens(items)) && Trimmed(s)
    ensures Lex(s).0 == Single('(')
    ensures ParseList(s).Some? && ParseList(s).value.0 == items[0].list.conditions
    ensures var remaining := ParseList(s).value.1;
      Lexes(remaining, Tokens(items[1..])) && Trimmed(remaining) && (remaining == "" <==> items[1..] == [])
  {
    var it, more := items[0], items[1..];
    TokensFirst(items);
    ListParsed(s, it.words, it.list.conditions, Tokens(more));
    ListRest(s);
    var remaining := ParseList(s).value.1;
    RestTrimmed(remaining, s);
    if more == [] {
      NothingLeft(remaining);
    } else {
      TokensFirst(more);
    }
  }

  lemma {:induction false} ListsCons(items: seq<Item>, found: seq<IfList>)
    requires items != []
    ensures found + Lists(items) == found + [items[0].list] + Lists(items[1..])
    ensures items[1..] == [] ==> found + Lists(items) == found + [items[0].list]
  {
  }

  lemma {:induction false} NoTagParsed(s: string, items: seq<Item>, found: seq<IfList>)
    requires items != [] && ItemsOk(items) && Untagged(items) && Lexes(s, Tokens(items)) && Trimmed(s)
    ensures ParseNoTagLists(s, found) == Some(found + Lists(items))
    decreases |items|
  {
    FirstParsed(s, items);
    ListsCons(items, found);
    var list, more := items[0].list, items[1..];
    assert list == IfList("", list.conditions);
    if more != [] {
      NoTagParsed(ParseList(s).value.1, more, found + [list]);
    }
  }

  lemma {:induction false} SameLists(items: seq<Item>, same: seq<Item>)
    requires items != [] && ItemsOk(items) && same == [items[0].(tagged := false)] + items[1..]
    ensures ItemsOk(same) && Lists(same) == Lists(items)
    ensures Follows(items[1..], items[0].list.resourceTag) ==> Follows(same, items[0].list.resourceTag)
  {
    assert same[1..] == items[1..];
    forall i | 0 <= i < |same| ensures ItemOk(same[i]) {
      assert ItemOk(items[i]);
    }
  }

  lemma {:induction false} TaggedParsed(s: string, items: seq<Item>, first: bool, tag: string, bare: bool,
                                        found: seq<IfList>)
    requires items != [] && ItemsOk(items) && Follows(items, tag) && Lexes(s, Tokens(items)) && Trimmed(s)
    requires items[0].tagged ==> first || !bare
    ensures ParseTaggedLists(s, first, tag, bare, found) == Some(found + Lists(items))
    decreases |items|, if items[0].tagged then 2 else 1
  {
    var it := items[0];
    if it.tagged {
      var plain := it.(tagged := false);
      var same := [plain] + items[1..];
      TokensFirst(items);
      SameLists(items, same);
      LexesHead(s, Angle(it.list.resourceTag), Tokens(same));
      LexRest(s);
      RestTrimmed(Lex(s).1, s);
      TaggedParsed(Lex(s).1, same, false, it.list.resourceTag, true, found);
    } else {
      PlainParsed(s, items, first, tag, bare, found);
    }
  }

  lemma {:induction false} PlainParsed(s: string, items: seq<Item>, first: bool, tag: string, bare: bool,
                                       found: seq<IfList>)
    requires items != [] && ItemsOk(items) && Follows(items, tag) && Lexes(s, Tokens(items)) && Trimmed(s)
      && !items[0].tagged
    ensures ParseTaggedLists(s, first, tag, bare, found) == Some(found + Lists(items))
    decreases |items|, 0
  {
    FirstParsed(s, items);
    ListsCons(items, found);
    var list, more := items[0].list, items[1..];
    assert list == IfList(tag, list.conditions);
    if more != [] {
      TaggedParsed(ParseList(s).value.1, more, false, tag, false, found + [list]);
    }
  }

  lemma {:induction false} TrimRightTrimmed(s: string)
    ensures Trimmed(TrimRight(s))
  {
    if s != [] && Space(s[|s| - 1]) {
      TrimRightTrimmed(s[..|s| - 1]);
    }
  }

  /** Every text whose tokens spell a header, however it is laid out, is parsed to it. */
  lemma {:induction false} SpellingsParse(header: string, items: seq<Item>)
    requires Grammar(items) && Lexes(TrimRight(TrimLeft(header)), Tokens(items))
    ensures ParseIfHeader(header) == Some(Lists(items))
  {
    var s := TrimRight(TrimLeft(header));
    TrimRightTrimmed(TrimLeft(header));
    if Untagged(items) {
      FirstParsed(s, items);
      NoTagParsed(s, items, []);
    } else {
      var it := items[0];
      TokensFirst(items);
      LexesHead(s, Angle(it.list.resourceTag), Tokens([it.(tagged := false)] + items[1..]));
      TaggedParsed(s, items, true, "", true, []);
    }
    assert [] + Lists(items) == Lists(items);
  }
}
