/** The parser of the "If" header (section 10.4 of RFC 4918): a disjunction of lists, each a
    conjunction of conditions, optionally tagged with a resource. */
module IfHeader {
  import opened Wrappers

  datatype Condition = Condition(not: bool, token: string, etag: string)
  datatype IfList = IfList(resourceTag: string, conditions: seq<Condition>)

  /** What the lexer finds; a single character stands for itself. */
  datatype Token = Eof | Bad | Word(text: string) | Not | Angle(text: string) | Square(text: string) | Single(c: char)

  predicate Blank(c: char) {
    c == '\t' || c == ' '
  }

  predicate Delimiter(c: char) {
    c in {'\t', ' ', '(', ')', '<', '>', '[', ']'}
  }

  /*** the lexer as functions ***/

  function SkipBlanks(s: string): (r: string)
    ensures |r| <= |s| && (r != [] ==> !Blank(r[0]))
  {
    if s != [] && Blank(s[0]) then SkipBlanks(s[1..]) else s
  }

  /** How many characters at the front of s are not delimiters. */
  function WordLength(s: string): (n: nat)
    ensures n <= |s|
  {
    if s == [] || Delimiter(s[0]) then 0 else 1 + WordLength(s[1..])
  }

  /** Where c first occurs. */
  function IndexOf(s: string, c: char): (i: Option<nat>)
    ensures i.Some? ==> i.value < |s| && s[i.value] == c
  {
    if s == [] then None
    else if s[0] == c then Some(0)
    else
      match IndexOf(s[1..], c)
      case None => None
      case Some(i) => Some(i + 1)
  }

  /** The token at the front of s, which does not start with a blank, and the rest. */
  function LexFront(s: string): (r: (Token, string))
    ensures |r.1| <= |s| && (!r.0.Eof? && !r.0.Bad? ==> |r.1| < |s|)
  {
    if s == [] then (Eof, "")
    else
      var n := WordLength(s);
      if n != 0 then (if s[..n] == "Not" then (Not, s[n..]) else (Word(s[..n]), s[n..]))
      else if s[0] == '<' then Bracketed(s, '>')
      else if s[0] == '[' then Bracketed(s, ']')
      else (Single(s[0]), s[1..])
  }

  function Bracketed(s: string, close: char): (r: (Token, string))
    requires s != [] && s[0] != close && (close == '>' || close == ']')
    ensures |r.1| <= |s| && (!r.0.Eof? && !r.0.Bad? ==> |r.1| < |s|)
  {
    match IndexOf(s, close)
    case None => (Bad, "")
    case Some(j) => (if close == '>' then Angle(s[1..j]) else Square(s[1..j]), s[j + 1..])
  }

  function Lex(s: string): (r: (Token, string))
    ensures |r.1| <= |s| && (!r.0.Eof? && !r.0.Bad? ==> |r.1| < |s|)
  {
    LexFront(SkipBlanks(s))
  }

  /*** the parser as functions ***/

  function ParseCondition(s0: string): (r: Option<(Condition, string)>)
    ensures r.Some? ==> |r.value.1| < |s0|
  {
    var (t0, s1) := Lex(s0);
    var (t, s) := if t0.Not? then Lex(s1) else (t0, s1);
    match t
    case Word(text) => Some((Condition(t0.Not?, text, ""), s))
    case Angle(text) => Some((Condition(t0.Not?, text, ""), s))
    case Square(text) => Some((Condition(t0.Not?, "", text), s))
    case _ => None
  }

  /** Conditions up to the closing parenthesis, after those already found. */
  function ParseConditions(s: string, found: seq<Condition>): (r: Option<(seq<Condition>, string)>)
    ensures r.Some? ==> |r.value.1| < |s|
    decreases |s|
  {
    var (t, rest) := Lex(s);
    if t == Single(')') then
      (if found == [] then None else Some((found, rest)))
    else
      match ParseCondition(s)
      case None => None
      case Some((c, remaining)) => ParseConditions(remaining, found + [c])
  }

  function ParseList(s: string): (r: Option<(seq<Condition>, string)>)
    ensures r.Some? ==> |r.value.1| < |s|
  {
    var (t, rest) := Lex(s);
    if t != Single('(') then None else ParseConditions(rest, [])
  }

  function ParseNoTagLists(s: string, found: seq<IfList>): Option<seq<IfList>>
    decreases |s|
  {
    match ParseList(s)
    case None => None
    case Some((cs, remaining)) =>
      var lists := found + [IfList("", cs)];
      if remaining == "" then Some(lists) else ParseNoTagLists(remaining, lists)
  }

  /** `bare` says that no list followed the tag yet; the very first token may be a tag. */
  function ParseTaggedLists(s: string, first: bool, tag: string, bare: bool, found: seq<IfList>): Option<seq<IfList>>
    decreases |s|
  {
    var (t, rest) := Lex(s);
    match t
    case Angle(text) =>
      if !first && bare then None else ParseTaggedLists(rest, false, text, true, found)
    case Single(c) =>
      if c != '(' then None
      else (
        match ParseList(s)
        case None => None
        case Some((cs, remaining)) =>
          var lists := found + [IfList(tag, cs)];
          if remaining == "" then Some(lists) else ParseTaggedLists(remaining, false, tag, false, lists))
    case _ => None
  }

  /** White space, as the header's surroundings are trimmed of. */
  predicate Space(c: char) {
    || c == ' ' || '\t' <= c <= '\r' || c == '\U{0085}' || c == '\U{00A0}' || c == '\U{1680}'
    || '\U{2000}' <= c <= '\U{200A}' || c in {'\U{2028}', '\U{2029}', '\U{202F}', '\U{205F}', '\U{3000}'}
  }

  function TrimLeft(s: string): string {
    if s != [] && Space(s[0]) then TrimLeft(s[1..]) else s
  }

  function TrimRight(s: string): string {
    if s != [] && Space(s[|s| - 1]) then TrimRight(s[..|s| - 1]) else s
  }

  function ParseIfHeader(header: string): Option<seq<IfList>> {
    var s := TrimRight(TrimLeft(header));
    var (t, _) := Lex(s);
    if t == Single('(') then ParseNoTagLists(s, [])
    else if t.Angle? then ParseTaggedLists(s, true, "", true, [])
    else None
  }

  /*** the program's loops compute these functions ***/

  method ScanToken(s0: string) returns (token: Token, remaining: string)
    ensures (token, remaining) == Lex(s0)
  {
    var s := s0;
    while |s| > 0 && (s[0] == '\t' || s[0] == ' ')
      invariant SkipBlanks(s) == SkipBlanks(s0)
    {
      s := s[1..];
    }
    if |s| == 0 {
      return Eof, "";
    }
    var i := 0;
    while i < |s| && !Delimiter(s[i])
      invariant i <= |s| && WordLength(s) == i + WordLength(s[i..])
    {
      assert s[i..][1..] == s[i + 1..];
      i := i + 1;
    }
    if i != 0 {
      if s[..i] == "Not" {
        return Not, s[i..];
      }
      return Word(s[..i]), s[i..];
    }
    if s[0] != '<' && s[0] != '[' {
      return Single(s[0]), s[1..];
    }
    var close := if s[0] == '<' then '>' else ']';
    var j := IndexByte(s, close);
    if j.None? {
      return Bad, "";
    }
    return if s[0] == '<' then Angle(s[1..j.value]) else Square(s[1..j.value]), s[j.value + 1..];
  }

  method IndexByte(s: string, c: char) returns (j: Option<nat>)
    ensures j == IndexOf(s, c)
  {
    for i := 0 to |s|
      invariant IndexOf(s, c) == match IndexOf(s[i..], c) case None => None case Some(k) => Some(i + k)
    {
      assert s[i..][1..] == s[i + 1..];
      if s[i] == c {
        return Some(i);
      }
    }
    return None;
  }

  method ScanList(s0: string) returns (r: Option<(seq<Condition>, string)>)
    ensures r == ParseList(s0)
  {
    var t, s := ScanToken(s0);
    if t != Single('(') {
      return None;
    }
    var conditions := [];
    while true
      invariant ParseList(s0) == ParseConditions(s, conditions)
      decreases |s|
    {
      var u, rest := ScanToken(s);
      if u == Single(')') {
        return if conditions == [] then None else Some((conditions, rest));
      }
      var c := ParseCondition(s);
      if c.None? {
        return None;
      }
      conditions := conditions + [c.value.0];
      s := c.value.1;
    }
  }

  method ScanNoTagLists(s0: string) returns (r: Option<seq<IfList>>)
    ensures r == ParseNoTagLists(s0, [])
  {
    var s, lists := s0, [];
    while true
      invariant ParseNoTagLists(s0, []) == ParseNoTagLists(s, lists)
      decreases |s|
    {
      var l := ScanList(s);
      if l.None? {
        return None;
      }
      lists := lists + [IfList("", l.value.0)];
      if l.value.1 == "" {
        return Some(lists);
      }
      s := l.value.1;
    }
  }

  method ScanTaggedLists(s0: string) returns (r: Option<seq<IfList>>)
    ensures r == ParseTaggedLists(s0, true, "", true, [])
  {
    var s, lists := s0, [];
    var resourceTag, n, first := "", 0, true;
    while true
      invariant ParseTaggedLists(s0, true, "", true, []) == ParseTaggedLists(s, first, resourceTag, n == 0, lists)
      decreases |s|
    {
      var t, rest := ScanToken(s);
      if t.Angle? {
        if !first && n == 0 {
          return None;
        }
        resourceTag, n := t.text, 0;
        s := rest;
      } else if t == Single('(') {
        n := n + 1;
        var l := ScanList(s);
        if l.None? {
          return None;
        }
        lists := lists + [IfList(resourceTag, l.value.0)];
        if l.value.1 == "" {
          return Some(lists);
        }
        s := l.value.1;
      } else {
        return None;
      }
      first := false;
    }
  }

  method ScanIfHeader(header: string) returns (r: Option<seq<IfList>>)
    ensures r == ParseIfHeader(header)
  {
    var s := TrimRight(TrimLeft(header));
    var t, _ := ScanToken(s);
    if t == Single('(') {
      r := ScanNoTagLists(s);
    } else if t.Angle? {
      r := ScanTaggedLists(s);
    } else {
      r := None;
    }
  }
}
