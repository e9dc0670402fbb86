/** Single-quoting, and how a POSIX shell splits a command into tokens (XCU sections 2.2 and 2.3). */
module ShellQuote {
  import opened Common

  /** `value.replaceAll("'", "'\\''")`. */
  function Escape(value: string): string {
    if value == "" then "" else EscapeChar(value[0]) + Escape(value[1..])
  }

  function EscapeChar(c: char): string { if c == '\'' then "'\\''" else [c] }

  function Quote(value: string): string { "'" + Escape(value) + "'" }

  datatype Token = Word(text: string) | Op(text: string)

  predicate Delimiter(c: char) {
    || c == ' ' || c == '\t' || c == '\n' || c == ';' || c == '&' || c == '|'
    || c == '<' || c == '>' || c == '(' || c == ')'
  }

  /** Characters the shell would expand or pair up; this reader gives up on them outside single quotes. */
  predicate Special(c: char) {
    c == '$' || c == '`' || c == '"' || c == '*' || c == '?' || c == '[' || c == '~'
  }

  datatype Reading = Reading(text: string, rest: string)

  function Also(c: char, r: Option<Reading>): Option<Reading> {
    if r.None? then None else Some(Reading([c] + r.value.text, r.value.rest))
  }

  /** The rest of a word from an unquoted position, up to a delimiter. */
  function InWord(s: string): (r: Option<Reading>)
    ensures r.Some? ==> |r.value.rest| <= |s|
    decreases |s|
  {
    if s == "" || Delimiter(s[0]) then Some(Reading("", s))
    else if s[0] == '\'' then InSingle(s[1..])
    else if s[0] == '\\' then
      if |s| == 1 then None
      else if s[1] == '\n' then InWord(s[2..])
      else Also(s[1], InWord(s[2..]))
    else if Special(s[0]) then None
    else Also(s[0], InWord(s[1..]))
  }

  /** The rest of a word from inside single quotes: everything is literal up to the closing quote. */
  function InSingle(s: string): (r: Option<Reading>)
    ensures r.Some? ==> |r.value.rest| <= |s|
    decreases |s|
  {
    if s == "" then None
    else if s[0] == '\'' then InWord(s[1..])
    else Also(s[0], InSingle(s[1..]))
  }

  function SkipComment(s: string): (r: string)
    ensures |r| <= |s| && (s != "" && s[0] != '\n' ==> |r| < |s|)
  {
    if s == "" || s[0] == '\n' then s else SkipComment(s[1..])
  }

  predicate Doubles(c: char) { c == ';' || c == '&' || c == '|' || c == '<' || c == '>' }

  function Operator(s: string): (n: nat)
    requires s != "" && Delimiter(s[0])
    ensures 1 <= n <= |s|
  {
    if |s| >= 2 && s[1] == s[0] && Doubles(s[0]) then 2 else 1
  }

  function After(t: Token, more: Option<seq<Token>>): Option<seq<Token>> {
    if more.None? then None else Some([t] + more.value)
  }

  function Tokens(s: string): Option<seq<Token>>
    decreases |s|
  {
    if s == "" then Some([])
    else if s[0] == ' ' || s[0] == '\t' then Tokens(s[1..])
    else if s[0] == '#' then Tokens(SkipComment(s))
    else if Delimiter(s[0]) then After(Op(s[..Operator(s)]), Tokens(s[Operator(s)..]))
    else
      var w := InWord(s);
      if w.None? || |w.value.rest| == |s| then None else After(Word(w.value.text), Tokens(w.value.rest))
  }

  function Text(head: string, r: Option<Reading>): Option<Reading> {
    if r.None? then None else Some(Reading(head + r.value.text, r.value.rest))
  }

  lemma SingleStep(c: char, tail: string)
    ensures c != '\'' ==> InSingle([c] + tail) == Also(c, InSingle(tail))
    ensures c == '\'' ==> InSingle([c] + tail) == InWord(tail)
  {
    assert ([c] + tail)[1..] == tail;
  }

  lemma QuoteStep(tail: string)
    ensures InSingle("'\\''" + tail) == Also('\'', InSingle(tail))
  {
    var inner := "'" + tail;
    var escaped := "\\'" + inner;
    assert "'\\''" + tail == "'" + escaped;
    SingleStep('\'', escaped);
    assert escaped[2..] == inner && inner[1..] == tail;
  }

  lemma AlsoText(c: char, head: string, r: Option<Reading>)
    ensures Also(c, Text(head, r)) == Text([c] + head, r)
  {
    if r.Some? { assert [c] + (head + r.value.text) == [c] + head + r.value.text; }
  }

  lemma {:induction false} SingleReads(value: string, rest: string)
    ensures InSingle(Escape(value) + "'" + rest) == Text(value, InWord(rest))
  {
    if value == "" {
      assert Escape(value) + "'" + rest == "'" + rest;
      SingleStep('\'', rest);
      AlsoEmpty(InWord(rest));
    } else {
      SingleReads(value[1..], rest);
      SingleReadsChar(value[0], value[1..], rest);
      assert [value[0]] + value[1..] == value;
    }
  }

  lemma SingleReadsChar(c: char, value: string, rest: string)
    requires InSingle(Escape(value) + "'" + rest) == Text(value, InWord(rest))
    ensures InSingle(Escape([c] + value) + "'" + rest) == Text([c] + value, InWord(rest))
  {
    var tail := Escape(value) + "'" + rest;
    assert ([c] + value)[1..] == value;
    AlsoText(c, value, InWord(rest));
    Regroup(EscapeChar(c), Escape(value), "'", rest);
    CharReads(c, tail);
  }

  lemma CharReads(c: char, tail: string)
    ensures InSingle(EscapeChar(c) + tail) == Also(c, InSingle(tail))
  {
    if c == '\'' { QuoteStep(tail); } else { SingleStep(c, tail); }
  }

  lemma Regroup(a: string, b: string, c: string, d: string)
    ensures (a + b) + c + d == a + (b + c + d)
  {
  }

  lemma AlsoEmpty(r: Option<Reading>)
    ensures Text("", r) == r
  {
    if r.Some? { assert "" + r.value.text == r.value.text; }
  }

  /** Quoting round trip: whatever follows, the shell reads a quoted value back as exactly that value. */
  lemma QuoteReads(value: string, rest: string)
    ensures InWord(Quote(value) + rest) == Text(value, InWord(rest))
  {
    var tail := Escape(value) + "'" + rest;
    SingleReads(value, rest);
    assert Quote(value) + rest == "'" + tail;
    OpenQuote(tail);
  }

  lemma OpenQuote(tail: string)
    ensures InWord("'" + tail) == InSingle(tail)
  {
    assert ("'" + tail)[1..] == tail;
  }

  lemma QuoteInjective(a: string, b: string)
    requires Quote(a) == Quote(b)
    ensures a == b
  {
    QuoteReads(a, "");
    QuoteReads(b, "");
    assert Quote(a) + "" == Quote(a) && Quote(b) + "" == Quote(b);
    assert a + "" == a && b + "" == b;
  }

  predicate Ends(rest: string) { rest == "" || Delimiter(rest[0]) }

  predicate PlainChar(c: char) { !Delimiter(c) && !Special(c) && c != '\'' && c != '\\' && c != '#' }

  lemma WordStep(c: char, tail: string)
    requires PlainChar(c)
    ensures InWord([c] + tail) == Also(c, InWord(tail))
  {
    assert ([c] + tail)[1..] == tail;
  }

  lemma {:induction false} PlainReads(word: string, rest: string)
    requires Ends(rest) && forall c :: c in word ==> PlainChar(c)
    ensures InWord(word + rest) == Some(Reading(word, rest))
  {
    if word == "" {
      assert word + rest == rest;
    } else {
      var c, tail := word[0], word[1..] + rest;
      PlainReads(word[1..], rest);
      assert word + rest == [c] + tail && [c] + word[1..] == word;
      WordStep(c, tail);
    }
  }

  lemma PlainToken(word: string, rest: string)
    requires word != "" && Ends(rest) && forall c :: c in word ==> PlainChar(c)
    ensures Tokens(word + rest) == After(Word(word), Tokens(rest))
  {
    PlainReads(word, rest);
    assert PlainChar(word[0]);
  }

  lemma QuotedToken(value: string, rest: string)
    requires Ends(rest)
    ensures Tokens(Quote(value) + rest) == After(Word(value), Tokens(rest))
  {
    QuoteReads(value, rest);
    assert value + "" == value;
    assert InWord(rest) == Some(Reading("", rest));
  }

  lemma BlankToken(rest: string)
    ensures Tokens(" " + rest) == Tokens(rest)
  {
    assert (" " + rest)[1..] == rest;
  }

  lemma {:induction false} CommentEnds(s: string)
    requires s != "" && s[0] == '#' && '\n' !in s
    ensures SkipComment(s) == "" && Tokens(s) == Some([])
  {
    NoNewline(s);
  }

  lemma {:induction false} NoNewline(s: string)
    requires '\n' !in s
    ensures SkipComment(s) == ""
  {
    if s != "" { NoNewline(s[1..]); }
  }
}
