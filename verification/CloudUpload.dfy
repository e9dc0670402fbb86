/** Sending a source bundle to a remote shell in chunks. */
module CloudUpload {
  import opened Common
  import opened ShellQuote

  const CHUNK := 32768

  /** Characters that a regular expression's dot does not match. */
  predicate Terminator(c: char) {
    c == '\n' || c == '\r' || c as int == 0x2028 || c as int == 0x2029
  }

  /** The length of the run a match takes from here. */
  function RunLength(text: string, most: nat): (n: nat)
    ensures n <= most && n <= |text|
    ensures forall c :: c in text[..n] ==> !Terminator(c)
    ensures text != "" && most > 0 && !Terminator(text[0]) ==> n > 0
  {
    if text == "" || most == 0 || Terminator(text[0]) then 0
    else
      var n := 1 + RunLength(text[1..], most - 1);
      assert text[..n] == [text[0]] + text[1..][..n - 1];
      n
  }

  /** `bundle.match(/.{1,32768}/g)`. */
  function Chunks(text: string): seq<string>
    decreases |text|
  {
    if text == "" then []
    else
      var n := RunLength(text, CHUNK);
      if n == 0 then Chunks(text[1..]) else [text[..n]] + Chunks(text[n..])
  }

  function Concat(pieces: seq<string>): string {
    if pieces == [] then "" else pieces[0] + Concat(pieces[1..])
  }

  function Sent(text: string): string {
    if text == "" then "" else (if Terminator(text[0]) then "" else [text[0]]) + Sent(text[1..])
  }

  lemma {:induction false} SentRun(run: string, rest: string)
    requires forall c :: c in run ==> !Terminator(c)
    ensures Sent(run + rest) == run + Sent(rest)
  {
    if run == "" {
      assert run + rest == rest;
    } else {
      assert (run + rest)[1..] == run[1..] + rest;
      SentRun(run[1..], rest);
      assert run + Sent(rest) == [run[0]] + (run[1..] + Sent(rest));
    }
  }

  /** The chunks make up the bundle without its line terminators. */
  lemma {:induction false} ChunksSend(text: string)
    ensures Concat(Chunks(text)) == Sent(text)
    ensures forall c :: c in Chunks(text) ==> 0 < |c| <= CHUNK
    decreases |text|
  {
    if text != "" {
      var n := RunLength(text, CHUNK);
      if n == 0 {
        ChunksSend(text[1..]);
      } else {
        ChunksSend(text[n..]);
        SentRun(text[..n], text[n..]);
        assert text == text[..n] + text[n..];
        assert ([text[..n]] + Chunks(text[n..]))[1..] == Chunks(text[n..]);
      }
    }
  }

  lemma {:induction false} SentIff(text: string)
    ensures |Sent(text)| <= |text|
    ensures Sent(text) == text <==> forall c :: c in text ==> !Terminator(c)
  {
    if text != "" {
      SentIff(text[1..]);
      assert text == [text[0]] + text[1..];
    }
  }

  /** The chunks concatenate to the bundle exactly when it holds no line terminator. */
  lemma ChunksMakeBundleIff(bundle: string)
    ensures Concat(Chunks(bundle)) == bundle <==> forall c :: c in bundle ==> !Terminator(c)
  {
    ChunksSend(bundle);
    SentIff(bundle);
  }

  /** A bundle of two lines, of which the line break is not sent. */
  lemma LineBreakLost()
    ensures Concat(Chunks("a\nb")) == "ab" != "a\nb"
  {
    ChunksSend("a\nb");
    assert "a\nb"[1..] == "\nb" && "\nb"[1..] == "b" && "b"[1..] == "";
    assert Sent("b") == "b" && Sent("\nb") == "b";
  }

  function Digit(d: nat): char
    requires d < 10
  {
    '0' + d as char
  }

  function Decimal(n: nat): (r: string)
    ensures r != "" && forall c :: c in r ==> '0' <= c <= '9'
  {
    (if n < 10 then "" else Decimal(n / 10)) + [Digit(n % 10)]
  }

  lemma {:induction false} DecimalInjective(m: nat, n: nat)
    requires Decimal(m) == Decimal(n)
    ensures m == n
    decreases m
  {
    var a, b := Decimal(m), Decimal(n);
    assert a[|a| - 1] == Digit(m % 10) && b[|b| - 1] == Digit(n % 10);
    assert m % 10 == n % 10;
    assert a[..|a| - 1] == b[..|b| - 1];
    assert a[..|a| - 1] == (if m < 10 then "" else Decimal(m / 10));
    assert b[..|b| - 1] == (if n < 10 then "" else Decimal(n / 10));
    if m >= 10 { DecimalInjective(m / 10, n / 10); }
  }

  function Target(directory: string): string { directory + "/bundle" }

  function Comment(index: nat): string { "# chunk " + Decimal(index) }

  function Arrow(index: nat): string { if index == 0 then ">" else ">>" }

  function Words(directory: string, chunk: string, index: nat): seq<string> {
    ["umask", "077;", "mkdir", "-p", Quote(directory), "&&", "printf", "%s", Quote(chunk), Arrow(index),
      Quote(Target(directory))]
  }

  /** One chunk's command: its words with single spaces between them, then a comment that numbers it. */
  function Command(directory: string, chunk: string, index: nat): string {
    JoinWith(Words(directory, chunk, index), ' ') + " " + Comment(index)
  }

  lemma LastSpace(s: string, p: nat, q: nat)
    requires p < |s| && q < |s| && s[p] == s[q] == ' '
    requires (forall k :: p < k < |s| ==> s[k] != ' ') && forall k :: q < k < |s| ==> s[k] != ' '
    ensures p == q
  {
  }

  lemma CommentSpace(a: string, i: nat)
    ensures var s, p := a + Comment(i), |a| + 7;
      p < |s| && s[p] == ' ' && s[p + 1..] == Decimal(i) && forall k :: p < k < |s| ==> s[k] != ' '
  {
    var s, p := a + Comment(i), |a| + 7;
    forall k | p < k < |s| ensures s[k] != ' ' {
      assert s[k] == Decimal(i)[k - p - 1] && Decimal(i)[k - p - 1] in Decimal(i);
    }
  }

  lemma EndsDiffer(a: string, i: nat, b: string, j: nat)
    requires a + Comment(i) == b + Comment(j)
    ensures i == j
  {
    CommentSpace(a, i);
    CommentSpace(b, j);
    LastSpace(a + Comment(i), |a| + 7, |b| + 7);
    DecimalInjective(i, j);
  }

  /** How far the service says a command has got. */
  datatype Status = Completed | Failed | Declined | Running

  predicate Terminal(s: Status) { !s.Running? }

  const SHELLS := ["bash", "/bin/bash"]
  const FLAGS := ["-c", "-lc"]

  function Wrapped(shell: string, flag: string, command: string): string {
    shell + " " + flag + " " + Quote(command)
  }

  /** A record names a command as sent, or as the argument of a shell. */
  predicate IsExactCommand(actual: string, expected: string) {
    || actual == expected
    || exists shell, flag :: shell in SHELLS && flag in FLAGS && actual == Wrapped(shell, flag, expected)
  }

  lemma WrappedInjective(s1: string, f1: string, a: string, s2: string, f2: string, b: string)
    requires s1 in SHELLS && s2 in SHELLS && f1 in FLAGS && f2 in FLAGS
    requires Wrapped(s1, f1, a) == Wrapped(s2, f2, b)
    ensures a == b
  {
    var w, v := Wrapped(s1, f1, a), Wrapped(s2, f2, b);
    assert w[0] == s1[0] && v[0] == s2[0];
    assert s1 == s2;
    var at := |s1| + 2;
    assert w[at] == f1[1] && v[at] == f2[1];
    assert f1 == f2;
    var n := |s1| + |f1| + 2;
    assert w[n..] == Quote(a) && v[n..] == Quote(b);
    QuoteInjective(a, b);
  }

  /** No record can stand for two chunks: the commands stay apart in every form a record may use. */
  lemma RecordsApart(directory: string, c1: string, i: nat, c2: string, j: nat, actual: string)
    requires IsExactCommand(actual, Command(directory, c1, i)) && IsExactCommand(actual, Command(directory, c2, j))
    ensures i == j
  {
    var a, b := Command(directory, c1, i), Command(directory, c2, j);
    CommandStarts(directory, c1, i);
    CommandStarts(directory, c2, j);
    if actual == a || actual == b {
      PlainRecord(actual, a);
      PlainRecord(actual, b);
    } else {
      var s1, f1 :| s1 in SHELLS && f1 in FLAGS && actual == Wrapped(s1, f1, a);
      var s2, f2 :| s2 in SHELLS && f2 in FLAGS && actual == Wrapped(s2, f2, b);
      WrappedInjective(s1, f1, a, s2, f2, b);
    }
    EndsDiffer(JoinWith(Words(directory, c1, i), ' ') + " ", i, JoinWith(Words(directory, c2, j), ' ') + " ", j);
  }

  lemma PlainRecord(actual: string, expected: string)
    requires IsExactCommand(actual, expected) && actual != "" && actual[0] == 'u'
    ensures actual == expected
  {
    forall s, f | s in SHELLS && f in FLAGS ensures actual != Wrapped(s, f, expected) {
      assert Wrapped(s, f, expected)[0] == s[0] && s[0] != 'u';
    }
  }

  lemma CommandStarts(directory: string, chunk: string, index: nat)
    ensures Command(directory, chunk, index) != "" && Command(directory, chunk, index)[0] == 'u'
  {
    assert Words(directory, chunk, index)[0] == "umask" && "umask"[0] == 'u';
  }

  predicate Spaced(rest: string) { rest == "" || rest[0] == ' ' }

  function Both(a: seq<Token>, more: Option<seq<Token>>): Option<seq<Token>> {
    if more.None? then None else Some(a + more.value)
  }

  /** A word of the command and the tokens a shell makes of it. */
  ghost predicate Lexes(word: string, tokens: seq<Token>) {
    forall rest | Spaced(rest) :: Tokens(word + rest) == Both(tokens, Tokens(rest))
  }

  function Flat(tokens: seq<seq<Token>>): seq<Token> {
    if tokens == [] then [] else tokens[0] + Flat(tokens[1..])
  }

  lemma BothTwice(a: seq<Token>, b: seq<Token>, more: Option<seq<Token>>)
    ensures Both(a, Both(b, more)) == Both(a + b, more)
  {
    if more.Some? { assert a + (b + more.value) == a + b + more.value; }
  }

  lemma {:induction false} JoinLexes(words: seq<string>, tokens: seq<seq<Token>>, rest: string)
    requires words != [] && AllLex(words, tokens) && Spaced(rest)
    ensures Tokens(JoinWith(words, ' ') + rest) == Both(Flat(tokens), Tokens(rest))
  {
    if |words| == 1 {
      OneLexes(words, tokens, rest);
    } else {
      var more := JoinWith(words[1..], ' ');
      JoinLexes(words[1..], tokens[1..], rest);
      JoinFirst(words, rest);
      FirstLexes(words[0], tokens[0], more + rest, Flat(tokens[1..]), rest);
    }
  }

  lemma JoinFirst(words: seq<string>, rest: string)
    requires |words| > 1
    ensures JoinWith(words, ' ') + rest == words[0] + (" " + (JoinWith(words[1..], ' ') + rest))
  {
    Regrouped(words[0], JoinWith(words[1..], ' '), rest);
  }

  lemma Regrouped(first: string, more: string, rest: string)
    ensures first + [' '] + more + rest == first + (" " + (more + rest))
  {
  }

  lemma OneLexes(words: seq<string>, tokens: seq<seq<Token>>, rest: string)
    requires |words| == 1 && AllLex(words, tokens) && Spaced(rest)
    ensures Tokens(JoinWith(words, ' ') + rest) == Both(Flat(tokens), Tokens(rest))
  {
    assert Flat(tokens) == tokens[0];
  }

  lemma FirstLexes(word: string, tokens: seq<Token>, later: string, more: seq<Token>, rest: string)
    requires Lexes(word, tokens) && Tokens(later) == Both(more, Tokens(rest))
    ensures Tokens(word + (" " + later)) == Both(tokens + more, Tokens(rest))
  {
    BlankToken(later);
    BothTwice(tokens, more, Tokens(rest));
  }

  lemma PlainLexes(word: string)
    requires word != "" && forall c :: c in word ==> PlainChar(c)
    ensures Lexes(word, [Word(word)])
  {
    forall rest | Spaced(rest) ensures Tokens(word + rest) == Both([Word(word)], Tokens(rest)) {
      PlainToken(word, rest);
    }
  }

  lemma QuotedLexes(value: string)
    ensures Lexes(Quote(value), [Word(value)])
  {
    forall rest | Spaced(rest) ensures Tokens(Quote(value) + rest) == Both([Word(value)], Tokens(rest)) {
      QuotedToken(value, rest);
    }
  }

  lemma OpLexes(op: string)
    requires op in [";", "&&", ">", ">>"]
    ensures Lexes(op, [Op(op)])
  {
    forall rest | Spaced(rest) ensures Tokens(op + rest) == Both([Op(op)], Tokens(rest)) {
      var s := op + rest;
      assert s[0] == op[0] && (|op| == 2 ==> s[1] == op[1]) && (|op| == 1 && rest != "" ==> s[1] == ' ');
      assert Operator(s) == |op|;
      assert s[..|op|] == op && s[|op|..] == rest;
    }
  }

  lemma UmaskLexes()
    ensures Lexes("077;", [Word("077"), Op(";")])
  {
    OpLexes(";");
    forall rest | Spaced(rest) ensures Tokens("077;" + rest) == Both([Word("077"), Op(";")], Tokens(rest)) {
      assert "077;" + rest == "077" + (";" + rest);
      PlainToken("077", ";" + rest);
      if Tokens(rest).Some? {
        assert [Word("077")] + ([Op(";")] + Tokens(rest).value) == [Word("077"), Op(";")] + Tokens(rest).value;
      }
    }
  }

  function CommandTokens(directory: string, chunk: string, index: nat): seq<Token> {
    [Word("umask"), Word("077"), Op(";"), Word("mkdir"), Word("-p"), Word(directory), Op("&&"),
     Word("printf"), Word("%s"), Word(chunk), Op(Arrow(index)), Word(Target(directory))]
  }

  function Groups(directory: string, chunk: string, index: nat): seq<seq<Token>> {
    [[Word("umask")], [Word("077"), Op(";")], [Word("mkdir")], [Word("-p")], [Word(directory)], [Op("&&")],
     [Word("printf")], [Word("%s")], [Word(chunk)], [Op(Arrow(index))], [Word(Target(directory))]]
  }

  lemma PlainWordsLex()
    ensures Lexes("umask", [Word("umask")]) && Lexes("mkdir", [Word("mkdir")]) && Lexes("-p", [Word("-p")])
    ensures Lexes("printf", [Word("printf")]) && Lexes("%s", [Word("%s")])
  {
    PlainLexes("umask"); PlainLexes("mkdir"); PlainLexes("-p"); PlainLexes("printf"); PlainLexes("%s");
  }

  ghost predicate AllLex(words: seq<string>, tokens: seq<seq<Token>>) {
    |words| == |tokens| && forall i :: 0 <= i < |words| ==> Lexes(words[i], tokens[i])
  }

  lemma WordLexes(directory: string, chunk: string, index: nat, i: nat)
    requires i < 11
    ensures Lexes(Words(directory, chunk, index)[i], Groups(directory, chunk, index)[i])
  {
    if i == 0 || i == 2 || i == 3 || i == 6 || i == 7 { PlainWordsLex(); }
    else if i == 1 { UmaskLexes(); }
    else if i == 4 { QuotedLexes(directory); }
    else if i == 5 { OpLexes("&&"); }
    else if i == 8 { QuotedLexes(chunk); }
    else if i == 9 { OpLexes(Arrow(index)); }
    else { QuotedLexes(Target(directory)); }
  }

  lemma WordsLex(directory: string, chunk: string, index: nat)
    ensures AllLex(Words(directory, chunk, index), Groups(directory, chunk, index))
  {
    forall i | 0 <= i < 11 ensures Lexes(Words(directory, chunk, index)[i], Groups(directory, chunk, index)[i]) {
      WordLexes(directory, chunk, index, i);
    }
  }

  lemma Flat3(a: seq<Token>, b: seq<Token>, c: seq<Token>)
    ensures Flat([a, b, c]) == a + b + c && Flat([a, b]) == a + b
  {
    assert [a, b, c][1..] == [b, c] && [a, b][1..] == [b] && [b, c][1..] == [c];
    assert Flat([b]) == b && Flat([c]) == c;
  }

  lemma {:induction false} FlatAppend(a: seq<seq<Token>>, b: seq<seq<Token>>)
    ensures Flat(a + b) == Flat(a) + Flat(b)
  {
    if a == [] {
      assert a + b == b;
    } else {
      assert (a + b)[1..] == a[1..] + b;
      FlatAppend(a[1..], b);
    }
  }

  lemma FlatGroups(directory: string, chunk: string, index: nat)
    ensures Flat(Groups(directory, chunk, index)) == CommandTokens(directory, chunk, index)
  {
    var g := Groups(directory, chunk, index);
    Flat3(g[0], g[1], g[2]);
    Flat3(g[3], g[4], g[5]);
    Flat3(g[6], g[7], g[8]);
    Flat3(g[9], g[10], []);
    var a, b, c, d := [g[0], g[1], g[2]], [g[3], g[4], g[5]], [g[6], g[7], g[8]], [g[9], g[10]];
    FlatAppend(a, b);
    FlatAppend(c, d);
    FlatAppend(a + b, c + d);
    assert g == (a + b) + (c + d);
  }

  /** The shell reads the command as meant, whatever characters the directory and the chunk hold. */
  lemma CommandReads(directory: string, chunk: string, index: nat)
    ensures Tokens(Command(directory, chunk, index)) == Some(CommandTokens(directory, chunk, index))
  {
    var rest, comment := " " + Comment(index), Comment(index);
    WordsLex(directory, chunk, index);
    JoinLexes(Words(directory, chunk, index), Groups(directory, chunk, index), rest);
    assert JoinWith(Words(directory, chunk, index), ' ') + rest == Command(directory, chunk, index);
    BlankToken(comment);
    assert '\n' !in Decimal(index) && '\n' !in "# chunk ";
    CommentEnds(comment);
    FlatGroups(directory, chunk, index);
    assert CommandTokens(directory, chunk, index) + [] == CommandTokens(directory, chunk, index);
  }
}
