/** The lexemes of the normaliser by their characters: words, operators, white space and comments. */
module SqlLexemes {
  import opened Entities
  import opened SqlTokens

  predicate WordCharacter(c: char) {
    'a' <= c <= 'z' || 'A' <= c <= 'Z' || '0' <= c <= '9' || c == '_' || c == '$'
  }

  predicate WhiteSpace(c: char) {
    c == ' ' || c == '\t' || c == '\n' || c == '\r' || c as int == 11 || c as int == 12 || 28 <= c as int <= 31
  }

  /** Neither of a word, nor white space, nor an opening quote. */
  predicate Symbol(c: char) {
    !WordCharacter(c) && !WhiteSpace(c) && c != '\'' && c != '\"' && c != '`' && c != '['
  }

  const PAIRS: set<string> := {"||", "<<", ">>", "<=", ">=", "<>", "!=", "==", "->"}

  // ---------------------------------------------------------------- words

  lemma {:induction false} WordReaches(s: string)
    requires forall i :: 0 <= i < |s| ==> WordCharacter(s[i])
    ensures WordLength(s) == |s|
    decreases s
  {
    if s != "" {
      WordReaches(s[1..]);
    }
  }

  /** Letters, digits, underscores and dollar signs make one word, with its lower-case letters raised. */
  lemma {:induction false} WordIsOneToken(s: string)
    requires s != "" && forall i :: 0 <= i < |s| ==> WordCharacter(s[i])
    ensures |Lex(s)| == 1 && |Lex(s)[0]| == |s|
    ensures forall i :: 0 <= i < |s| ==>
              Lex(s)[0][i] == if 'a' <= s[i] <= 'z' then (s[i] as int - 32) as char else s[i]
  {
    WordReaches(s);
    assert WordCharacter(s[0]);
    assert Kind(s) == Word by {
      WordKind(s);
    }
    assert s[..|s|] == s;
    assert s[|s|..] == "";
  }

  lemma WordKind(s: string)
    requires s != "" && WordCharacter(s[0])
    ensures Kind(s) == Word
  {
    if |s| >= 2 {
      assert s[..2][0] == s[0];
    }
  }

  /** A word ends at the first other character. */
  lemma {:induction false} WordEnds(s: string, t: string)
    requires s != "" && (forall i :: 0 <= i < |s| ==> WordCharacter(s[i]))
    requires t != "" && !WordCharacter(t[0])
    ensures Lex(s + t) == Lex(s) + Lex(t)
  {
    WordStops(s, t);
    WordReaches(s);
    WordKind(s);
    WordKind(s + t);
    LexStep(s);
    LexStep(s + t);
    assert (s + t)[..|s|] == s[..|s|] && (s + t)[|s|..] == t && s[|s|..] == "";
    EmptyIsClosed();
    hide Lex, Kind;
  }

  lemma {:induction false} WordStops(s: string, t: string)
    requires forall i :: 0 <= i < |s| ==> WordCharacter(s[i])
    requires t != "" && !WordCharacter(t[0])
    ensures WordLength(s + t) == |s|
    decreases s
  {
    if s == "" {
      assert s + t == t;
    } else {
      assert (s + t)[1..] == s[1..] + t && (s + t)[0] == s[0];
      WordStops(s[1..], t);
    }
  }

  // ---------------------------------------------------------------- white space and comments

  lemma {:induction false} WhiteSpaceIsSkipped(c: char, s: string)
    requires WhiteSpace(c)
    ensures Lex([c] + s) == Lex(s)
  {
    LexStep([c] + s);
    assert ([c] + s)[1..] == s;
    hide Lex;
  }

  lemma {:induction false} FindStep(text: string, end: string)
    requires text != "" && !StartsWith(text, end)
    ensures Find(text, end) == match Find(text[1..], end) case None => None case Some(at) => Some(at + 1)
  {
  }

  ghost predicate Nowhere(text: string, part: string) {
    forall i :: 0 <= i <= |text| ==> !StartsWith(text[i..], part)
  }

  /** `rest` begins with `end`, and no `end` lies in `body`. */
  lemma {:induction false} FindsFirst(body: string, end: string, rest: string)
    requires (end == "\n" || end == "*/") && StartsWith(rest, end) && Nowhere(body, end)
    ensures Find(body + rest, end) == Some(|body|)
    decreases body
  {
    if body == "" {
      assert body + rest == rest;
    } else {
      hide Find, StartsWith, Nowhere;
      NotAtFront(body, end, rest);
      NowhereInTail(body, end);
      FindsFirst(body[1..], end, rest);
      FindStep(body + rest, end);
      assert (body + rest)[1..] == body[1..] + rest;
    }
  }

  lemma NowhereInTail(text: string, part: string)
    requires text != "" && Nowhere(text, part)
    ensures Nowhere(text[1..], part)
  {
    hide StartsWith;
    forall i | 0 <= i <= |text[1..]|
      ensures !StartsWith(text[1..][i..], part)
    {
      assert text[1..][i..] == text[i + 1..];
    }
  }

  lemma NotAtFront(body: string, end: string, rest: string)
    requires (end == "\n" || end == "*/") && StartsWith(rest, end)
    requires body != "" && Nowhere(body, end)
    ensures !StartsWith(body + rest, end)
  {
    var text := body + rest;
    assert body[0..] == body;
    if |body| >= |end| {
      assert text[..|end|] == body[..|end|];
    } else {
      assert rest[..2][0] == rest[0];
      assert text[..2] == [body[0], '*'];
    }
  }

  lemma NoLineEnd(body: string)
    requires '\n' !in body
    ensures Nowhere(body, "\n")
  {
    forall i | 0 <= i <= |body|
      ensures !StartsWith(body[i..], "\n")
    {
      assert i < |body| ==> body[i..][..1][0] == body[i];
    }
  }

  /** Two dashes hide the rest of the line, up to and with its end. */
  lemma {:induction false} LineCommentIsSkipped(body: string, s: string)
    requires '\n' !in body
    ensures Lex("--" + (body + "\n" + s)) == Lex(s)
  {
    var text := "--" + (body + "\n" + s);
    NoLineEnd(body);
    assert text[..2] == "--" && text[2..] == body + ("\n" + s);
    assert Kind(text) == LineComment;
    FindsFirst(body, "\n", "\n" + s);
    hide Nowhere, Find, Kind, Lex;
    LexStep(text);
    assert text[2 + |body| + 1..] == s;
  }

  /** A block comment ends with the first star and slash. */
  lemma {:induction false} BlockCommentIsSkipped(body: string, s: string)
    requires Nowhere(body, "*/")
    ensures Lex("/*" + (body + "*/" + s)) == Lex(s)
  {
    var text := "/*" + (body + "*/" + s);
    assert text[..2] == "/*" && text[2..] == body + ("*/" + s);
    assert ("*/" + s)[..2] == "*/";
    assert Kind(text) == BlockComment;
    FindsFirst(body, "*/", "*/" + s);
    hide Nowhere, Find, Kind, Lex;
    LexStep(text);
    assert text[2 + |body| + 2..] == s;
  }

  // ---------------------------------------------------------------- operators

  lemma SymbolKind(s: string)
    requires s != "" && Symbol(s[0])
    requires |s| >= 2 ==> s[..2] != "--" && s[..2] != "/*"
    ensures Kind(s) == Operator
  {
  }

  lemma {:induction false} OneSymbol(c: char)
    requires Symbol(c)
    ensures Lex([c]) == [[c]]
  {
    SymbolKind([c]);
    LexStep([c]);
    assert [c][1..] == "" && [c][..1] == [c];
    EmptyIsClosed();
    hide Lex;
  }

  /** Two symbols are one operator if they are one of the nine pairs, and two otherwise. */
  lemma {:induction false} TwoSymbols(a: char, b: char)
    requires Symbol(a) && Symbol(b) && [a, b] != "--" && [a, b] != "/*"
    ensures Lex([a, b]) == if [a, b] in PAIRS then [[a, b]] else [[a], [b]]
  {
    var s := [a, b];
    assert s[..2] == s && s[..1] == [a] && s[1..] == [b] && s[2..] == "";
    SymbolKind(s);
    PairIff(a, b);
    LexStep(s);
    OneSymbol(b);
    EmptyIsClosed();
    hide Lex, Kind;
  }

  lemma PairIff(a: char, b: char)
    ensures IsPair(a, b) <==> [a, b] in PAIRS
  {
    assert forall p :: p in PAIRS ==> |p| == 2;
    assert [a, b] in PAIRS <==> exists p :: p in PAIRS && a == p[0] && b == p[1];
  }

  /** The longest operator wins. */
  lemma {:induction false} DoubleArrow()
    ensures Lex("->>") == ["->>"]
  {
    var s := "->>";
    assert s[..2] == "->" && s[..3] == s && s[3..] == "";
    SymbolKind(s);
    LexStep(s);
    EmptyIsClosed();
    hide Lex;
  }

  // ---------------------------------------------------------------- quotes

  /** A doubled quote is content. */
  lemma {:induction false} DoubledQuote()
    ensures Lex("'a''b'") == ["'a''b'"]
  {
    var s := "'a''b'";
    assert s[1..] == "a''b'" && "a''b'"[1..] == "''b'" && "''b'"[2..] == "b'" && "b'"[1..] == "'";
    assert QuoteLength("'", '\'') == 1;
    assert QuoteLength("b'", '\'') == 2;
    assert QuoteLength("''b'", '\'') == 4;
    assert QuoteLength("a''b'", '\'') == 5;
    hide QuoteLength, QuoteEnds, Lex;
    WholeQuote(s);
  }

  lemma {:induction false} BracketEnds()
    ensures QuoteLength("a]]", ']') == 2
  {
    assert "a]]"[1..] == "]]" && "]]"[1..] == "]";
    assert QuoteLength("]]", ']') == 1;
  }

  /** Brackets end with the first closing bracket. */
  lemma {:induction false} ClosingBracket()
    ensures Lex("[a]]") == ["[a]", "]"]
  {
    hide QuoteLength, QuoteEnds, Lex, Kind;
    var t := "[a]]";
    assert t[1..] == "a]]" && t[..3] == "[a]" && t[3..] == "]";
    BracketEnds();
    QuotedKind(t);
    LexStep(t);
    OneSymbol(']');
  }
}
