/**
 The schema fingerprint: SQL text as a sequence of tokens, without white space and comments, words in
 upper case, quoted text verbatim. Characters are classified as ASCII text is.
 */
module SqlTokens {
  import opened Entities

  // ---------------------------------------------------------------- characters

  predicate IsSpace(c: char) {
    c == ' ' || 9 <= c as int <= 13 || 28 <= c as int <= 31
  }

  predicate IsLower(c: char) {
    'a' <= c <= 'z'
  }

  /** str.isalnum, or one of _ and $. */
  predicate IsWord(c: char) {
    IsLower(c) || 'A' <= c <= 'Z' || '0' <= c <= '9' || c == '_' || c == '$'
  }

  predicate IsQuote(c: char) {
    c == '\'' || c == '\"' || c == '`' || c == '['
  }

  function Closing(c: char): char {
    if c == '[' then ']' else c
  }

  function UpperChar(c: char): char {
    if IsLower(c) then (c as int - 32) as char else c
  }

  function Upper(s: string): (u: string)
    ensures |u| == |s| && forall i :: 0 <= i < |s| ==> u[i] == UpperChar(s[i])
  {
    seq(|s|, i requires 0 <= i < |s| => UpperChar(s[i]))
  }

  // ---------------------------------------------------------------- one lexeme

  predicate StartsWith(s: string, prefix: string) {
    |prefix| <= |s| && s[..|prefix|] == prefix
  }

  /** str.find: the first occurrence, if any. */
  function Find(s: string, needle: string): (at: Option<nat>)
    ensures at.Some? ==> at.value + |needle| <= |s| && s[at.value..at.value + |needle|] == needle
  {
    if StartsWith(s, needle) then Some(0)
    else if s == "" then None
    else
      match Find(s[1..], needle)
      case None => None
      case Some(at) => Some(at + 1)
  }

  /** How much of `s` a comment takes that ends with `end`, and whether it does end. */
  function CommentLength(s: string, end: string): (length: nat)
    ensures length <= |s|
  {
    match Find(s, end)
    case None => |s|
    case Some(at) => at + |end|
  }

  /** How much of `s`, the text after an opening quote, belongs to the quote; a doubled end is content. */
  function QuoteLength(s: string, end: char): (length: nat)
    ensures length <= |s|
  {
    if s == "" then 0
    else if s[0] != end then 1 + QuoteLength(s[1..], end)
    else if end != ']' && |s| > 1 && s[1] == end then 2 + QuoteLength(s[2..], end)
    else 1
  }

  predicate QuoteEnds(s: string, end: char) {
    if s == "" then false
    else if s[0] != end then QuoteEnds(s[1..], end)
    else if end != ']' && |s| > 1 && s[1] == end then QuoteEnds(s[2..], end)
    else true
  }

  function WordLength(s: string): (length: nat)
    ensures length <= |s|
    ensures forall i :: 0 <= i < length ==> IsWord(s[i])
    ensures length < |s| ==> !IsWord(s[length])
  {
    if s == "" || !IsWord(s[0]) then 0 else 1 + WordLength(s[1..])
  }

  predicate IsPair(a: char, b: char) {
    || (a == '|' && b == '|') || (a == '<' && b == '<') || (a == '>' && b == '>')
    || (a == '<' && b == '=') || (a == '>' && b == '=') || (a == '<' && b == '>')
    || (a == '!' && b == '=') || (a == '=' && b == '=') || (a == '-' && b == '>')
  }

  function OperatorLength(s: string): (length: nat)
    requires s != ""
    ensures 1 <= length <= |s|
  {
    if |s| >= 3 && s[0] == '-' && s[1] == '>' && s[2] == '>' then 3
    else if |s| >= 2 && IsPair(s[0], s[1]) then 2
    else 1
  }

  datatype Lexeme = Space | LineComment | BlockComment | Quoted | Word | Operator

  function Kind(s: string): Lexeme
    requires s != ""
  {
    if IsSpace(s[0]) then Space
    else if StartsWith(s, "--") then LineComment
    else if StartsWith(s, "/*") then BlockComment
    else if IsQuote(s[0]) then Quoted
    else if IsWord(s[0]) then Word
    else Operator
  }

  function Length(s: string): (length: nat)
    requires s != ""
    ensures 1 <= length <= |s|
  {
    match Kind(s)
    case Space => 1
    case LineComment => 2 + CommentLength(s[2..], "\n")
    case BlockComment => 2 + CommentLength(s[2..], "*/")
    case Quoted => 1 + QuoteLength(s[1..], Closing(s[0]))
    case Word => WordLength(s)
    case Operator => OperatorLength(s)
  }

  function Emitted(s: string): seq<string>
    requires s != ""
  {
    match Kind(s)
    case Space => []
    case LineComment => []
    case BlockComment => []
    case Quoted => [s[..Length(s)]]
    case Word => [Upper(s[..Length(s)])]
    case Operator => [s[..Length(s)]]
  }

  function Lex(s: string): seq<string>
    decreases |s|
  {
    if s == "" then [] else Emitted(s) + Lex(s[Length(s)..])
  }

  /** The lexeme at the front ends by itself, not only because the text does. */
  predicate Terminated(s: string)
    requires s != ""
  {
    match Kind(s)
    case LineComment => Find(s[2..], "\n").Some?
    case BlockComment => Find(s[2..], "*/").Some?
    case Quoted => QuoteEnds(s[1..], Closing(s[0]))
    case _ => true
  }

  /** The text ends outside any open quote or comment. */
  predicate Closed(s: string)
    decreases |s|
  {
    s == "" || (Terminated(s) && Closed(s[Length(s)..]))
  }

  // ---------------------------------------------------------------- the scanner

  /** The loop of _normalize_schema_sql: `position` moves strictly forward, `tokens` grows. */
  method Normalize(sql: string) returns (tokens: seq<string>)
    ensures tokens == Lex(sql)
  {
    tokens := [];
    var position := 0;
    while position < |sql|
      invariant 0 <= position <= |sql|
      invariant tokens + Lex(sql[position..]) == Lex(sql)
      decreases |sql| - position
    {
      var emitted, next := ScanLexeme(sql, position);
      Advance(sql, position, tokens, emitted, next);
      tokens := tokens + emitted;
      position := next;
    }
  }

  lemma Advance(sql: string, position: nat, tokens: seq<string>, emitted: seq<string>, next: nat)
    requires position < |sql| && emitted == Emitted(sql[position..]) && next == position + Length(sql[position..])
    ensures tokens + emitted + Lex(sql[next..]) == tokens + Lex(sql[position..])
  {
    assert sql[next..] == sql[position..][Length(sql[position..])..];
  }

  /** One turn of that loop: the tokens it appends, at most one, and the position it moves to. */
  method ScanLexeme(sql: string, position: nat) returns (emitted: seq<string>, next: nat)
    requires position < |sql|
    ensures emitted == Emitted(sql[position..]) && next == position + Length(sql[position..])
    ensures position < next <= |sql|
  {
    var c := sql[position];
    ghost var rest := sql[position..];
    assert StartsWith(rest, "--") <==> c == '-' && position + 1 < |sql| && sql[position + 1] == '-';
    assert StartsWith(rest, "/*") <==> c == '/' && position + 1 < |sql| && sql[position + 1] == '*';
    if IsSpace(c) {
      return [], position + 1;
    }
    if c == '-' && position + 1 < |sql| && sql[position + 1] == '-' {
      var newline := Find(sql[position + 2..], "\n");
      assert sql[position + 2..] == rest[2..];
      return [], if newline.None? then |sql| else position + 2 + newline.value + 1;
    }
    if c == '/' && position + 1 < |sql| && sql[position + 1] == '*' {
      var commentEnd := Find(sql[position + 2..], "*/");
      assert sql[position + 2..] == rest[2..];
      return [], if commentEnd.None? then |sql| else position + 2 + commentEnd.value + 2;
    }
    if IsQuote(c) {
      next := ScanQuote(sql, position + 1, Closing(c));
      assert sql[position + 1..] == rest[1..];
      emitted := [sql[position..next]];
    } else if IsWord(c) {
      next := ScanWord(sql, position);
      emitted := [Upper(sql[position..next])];
    } else {
      next := ScanOperator(sql, position);
      emitted := [sql[position..next]];
    }
    assert sql[position..next] == rest[..Length(rest)];
  }

  /** The longest operator that starts here. */
  method ScanOperator(sql: string, position: nat) returns (next: nat)
    requires position < |sql|
    ensures next == position + OperatorLength(sql[position..])
  {
    ghost var rest := sql[position..];
    assert position + 3 <= |sql| && sql[position..position + 3] == "->>"
      <==> |rest| >= 3 && rest[0] == '-' && rest[1] == '>' && rest[2] == '>';
    if position + 3 <= |sql| && sql[position..position + 3] == "->>" {
      return position + 3;
    }
    if position + 2 <= |sql| && IsPair(sql[position], sql[position + 1]) {
      return position + 2;
    }
    return position + 1;
  }

  /** The inner loop over a quote: past its end, doubled ends included, or past the text. */
  method ScanQuote(sql: string, from: nat, end: char) returns (position: nat)
    requires from <= |sql|
    ensures position == from + QuoteLength(sql[from..], end)
  {
    position := from;
    while position < |sql|
      invariant from <= position <= |sql|
      invariant position + QuoteLength(sql[position..], end) == from + QuoteLength(sql[from..], end)
    {
      ghost var rest := sql[position..];
      var c := sql[position];
      position := position + 1;
      assert sql[position..] == rest[1..];
      if c == end {
        if end != ']' && position < |sql| && sql[position] == end {
          position := position + 1;
          assert sql[position..] == rest[2..];
        } else {
          return;
        }
      }
    }
  }

  /** The inner loop over a word. */
  method ScanWord(sql: string, from: nat) returns (position: nat)
    requires from < |sql| && IsWord(sql[from])
    ensures position == from + WordLength(sql[from..])
  {
    position := from + 1;
    while position < |sql| && IsWord(sql[position])
      invariant from < position <= |sql|
      invariant position + WordLength(sql[position..]) == from + WordLength(sql[from..])
    {
      assert sql[position..][1..] == sql[position + 1..];
      position := position + 1;
    }
  }

  // ---------------------------------------------------------------- compositionality

  lemma {:induction false} FindAppend(s: string, t: string, needle: string)
    requires Find(s, needle).Some?
    ensures Find(s + t, needle) == Find(s, needle)
    decreases s
  {
    if StartsWith(s, needle) {
      assert (s + t)[..|needle|] == s[..|needle|];
    } else {
      assert !StartsWith(s + t, needle) by {
        FoundFits(s, needle);
        assert (s + t)[..|needle|] == s[..|needle|];
      }
      assert (s + t)[1..] == s[1..] + t;
      FindAppend(s[1..], t, needle);
    }
  }

  lemma {:induction false} FoundFits(s: string, needle: string)
    requires Find(s, needle).Some?
    ensures |needle| <= |s|
  {
  }

  lemma {:induction false} QuoteAppend(s: string, t: string, end: char)
    requires QuoteEnds(s, end) && (t != "" ==> t[0] != end)
    ensures QuoteLength(s + t, end) == QuoteLength(s, end) && QuoteEnds(s + t, end)
    decreases s
  {
    if s[0] != end {
      assert (s + t)[1..] == s[1..] + t;
      QuoteAppend(s[1..], t, end);
    } else if end != ']' && |s| > 1 && s[1] == end {
      assert (s + t)[2..] == s[2..] + t;
      QuoteAppend(s[2..], t, end);
    }
  }

  lemma {:induction false} WordAppend(s: string, t: string)
    requires t != "" ==> !IsWord(t[0])
    ensures WordLength(s + t) == WordLength(s)
    decreases s
  {
    if s != "" {
      assert (s + t)[1..] == s[1..] + t;
      if IsWord(s[0]) {
        WordAppend(s[1..], t);
      }
    } else {
      assert s + t == t;
    }
  }

  ghost predicate SpaceFirst(t: string) {
    t == "" || IsSpace(t[0])
  }

  lemma KindAppend(s: string, t: string)
    requires s != "" && SpaceFirst(t)
    ensures Kind(s + t) == Kind(s)
  {
    if |s| >= 2 {
      assert (s + t)[..2] == s[..2];
    } else if t != "" {
      assert (s + t)[..2] == [s[0], t[0]];
    } else {
      assert s + t == s;
    }
  }

  lemma {:induction false} CommentAppend(s: string, t: string, end: string)
    requires |s| >= 2 && Find(s[2..], end).Some?
    ensures CommentLength((s + t)[2..], end) == CommentLength(s[2..], end)
  {
    assert (s + t)[2..] == s[2..] + t;
    FindAppend(s[2..], t, end);
  }

  lemma QuotedAppend(s: string, t: string)
    requires s != "" && IsQuote(s[0]) && QuoteEnds(s[1..], Closing(s[0])) && SpaceFirst(t)
    ensures QuoteLength((s + t)[1..], Closing((s + t)[0])) == QuoteLength(s[1..], Closing(s[0]))
  {
    assert (s + t)[1..] == s[1..] + t && (s + t)[0] == s[0];
    QuoteAppend(s[1..], t, Closing(s[0]));
  }

  lemma OperatorAppend(s: string, t: string)
    requires s != "" && SpaceFirst(t)
    ensures OperatorLength(s + t) == OperatorLength(s)
  {
  }

  lemma FirstOfKind(s: string)
    requires s != ""
    ensures Kind(s) == LineComment || Kind(s) == BlockComment ==> |s| >= 2
    ensures Kind(s) == Quoted ==> IsQuote(s[0])
  {
  }

  /** White space after a terminated lexeme does not change its kind or its length. */
  lemma LexemeLength(s: string, t: string)
    requires s != "" && Terminated(s) && SpaceFirst(t)
    ensures Kind(s + t) == Kind(s) && Length(s + t) == Length(s)
  {
    assert t != "" ==> !IsWord(t[0]);
    hide Kind, CommentLength, QuoteLength, QuoteEnds, WordLength, OperatorLength, Find, SpaceFirst, IsWord;
    KindAppend(s, t);
    FirstOfKind(s);
    match Kind(s)
    case Space =>
    case LineComment => CommentAppend(s, t, "\n");
    case BlockComment => CommentAppend(s, t, "*/");
    case Quoted => QuotedAppend(s, t);
    case Word => WordAppend(s, t);
    case Operator => OperatorAppend(s, t);
  }

  /** Nor the token it emits. */
  lemma LexemeAppend(s: string, t: string)
    requires s != "" && Terminated(s) && SpaceFirst(t)
    ensures Length(s + t) == Length(s) && Emitted(s + t) == Emitted(s)
  {
    LexemeLength(s, t);
    hide Kind, Length, Terminated;
    assert (s + t)[..Length(s)] == s[..Length(s)];
  }

  lemma {:induction false} LexAppend(s: string, t: string)
    requires Closed(s) && SpaceFirst(t)
    ensures Lex(s + t) == Lex(s) + Lex(t)
    decreases |s|
  {
    hide Lex, Closed, Length, Emitted, Terminated, SpaceFirst;
    if s == "" {
      EmptyIsClosed();
      assert s + t == t;
    } else {
      LexStep(s);
      LexStep(s + t);
      LexemeAppend(s, t);
      assert (s + t)[Length(s)..] == s[Length(s)..] + t;
      LexAppend(s[Length(s)..], t);
    }
  }

  /** White space and closed comments, white space first so that no operator can merge with a comment. */
  ghost predicate IsSeparator(s: string) {
    s != "" && IsSpace(s[0]) && Closed(s) && Lex(s) == []
  }

  /** White space and a closed comment do not depend on what follows. */
  lemma BlankAppend(s: string, t: string)
    requires s != "" && Terminated(s) && Emitted(s) == []
    ensures Length(s + t) == Length(s) && Emitted(s + t) == []
  {
    assert |s| >= 2 ==> (s + t)[..2] == s[..2];
    match Kind(s)
    case LineComment =>
      assert (s + t)[2..] == s[2..] + t;
      FindAppend(s[2..], t, "\n");
    case BlockComment =>
      assert (s + t)[2..] == s[2..] + t;
      FindAppend(s[2..], t, "*/");
    case _ =>
  }

  lemma {:induction false} LexStep(s: string)
    requires s != ""
    ensures Lex(s) == Emitted(s) + Lex(s[Length(s)..])
    ensures Closed(s) <==> Terminated(s) && Closed(s[Length(s)..])
  {
  }

  /** A closed text without tokens may stand before anything. */
  lemma {:induction false} LexAfterBlank(s: string, t: string)
    requires Closed(s) && Lex(s) == []
    ensures Lex(s + t) == Lex(t)
    decreases |s|
  {
    hide Lex, Closed, Length, Emitted, Terminated;
    if s == "" {
      assert s + t == t;
    } else {
      var rest := s[Length(s)..];
      LexStep(s);
      assert Emitted(s) == [] && Lex(rest) == [];
      BlankAppend(s, t);
      LexStep(s + t);
      assert (s + t)[Length(s)..] == rest + t;
      LexAfterBlank(rest, t);
    }
  }

  /** Normalising two texts with a separator between them is normalising each. */
  lemma {:induction false} NormalizationComposes(a: string, separator: string, b: string)
    requires Closed(a) && IsSeparator(separator)
    ensures Lex(a + separator + b) == Lex(a) + Lex(b)
  {
    assert a + separator + b == a + (separator + b);
    LexAppend(a, separator + b);
    LexAfterBlank(separator, b);
  }

  /** Hence which separator stands between two tokens never matters. */
  lemma {:induction false} FormatIsIrrelevant(a: string, one: string, other: string, b: string)
    requires Closed(a) && IsSeparator(one) && IsSeparator(other)
    ensures Lex(a + one + b) == Lex(a + other + b)
  {
    NormalizationComposes(a, one, b);
    NormalizationComposes(a, other, b);
  }

  // ---------------------------------------------------------------- exactly the closed texts compose

  /** A tail that cannot end any quote or comment. */
  const TAIL := " x"

  lemma {:induction false} FindNothing(s: string, needle: string)
    requires Find(s, needle).None? && (needle == "\n" || needle == "*/")
    ensures Find(s + TAIL, needle).None?
    decreases s
  {
    if s == "" {
      assert s + TAIL == TAIL;
      assert TAIL[1..] == "x" && TAIL[1..][1..] == "";
      assert TAIL[..1] == " " && TAIL[..2] == " x" && "x"[..1] == "x";
      assert TAIL[0] != needle[0] && "x"[0] != needle[0];
    } else {
      assert (s + TAIL)[1..] == s[1..] + TAIL;
      assert !StartsWith(s + TAIL, needle) by {
        if |s| == 1 {
          assert (s + TAIL)[..2] == [s[0], ' '];
        } else {
          assert (s + TAIL)[..2] == s[..2];
        }
        assert (s + TAIL)[..1] == s[..1];
      }
      FindNothing(s[1..], needle);
    }
  }

  lemma {:induction false} QuoteNeverEnds(s: string, end: char)
    requires !QuoteEnds(s, end) && end != ' ' && end != 'x'
    ensures !QuoteEnds(s + TAIL, end) && QuoteLength(s + TAIL, end) == |s| + 2
    decreases s
  {
    if s == "" {
      assert s + TAIL == TAIL;
      assert TAIL[1..] == "x" && TAIL[1..][1..] == "";
    } else if s[0] != end {
      assert (s + TAIL)[1..] == s[1..] + TAIL;
      QuoteNeverEnds(s[1..], end);
    } else {
      assert (s + TAIL)[2..] == s[2..] + TAIL;
      QuoteNeverEnds(s[2..], end);
    }
  }

  /** An open lexeme at the front swallows the tail. */
  lemma OpenLexemeSwallows(s: string)
    requires s != "" && !Terminated(s)
    ensures Length(s + TAIL) == |s| + 2 && |Emitted(s + TAIL)| == |Emitted(s)|
    ensures Length(s) == |s|
  {
    KindAppend(s, TAIL);
    match Kind(s)
    case LineComment =>
      assert (s + TAIL)[2..] == s[2..] + TAIL;
      FindNothing(s[2..], "\n");
    case BlockComment =>
      assert (s + TAIL)[2..] == s[2..] + TAIL;
      FindNothing(s[2..], "*/");
    case Quoted =>
      assert (s + TAIL)[1..] == s[1..] + TAIL;
      QuoteNeverEnds(s[1..], Closing(s[0]));
      OpenQuoteTakesAll(s[1..], Closing(s[0]));
  }

  lemma {:induction false} OpenQuoteTakesAll(s: string, end: char)
    requires !QuoteEnds(s, end)
    ensures QuoteLength(s, end) == |s|
    decreases s
  {
    if s != "" {
      if s[0] != end {
        OpenQuoteTakesAll(s[1..], end);
      } else {
        OpenQuoteTakesAll(s[2..], end);
      }
    }
  }

  lemma {:induction false} OpenTextSwallows(s: string)
    requires !Closed(s)
    ensures |Lex(s + TAIL)| == |Lex(s)|
    decreases |s|
  {
    hide Lex, Closed, Length, Emitted, Terminated;
    assert s != "" by {
      EmptyIsClosed();
    }
    LexStep(s);
    LexStep(s + TAIL);
    if Terminated(s) {
      LexemeAppend(s, TAIL);
      assert (s + TAIL)[Length(s)..] == s[Length(s)..] + TAIL;
      OpenTextSwallows(s[Length(s)..]);
    } else {
      OpenLexemeSwallows(s);
      assert (s + TAIL)[Length(s + TAIL)..] == "" && s[Length(s)..] == "";
    }
  }

  lemma EmptyIsClosed()
    ensures Closed("") && Lex("") == []
  {
  }

  lemma SpaceSeparates()
    ensures IsSeparator(" ")
  {
    assert " "[1..] == "";
  }

  lemma OneToken()
    ensures Lex("x") == ["X"]
  {
    assert "x"[1..] == "" && "x"[..1] == "x";
    assert Upper("x") == "X";
  }

  /** Compositionality holds for exactly the texts that end outside any open quote or comment. */
  lemma {:induction false} ComposesIffClosed(a: string)
    ensures Closed(a) <==> forall b :: Lex(a + " " + b) == Lex(a) + Lex(b)
  {
    if Closed(a) {
      SpaceSeparates();
      forall b
        ensures Lex(a + " " + b) == Lex(a) + Lex(b)
      {
        NormalizationComposes(a, " ", b);
      }
    } else {
      OpenTextSwallows(a);
      OneToken();
      hide Lex, Closed;
      assert a + " " + "x" == a + TAIL;
      assert |Lex(a + " " + "x")| != |Lex(a) + Lex("x")|;
    }
  }

  // ---------------------------------------------------------------- round trip

  /** A token normalises to itself alone. */
  ghost predicate Atomic(t: string) {
    t != "" && Lex(t) == [t]
  }

  lemma {:induction false} WholeLexeme(t: string)
    requires t != "" && Length(t) == |t| && Emitted(t) == [t]
    ensures Atomic(t) && (Closed(t) <==> Terminated(t))
  {
    assert t[Length(t)..] == "";
  }

  lemma {:induction false} QuotePrefix(s: string, end: char)
    ensures QuoteLength(s[..QuoteLength(s, end)], end) == QuoteLength(s, end)
    ensures QuoteEnds(s[..QuoteLength(s, end)], end) <==> QuoteEnds(s, end)
    decreases s
  {
    var n := QuoteLength(s, end);
    if s != "" {
      if s[0] != end {
        QuotePrefix(s[1..], end);
        assert s[..n][1..] == s[1..][..n - 1];
      } else if end != ']' && |s| > 1 && s[1] == end {
        QuotePrefix(s[2..], end);
        assert s[..n][2..] == s[2..][..n - 2];
      }
    }
  }

  lemma {:induction false} AllWord(s: string)
    requires forall i :: 0 <= i < |s| ==> IsWord(s[i])
    ensures WordLength(s) == |s|
  {
    if s != "" {
      AllWord(s[1..]);
    }
  }

  lemma UpperIsIdempotent(s: string)
    ensures Upper(Upper(s)) == Upper(s)
  {
  }

  lemma WordChar(c: char)
    requires IsWord(c)
    ensures IsWord(UpperChar(c)) && !IsSpace(UpperChar(c)) && !IsQuote(UpperChar(c))
    ensures UpperChar(c) != '-' && UpperChar(c) != '/'
  {
  }

  lemma WordToken(s: string)
    requires s != "" && Kind(s) == Word
    ensures Atomic(Emitted(s)[0]) && Closed(Emitted(s)[0])
  {
    var t := Upper(s[..WordLength(s)]);
    forall i | 0 <= i < |t|
      ensures IsWord(t[i])
    {
      WordChar(s[i]);
    }
    WordChar(s[0]);
    AllWord(t);
    assert t[..|t|] == t;
    UpperIsIdempotent(s[..WordLength(s)]);
    WholeLexeme(t);
  }

  lemma QuotedToken(s: string)
    requires s != "" && Kind(s) == Quoted
    ensures Atomic(Emitted(s)[0]) && (Closed(Emitted(s)[0]) <==> Terminated(s))
  {
    var t := s[..Length(s)];
    assert t[1..] == s[1..][..Length(s) - 1];
    QuotePrefix(s[1..], Closing(s[0]));
    assert t[..|t|] == t;
    assert Kind(t) == Quoted;
    WholeLexeme(t);
  }

  lemma OperatorToken(s: string)
    requires s != "" && Kind(s) == Operator
    ensures Atomic(Emitted(s)[0]) && Closed(Emitted(s)[0])
  {
    var t := s[..Length(s)];
    assert t[..|t|] == t;
    assert |t| >= 2 ==> t[..2] == s[..2];
    assert Kind(t) == Operator;
    assert OperatorLength(t) == |t|;
    WholeLexeme(t);
  }

  /** Every token is atomic, and every one but the last is closed. */
  ghost predicate Canonical(tokens: seq<string>) {
    && (forall i :: 0 <= i < |tokens| ==> Atomic(tokens[i]))
    && (forall i :: 0 <= i < |tokens| - 1 ==> Closed(tokens[i]))
  }

  lemma EmittedIsCanonical(s: string)
    requires s != ""
    ensures |Emitted(s)| <= 1
    ensures Emitted(s) != [] ==> Atomic(Emitted(s)[0]) && (Terminated(s) ==> Closed(Emitted(s)[0]))
    ensures !Terminated(s) ==> Length(s) == |s|
  {
    match Kind(s)
    case Quoted =>
      QuotedToken(s);
      if !Terminated(s) {
        OpenQuoteTakesAll(s[1..], Closing(s[0]));
      }
    case Word => WordToken(s);
    case Operator => OperatorToken(s);
    case _ =>
  }

  lemma {:induction false} TokensAreCanonical(s: string)
    ensures Canonical(Lex(s))
    decreases |s|
  {
    hide Lex, Closed, Length, Emitted, Terminated;
    if s == "" {
      EmptyIsClosed();
    } else {
      LexStep(s);
      EmittedIsCanonical(s);
      var rest := s[Length(s)..];
      TokensAreCanonical(rest);
      if Emitted(s) != [] {
        assert Lex(s) == [Emitted(s)[0]] + Lex(rest);
        if !Terminated(s) {
          assert rest == "";
          EmptyIsClosed();
        }
      } else {
        assert Lex(s) == Lex(rest);
      }
    }
  }

  function Join(tokens: seq<string>): string {
    if tokens == [] then ""
    else if |tokens| == 1 then tokens[0]
    else tokens[0] + " " + Join(tokens[1..])
  }

  lemma {:induction false} JoinLexes(tokens: seq<string>)
    requires Canonical(tokens)
    ensures Lex(Join(tokens)) == tokens
    decreases tokens
  {
    if tokens == [] {
      EmptyIsClosed();
    } else if |tokens| > 1 {
      assert Atomic(tokens[0]) && Closed(tokens[0]);
      assert Canonical(tokens[1..]);
      JoinLexes(tokens[1..]);
      ComposesIffClosed(tokens[0]);
      assert Lex(tokens[0] + " " + Join(tokens[1..])) == Lex(tokens[0]) + Lex(Join(tokens[1..]));
      assert tokens == [tokens[0]] + tokens[1..];
    } else {
      assert Atomic(tokens[0]);
    }
  }

  /** Round trip: the tokens of any text, joined by single spaces, normalise to the same tokens. */
  lemma {:induction false} TokensRoundTrip(sql: string)
    ensures Lex(Join(Lex(sql))) == Lex(sql)
  {
    TokensAreCanonical(sql);
    JoinLexes(Lex(sql));
  }

  // ---------------------------------------------------------------- quoted text survives verbatim

  /** SQL quoting: the quote character inside is doubled. */
  function Doubled(content: string, quote: char): string {
    if content == "" then ""
    else (if content[0] == quote then [quote, quote] else [content[0]]) + Doubled(content[1..], quote)
  }

  function Quote(content: string, quote: char): string {
    [quote] + Doubled(content, quote) + [quote]
  }

  lemma {:induction false} DoubledEnds(content: string, quote: char)
    requires quote != ']'
    ensures var s := Doubled(content, quote) + [quote];
            QuoteEnds(s, quote) && QuoteLength(s, quote) == |s|
    decreases content
  {
    var s := Doubled(content, quote) + [quote];
    if content != "" {
      DoubledEnds(content[1..], quote);
      var rest := Doubled(content[1..], quote) + [quote];
      if content[0] == quote {
        assert s == [quote, quote] + rest && s[2..] == rest;
      } else {
        assert s == [content[0]] + rest && s[1..] == rest;
      }
    }
  }

  /** Quoted text that reaches its end with its last character, or not at all, is one token. */
  lemma {:induction false} WholeQuote(t: string)
    requires t != "" && IsQuote(t[0]) && QuoteLength(t[1..], Closing(t[0])) == |t| - 1
    ensures Lex(t) == [t] && (Closed(t) <==> QuoteEnds(t[1..], Closing(t[0])))
  {
    QuotedKind(t);
    hide Kind, QuoteLength, QuoteEnds, Lex, Closed, IsQuote;
    assert t[..|t|] == t;
    WholeLexeme(t);
  }

  lemma QuotedKind(t: string)
    requires t != "" && IsQuote(t[0])
    ensures Kind(t) == Quoted
  {
    assert |t| >= 2 ==> t[..2][0] == t[0];
  }

  lemma QuoteIsToken(content: string, quote: char)
    requires quote == '\'' || quote == '\"' || quote == '`'
    ensures Lex(Quote(content, quote)) == [Quote(content, quote)] && Closed(Quote(content, quote))
  {
    var q := Quote(content, quote);
    assert q[1..] == Doubled(content, quote) + [quote];
    DoubledEnds(content, quote);
    WholeQuote(q);
  }

  /** Any content, quoted, is one token, unchanged, wherever it stands. */
  lemma {:induction false} QuotedTextSurvives(a: string, content: string, quote: char, b: string)
    requires Closed(a) && (quote == '\'' || quote == '\"' || quote == '`')
    ensures Lex(a + " " + Quote(content, quote) + " " + b) == Lex(a) + [Quote(content, quote)] + Lex(b)
  {
    hide Lex, Closed, Quote;
    QuoteIsToken(content, quote);
    TokenInContext(a, Quote(content, quote), b);
  }

  lemma {:induction false} TokenInContext(a: string, token: string, b: string)
    requires Closed(a) && Closed(token) && Lex(token) == [token]
    ensures Lex(a + " " + token + " " + b) == Lex(a) + [token] + Lex(b)
  {
    hide Lex, Closed;
    SpaceSeparates();
    NormalizationComposes(token, " ", b);
    NormalizationComposes(a, " ", token + " " + b);
    assert a + " " + token + " " + b == a + " " + (token + " " + b);
  }

  lemma {:induction false} BracketEnds(content: string)
    requires ']' !in content
    ensures var s := content + "]"; QuoteEnds(s, ']') && QuoteLength(s, ']') == |s|
    decreases content
  {
    if content == "" {
      assert content + "]" == "]";
    } else {
      assert (content + "]")[1..] == content[1..] + "]";
      BracketEnds(content[1..]);
    }
  }

  /** Brackets know no doubling: content without a closing bracket is one token, unchanged. */
  lemma {:induction false} BracketedTextSurvives(a: string, content: string, b: string)
    requires Closed(a) && ']' !in content
    ensures Lex(a + " " + ("[" + content + "]") + " " + b) == Lex(a) + ["[" + content + "]"] + Lex(b)
  {
    var t := "[" + content + "]";
    assert t[1..] == content + "]";
    BracketEnds(content);
    WholeQuote(t);
    hide Lex, Closed;
    TokenInContext(a, t, b);
  }

  /** A quote that never ends is the last token, unchanged to the end of the text. */
  lemma {:induction false} UnterminatedQuoteSurvives(a: string, t: string)
    requires Closed(a) && t != "" && IsQuote(t[0]) && !QuoteEnds(t[1..], Closing(t[0]))
    ensures Lex(a + " " + t) == Lex(a) + [t]
  {
    OpenQuoteTakesAll(t[1..], Closing(t[0]));
    WholeQuote(t);
    hide Lex, Closed;
    SpaceSeparates();
    NormalizationComposes(a, " ", t);
  }

  lemma {:induction false} DoublingIsInjective(x: string, y: string, quote: char)
    requires Doubled(x, quote) == Doubled(y, quote)
    ensures x == y
    decreases x
  {
    if x == "" || y == "" {
      assert x == y;
    } else {
      var p, q := Doubled(x[1..], quote), Doubled(y[1..], quote);
      assert Doubled(x, quote)[0] == x[0] && Doubled(y, quote)[0] == y[0];
      var n := if x[0] == quote then 2 else 1;
      assert Doubled(x, quote)[n..] == p && Doubled(y, quote)[n..] == q;
      DoublingIsInjective(x[1..], y[1..], quote);
      assert x == [x[0]] + x[1..] && y == [y[0]] + y[1..];
    }
  }

  /** Different literals have different tokens: the fingerprint keeps them apart. */
  lemma QuotingIsInjective(x: string, y: string, quote: char)
    requires Quote(x, quote) == Quote(y, quote)
    ensures x == y
  {
    assert Quote(x, quote)[1..|Quote(x, quote)| - 1] == Doubled(x, quote);
    assert Quote(y, quote)[1..|Quote(y, quote)| - 1] == Doubled(y, quote);
    DoublingIsInjective(x, y, quote);
  }

  // ---------------------------------------------------------------- letter case

  /** Two texts that differ at most in the case of letters, and not at all inside quotes. */
  ghost predicate CaseVariant(a: string, b: string)
    decreases |a|
  {
    && Upper(a) == Upper(b)
    && (a != "" ==>
          && (Kind(a) == Quoted ==> a[..Length(a)] == b[..Length(a)])
          && CaseVariant(a[Length(a)..], b[Length(a)..]))
  }

  lemma SameUpperChar(a: string, b: string, i: nat)
    requires Upper(a) == Upper(b) && i < |a|
    ensures |a| == |b|
    ensures UpperChar(a[i]) == UpperChar(b[i])
    ensures IsWord(a[i]) <==> IsWord(b[i])
    ensures !IsWord(a[i]) ==> a[i] == b[i]
  {
    assert |Upper(a)| == |Upper(b)|;
    assert Upper(a)[i] == Upper(b)[i];
  }

  lemma UpperTail(a: string, b: string, n: nat)
    requires Upper(a) == Upper(b) && n <= |a|
    ensures |a| == |b| && Upper(a[n..]) == Upper(b[n..]) && Upper(a[..n]) == Upper(b[..n])
  {
    assert |Upper(a)| == |Upper(b)|;
    assert Upper(a[n..]) == Upper(a)[n..] && Upper(b[n..]) == Upper(b)[n..];
    assert Upper(a[..n]) == Upper(a)[..n] && Upper(b[..n]) == Upper(b)[..n];
  }

  lemma StartIgnoresCase(a: string, b: string, needle: string)
    requires Upper(a) == Upper(b) && (needle == "\n" || needle == "*/")
    ensures StartsWith(a, needle) <==> StartsWith(b, needle)
  {
    UpperTail(a, b, 0);
    if |a| >= 1 {
      SameUpperChar(a, b, 0);
      assert a[..1] == [a[0]] && b[..1] == [b[0]];
    }
    if |a| >= 2 {
      SameUpperChar(a, b, 1);
      assert a[..2] == [a[0], a[1]] && b[..2] == [b[0], b[1]];
    }
  }

  lemma {:induction false} FindIgnoresCase(a: string, b: string, needle: string)
    requires Upper(a) == Upper(b) && (needle == "\n" || needle == "*/")
    ensures Find(a, needle) == Find(b, needle)
    decreases a
  {
    hide Upper, StartsWith, Find;
    UpperTail(a, b, 0);
    StartIgnoresCase(a, b, needle);
    FindStep(a, needle);
    FindStep(b, needle);
    if a != "" {
      UpperTail(a, b, 1);
      FindIgnoresCase(a[1..], b[1..], needle);
    }
  }

  lemma {:induction false} FindStep(s: string, needle: string)
    ensures Find(s, needle)
            == if StartsWith(s, needle) then Some(0)
               else if s == "" then None
               else match Find(s[1..], needle)
                    case None => None
                    case Some(at) => Some(at + 1)
  {
  }

  lemma {:induction false} QuoteIgnoresCase(a: string, b: string, end: char)
    requires Upper(a) == Upper(b) && !IsWord(end)
    ensures QuoteLength(a, end) == QuoteLength(b, end)
    decreases a
  {
    UpperTail(a, b, 0);
    if a != "" {
      SameUpperChar(a, b, 0);
      UpperTail(a, b, 1);
      QuoteIgnoresCase(a[1..], b[1..], end);
      if |a| > 1 {
        SameUpperChar(a, b, 1);
        UpperTail(a, b, 2);
        QuoteIgnoresCase(a[2..], b[2..], end);
      }
    }
  }

  lemma {:induction false} WordIgnoresCase(a: string, b: string)
    requires Upper(a) == Upper(b)
    ensures WordLength(a) == WordLength(b)
    decreases a
  {
    UpperTail(a, b, 0);
    if a != "" {
      SameUpperChar(a, b, 0);
      UpperTail(a, b, 1);
      WordIgnoresCase(a[1..], b[1..]);
    }
  }

  lemma KindIgnoresCase(a: string, b: string)
    requires a != "" && Upper(a) == Upper(b)
    ensures b != "" && Kind(a) == Kind(b)
  {
    UpperTail(a, b, 0);
    SameUpperChar(a, b, 0);
    PairIgnoresCase(a, b, "--");
    PairIgnoresCase(a, b, "/*");
    assert IsSpace(a[0]) == IsSpace(b[0]) && IsQuote(a[0]) == IsQuote(b[0]);
    hide Upper, StartsWith, IsSpace, IsQuote, IsWord;
  }

  lemma PairIgnoresCase(a: string, b: string, pair: string)
    requires Upper(a) == Upper(b) && (pair == "--" || pair == "/*")
    ensures StartsWith(a, pair) <==> StartsWith(b, pair)
  {
    UpperTail(a, b, 0);
    if |a| >= 2 {
      SameUpperChar(a, b, 0);
      SameUpperChar(a, b, 1);
      assert a[..2] == [a[0], a[1]] && b[..2] == [b[0], b[1]];
    }
  }

  lemma LengthIgnoresCase(a: string, b: string)
    requires a != "" && Upper(a) == Upper(b)
    ensures b != "" && Kind(a) == Kind(b) && Length(a) == Length(b)
  {
    KindIgnoresCase(a, b);
    SameUpperChar(a, b, 0);
    match Kind(a)
    case Space =>
    case LineComment =>
      UpperTail(a, b, 2);
      FindIgnoresCase(a[2..], b[2..], "\n");
    case BlockComment =>
      UpperTail(a, b, 2);
      FindIgnoresCase(a[2..], b[2..], "*/");
    case Quoted =>
      UpperTail(a, b, 1);
      QuoteIgnoresCase(a[1..], b[1..], Closing(a[0]));
    case Word => WordIgnoresCase(a, b);
    case Operator =>
      if |a| > 1 {
        SameUpperChar(a, b, 1);
      }
      if |a| > 2 {
        SameUpperChar(a, b, 2);
      }
  }

  lemma OperatorSameText(a: string, b: string)
    requires a != "" && Upper(a) == Upper(b) && Kind(a) == Operator
    ensures |b| == |a| && a[..OperatorLength(a)] == b[..OperatorLength(a)]
  {
    var n := OperatorLength(a);
    forall i | 0 <= i < n
      ensures i < |b| && a[i] == b[i]
    {
      SameUpperChar(a, b, i);
    }
    UpperTail(a, b, 0);
  }

  /** Letter case outside quotes never changes the tokens. */
  lemma {:induction false} LetterCaseIsIrrelevant(a: string, b: string)
    requires CaseVariant(a, b)
    ensures Lex(a) == Lex(b)
    decreases |a|
  {
    UpperTail(a, b, 0);
    if a != "" {
      LengthIgnoresCase(a, b);
      UpperTail(a, b, Length(a));
      if Kind(a) == Operator {
        OperatorSameText(a, b);
      }
      assert Emitted(a) == Emitted(b);
      LetterCaseIsIrrelevant(a[Length(a)..], b[Length(a)..]);
    }
  }
}
