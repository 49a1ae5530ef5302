/** What `Tokenizer::next` promises about the token it returns: the first
    character that is not blank and not in a comment decides the kind of token,
    an identifier or a number is the longest run it can be, and a string ends at
    the first unescaped quote. */
module LexLaws {
  import opened Lexer

  /** Blanks before a token are skipped. */
  lemma {:induction false} BlanksSkipped(s: string, pos: nat, q: nat)
    requires pos <= q <= |s|
    requires forall k :: pos <= k < q ==> IsSpace(s[k])
    ensures Lex(s, pos) == Lex(s, q)
    decreases q - pos
  {
    if pos < q {
      BlanksSkipped(s, pos + 1, q);
    }
  }

  /** A `;` comment is skipped up to and including the end of its line. */
  lemma CommentSkipped(s: string, pos: nat, q: nat)
    requires pos < q < |s| && s[pos] == ';' && s[q] == '\n'
    requires forall k :: pos < k < q ==> s[k] != '\n'
    ensures Lex(s, pos) == Lex(s, q + 1)
  {
    var j := LineEnd(s, pos + 1);
    assert j == q + 1;
  }

  /** A comment on the last line runs to the end of the input, where the token is ERR. */
  lemma CommentAtEnd(s: string, pos: nat)
    requires pos < |s| && s[pos] == ';'
    requires forall k :: pos < k < |s| ==> s[k] != '\n'
    ensures Lex(s, pos) == Lexed(Error, |s|)
  {
    var j := LineEnd(s, pos + 1);
    assert j == |s|;
  }

  /** The kind of the token from the first significant character `c`: `(`, `)`,
      `.` and `'` are punctuation; a digit starts a number; an `isSchemeId`
      character starts an identifier; `"` starts a string; `#t` and `#f` are the
      booleans; anything else, `#` followed by another character included, is ERR. */
  lemma Classifies(s: string, pos: nat)
    requires pos < |s| && !IsSpace(s[pos]) && s[pos] != ';'
    ensures var t := Lex(s, pos).tok;
      var c := s[pos];
      (t == OpenParen <==> c == '(') && (t == CloseParen <==> c == ')') &&
      (t == Dot <==> c == '.') && (t == QuoteMark <==> c == '\'') &&
      (t.Num? <==> IsDigit(c)) && (t.Ident? <==> IsSchemeId(c)) && (t.Text? <==> c == '"') &&
      (t.Boolean? <==> c == '#' && pos + 1 < |s| && (s[pos + 1] == 't' || s[pos + 1] == 'f')) &&
      (t.Boolean? ==> t.b == (s[pos + 1] == 't')) &&
      (t == Error <==>
        (c == '#' && !(pos + 1 < |s| && (s[pos + 1] == 't' || s[pos + 1] == 'f'))) ||
        !(c == '#' || c == '"' || IsSchemeId(c) || IsDigit(c) || c == '(' || c == ')' || c == '.' || c == '\''))
  {
  }

  /** An identifier is the longest run of alphanumeric and `isSchemeId`
      characters that starts with an `isSchemeId` character. */
  lemma IdentifierIsMaximal(s: string, pos: nat)
    requires pos < |s| && IsSchemeId(s[pos])
    ensures var r := Lex(s, pos);
      r.tok.Ident? && r.tok.name == s[pos..r.pos] && |r.tok.name| >= 1 &&
      (forall k :: pos <= k < r.pos ==> IsIdChar(s[k])) &&
      (r.pos == |s| || !IsIdChar(s[r.pos]))
  {
  }

  /** A number is the longest run of digits, read in decimal. */
  lemma NumberIsMaximal(s: string, pos: nat)
    requires pos < |s| && IsDigit(s[pos])
    ensures var r := Lex(s, pos);
      r.tok.Num? && pos < r.pos &&
      (forall k :: pos <= k < r.pos ==> IsDigit(s[k])) &&
      (r.pos == |s| || !IsDigit(s[r.pos])) &&
      r.tok.n == DigitsValue(s[pos..r.pos])
  {
  }

  /** `-5` is one identifier, not a negative number. */
  lemma MinusFiveIsIdentifier()
    ensures Lex("-5", 0) == Lexed(Ident("-5"), 2)
  {
    var s := "-5";
    assert IsSchemeId(s[0]) && !IsSpace(s[0]) && IsIdChar(s[1]);
    assert IdEnd(s, 1) == 2;
    assert s[0..2] == s;
  }

  /** The number of backslashes immediately before position `k`, not counting
      any before `i`. */
  function Run(s: string, i: nat, k: nat): (r: nat)
    requires i <= k <= |s|
    ensures r <= k - i
    decreases k
  {
    if k > i && s[k - 1] == '\\' then 1 + Run(s, i, k - 1) else 0
  }

  /** A run that reaches back to `j` continues with the run before `j`. */
  lemma {:induction false} RunSplit(s: string, i: nat, j: nat, k: nat)
    requires i <= j <= k <= |s|
    ensures Run(s, i, k) == if Run(s, j, k) == k - j then k - j + Run(s, i, j) else Run(s, j, k)
    decreases k
  {
    if k > j && s[k - 1] == '\\' {
      RunSplit(s, i, j, k - 1);
    }
  }

  /** A string literal with no unescaped quote (a quote is escaped when an odd
      number of backslashes precede it) reads as the empty string, not as the
      characters gathered before the end of the input. */
  lemma {:induction false} UnterminatedIsEmpty(s: string, i: nat, sofar: string)
    requires i <= |s|
    requires forall k :: i <= k < |s| && s[k] == '"' ==> Run(s, i, k) % 2 == 1
    ensures ReadQuoted(s, i, sofar) == Quoted("", |s|)
    decreases |s| - i
  {
    if i < |s| {
      assert Run(s, i, i) == 0;
      var j := if s[i] == '\\' then i + 2 else i + 1;
      if j <= |s| {
        forall k | j <= k < |s| && s[k] == '"' ensures Run(s, j, k) % 2 == 1 {
          RunSplit(s, i, j, k);
          if s[i] == '\\' {
            assert Run(s, i, j) == if s[i + 1] == '\\' then 2 else 0 by {
              assert Run(s, i, i) == 0;
            }
          } else {
            assert Run(s, i, j) == 0;
          }
        }
        if s[i] == '\\' {
          UnterminatedIsEmpty(s, j, sofar + [if s[i + 1] == 'n' then '\n' else s[i + 1]]);
        } else {
          UnterminatedIsEmpty(s, j, sofar + [s[i]]);
        }
      }
    }
  }

  /** `"a\"` at the end of the input: the escaped quote does not close it. */
  lemma EscapedQuoteAtEnd()
    ensures Lex("\"a\\\"", 0) == Lexed(Text(""), 4)
  {
    var s := "\"a\\\"";
    assert Run(s, 1, 3) == 1;
    UnterminatedIsEmpty(s, 1, "");
  }

  /** A string without escapes or quotes is read up to its closing quote. */
  lemma {:induction false} PlainStringRead(s: string, i: nat, j: nat, sofar: string)
    requires i <= j < |s| && s[j] == '"'
    requires forall k :: i <= k < j ==> s[k] != '"' && s[k] != '\\'
    ensures ReadQuoted(s, i, sofar) == Quoted(sofar + s[i..j], j + 1)
    decreases j - i
  {
    if i == j {
      assert s[i..j] == [];
      assert sofar + [] == sofar;
    } else {
      PlainStringRead(s, i + 1, j, sofar + [s[i]]);
      assert [s[i]] + s[i + 1..j] == s[i..j];
      assert sofar + [s[i]] + s[i + 1..j] == sofar + s[i..j];
    }
  }

  /** `\n` is a newline, and a backslash before any other character (a quote
      or a backslash included) keeps that character and does not end the string. */
  lemma EscapeStep(s: string, i: nat, sofar: string)
    requires i + 1 < |s| && s[i] == '\\'
    ensures ReadQuoted(s, i, sofar) == ReadQuoted(s, i + 2, sofar + [if s[i + 1] == 'n' then '\n' else s[i + 1]])
    ensures s[i + 1] == 'n' ==> ReadQuoted(s, i, sofar) == ReadQuoted(s, i + 2, sofar + "\n")
  {
  }

  /** The text `t` with a backslash before each quote and each backslash. */
  function Escape(t: string): (r: string)
    ensures |t| <= |r|
  {
    if t == [] then []
    else (if t[0] == '"' || t[0] == '\\' then ['\\', t[0]] else [t[0]]) + Escape(t[1..])
  }

  /** Any text, written with its quotes and backslashes escaped and followed by
      a quote, reads back as itself and ends just after that quote. */
  lemma {:induction false} EscapedRead(s: string, i: nat, t: string, sofar: string)
    requires i + |Escape(t)| < |s| && s[i..i + |Escape(t)|] == Escape(t) && s[i + |Escape(t)|] == '"'
    ensures ReadQuoted(s, i, sofar) == Quoted(sofar + t, i + |Escape(t)| + 1)
    decreases |t|
  {
    var e := Escape(t);
    if t == [] {
      assert sofar + t == sofar;
    } else {
      var u := Escape(t[1..]);
      var w := if t[0] == '"' || t[0] == '\\' then 2 else 1;
      assert e == e[..w] + u;
      assert s[i + w..i + |e|] == e[w..] == u;
      assert s[i] == e[0];
      if w == 2 {
        assert s[i + 1] == e[1] == t[0];
      }
      EscapedRead(s, i + w, t[1..], sofar + [t[0]]);
      assert sofar + [t[0]] + t[1..] == sofar + t;
    }
  }

  /** `"a\n\"b"` is the text a, newline, quote, b. */
  lemma EscapesRead()
    ensures Lex("\"a\\n\\\"b\"", 0) == Lexed(Text("a\n\"b"), 8)
  {
    var s := "\"a\\n\\\"b\"";
    assert ReadQuoted(s, 7, "a\n\"b") == Quoted("a\n\"b", 8);
    assert ReadQuoted(s, 6, "a\n\"") == Quoted("a\n\"b", 8);
    assert ReadQuoted(s, 4, "a\n") == Quoted("a\n\"b", 8);
    assert ReadQuoted(s, 2, "a") == Quoted("a\n\"b", 8);
    assert ReadQuoted(s, 1, "") == Quoted("a\n\"b", 8);
  }
}
