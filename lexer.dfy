/** The tokenizer (`Tokenizer`, `isSchemeId`): characters in, tokens out, with a
    stack of pushed-back tokens. The input stream is a string and a position in
    it; the end of the input is the position `|input|`, where the C++ `get()`
    would return EOF. */
module Lexer {

  datatype Token =
    | Ident(name: string)
    | Text(text: string)
    | Num(n: int)
    | Boolean(b: bool)
    | Error
    | OpenParen
    | CloseParen
    | Dot
    | QuoteMark

  // Character classes of the C locale, as `isspace`, `isalpha`, `isdigit` and `isalnum` see them.

  predicate IsSpace(c: char)
  {
    c == ' ' || c == '\t' || c == '\n' || c == '\r' || c == '\U{000B}' || c == '\U{000C}'
  }

  predicate IsAlpha(c: char) { 'a' <= c <= 'z' || 'A' <= c <= 'Z' }

  predicate IsDigit(c: char) { '0' <= c <= '9' }

  predicate IsAlnum(c: char) { IsAlpha(c) || IsDigit(c) }

  /** `isSchemeId`: the characters that may start an identifier. */
  predicate IsSchemeId(c: char)
  {
    IsAlpha(c) || c == '-' || c == '_' || c == '*' || c == '+' || c == '?' || c == '!'
  }

  /** The characters that may continue an identifier. */
  predicate IsIdChar(c: char) { IsAlnum(c) || IsSchemeId(c) }

  /** The end of the maximal run of identifier characters starting at `i`. */
  function IdEnd(s: string, i: nat): (j: nat)
    requires i <= |s|
    ensures i <= j <= |s|
    ensures forall k :: i <= k < j ==> IsIdChar(s[k])
    ensures j == |s| || !IsIdChar(s[j])
    decreases |s| - i
  {
    if i < |s| && IsIdChar(s[i]) then IdEnd(s, i + 1) else i
  }

  /** The end of the maximal run of decimal digits starting at `i`. */
  function DigitsEnd(s: string, i: nat): (j: nat)
    requires i <= |s|
    ensures i <= j <= |s|
    ensures forall k :: i <= k < j ==> IsDigit(s[k])
    ensures j == |s| || !IsDigit(s[j])
    decreases |s| - i
  {
    if i < |s| && IsDigit(s[i]) then DigitsEnd(s, i + 1) else i
  }

  /** The value of a run of decimal digits, accumulated from the left. */
  function DigitsValue(ds: string): nat
    requires forall k :: 0 <= k < |ds| ==> IsDigit(ds[k])
  {
    if ds == [] then 0
    else
      assert IsDigit(ds[|ds| - 1]);
      DigitsValue(ds[..|ds| - 1]) * 10 + (ds[|ds| - 1] as int - '0' as int)
  }

  /** Where `std::getline` leaves the stream: just after the next newline, or at the end. */
  function LineEnd(s: string, i: nat): (j: nat)
    requires i <= |s|
    ensures i <= j <= |s|
    ensures forall k :: i <= k < j && k < |s| && s[k] == '\n' ==> k == j - 1
    ensures j == |s| || (j > i && s[j - 1] == '\n')
    decreases |s| - i
  {
    if i == |s| then i else if s[i] == '\n' then i + 1 else LineEnd(s, i + 1)
  }

  datatype Quoted = Quoted(text: string, pos: nat)

  /** `readQuotedString_` from position `i` (just after the opening quote) with the
      characters gathered so far: `\n` is a newline, any other escaped character
      stands for itself, an unescaped `"` ends the string, and reaching the end of
      the input gives the empty string. */
  function ReadQuoted(s: string, i: nat, sofar: string): (r: Quoted)
    requires i <= |s|
    ensures i <= r.pos <= |s|
    decreases |s| - i
  {
    if i == |s| then Quoted("", |s|)
    else if s[i] == '"' then Quoted(sofar, i + 1)
    else if s[i] == '\\' then
      if i + 1 == |s| then Quoted("", |s|)
      else ReadQuoted(s, i + 2, sofar + [if s[i + 1] == 'n' then '\n' else s[i + 1]])
    else ReadQuoted(s, i + 1, sofar + [s[i]])
  }

  datatype Lexed = Lexed(tok: Token, pos: nat)

  /** The token `Tokenizer::next` reads from position `pos` when nothing has been
      pushed back, and the position after it. */
  function Lex(s: string, pos: nat): (r: Lexed)
    requires pos <= |s|
    ensures pos <= r.pos <= |s|
    ensures pos < |s| ==> pos < r.pos
    decreases |s| - pos
  {
    if pos == |s| then Lexed(Error, pos)
    else
      var c := s[pos];
      if IsSpace(c) then Lex(s, pos + 1)
      else if c == '#' then
        if pos + 1 == |s| then Lexed(Error, pos + 1)
        else if s[pos + 1] == 't' || s[pos + 1] == 'f' then Lexed(Boolean(s[pos + 1] == 't'), pos + 2)
        else Lexed(Error, pos + 2)
      else if c == ';' then Lex(s, LineEnd(s, pos + 1))
      else if c == '"' then
        var q := ReadQuoted(s, pos + 1, "");
        Lexed(Text(q.text), q.pos)
      else if IsSchemeId(c) then
        var j := IdEnd(s, pos + 1);
        Lexed(Ident(s[pos..j]), j)
      else if IsDigit(c) then
        var j := DigitsEnd(s, pos);
        Lexed(Num(DigitsValue(s[pos..j])), j)
      else if c == '(' then Lexed(OpenParen, pos + 1)
      else if c == ')' then Lexed(CloseParen, pos + 1)
      else if c == '.' then Lexed(Dot, pos + 1)
      else if c == '\'' then Lexed(QuoteMark, pos + 1)
      else Lexed(Error, pos + 1)
  }

  /** The state of a tokenizer: the stream position and the stack of pushed-back
      tokens (top of the stack last). */
  datatype Cursor = Cursor(pos: nat, ungets: seq<Token>)

  datatype Step = Step(tok: Token, cur: Cursor)

  /** A measure that every token read from the stream decreases. */
  function Measure(s: string, c: Cursor): nat
    requires c.pos <= |s|
  {
    |s| - c.pos + |c.ungets|
  }

  /** `Tokenizer::next`: the top of the pushback stack if there is one, else the
      next token of the stream. */
  function NextToken(s: string, c: Cursor): (r: Step)
    requires c.pos <= |s|
    ensures r.cur.pos <= |s|
    ensures Measure(s, r.cur) <= Measure(s, c)
    ensures r.tok != Error || c.ungets != [] ==> Measure(s, r.cur) < Measure(s, c)
  {
    if c.ungets != [] then
      Step(c.ungets[|c.ungets| - 1], Cursor(c.pos, c.ungets[..|c.ungets| - 1]))
    else
      var l := Lex(s, c.pos);
      Step(l.tok, Cursor(l.pos, []))
  }

  /** `Tokenizer::unget`. */
  function PushBack(c: Cursor, t: Token): Cursor
  {
    c.(ungets := c.ungets + [t])
  }

  /** Pushing back and reading again is last-in first-out: it gives back the token
      pushed and leaves the tokenizer as it was before the push. */
  lemma NextAfterUnget(s: string, c: Cursor, t: Token)
    requires c.pos <= |s|
    ensures NextToken(s, PushBack(c, t)) == Step(t, c)
  {
    assert (c.ungets + [t])[..|c.ungets|] == c.ungets;
  }

  class Tokenizer {
    const input: string
    var pos: nat
    var ungets: seq<Token>

    ghost predicate Valid()
      reads this
    {
      pos <= |input|
    }

    function State(): Cursor
      reads this
    {
      Cursor(pos, ungets)
    }

    constructor (input: string)
      ensures Valid() && this.input == input && State() == Cursor(0, [])
    {
      this.input := input;
      pos := 0;
      ungets := [];
    }

    method Unget(t: Token)
      requires Valid()
      modifies this
      ensures Valid() && State() == PushBack(old(State()), t)
    {
      ungets := ungets + [t];
    }

    method Next() returns (t: Token)
      requires Valid()
      modifies this
      ensures Valid() && Step(t, State()) == NextToken(input, old(State()))
    {
      if |ungets| > 0 {
        t := ungets[|ungets| - 1];
        ungets := ungets[..|ungets| - 1];
        return;
      }
      while true
        invariant pos <= |input| && ungets == []
        invariant Lex(input, pos) == Lex(input, old(pos))
        decreases |input| - pos
      {
        if pos == |input| {
          t := Error;
          return;
        }
        var p := input[pos];
        pos := pos + 1;
        if IsSpace(p) {
          continue;
        } else if p == '#' {
          if pos == |input| {
            t := Error;
            return;
          }
          var bc := input[pos];
          pos := pos + 1;
          if bc == 't' || bc == 'f' {
            t := Boolean(bc == 't');
          } else {
            t := Error;
          }
          return;
        } else if p == ';' {
          SkipLine();
          continue;
        } else if p == '"' {
          var str := ReadQuotedString();
          t := Text(str);
          return;
        } else if IsSchemeId(p) {
          var id := ReadIdentifier(p);
          t := Ident(id);
          return;
        } else if IsDigit(p) {
          pos := pos - 1;
          var num := ReadNumber();
          t := Num(num);
          return;
        } else if p == '(' {
          t := OpenParen;
          return;
        } else if p == ')' {
          t := CloseParen;
          return;
        } else if p == '.' {
          t := Dot;
          return;
        } else if p == '\'' {
          t := QuoteMark;
          return;
        }
        t := Error;
        return;
      }
    }

    /** `std::getline` into a discarded string. */
    method SkipLine()
      requires Valid()
      modifies this`pos
      ensures Valid() && pos == LineEnd(input, old(pos))
    {
      while pos < |input| && input[pos] != '\n'
        invariant pos <= |input|
        invariant LineEnd(input, pos) == LineEnd(input, old(pos))
        decreases |input| - pos
      {
        pos := pos + 1;
      }
      if pos < |input| {
        pos := pos + 1;
      }
    }

    /** The loop of `next` that extends an identifier whose first character `p`
        has just been read. */
    method ReadIdentifier(p: char) returns (id: string)
      requires Valid() && 0 < pos && input[pos - 1] == p
      modifies this`pos
      ensures Valid() && pos == IdEnd(input, old(pos)) && id == input[old(pos) - 1..pos]
    {
      id := [p];
      while pos < |input| && IsIdChar(input[pos])
        invariant old(pos) <= pos <= |input|
        invariant id == input[old(pos) - 1..pos]
        invariant IdEnd(input, pos) == IdEnd(input, old(pos))
        decreases |input| - pos
      {
        id := id + [input[pos]];
        pos := pos + 1;
      }
    }

    /** `is_ >> num` on a stream positioned at a digit. */
    method ReadNumber() returns (num: nat)
      requires Valid() && pos < |input| && IsDigit(input[pos])
      modifies this`pos
      ensures Valid() && pos == DigitsEnd(input, old(pos))
      ensures num == DigitsValue(input[old(pos)..pos])
    {
      num := 0;
      while pos < |input| && IsDigit(input[pos])
        invariant old(pos) <= pos <= |input|
        invariant DigitsEnd(input, pos) == DigitsEnd(input, old(pos))
        invariant forall k :: old(pos) <= k < pos ==> IsDigit(input[k])
        invariant num == DigitsValue(input[old(pos)..pos])
        decreases |input| - pos
      {
        assert input[old(pos)..pos + 1][..pos - old(pos)] == input[old(pos)..pos];
        num := num * 10 + (input[pos] as int - '0' as int);
        pos := pos + 1;
      }
    }

    /** `readQuotedString_`, called just after the opening quote. */
    method ReadQuotedString() returns (str: string)
      requires Valid()
      modifies this`pos
      ensures Valid() && Quoted(str, pos) == ReadQuoted(input, old(pos), "")
    {
      var sofar := "";
      while pos < |input|
        invariant pos <= |input|
        invariant ReadQuoted(input, pos, sofar) == ReadQuoted(input, old(pos), "")
        decreases |input| - pos
      {
        var p := input[pos];
        pos := pos + 1;
        if p == '"' {
          return sofar;
        }
        if p == '\\' {
          if pos == |input| {
            return "";
          }
          p := input[pos];
          pos := pos + 1;
          if p == 'n' {
            p := '\n';
          }
        }
        sofar := sofar + [p];
      }
      return "";
    }
  }
}
