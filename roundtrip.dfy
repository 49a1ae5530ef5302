/** Printing a value and reading the text back gives the value again (up to the
    identities of freshly built pairs), for the values whose printed form is
    unambiguous: non-negative integers, identifiers the tokenizer reads as one
    identifier, booleans, strings without `"` or `\`, and proper or dotted lists
    of those. */
module RoundTrip {
  import opened Common
  import opened Values
  import opened Printer
  import opened Lexer
  import opened Reader

  /** A symbol name that the tokenizer reads back as one identifier token. */
  predicate ValidId(x: string)
  {
    |x| > 0 && IsSchemeId(x[0]) && forall k :: 0 <= k < |x| ==> IsIdChar(x[k])
  }

  /** String contents that `readQuotedString_` reads back unchanged. */
  predicate PlainText(t: string)
  {
    forall k :: 0 <= k < |t| ==> t[k] != '"' && t[k] != '\\'
  }

  predicate Printable(v: Value)
  {
    match v
    case Int(n) => n >= 0
    case Sym(x) => ValidId(x)
    case Str(t) => PlainText(t)
    case Bool(_) => true
    case Nil => true
    case Pair(_, a, d) => Printable(a) && Printable(d)
    case _ => false
  }

  /** `w` occurs in `s` at position `i`. */
  predicate At(s: string, i: nat, w: string)
  {
    i + |w| <= |s| && s[i..i + |w|] == w
  }

  /** What may follow a printed atom inside a list or at the end of the input. */
  predicate Delimited(s: string, j: nat)
  {
    j == |s| || (j < |s| && (s[j] == ' ' || s[j] == ')'))
  }

  lemma AtSplit(s: string, i: nat, u: string, w: string)
    requires At(s, i, u + w)
    ensures At(s, i, u) && At(s, i + |u|, w)
  {
    assert s[i..i + |u|] == (u + w)[..|u|];
    assert s[i + |u|..i + |u| + |w|] == (u + w)[|u|..];
  }

  lemma AtChar(s: string, i: nat, w: string, k: nat)
    requires At(s, i, w) && k < |w|
    ensures s[i + k] == w[k]
  {
    assert s[i..i + |w|][k] == w[k];
  }

  lemma {:induction false} NatValue(n: nat)
    ensures DigitsValue(NatToString(n)) == n
  {
    var ds := NatToString(n);
    if n < 10 {
      assert ds[..0] == [];
      DigitValue(n);
    } else {
      var q, r := n / 10, n % 10;
      NatValue(q);
      assert ds[..|ds| - 1] == NatToString(q);
      assert ds[|ds| - 1] == DigitChar(r);
      DigitValue(r);
      assert DigitsValue(ds) == q * 10 + r;
    }
  }

  lemma DigitValue(d: nat)
    requires d < 10
    ensures DigitChar(d) as int - '0' as int == d
  {
  }

  lemma {:induction false} DigitsEndAt(s: string, i: nat, j: nat)
    requires i <= j <= |s|
    requires forall k :: i <= k < j ==> IsDigit(s[k])
    requires j == |s| || !IsDigit(s[j])
    ensures DigitsEnd(s, i) == j
    decreases j - i
  {
    if i < j {
      DigitsEndAt(s, i + 1, j);
    }
  }

  lemma {:induction false} IdEndAt(s: string, i: nat, j: nat)
    requires i <= j <= |s|
    requires forall k :: i <= k < j ==> IsIdChar(s[k])
    requires j == |s| || !IsIdChar(s[j])
    ensures IdEnd(s, i) == j
    decreases j - i
  {
    if i < j {
      IdEndAt(s, i + 1, j);
    }
  }

  lemma {:induction false} QuotedAt(s: string, j: nat, sofar: string, u: string)
    requires At(s, j, u + "\"") && PlainText(u)
    ensures ReadQuoted(s, j, sofar) == Quoted(sofar + u, j + |u| + 1)
    decreases |u|
  {
    AtChar(s, j, u + "\"", 0);
    if u != [] {
      assert (u + "\"")[1..] == u[1..] + "\"";
      assert s[j + 1..j + 1 + |u[1..] + "\""|] == s[j..j + |u + "\""|][1..];
      QuotedAt(s, j + 1, sofar + [u[0]], u[1..]);
      assert sofar + [u[0]] + u[1..] == sofar + u;
    }
  }

  lemma DigitsAt(s: string, i: nat, n: nat)
    requires At(s, i, NatToString(n)) && Delimited(s, i + |NatToString(n)|)
    ensures DigitsEnd(s, i) == i + |NatToString(n)|
  {
    var w := NatToString(n);
    var j := i + |w|;
    forall k | i <= k < j ensures IsDigit(s[k]) {
      AtChar(s, i, w, k - i);
    }
    DigitsEndAt(s, i, j);
  }

  lemma LexNat(s: string, i: nat, n: nat)
    requires At(s, i, NatToString(n)) && Delimited(s, i + |NatToString(n)|)
    ensures Lex(s, i) == Lexed(Num(n), i + |NatToString(n)|)
  {
    var j := i + |NatToString(n)|;
    DigitsAt(s, i, n);
    AtChar(s, i, NatToString(n), 0);
    LexDigits(s, i, j);
    NatAt(s, i, n);
  }

  lemma NatAt(s: string, i: nat, n: nat)
    requires At(s, i, NatToString(n))
    ensures var w := s[i..i + |NatToString(n)|];
      (forall k :: 0 <= k < |w| ==> IsDigit(w[k])) && DigitsValue(w) == n
  {
    NatValue(n);
  }

  /** A run of digits from `i` to `j` is one number token. */
  lemma LexDigits(s: string, i: nat, j: nat)
    requires i < j <= |s| && IsDigit(s[i]) && DigitsEnd(s, i) == j
    ensures Lex(s, i) == Lexed(Num(DigitsValue(s[i..j])), j)
  {
    var c := s[i];
    assert !IsSpace(c) && c != '#' && c != ';' && c != '"' && !IsSchemeId(c);
  }

  lemma LexSym(s: string, i: nat, x: string)
    requires ValidId(x) && At(s, i, x) && Delimited(s, i + |x|)
    ensures Lex(s, i) == Lexed(Ident(x), i + |x|)
  {
    var j := i + |x|;
    AtChar(s, i, x, 0);
    forall k | i + 1 <= k < j ensures IsIdChar(s[k]) {
      AtChar(s, i, x, k - i);
    }
    IdEndAt(s, i + 1, j);
  }

  lemma LexStr(s: string, i: nat, t: string)
    requires PlainText(t) && At(s, i, "\"" + t + "\"")
    ensures Lex(s, i) == Lexed(Text(t), i + |t| + 2)
  {
    assert "\"" + t + "\"" == "\"" + (t + "\"");
    AtSplit(s, i, "\"", t + "\"");
    AtChar(s, i, "\"", 0);
    QuotedAt(s, i + 1, "", t);
    assert "" + t == t;
  }

  lemma LexBool(s: string, i: nat, b: bool)
    requires At(s, i, if b then "#t" else "#f")
    ensures Lex(s, i) == Lexed(Boolean(b), i + 2)
  {
    AtChar(s, i, if b then "#t" else "#f", 0);
    AtChar(s, i, if b then "#t" else "#f", 1);
  }

  /** The printed form of a printable atom is lexed back as the token it came from. */
  lemma LexAtom(s: string, i: nat, v: Value)
    requires Printable(v) && !v.Pair? && !v.Nil?
    requires At(s, i, Show(v)) && Delimited(s, i + |Show(v)|)
    ensures Lex(s, i) == Lexed(AtomToken(v), i + |Show(v)|)
  {
    match v
    case Int(n) => LexNat(s, i, n);
    case Sym(x) => LexSym(s, i, x);
    case Str(t) => LexStr(s, i, t);
    case Bool(b) => LexBool(s, i, b);
  }

  /** The token that a printable atom is printed as. */
  function AtomToken(v: Value): Token
  {
    match v
    case Int(n) => Num(n)
    case Sym(x) => Ident(x)
    case Str(t) => Text(t)
    case Bool(b) => Boolean(b)
    case _ => Error
  }

  /** A blank before a token is skipped. */
  lemma SkipBlank(s: string, i: nat)
    requires i < |s| && IsSpace(s[i])
    ensures NextToken(s, Cursor(i, [])) == NextToken(s, Cursor(i + 1, []))
  {
  }

  lemma ListSkipBlank(s: string, i: nat, ids: nat)
    requires i < |s| && IsSpace(s[i])
    ensures ParseList(s, Cursor(i, []), ids, true) == ParseList(s, Cursor(i + 1, []), ids, true)
  {
    SkipBlank(s, i);
    ListSameToken(s, Cursor(i, []), Cursor(i + 1, []), ids, true);
  }

  /** The reader's view of a list depends only on the next token and where it leaves the stream. */
  lemma ListSameToken(s: string, c: Cursor, c': Cursor, ids: nat, allowDot: bool)
    requires c.pos <= |s| && c'.pos <= |s| && NextToken(s, c) == NextToken(s, c')
    ensures ParseList(s, c, ids, allowDot) == ParseList(s, c', ids, allowDot)
  {
  }

  // One step of the reader, given the token that comes next.

  lemma SexpAtom(s: string, c: Cursor, v: Value, c': Cursor, ids: nat)
    requires c.pos <= |s| && (v.Int? || v.Sym? || v.Str? || v.Bool?)
    requires NextToken(s, c) == Step(AtomToken(v), c')
    ensures ParseSexp(s, c, ids) == Parsed(Ok(v), c', ids)
  {
  }

  lemma SexpOpen(s: string, c: Cursor, c': Cursor, ids: nat)
    requires c.pos <= |s| && NextToken(s, c) == Step(OpenParen, c')
    ensures ParseSexp(s, c, ids) == ParseList(s, c', ids, false)
  {
  }

  lemma ListClose(s: string, c: Cursor, c': Cursor, ids: nat, allowDot: bool)
    requires c.pos <= |s| && NextToken(s, c) == Step(CloseParen, c')
    ensures ParseList(s, c, ids, allowDot) == Parsed(Ok(Nil), c', ids)
  {
  }

  lemma ListOpen(s: string, c: Cursor, c': Cursor, ids: nat, allowDot: bool)
    requires c.pos <= |s| && NextToken(s, c) == Step(OpenParen, c')
    ensures var a := ParseList(s, c', ids, false);
      a.res.Ok? ==>
        var d := ParseList(s, a.cur, a.ids, true);
        d.res.Ok? ==>
          ParseList(s, c, ids, allowDot) == Parsed(Ok(Pair(d.ids, a.res.value, d.res.value)), d.cur, d.ids + 1)
  {
  }

  lemma ListAtom(s: string, c: Cursor, t: Token, c': Cursor, ids: nat, allowDot: bool)
    requires c.pos <= |s| && NextToken(s, c) == Step(t, c')
    requires t.Num? || t.Ident? || t.Text? || t.Boolean?
    ensures var a := ParseSexp(s, PushBack(c', t), ids);
      a.res.Ok? ==>
        var d := ParseList(s, a.cur, a.ids, true);
        d.res.Ok? ==>
          ParseList(s, c, ids, allowDot) == Parsed(Ok(Pair(d.ids, a.res.value, d.res.value)), d.cur, d.ids + 1)
  {
  }

  lemma ListDot(s: string, c: Cursor, c': Cursor, ids: nat)
    requires c.pos <= |s| && NextToken(s, c) == Step(Dot, c')
    ensures var p := ParseSexp(s, c', ids);
      p.res.Ok? ==>
        var cp := NextToken(s, p.cur);
        cp.tok == CloseParen ==> ParseList(s, c, ids, true) == Parsed(p.res, cp.cur, p.ids)
  {
  }

  /** The first token of a printed value: an atom's own token, or `(`. */
  lemma FirstToken(s: string, i: nat, v: Value)
    requires Printable(v) && At(s, i, Show(v)) && Delimited(s, i + |Show(v)|)
    ensures v.Pair? || v.Nil? ==> NextToken(s, Cursor(i, [])) == Step(OpenParen, Cursor(i + 1, []))
    ensures !v.Pair? && !v.Nil? ==> NextToken(s, Cursor(i, [])) == Step(AtomToken(v), Cursor(i + |Show(v)|, []))
  {
    if v.Pair? || v.Nil? {
      AtChar(s, i, Show(v), 0);
    } else {
      LexAtom(s, i, v);
    }
  }

  /** The printed form of a printable value is read back as a similar value, and
      exactly its characters are consumed. */
  lemma {:induction false} ParseShow(s: string, i: nat, v: Value, ids: nat)
    requires Printable(v) && At(s, i, Show(v)) && Delimited(s, i + |Show(v)|)
    ensures var p := ParseSexp(s, Cursor(i, []), ids);
      p.res.Ok? && Similar(p.res.value, v) && p.cur == Cursor(i + |Show(v)|, [])
    decreases VSize(v), 1
  {
    FirstToken(s, i, v);
    if v.Pair? {
      ParseShowPair(s, i, v, ids);
    } else if v.Nil? {
      AtChar(s, i, Show(v), 1);
      CloseAt(s, i + 1);
      EmptyListRead(s, i, ids);
    } else {
      SexpAtom(s, Cursor(i, []), v, Cursor(i + |Show(v)|, []), ids);
    }
  }

  lemma EmptyListRead(s: string, i: nat, ids: nat)
    requires i + 1 <= |s|
    requires NextToken(s, Cursor(i, [])) == Step(OpenParen, Cursor(i + 1, []))
    requires NextToken(s, Cursor(i + 1, [])) == Step(CloseParen, Cursor(i + 2, []))
    ensures ParseSexp(s, Cursor(i, []), ids) == Parsed(Ok(Nil), Cursor(i + 2, []), ids)
  {
    SexpOpen(s, Cursor(i, []), Cursor(i + 1, []), ids);
    ListClose(s, Cursor(i + 1, []), Cursor(i + 2, []), ids, false);
  }

  lemma {:induction false} ParseShowPair(s: string, i: nat, v: Value, ids: nat)
    requires v.Pair? && Printable(v) && At(s, i, Show(v)) && Delimited(s, i + |Show(v)|)
    ensures var p := ParseSexp(s, Cursor(i, []), ids);
      p.res.Ok? && Similar(p.res.value, v) && p.cur == Cursor(i + |Show(v)|, [])
    decreases VSize(v), 0
  {
    FirstToken(s, i, v);
    PairLayout(s, i, v);
    ParseElems(s, i + 1, v.car, v.cdr, ids, false);
    PairCombine(s, i, v, ids, i + |Show(v)|);
  }

  lemma PairLayout(s: string, i: nat, v: Value)
    requires v.Pair? && At(s, i, Show(v))
    ensures At(s, i + 1, Show(v.car) + ShowTail(v.cdr) + ")")
    ensures |Show(v)| == |Show(v.car)| + |ShowTail(v.cdr)| + 2
  {
    var w := Show(v.car) + ShowTail(v.cdr) + ")";
    Regroup("(", Show(v.car), ShowTail(v.cdr), ")");
    assert Show(v) == "(" + w;
    AtSplit(s, i, "(", w);
  }

  lemma Regroup(x: string, y: string, z: string, u: string)
    ensures x + y + z + u == x + (y + z + u)
  {
  }

  /** `(` followed by the elements of `v` read as a pair similar to `v`. */
  lemma PairCombine(s: string, i: nat, v: Value, ids: nat, k: nat)
    requires v.Pair? && i < |s|
    requires NextToken(s, Cursor(i, [])) == Step(OpenParen, Cursor(i + 1, []))
    requires var p := ParseList(s, Cursor(i + 1, []), ids, false);
      p.res.Ok? && p.res.value.Pair? && Similar(p.res.value.car, v.car) && Similar(p.res.value.cdr, v.cdr)
      && p.cur == Cursor(k, [])
    ensures var p := ParseSexp(s, Cursor(i, []), ids);
      p.res.Ok? && Similar(p.res.value, v) && p.cur == Cursor(k, [])
  {
    SexpOpen(s, Cursor(i, []), Cursor(i + 1, []), ids);
  }

  /** After the `(` of a list, or after an element and its blank: the element
      `a`, then the tail `d`, then `)`. */
  lemma {:induction false} ParseElems(s: string, i: nat, a: Value, d: Value, ids: nat, allowDot: bool)
    requires Printable(a) && Printable(d) && At(s, i, Show(a) + ShowTail(d) + ")")
    ensures var p := ParseList(s, Cursor(i, []), ids, allowDot);
      p.res.Ok? && p.res.value.Pair? && Similar(p.res.value.car, a) && Similar(p.res.value.cdr, d)
      && p.cur == Cursor(i + |Show(a)| + |ShowTail(d)| + 1, [])
    decreases VSize(a) + VSize(d), 2
  {
    var j := i + |Show(a)|;
    ElemsLayout(s, i, a, d);
    FirstToken(s, i, a);
    ParseShow(s, i, a, ids);
    var h := ParseSexp(s, Cursor(i, []), ids);
    ParseTail(s, j, d, h.ids);
    ElemsCombine(s, i, a, d, ids, allowDot, j, j + |ShowTail(d)| + 1);
  }

  /** An element read from `i` to `j`, then the rest of the list read from `j`
      to `k`, make the list read from `i` to `k`. */
  lemma ElemsCombine(s: string, i: nat, a: Value, d: Value, ids: nat, allowDot: bool, j: nat, k: nat)
    requires i <= j <= |s|
    requires var h := ParseSexp(s, Cursor(i, []), ids);
      h.res.Ok? && Similar(h.res.value, a) && h.cur == Cursor(j, []) &&
      var t := ParseList(s, Cursor(j, []), h.ids, true);
      t.res.Ok? && Similar(t.res.value, d) && t.cur == Cursor(k, [])
    requires a.Pair? || a.Nil? ==> NextToken(s, Cursor(i, [])) == Step(OpenParen, Cursor(i + 1, []))
    requires !a.Pair? && !a.Nil? ==>
      (a.Int? || a.Sym? || a.Str? || a.Bool?) && NextToken(s, Cursor(i, [])) == Step(AtomToken(a), Cursor(j, []))
    ensures var p := ParseList(s, Cursor(i, []), ids, allowDot);
      p.res.Ok? && p.res.value.Pair? && Similar(p.res.value.car, a) && Similar(p.res.value.cdr, d)
      && p.cur == Cursor(k, [])
  {
    if a.Pair? || a.Nil? {
      ElemOpen(s, i, ids, allowDot);
    } else {
      ElemAtom(s, i, a, j, ids, allowDot);
    }
  }

  lemma ElemsLayout(s: string, i: nat, a: Value, d: Value)
    requires At(s, i, Show(a) + ShowTail(d) + ")")
    ensures At(s, i, Show(a)) && At(s, i + |Show(a)|, ShowTail(d) + ")") && Delimited(s, i + |Show(a)|)
  {
    Assoc(Show(a), ShowTail(d), ")");
    TailStart(d);
    SplitBeforeDelimiter(s, i, Show(a), ShowTail(d) + ")");
  }

  lemma Assoc(x: string, y: string, z: string)
    ensures x + y + z == x + (y + z)
  {
  }

  lemma SplitBeforeDelimiter(s: string, i: nat, u: string, t: string)
    requires At(s, i, u + t) && |t| > 0 && (t[0] == ' ' || t[0] == ')')
    ensures At(s, i, u) && At(s, i + |u|, t) && Delimited(s, i + |u|)
  {
    AtSplit(s, i, u, t);
    AtChar(s, i + |u|, t, 0);
  }

  /** The printed tail of a list and its `)` start with a blank or with the `)`. */
  lemma TailStart(d: Value)
    ensures var t := ShowTail(d) + ")"; t[0] == ' ' || t[0] == ')'
  {
    if !d.Nil? {
      assert ShowTail(d)[0] == ' ';
    }
  }

  /** A list element that starts with `(`, then the rest of the list. */
  lemma ElemOpen(s: string, i: nat, ids: nat, allowDot: bool)
    requires i <= |s| && NextToken(s, Cursor(i, [])) == Step(OpenParen, Cursor(i + 1, []))
    ensures var h := ParseSexp(s, Cursor(i, []), ids);
      h.res.Ok? ==>
        var t := ParseList(s, h.cur, h.ids, true);
        t.res.Ok? ==> ParseList(s, Cursor(i, []), ids, allowDot) == Parsed(Ok(Pair(t.ids, h.res.value, t.res.value)), t.cur, t.ids + 1)
  {
    SexpOpen(s, Cursor(i, []), Cursor(i + 1, []), ids);
    ListOpen(s, Cursor(i, []), Cursor(i + 1, []), ids, allowDot);
  }

  /** A list element that is an atom, then the rest of the list. */
  lemma ElemAtom(s: string, i: nat, a: Value, j: nat, ids: nat, allowDot: bool)
    requires i <= j <= |s| && (a.Int? || a.Sym? || a.Str? || a.Bool?)
    requires NextToken(s, Cursor(i, [])) == Step(AtomToken(a), Cursor(j, []))
    ensures var h := ParseSexp(s, Cursor(i, []), ids);
      h.res == Ok(a) && h.cur == Cursor(j, []) && h.ids == ids &&
      var t := ParseList(s, Cursor(j, []), ids, true);
      t.res.Ok? ==> ParseList(s, Cursor(i, []), ids, allowDot) == Parsed(Ok(Pair(t.ids, a, t.res.value)), t.cur, t.ids + 1)
  {
    SexpAtom(s, Cursor(i, []), a, Cursor(j, []), ids);
    ListAtom(s, Cursor(i, []), AtomToken(a), Cursor(j, []), ids, allowDot);
    NextAfterUnget(s, Cursor(j, []), AtomToken(a));
    SexpAtom(s, PushBack(Cursor(j, []), AtomToken(a)), a, Cursor(j, []), ids);
  }

  /** The tail of a list as `ShowTail` prints it, then `)`. */
  lemma {:induction false} ParseTail(s: string, i: nat, d: Value, ids: nat)
    requires Printable(d) && At(s, i, ShowTail(d) + ")")
    ensures var p := ParseList(s, Cursor(i, []), ids, true);
      p.res.Ok? && Similar(p.res.value, d) && p.cur == Cursor(i + |ShowTail(d)| + 1, [])
    decreases VSize(d), 1
  {
    if d.Nil? {
      AtChar(s, i, ShowTail(d) + ")", 0);
      CloseAt(s, i);
      ListClose(s, Cursor(i, []), Cursor(i + 1, []), ids, true);
    } else if d.Pair? {
      ParseTailPair(s, i, d, ids);
    } else {
      assert ShowTail(d) + ")" == " . " + Show(d) + ")";
      ParseDotted(s, i, d, ids);
    }
  }

  /** A further element: ` a` and the rest of the tail. */
  lemma {:induction false} ParseTailPair(s: string, i: nat, d: Value, ids: nat)
    requires d.Pair? && Printable(d) && At(s, i, ShowTail(d) + ")")
    ensures var p := ParseList(s, Cursor(i, []), ids, true);
      p.res.Ok? && Similar(p.res.value, d) && p.cur == Cursor(i + |ShowTail(d)| + 1, [])
    decreases VSize(d), 0
  {
    TailPairLayout(s, i, d);
    ListSkipBlank(s, i, ids);
    ParseElems(s, i + 1, d.car, d.cdr, ids, true);
  }

  lemma TailPairLayout(s: string, i: nat, d: Value)
    requires d.Pair? && At(s, i, ShowTail(d) + ")")
    ensures i < |s| && s[i] == ' ' && At(s, i + 1, Show(d.car) + ShowTail(d.cdr) + ")")
    ensures |ShowTail(d)| == 1 + |Show(d.car)| + |ShowTail(d.cdr)|
  {
    var w := Show(d.car) + ShowTail(d.cdr) + ")";
    assert ShowTail(d) == " " + Show(d.car) + ShowTail(d.cdr);
    Regroup(" ", Show(d.car), ShowTail(d.cdr), ")");
    AtSplit(s, i, " ", w);
    AtChar(s, i, " ", 0);
  }

  /** A dotted tail ` . x)`. */
  lemma {:induction false} ParseDotted(s: string, i: nat, d: Value, ids: nat)
    requires Printable(d) && !d.Nil? && !d.Pair? && At(s, i, " . " + Show(d) + ")")
    ensures var p := ParseList(s, Cursor(i, []), ids, true);
      p.res.Ok? && p.res.value == d && p.cur == Cursor(i + |Show(d)| + 4, [])
  {
    var w := Show(d);
    DottedLayout(s, i, w);
    FirstToken(s, i + 3, d);
    DottedCombine(s, i, d, ids, i + 3 + |w|);
  }

  /** ` . `, an atom ending at `j`, then `)`: the dotted tail is that atom. */
  lemma DottedCombine(s: string, i: nat, d: Value, ids: nat, j: nat)
    requires (d.Int? || d.Sym? || d.Str? || d.Bool?) && i + 3 <= j < |s|
    requires s[i] == ' ' && s[i + 1] == '.' && s[i + 2] == ' ' && s[j] == ')'
    requires NextToken(s, Cursor(i + 3, [])) == Step(AtomToken(d), Cursor(j, []))
    ensures var p := ParseList(s, Cursor(i, []), ids, true);
      p.res.Ok? && p.res.value == d && p.cur == Cursor(j + 1, [])
  {
    SkipBlank(s, i);
    assert NextToken(s, Cursor(i + 1, [])) == Step(Dot, Cursor(i + 2, []));
    SkipBlank(s, i + 2);
    SexpAtom(s, Cursor(i + 2, []), d, Cursor(j, []), ids);
    CloseAt(s, j);
    ListDot(s, Cursor(i, []), Cursor(i + 2, []), ids);
  }

  lemma DottedLayout(s: string, i: nat, w: string)
    requires At(s, i, " . " + w + ")")
    ensures At(s, i + 3, w) && i + 3 + |w| < |s|
    ensures s[i] == ' ' && s[i + 1] == '.' && s[i + 2] == ' ' && s[i + 3 + |w|] == ')'
  {
    assert " . " + w + ")" == " . " + (w + ")");
    AtSplit(s, i, " . ", w + ")");
    AtChar(s, i, " . ", 0);
    AtChar(s, i, " . ", 1);
    AtChar(s, i, " . ", 2);
    AtSplit(s, i + 3, w, ")");
    AtChar(s, i + 3 + |w|, ")", 0);
  }

  lemma CloseAt(s: string, j: nat)
    requires j < |s| && s[j] == ')'
    ensures NextToken(s, Cursor(j, [])) == Step(CloseParen, Cursor(j + 1, []))
  {
  }

  /** Print, then read: the value comes back (with fresh pair identities) and the
      whole text is consumed. */
  lemma ReadPrinted(v: Value, ids: nat)
    requires Printable(v)
    ensures var p := ParseSexp(Show(v), Cursor(0, []), ids);
      p.res.Ok? && Similar(p.res.value, v) && p.cur == Cursor(|Show(v)|, [])
  {
    assert Show(v)[0..0 + |Show(v)|] == Show(v);
    ParseShow(Show(v), 0, v, ids);
  }

  /** `'x` reads as `(quote x)`: the quote mark wraps the datum printed after it. */
  lemma ReadQuotedPrinted(v: Value, ids: nat)
    requires Printable(v)
    ensures var p := ParseSexp("'" + Show(v), Cursor(0, []), ids);
      p.res.Ok? && p.res.value.Pair? && p.res.value.car == Sym("quote") &&
      p.res.value.cdr.Pair? && Similar(p.res.value.cdr.car, v) && p.res.value.cdr.cdr == Nil &&
      p.cur == Cursor(1 + |Show(v)|, [])
  {
    var s := "'" + Show(v);
    assert s[1..1 + |Show(v)|] == Show(v);
    ParseShow(s, 1, v, ids);
    QuoteAt(s);
    QuoteCombine(s, v, ids, 1 + |Show(v)|);
  }

  lemma QuoteAt(s: string)
    requires |s| > 0 && s[0] == '\''
    ensures NextToken(s, Cursor(0, [])) == Step(QuoteMark, Cursor(1, []))
  {
  }

  lemma QuoteCombine(s: string, v: Value, ids: nat, k: nat)
    requires |s| > 0 && NextToken(s, Cursor(0, [])) == Step(QuoteMark, Cursor(1, []))
    requires var p := ParseSexp(s, Cursor(1, []), ids);
      p.res.Ok? && Similar(p.res.value, v) && p.cur == Cursor(k, [])
    ensures var p := ParseSexp(s, Cursor(0, []), ids);
      p.res.Ok? && p.res.value.Pair? && p.res.value.car == Sym("quote") &&
      p.res.value.cdr.Pair? && Similar(p.res.value.cdr.car, v) && p.res.value.cdr.cdr == Nil &&
      p.cur == Cursor(k, [])
  {
  }

  /** A `)` where a datum should start reads as the ERR value. */
  lemma StrayCloseIsErr(s: string, i: nat, ids: nat)
    requires i < |s| && s[i] == ')'
    ensures ParseSexp(s, Cursor(i, []), ids) == Parsed(Ok(Err), Cursor(i + 1, []), ids)
  {
    CloseAt(s, i);
  }

  /** A dot directly after `(` fails the `allowDot` assertion. */
  lemma DotAfterOpenRejected(s: string, i: nat, ids: nat)
    requires i + 1 < |s| && s[i] == '(' && s[i + 1] == '.'
    ensures ParseSexp(s, Cursor(i, []), ids).res == Abort(AssertionFailure)
  {
    assert NextToken(s, Cursor(i, [])) == Step(OpenParen, Cursor(i + 1, []));
    assert NextToken(s, Cursor(i + 1, [])) == Step(Dot, Cursor(i + 2, []));
  }

  lemma ListAtomFails(s: string, c: Cursor, t: Token, c': Cursor, ids: nat, allowDot: bool)
    requires c.pos <= |s| && NextToken(s, c) == Step(t, c')
    requires t.Num? || t.Ident? || t.Text? || t.Boolean?
    requires var a := ParseSexp(s, PushBack(c', t), ids);
      a.res.Ok? && ParseList(s, a.cur, a.ids, true).res.Abort?
    ensures var a := ParseSexp(s, PushBack(c', t), ids);
      ParseList(s, c, ids, allowDot).res == ParseList(s, a.cur, a.ids, true).res
  {
  }

  lemma DotWithoutClose(s: string, c: Cursor, c': Cursor, ids: nat)
    requires c.pos <= |s| && NextToken(s, c) == Step(Dot, c')
    requires var p := ParseSexp(s, c', ids); p.res.Ok? && NextToken(s, p.cur).tok != CloseParen
    ensures ParseList(s, c, ids, true).res == Abort(AssertionFailure)
  {
  }

  /** The tokens of `(a . b c)`. */
  lemma DottedExtraTokens(s: string)
    requires s == "(a . b c)"
    ensures NextToken(s, Cursor(0, [])) == Step(OpenParen, Cursor(1, []))
    ensures NextToken(s, Cursor(1, [])) == Step(Ident("a"), Cursor(2, []))
    ensures NextToken(s, Cursor(2, [])) == Step(Dot, Cursor(4, []))
    ensures NextToken(s, Cursor(4, [])) == Step(Ident("b"), Cursor(6, []))
    ensures NextToken(s, Cursor(6, [])) == Step(Ident("c"), Cursor(8, []))
  {
    OneLetterId(s, 1);
    SkipBlank(s, 2);
    SkipBlank(s, 4);
    OneLetterId(s, 5);
    SkipBlank(s, 6);
    OneLetterId(s, 7);
  }

  /** A letter followed by a delimiter is a one-letter identifier. */
  lemma OneLetterId(s: string, i: nat)
    requires i + 1 < |s| && IsAlpha(s[i]) && (s[i + 1] == ' ' || s[i + 1] == ')')
    ensures NextToken(s, Cursor(i, [])) == Step(Ident([s[i]]), Cursor(i + 1, []))
  {
    assert IdEnd(s, i + 1) == i + 1;
    assert s[i..i + 1] == [s[i]];
  }

  /** After `. x` only `)` may follow: in `(a . b c)` the `c` fails the closing assertion. */
  lemma SecondDatumAfterDotRejected(ids: nat)
    ensures ParseSexp("(a . b c)", Cursor(0, []), ids).res == Abort(AssertionFailure)
  {
    var s := "(a . b c)";
    DottedExtraTokens(s);
    NextAfterUnget(s, Cursor(2, []), Ident("a"));
    SexpAtom(s, Cursor(2, [Ident("a")]), Sym("a"), Cursor(2, []), ids);
    SexpAtom(s, Cursor(4, []), Sym("b"), Cursor(6, []), ids);
    DotWithoutClose(s, Cursor(2, []), Cursor(4, []), ids);
    ListAtomFails(s, Cursor(1, []), Ident("a"), Cursor(2, []), ids, false);
    SexpOpen(s, Cursor(0, []), Cursor(1, []), ids);
  }
}
