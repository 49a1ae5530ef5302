/** The recursive-descent reader (`SchemeParser::readSexp`, `readSexpList`).
    Every pair the reader builds is a fresh node: `ids` is the next unused identity. */
module Reader {
  import opened Common
  import opened Values
  import opened Lexer

  datatype Parsed = Parsed(res: Result<Value>, cur: Cursor, ids: nat)

  /** `readSexp`: one datum. An ERR token, and a `)` or `.` where a datum should
      start, give the ERR value; `'x` gives `(quote x)`. */
  function ParseSexp(s: string, c: Cursor, ids: nat): (p: Parsed)
    requires c.pos <= |s|
    ensures p.cur.pos <= |s| && Measure(s, p.cur) <= Measure(s, c)
    ensures c.ungets != [] ==> Measure(s, p.cur) < Measure(s, c)
    ensures ids <= p.ids
    decreases Measure(s, c), 0
  {
    var st := NextToken(s, c);
    match st.tok
    case Error => Parsed(Ok(Err), st.cur, ids)
    case Num(n) => Parsed(Ok(Int(n)), st.cur, ids)
    case Ident(x) => Parsed(Ok(Sym(x)), st.cur, ids)
    case Text(t) => Parsed(Ok(Str(t)), st.cur, ids)
    case Boolean(b) => Parsed(Ok(Bool(b)), st.cur, ids)
    case OpenParen => ParseList(s, st.cur, ids, false)
    case QuoteMark =>
      var p := ParseSexp(s, st.cur, ids);
      if p.res.Abort? then p
      else Parsed(Ok(Pair(p.ids + 1, Sym("quote"), Pair(p.ids, p.res.value, Nil))), p.cur, p.ids + 2)
    case CloseParen => Parsed(Ok(Err), st.cur, ids)
    case Dot => Parsed(Ok(Err), st.cur, ids)
  }

  /** `readSexpList`: the rest of a list after `(` or after an element. `)` ends
      it with `()`; `. x )` ends it with the tail `x`, and only after an element
      (`allowDot`); an ERR token ends it with the ERR value as its tail. */
  function ParseList(s: string, c: Cursor, ids: nat, allowDot: bool): (p: Parsed)
    requires c.pos <= |s|
    ensures p.cur.pos <= |s| && Measure(s, p.cur) <= Measure(s, c)
    ensures ids <= p.ids
    decreases Measure(s, c), 1
  {
    var st := NextToken(s, c);
    match st.tok
    case Dot =>
      if !allowDot then Parsed(Abort(AssertionFailure), st.cur, ids)
      else CloseDotted(s, ParseSexp(s, st.cur, ids))
    case CloseParen => Parsed(Ok(Nil), st.cur, ids)
    case OpenParen => ListRest(s, ParseList(s, st.cur, ids, false))
    case Error => Parsed(Ok(Err), st.cur, ids)
    case _ => ListRest(s, ParseSexp(s, PushBack(st.cur, st.tok), ids))
  }

  /** After the datum of a dotted tail: the `)` that must follow it. */
  function CloseDotted(s: string, p: Parsed): (r: Parsed)
    requires p.cur.pos <= |s|
    ensures r.cur.pos <= |s| && Measure(s, r.cur) <= Measure(s, p.cur) && p.ids <= r.ids
  {
    if p.res.Abort? then p
    else
      var cp := NextToken(s, p.cur);
      if cp.tok != CloseParen then Parsed(Abort(AssertionFailure), cp.cur, p.ids)
      else Parsed(p.res, cp.cur, p.ids)
  }

  /** After the first element `a` of a list: the rest of the list, and the pair
      of the two (the first element's failure is the list's). */
  function ListRest(s: string, a: Parsed): (r: Parsed)
    requires a.cur.pos <= |s|
    ensures r.cur.pos <= |s| && Measure(s, r.cur) <= Measure(s, a.cur) && a.ids <= r.ids
    decreases Measure(s, a.cur), 2
  {
    if a.res.Abort? then a
    else
      var d := ParseList(s, a.cur, a.ids, true);
      if d.res.Abort? then d
      else Parsed(Ok(Pair(d.ids, a.res.value, d.res.value)), d.cur, d.ids + 1)
  }

  /** The pairs of a datum read from the identity `ids` on are exactly new ones:
      their identities lie in `[ids, p.ids)`. */
  lemma {:induction false} ParseSexpIds(s: string, c: Cursor, ids: nat)
    requires c.pos <= |s|
    ensures var p := ParseSexp(s, c, ids); p.res.Ok? ==> IdsIn(p.res.value, ids, p.ids)
    decreases Measure(s, c), 0
  {
    var st := NextToken(s, c);
    match st.tok
    case OpenParen => ParseListIds(s, st.cur, ids, false);
    case QuoteMark =>
      ParseSexpIds(s, st.cur, ids);
      var p := ParseSexp(s, st.cur, ids);
      if p.res.Ok? {
        IdsWiden(p.res.value, ids, p.ids, ids, p.ids + 2);
      }
    case _ =>
  }

  lemma {:induction false} ParseListIds(s: string, c: Cursor, ids: nat, allowDot: bool)
    requires c.pos <= |s|
    ensures var p := ParseList(s, c, ids, allowDot); p.res.Ok? ==> IdsIn(p.res.value, ids, p.ids)
    decreases Measure(s, c), 1
  {
    var st := NextToken(s, c);
    match st.tok
    case Dot => if allowDot { ParseSexpIds(s, st.cur, ids); }
    case CloseParen =>
    case OpenParen =>
      ParseListIds(s, st.cur, ids, false);
      ListRestIds(s, ParseList(s, st.cur, ids, false), ids);
    case Error =>
    case _ =>
      ParseSexpIds(s, PushBack(st.cur, st.tok), ids);
      ListRestIds(s, ParseSexp(s, PushBack(st.cur, st.tok), ids), ids);
  }

  lemma {:induction false} ListRestIds(s: string, a: Parsed, lo: nat)
    requires a.cur.pos <= |s| && lo <= a.ids
    requires a.res.Ok? ==> IdsIn(a.res.value, lo, a.ids)
    ensures var r := ListRest(s, a); r.res.Ok? ==> IdsIn(r.res.value, lo, r.ids)
    decreases Measure(s, a.cur), 2
  {
    if a.res.Ok? {
      ParseListIds(s, a.cur, a.ids, true);
      var d := ParseList(s, a.cur, a.ids, true);
      if d.res.Ok? {
        IdsWiden(a.res.value, lo, a.ids, lo, d.ids + 1);
        IdsWiden(d.res.value, a.ids, d.ids, lo, d.ids + 1);
      }
    }
  }

  class Parser {
    const tokens: Tokenizer
    var ids: nat

    ghost predicate Valid()
      reads this, tokens
    {
      tokens.Valid()
    }

    constructor (t: Tokenizer, ids: nat)
      requires t.Valid()
      ensures Valid() && tokens == t && this.ids == ids
    {
      tokens := t;
      this.ids := ids;
    }

    method ReadSexp() returns (r: Result<Value>)
      requires Valid()
      modifies this, tokens
      ensures Valid()
      ensures Parsed(r, tokens.State(), ids) == ParseSexp(tokens.input, old(tokens.State()), old(ids))
      decreases Measure(tokens.input, tokens.State()), 0
    {
      var tok := tokens.Next();
      if tok == Error {
        r := Ok(Err);
      } else if tok.Num? {
        r := Ok(Int(tok.n));
      } else if tok.Ident? {
        r := Ok(Sym(tok.name));
      } else if tok.Text? {
        r := Ok(Str(tok.text));
      } else if tok.Boolean? {
        r := Ok(Bool(tok.b));
      } else if tok == OpenParen {
        r := ReadSexpList(false);
      } else if tok == QuoteMark {
        var x := ReadSexp();
        if x.Abort? {
          return x;
        }
        var inner := Pair(ids, x.value, Nil);
        r := Ok(Pair(ids + 1, Sym("quote"), inner));
        ids := ids + 2;
      } else {
        r := Ok(Err);
      }
    }

    method ReadSexpList(allowDot: bool) returns (r: Result<Value>)
      requires Valid()
      modifies this, tokens
      ensures Valid()
      ensures Parsed(r, tokens.State(), ids) == ParseList(tokens.input, old(tokens.State()), old(ids), allowDot)
      decreases Measure(tokens.input, tokens.State()), 1
    {
      var tok := tokens.Next();
      if tok == Dot {
        if !allowDot {
          return Abort(AssertionFailure);
        }
        r := ReadDottedTail();
      } else if tok == CloseParen {
        r := Ok(Nil);
      } else if tok == OpenParen {
        var sCar := ReadSexpList(false);
        if sCar.Abort? {
          return sCar;
        }
        r := ReadListRest(sCar.value);
      } else if tok.Num? || tok.Boolean? || tok.Ident? || tok.Text? || tok == QuoteMark {
        tokens.Unget(tok);
        var sexpForTok := ReadSexp();
        if sexpForTok.Abort? {
          return sexpForTok;
        }
        r := ReadListRest(sexpForTok.value);
      } else {
        r := Ok(Err);
      }
    }

    /** The datum after `.` and the `)` that must follow it. */
    method ReadDottedTail() returns (r: Result<Value>)
      requires Valid()
      modifies this, tokens
      ensures Valid()
      ensures Parsed(r, tokens.State(), ids) == CloseDotted(tokens.input, ParseSexp(tokens.input, old(tokens.State()), old(ids)))
      decreases Measure(tokens.input, tokens.State()), 2
    {
      r := ReadSexp();
      if r.Abort? {
        return;
      }
      var cp := tokens.Next();
      if cp != CloseParen {
        return Abort(AssertionFailure);
      }
    }

    /** The rest of a list after its first element `car`, and the pair they make. */
    method ReadListRest(car: Value) returns (r: Result<Value>)
      requires Valid()
      modifies this, tokens
      ensures Valid()
      ensures Parsed(r, tokens.State(), ids) == ListRest(tokens.input, Parsed(Ok(car), old(tokens.State()), old(ids)))
      decreases Measure(tokens.input, tokens.State()), 2
    {
      var rest := ReadSexpList(true);
      if rest.Abort? {
        return rest;
      }
      r := Ok(Pair(ids, car, rest.value));
      ids := ids + 1;
    }
  }
}
