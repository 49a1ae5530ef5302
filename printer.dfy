/** `SchemeType::print`: the external form of a value. The output stream of the
    source is modelled as the string that would be written to it. */
module Printer {
  import opened Values

  function DigitChar(d: nat): char
    requires d < 10
  {
    "0123456789"[d]
  }

  /** Decimal digits of a natural number, most significant first, as `os << num_` prints it. */
  function NatToString(n: nat): (s: string)
    ensures |s| >= 1
    ensures forall k :: 0 <= k < |s| ==> '0' <= s[k] <= '9'
  {
    if n < 10 then [DigitChar(n)] else NatToString(n / 10) + [DigitChar(n % 10)]
  }

  function IntToString(n: int): string
  {
    if n < 0 then "-" + NatToString(-n) else NatToString(n)
  }

  /** The printed form of a value: bare symbols, quoted strings (no escaping),
      decimal integers, `#t`/`#f`, `()`, and `(a b c)` or `(a b . c)` for pairs. */
  function Show(v: Value): string
    decreases v, 0
  {
    match v
    case Sym(x) => x
    case Str(s) => "\"" + s + "\""
    case Int(n) => IntToString(n)
    case Bool(b) => if b then "#t" else "#f"
    case Pair(_, a, d) => "(" + Show(a) + ShowTail(d) + ")"
    case Nil => "()"
    case Builtin(_) => "*BUILTIN*"
    case Closure(_) => "*CLOSURE*"
    case Err => "*ERROR*"
  }

  /** What follows the first element of a list: a space before each further
      element, and ` . tail` when the cdr chain ends in something other than `()`. */
  function ShowTail(d: Value): string
    decreases d, 1
  {
    match d
    case Pair(_, a, d') => " " + Show(a) + ShowTail(d')
    case Nil => ""
    case _ => " . " + Show(d)
  }

  /** `SchemeType::print` as the source writes it: the head of a pair, then a loop
      over the cdr chain, then the dotted tail if the chain does not end in `()`. */
  method Print(v: Value) returns (out: string)
    ensures out == Show(v)
    decreases VSize(v)
  {
    match v {
      case Pair(_, a, d) =>
        var head := Print(a);
        out := "(" + head;
        var rest := d;
        while rest.Pair?
          invariant out + ShowTail(rest) + ")" == Show(v)
          invariant VSize(rest) < VSize(v)
          decreases rest
        {
          var s := Print(rest.car);
          out := out + " " + s;
          rest := rest.cdr;
        }
        if !rest.Nil? {
          var s := Print(rest);
          out := out + " . " + s;
        }
        out := out + ")";
      case _ =>
        out := Show(v);
    }
  }
}
