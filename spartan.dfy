/** Operator and variable labels of the Spartan surface language: the keyword parser,
    the symbolic printer, keyword matching, and fresh-variable generation. */
module Spartan {
  import opened Common

  /** Rust's `usize` on a 64-bit target. */
  const USIZE_LIMIT: nat := 0x1_0000_0000_0000_0000

  type Usize = n: nat | n < USIZE_LIMIT

  datatype Op =
    | Plus | Minus | Times | Div | Rem
    | And | Or | Not | If
    | Eq | Neq | Lt | Leq | Gt | Geq
    | App | Lambda | Atom | Deref | Assign | Tuple | Detuple
    | Bool(b: bool)
    | Number(n: Usize)

  /** The operators named by a fixed keyword (every variant except the two literals). */
  predicate IsKeywordOp(op: Op) {
    !op.Bool? && !op.Number?
  }

  /** The keyword of each keyword operator, as accepted by `FromStr` and `IsMatch`. */
  function Keyword(op: Op): string
    requires IsKeywordOp(op)
  {
    match op
    case Plus => "plus"
    case Minus => "minus"
    case Times => "times"
    case Div => "div"
    case Rem => "rem"
    case And => "and"
    case Or => "or"
    case Not => "not"
    case If => "if"
    case Eq => "eq"
    case Neq => "neq"
    case Lt => "lt"
    case Leq => "leq"
    case Gt => "gt"
    case Geq => "geq"
    case App => "app"
    case Lambda => "lambda"
    case Atom => "atom"
    case Deref => "deref"
    case Assign => "assign"
    case Tuple => "tuple"
    case Detuple => "detuple"
  }

  /** `bool::to_string`. */
  function BoolToString(b: bool): string {
    if b then "true" else "false"
  }

  // ---------------------------------------------------------------------------
  // Decimal numerals

  predicate IsDigit(c: char) {
    '0' <= c <= '9'
  }

  function DigitChar(d: nat): (c: char)
    requires d < 10
    ensures IsDigit(c)
  {
    ['0', '1', '2', '3', '4', '5', '6', '7', '8', '9'][d]
  }

  function DigitValue(c: char): (d: nat)
    requires IsDigit(c)
    ensures d < 10
  {
    (c as int - '0' as int) as nat
  }

  /** `to_string` of an unsigned integer: its decimal digits, without leading zeros. */
  function NatToString(n: nat): (s: string)
    ensures |s| >= 1
    ensures forall i :: 0 <= i < |s| ==> IsDigit(s[i])
    decreases n
  {
    if n < 10 then [DigitChar(n)] else NatToString(n / 10) + [DigitChar(n % 10)]
  }

  /** The number a non-empty string of digits denotes (no bound on its size). */
  function DecimalValue(s: string): nat
    requires forall i :: 0 <= i < |s| ==> IsDigit(s[i])
    decreases |s|
  {
    if s == [] then 0 else 10 * DecimalValue(s[..|s| - 1]) + DigitValue(s[|s| - 1])
  }

  predicate AllDigits(s: string) {
    |s| >= 1 && forall i :: 0 <= i < |s| ==> IsDigit(s[i])
  }

  /** `str::parse::<usize>`: an optional `+` sign, then one or more decimal digits whose
      value fits in a `usize`; anything else (the empty string, a lone `+`, a `-`, any
      other character, an overflow) is an error. */
  function ParseUsize(s: string): (r: Option<Usize>)
    ensures r.Some? <==> exists d :: Numeral(s, d) && DecimalValue(d) < USIZE_LIMIT
    ensures r.Some? ==> exists d :: Numeral(s, d) && DecimalValue(d) == r.value
  {
    var digits := if |s| >= 1 && s[0] == '+' then s[1..] else s;
    NumeralDigits(s, digits);
    if AllDigits(digits) && DecimalValue(digits) < USIZE_LIMIT then
      Some(DecimalValue(digits))
    else None
  }

  /** `s` is the digit string `d`, possibly after a `+` sign. */
  predicate Numeral(s: string, d: string) {
    (d == s || "+" + d == s) && AllDigits(d)
  }

  /** The digits of a numeral are what follows its optional sign. */
  lemma NumeralDigits(s: string, digits: string)
    requires digits == if |s| >= 1 && s[0] == '+' then s[1..] else s
    ensures forall d :: Numeral(s, d) ==> d == digits
    ensures AllDigits(digits) ==> Numeral(s, digits)
  {
    forall d | Numeral(s, d) ensures d == digits {
      assert IsDigit(d[0]);
      if "+" + d == s {
        assert s[1..] == d;
      }
    }
  }

  // ---------------------------------------------------------------------------
  // The three tables of `Op`

  /** `Display for Op`: the symbolic form of an operator. */
  function Display(op: Op): (s: string)
    ensures |s| >= 1
  {
    match op
    case Plus => "+"
    case Minus => "-"
    case Times => "×"
    case Div => "/"
    case Rem => "%"
    case And => "∧"
    case Or => "∨"
    case Not => "¬"
    case If => "if"
    case Eq => "="
    case Neq => "≠"
    case Lt => "<"
    case Leq => "≤"
    case Gt => ">"
    case Geq => "≥"
    case App => "@"
    case Lambda => "λ"
    case Atom => "&"
    case Deref => "!"
    case Assign => ":="
    case Tuple => "()"
    case Detuple => ")("
    case Bool(b) => BoolToString(b)
    case Number(n) => NatToString(n)
  }

  /** The keyword arms of `FromStr for Op`. */
  function KeywordOf(s: string): (r: Option<Op>)
    ensures r.Some? ==> IsKeywordOp(r.value) && Keyword(r.value) == s
  {
    match s
    case "plus" => Some(Plus)
    case "minus" => Some(Minus)
    case "times" => Some(Times)
    case "div" => Some(Div)
    case "rem" => Some(Rem)
    case "and" => Some(And)
    case "or" => Some(Or)
    case "not" => Some(Not)
    case "if" => Some(If)
    case "eq" => Some(Eq)
    case "neq" => Some(Neq)
    case "lt" => Some(Lt)
    case "leq" => Some(Leq)
    case "gt" => Some(Gt)
    case "geq" => Some(Geq)
    case "app" => Some(App)
    case "lambda" => Some(Lambda)
    case "atom" => Some(Atom)
    case "deref" => Some(Deref)
    case "assign" => Some(Assign)
    case "tuple" => Some(Tuple)
    case "detuple" => Some(Detuple)
    case _ => None
  }

  /** `FromStr for Op`: keywords, then the two booleans, then a `usize` literal. */
  function FromStr(s: string): (r: Result<Op, ()>)
    ensures r.Ok? && IsKeywordOp(r.value) ==> s == Keyword(r.value)
    ensures r.Ok? && r.value.Bool? ==> s == BoolToString(r.value.b)
    ensures r.Ok? && r.value.Number? ==> ParseUsize(s) == Some(r.value.n)
    ensures ParseUsize(s).Some? ==> r == Ok(Number(ParseUsize(s).value))
  {
    NumeralsAreNotKeywords(s);
    match KeywordOf(s)
    case Some(op) => Ok(op)
    case None =>
      if s == "true" then Ok(Bool(true))
      else if s == "false" then Ok(Bool(false))
      else
        match ParseUsize(s)
        case Some(n) => Ok(Number(n))
        case None => Err(())
  }

  /** `Matchable for Op`: does the query name this operator? Whatever matches is read back
      by `FromStr` as the operator, and for keyword operators and booleans the converse holds. */
  predicate IsMatch(op: Op, query: string): (b: bool)
    ensures b ==> FromStr(query) == Ok(op)
    ensures !op.Number? ==> (b <==> FromStr(query) == Ok(op))
  {
    match op
    case Bool(b) => BoolToString(b) == query
    case Number(n) => FromStrPrinted(n); NatToString(n) == query
    case _ => KeywordRoundTrip(op); query == Keyword(op)
  }

  // ---------------------------------------------------------------------------
  // Variables

  datatype Variable = Variable(name: string)

  /** `Display for Variable`: the name, from which the variable is recovered. */
  function VariableDisplay(v: Variable): (s: string)
    ensures Variable(s) == v
  {
    v.name
  }

  /** `Matchable for Variable`: a variable matches exactly the text it displays as. */
  predicate VariableIsMatch(v: Variable, query: string): (b: bool)
    ensures b <==> query == VariableDisplay(v)
  {
    v.name == query
  }

  /** `Fresh for Variable`: `?` followed by the number in decimal. */
  function Fresh(number: Usize): (v: Variable)
    ensures v.name == "?" + NatToString(number)
    ensures |v.name| >= 2 && v.name[0] == '?' && AllDigits(v.name[1..])
    ensures DecimalValue(v.name[1..]) == number
  {
    DecimalRoundTrip(number);
    assert ("?" + NatToString(number))[1..] == NatToString(number);
    Variable("?" + NatToString(number))
  }

  // ---------------------------------------------------------------------------
  // Properties

  /** Reading back the decimal digits of `n` gives `n`. */
  lemma {:induction false} DecimalRoundTrip(n: nat)
    ensures DecimalValue(NatToString(n)) == n
    decreases n
  {
    if n >= 10 {
      DecimalRoundTrip(n / 10);
      var s := NatToString(n);
      assert s[..|s| - 1] == NatToString(n / 10);
    }
  }

  /** Distinct numbers print differently. */
  lemma NatToStringInjective(n: nat, m: nat)
    requires NatToString(n) == NatToString(m)
    ensures n == m
  {
    DecimalRoundTrip(n);
    DecimalRoundTrip(m);
  }

  /** Parsing the printed form of a number gives it back exactly when it fits in a
      `usize`; larger numbers are rejected as an overflow. */
  lemma ParsePrintedNumber(n: nat)
    ensures ParseUsize(NatToString(n)) == if n < USIZE_LIMIT then Some(n) else None
  {
    DecimalRoundTrip(n);
    var s := NatToString(n);
    assert IsDigit(s[0]);
  }

  /** A string made of digits is none of the keyword cases of `FromStr`, so it is
      read as a `usize` literal. */
  lemma FromStrDigits(s: string)
    requires AllDigits(s)
    ensures FromStr(s) == match ParseUsize(s) case Some(n) => Ok(Number(n)) case None => Err(())
  {
    assert IsDigit(s[0]);
    KeywordsAreNotDigits(s);
  }

  lemma KeywordsAreNotDigits(s: string)
    requires |s| >= 1 && IsDigit(s[0])
    ensures KeywordOf(s) == None
  {
  }

  /** A string `parse::<usize>` accepts is neither a keyword nor a boolean. */
  lemma NumeralsAreNotKeywords(s: string)
    ensures ParseUsize(s).Some? ==> KeywordOf(s) == None && s != "true" && s != "false"
  {
    if ParseUsize(s).Some? {
      var d :| Numeral(s, d) && DecimalValue(d) < USIZE_LIMIT;
      assert IsDigit(d[0]);
      assert s[0] == '+' || IsDigit(s[0]);
    }
  }

  /** `from_str` reads the printed form of a `usize` back as that number. */
  lemma FromStrPrinted(n: Usize)
    ensures FromStr(NatToString(n)) == Ok(Number(n))
  {
    ParsePrintedNumber(n);
    FromStrDigits(NatToString(n));
  }

  lemma KeywordRoundTrip(op: Op)
    requires IsKeywordOp(op)
    ensures FromStr(Keyword(op)) == Ok(op)
  {
    KeywordOfKeyword(op);
  }

  lemma KeywordOfKeyword(op: Op)
    requires IsKeywordOp(op)
    ensures KeywordOf(Keyword(op)) == Some(op)
  {
  }

  /** For numbers the parser is more liberal than the matcher: it accepts a `+` sign and
      leading zeros, which `IsMatch` (comparing against the canonical `to_string`) does not. */
  lemma NumberParsingIsLiberal()
    ensures FromStr("007") == Ok(Number(7)) && !IsMatch(Number(7), "007")
    ensures FromStr("+7") == Ok(Number(7)) && !IsMatch(Number(7), "+7")
  {
    assert "007"[..2] == "00" && "00"[..1] == "0" && "0"[..0] == "";
    assert AllDigits("007") && DecimalValue("007") == 7;
    FromStrDigits("007");
    assert NatToString(7) == "7";
    assert "+7"[1..] == "7";
    assert DecimalValue("7") == 7;
  }

  /** `Display` gives different operators different text. */
  lemma DisplayInjective(a: Op, b: Op)
    requires Display(a) == Display(b)
    ensures a == b
  {
    if a.Number? || b.Number? {
      assert IsDigit(Display(a)[0]) && IsDigit(Display(b)[0]);
      if a.Number? && b.Number? {
        NatToStringInjective(a.n, b.n);
      }
    }
  }

  /** Different numbers give different fresh variables. */
  lemma FreshInjective(n: Usize, m: Usize)
    requires Fresh(n) == Fresh(m)
    ensures n == m
  {
    assert Fresh(n).name[1..] == Fresh(m).name[1..];
  }
}
