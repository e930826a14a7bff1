/**
 * The token scanner of express.c: skip_blank, token_type, parse_number, find_quot,
 * parse_str and parse_id. The source text is a C string: a sequence without NUL, read as
 * NUL past its end.
 */
module Scanner {
  import opened Wrappers
  import opened Values
  import opened Tokens

  predicate IsCString(s: seq<char>) { '\0' !in s }

  /** `*pos`: the character at i, or the terminating NUL. */
  function CharAt(s: seq<char>, i: nat): char {
    if i < |s| then s[i] else '\0'
  }

  /** isspace in the C locale: space, \t, \n, \v, \f and \r. */
  predicate IsSpace(c: char) { c == ' ' || 9 <= c as int <= 13 }

  /** isalnum in the C locale. */
  predicate IsAlnum(c: char) { 'a' <= c <= 'z' || 'A' <= c <= 'Z' || '0' <= c <= '9' }

  /** The characters parse_id's loop accepts: isalnum, isalpha or '.'. */
  predicate IsIdentChar(c: char) { IsAlnum(c) || c == '.' }

  /** skip_blank: the first position at or after i that does not hold white space. */
  function SkipBlanks(s: seq<char>, i: nat): (r: nat)
    requires i <= |s|
    ensures i <= r <= |s|
    ensures forall k :: i <= k < r ==> IsSpace(s[k])
    ensures !IsSpace(CharAt(s, r))
    decreases |s| - i
  {
    if i < |s| && IsSpace(s[i]) then SkipBlanks(s, i + 1) else i
  }

  method SkipBlank(s: seq<char>, i: nat) returns (r: nat)
    requires i <= |s|
    ensures r == SkipBlanks(s, i)
  {
    r := i;
    while r < |s| && IsSpace(s[r])
      invariant i <= r <= |s|
      invariant SkipBlanks(s, r) == SkipBlanks(s, i)
    {
      r := r + 1;
    }
  }

  /** The end of the run of identifier characters starting at i. */
  function IdentEnd(s: seq<char>, i: nat): (r: nat)
    requires i <= |s|
    ensures i <= r <= |s|
    ensures forall k :: i <= k < r ==> IsIdentChar(s[k])
    ensures !IsIdentChar(CharAt(s, r))
    decreases |s| - i
  {
    if i < |s| && IsIdentChar(s[i]) then IdentEnd(s, i + 1) else i
  }

  method ScanIdent(s: seq<char>, i: nat) returns (r: nat)
    requires i <= |s|
    ensures r == IdentEnd(s, i)
  {
    r := i;
    while r < |s| && IsIdentChar(s[r])
      invariant i <= r <= |s|
      invariant IdentEnd(s, r) == IdentEnd(s, i)
    {
      r := r + 1;
    }
  }

  /**
   * token_type: classify the token at pos from its first one or two characters and, for a
   * sign, from the previous token's type.
   */
  function TokenType(s: seq<char>, pos: nat, last: Kind): (k: Kind)
    requires pos < |s|
    ensures pos + TokenLen(k) <= |s|
    ensures k != Func
    ensures k != Invalid ==> !IsSpace(s[pos])
    ensures k == StrLit <==> s[pos] == '\'' || s[pos] == '"'
    ensures k == Ident <==> 'a' <= s[pos] <= 'z' || 'A' <= s[pos] <= 'Z' || s[pos] == '_' || s[pos] == '$'
  {
    var c, d := s[pos], CharAt(s, pos + 1);
    if c == '(' then Beg
    else if c == ')' then End
    else if c == '^' then BitXor
    else if c == '*' then Multi
    else if c == '/' then Divi
    else if c == '%' then Mod
    else if c == ',' then Sep
    else if c == '+' then (if last == End || last == NumLit || last == Ident then Add else NumLit)
    else if c == '-' then (if last == End || last == NumLit || last == Ident then Sub else NumLit)
    else if c == '=' then (if d == '=' then Eq else Invalid)
    else if c == '<' then (if d == '<' then ShiftLeft else if d == '=' then Le else Lt)
    else if c == '>' then (if d == '>' then ShiftRight else if d == '=' then Ge else Gt)
    else if c == '|' then (if d == '|' then Or else BitOr)
    else if c == '&' then (if d == '&' then And else BitAnd)
    else if c == '!' then (if d == '=' then NotEq else Not)
    else if c == '~' then (if d == '=' then Regex else BitComp)
    else if c == '\'' || c == '"' then StrLit
    else if '0' <= c <= '9' then NumLit
    else if 'a' <= c <= 'z' || 'A' <= c <= 'Z' || c == '_' || c == '$' then Ident
    else Invalid
  }

  /**
   * Sign disambiguation: `+` and `-` are binary only after `)`, a number or an identifier;
   * anywhere else they start a number literal. After a string literal they are never binary.
   */
  lemma SignDisambiguation(s: seq<char>, pos: nat, last: Kind)
    requires pos < |s| && (s[pos] == '+' || s[pos] == '-')
    ensures last in {End, NumLit, Ident} ==>
      TokenType(s, pos, last) == (if s[pos] == '+' then Add else Sub)
    ensures !(last in {End, NumLit, Ident}) ==> TokenType(s, pos, last) == NumLit
    ensures TokenType(s, pos, StrLit) == NumLit
  {
  }

  /** parse_number: strtod must consume at least one character. */
  function ParseNumber(lib: Libc, s: seq<char>, pos: nat): (r: Option<(Token, nat)>)
    requires ScansWithin(lib) && pos <= |s|
    ensures r.Some? <==> lib.strtod(s[pos..]).1 > 0
    ensures r.Some? ==>
      && pos < r.value.1 <= |s| && r.value.0.kind == NumLit
      && r.value.0.payload == Literal(lib.strtod(s[pos..]).0)
  {
    var (v, n) := lib.strtod(s[pos..]);
    if n == 0 then Nothing else Some((Token(NumLit, 0, 0, Literal(v)), pos + n))
  }

  /** strchr from index i: the first occurrence of c, or NULL. */
  function Strchr(s: seq<char>, i: nat, c: char): (r: Option<nat>)
    requires i <= |s|
    ensures r.Some? ==> i <= r.value < |s| && s[r.value] == c
    ensures r.Some? ==> forall k :: i <= k < r.value ==> s[k] != c
    ensures r.Nothing? ==> forall k :: i <= k < |s| ==> s[k] != c
    decreases |s| - i
  {
    if i == |s| then Nothing else if s[i] == c then Some(i) else Strchr(s, i + 1, c)
  }

  /**
   * find_quot (and the walk copystr makes inside a double-quoted literal): the first '"' at or
   * after i that no backslash escapes; a backslash escapes the character after it.
   */
  function QuoteScan(s: seq<char>, i: nat): (r: Option<nat>)
    ensures r.Some? ==> i <= r.value < |s| && s[r.value] == '"'
    ensures r.Some? ==> forall k :: i <= k < r.value && s[k] == '"' ==> i < k && s[k - 1] == '\\'
    ensures r.Nothing? ==> forall k :: i <= k < |s| && s[k] == '"' ==> i < k && s[k - 1] == '\\'
    decreases |s| - i
  {
    if i >= |s| then Nothing
    else if s[i] == '"' then Some(i)
    else if s[i] == '\\' && i + 1 < |s| then QuoteScan(s, i + 2)
    else QuoteScan(s, i + 1)
  }

  method FindQuot(s: seq<char>, i: nat) returns (r: Option<nat>)
    ensures r == QuoteScan(s, i)
  {
    var p := i;
    while p < |s|
      invariant QuoteScan(s, p) == QuoteScan(s, i)
      decreases |s| - p
    {
      if s[p] == '"' {
        return Some(p);
      }
      if s[p] == '\\' && p + 1 < |s| {
        p := p + 1;
      }
      p := p + 1;
    }
    return Nothing;
  }

  /**
   * Walking from i toward a quote at p with no quote before it, the scan either stops at p or
   * hops over it as an escaped character, after which it continues as a scan from p + 1.
   */
  lemma {:induction false} QuoteScanReaches(s: seq<char>, i: nat, p: nat)
    requires i <= p < |s| && s[p] == '"'
    requires forall k :: i <= k < p ==> s[k] != '"'
    ensures QuoteScan(s, i) == Some(p)
      || (1 <= p && s[p - 1] == '\\' && QuoteScan(s, i) == QuoteScan(s, p + 1))
    decreases p - i
  {
    if i < p {
      if s[i] == '\\' && i + 1 < |s| {
        if i + 1 < p {
          QuoteScanReaches(s, i + 2, p);
        }
      } else {
        QuoteScanReaches(s, i + 1, p);
      }
    }
  }

  /**
   * parse_str: the literal runs from its opening quote to the first matching quote; for a
   * double quote preceded by a backslash, find_quot looks for the next unescaped one.
   */
  function ParseStr(s: seq<char>, pos: nat): (r: Option<(Token, nat)>)
    requires pos < |s| && (s[pos] == '\'' || s[pos] == '"')
    ensures r.Some? ==>
      && r.value.0.kind == StrLit && r.value.0.payload.Span?
      && r.value.0.payload.pos == pos && r.value.0.payload.len >= 2
      && r.value.1 == pos + r.value.0.payload.len <= |s|
      && s[r.value.1 - 1] == s[pos]
    ensures r.Some? && s[pos] == '\'' ==> forall k :: pos < k < r.value.1 - 1 ==> s[k] != '\''
    ensures r.Some? && s[pos] == '"' ==>
      QuoteScan(s, pos + 1).Some? && QuoteScan(s, pos + 1).value <= r.value.1 - 1
    ensures s[pos] == '\'' ==> (r.Some? <==> exists k :: pos < k < |s| && s[k] == '\'')
  {
    var q := s[pos];
    var p := Strchr(s, pos + 1, q);
    var e := if p.Some? && q == '"' && s[p.value - 1] == '\\' then QuoteScan(s, p.value + 1) else p;
    if e.Nothing? then Nothing
    else
      assert q == '"' ==> QuoteScan(s, pos + 1).Some? && QuoteScan(s, pos + 1).value <= e.value by {
        if q == '"' {
          QuoteScanReaches(s, pos + 1, p.value);
        }
      }
      Some((Token(StrLit, 0, 0, Span(pos, e.value - pos + 1)), e.value + 1))
  }

  /**
   * The literal boundary copystr's de-escaping walk assumes: the first quote of the same kind,
   * and for a double quote the first one no backslash escapes (find_quot from the start).
   */
  function ParseStrIntended(s: seq<char>, pos: nat): (r: Option<(Token, nat)>)
    requires pos < |s| && (s[pos] == '\'' || s[pos] == '"')
    ensures r.Some? ==>
      && r.value.0.kind == StrLit && r.value.0.payload.Span?
      && r.value.0.payload.pos == pos && r.value.0.payload.len >= 2
      && r.value.1 == pos + r.value.0.payload.len <= |s|
      && s[r.value.1 - 1] == s[pos]
    ensures s[pos] == '"' ==> (r.Some? <==> QuoteScan(s, pos + 1).Some?)
    ensures s[pos] == '"' && r.Some? ==> r.value.1 == QuoteScan(s, pos + 1).value + 1
    ensures s[pos] == '\'' ==> (r.Some? <==> exists k :: pos < k < |s| && s[k] == '\'')
    ensures r.Some? && s[pos] == '\'' ==> forall k :: pos < k < r.value.1 - 1 ==> s[k] != '\''
  {
    var e := if s[pos] == '"' then QuoteScan(s, pos + 1) else Strchr(s, pos + 1, s[pos]);
    if e.Nothing? then Nothing else Some((Token(StrLit, 0, 0, Span(pos, e.value - pos + 1)), e.value + 1))
  }

  /**
   * The case parse_str gets wrong: the first double quote after the opening one is the
   * closing quote, yet a backslash (itself escaped, as in `\\"`) stands right before it.
   */
  predicate ClosedAfterBackslash(s: seq<char>, pos: nat)
    requires pos < |s|
  {
    var q := Strchr(s, pos + 1, '"');
    q.Some? && q == QuoteScan(s, pos + 1) && s[q.value - 1] == '\\'
  }

  /** Outside that case parse_str finds the boundary copystr assumes. */
  lemma ParseStrAsIntended(s: seq<char>, pos: nat)
    requires pos < |s| && (s[pos] == '\'' || s[pos] == '"')
    requires s[pos] == '"' ==> !ClosedAfterBackslash(s, pos)
    ensures ParseStr(s, pos) == ParseStrIntended(s, pos)
  {
    if s[pos] == '"' {
      var p := Strchr(s, pos + 1, '"');
      if p.Some? {
        QuoteScanReaches(s, pos + 1, p.value);
      }
    }
  }

  /** In that case parse_str skips the real closing quote: it fails or ends the literal later. */
  lemma ParseStrOvershoots(s: seq<char>, pos: nat)
    requires pos < |s| && s[pos] == '"' && ClosedAfterBackslash(s, pos)
    ensures ParseStrIntended(s, pos).Some?
    ensures ParseStr(s, pos).Nothing? || ParseStr(s, pos).value.1 > ParseStrIntended(s, pos).value.1
  {
  }

  method ParseString(s: seq<char>, pos: nat) returns (r: Option<(Token, nat)>)
    requires pos < |s| && (s[pos] == '\'' || s[pos] == '"')
    ensures r == ParseStr(s, pos)
  {
    var q := s[pos];
    var p := Strchr(s, pos + 1, q);
    if p.Some? && q == '"' && s[p.value - 1] == '\\' {
      p := FindQuot(s, p.value + 1);
    }
    if p.Nothing? {
      return Nothing;
    }
    r := Some((Token(StrLit, 0, 0, Span(pos, p.value - pos + 1)), p.value + 1));
  }

  /** parse_str with the corrected search: find_quot from just after a double quote. */
  method ParseStringIntended(s: seq<char>, pos: nat) returns (r: Option<(Token, nat)>)
    requires pos < |s| && (s[pos] == '\'' || s[pos] == '"')
    ensures r == ParseStrIntended(s, pos)
  {
    var q := s[pos];
    var p;
    if q == '"' {
      p := FindQuot(s, pos + 1);
    } else {
      p := Strchr(s, pos + 1, q);
    }
    if p.Nothing? {
      return Nothing;
    }
    r := Some((Token(StrLit, 0, 0, Span(pos, p.value - pos + 1)), p.value + 1));
  }

  /** What parse_id finds: an unknown function name, a variable, or a function call. */
  datatype IdScan = UnknownFunction | Variable(token: Token, next: nat) | Call(token: Token, next: nat)

  /**
   * parse_id: scan identifier characters, skip blanks; a following '(' makes the name a
   * function call (resolved by check_function), otherwise it is a variable. The cursor moves
   * past the blanks in both cases.
   */
  function ParseId(s: seq<char>, pos: nat): (r: IdScan)
    requires pos <= |s|
    ensures r.Call? ==>
      && pos < r.next <= |s| && CharAt(s, r.next) == '('
      && r.token.kind == Func && r.token.nparam == 0
      && 1 <= r.token.subtype < FUNC_COUNT
      && s[pos..IdentEnd(s, pos)] == FuncName(r.token.subtype)
    ensures r.Variable? ==>
      && pos <= r.next <= |s| && r.token.kind == Ident
      && r.token.payload == Span(pos, IdentEnd(s, pos) - pos)
      && CharAt(s, r.next) != '('
    ensures r.UnknownFunction? ==> CheckFunction(s[pos..IdentEnd(s, pos)]) == 0
    ensures !r.UnknownFunction? ==> r.next == SkipBlanks(s, IdentEnd(s, pos))
    ensures !r.Variable? <==> CharAt(s, SkipBlanks(s, IdentEnd(s, pos))) == '('
    ensures r.UnknownFunction? <==>
      CharAt(s, SkipBlanks(s, IdentEnd(s, pos))) == '(' && CheckFunction(s[pos..IdentEnd(s, pos)]) == 0
  {
    var end := IdentEnd(s, pos);
    var next := SkipBlanks(s, end);
    if CharAt(s, next) == '(' then
      var id := CheckFunction(s[pos..end]);
      CheckFunctionResult(s[pos..end]);
      if id == 0 then UnknownFunction else Call(Token(Func, 0, id, NoPayload), next)
    else Variable(Token(Ident, 0, 0, Span(pos, end - pos)), next)
  }

  method ParseIdent(s: seq<char>, pos: nat) returns (r: IdScan)
    requires pos <= |s|
    ensures r == ParseId(s, pos)
  {
    var end := ScanIdent(s, pos);
    var next := SkipBlank(s, end);
    if next < |s| && s[next] == '(' {
      var id := CheckFunction(s[pos..end]);
      r := if id == 0 then UnknownFunction else Call(Token(Func, 0, id, NoPayload), next);
    } else {
      r := Variable(Token(Ident, 0, 0, Span(pos, end - pos)), next);
    }
  }

  /**
   * A built-in's name, ended by a character that cannot continue a name and followed (after
   * blanks) by '(', is a call of that built-in; the cursor stops at the '('.
   */
  lemma ParseIdFindsFunction(s: seq<char>, pos: nat, id: nat)
    requires 1 <= id < FUNC_COUNT && pos + |FuncName(id)| <= |s|
    requires s[pos..pos + |FuncName(id)|] == FuncName(id)
    requires !IsIdentChar(CharAt(s, pos + |FuncName(id)|))
    requires CharAt(s, SkipBlanks(s, pos + |FuncName(id)|)) == '('
    ensures ParseId(s, pos) == Call(Token(Func, 0, id, NoPayload), SkipBlanks(s, pos + |FuncName(id)|))
  {
    var name := FuncName(id);
    forall k | pos <= k < pos + |name| ensures IsIdentChar(s[k]) {
      assert s[k] == name[k - pos];
    }
    assert IdentEnd(s, pos) == pos + |name|;
    CheckFunctionIsLookup(name, id);
  }

  /**
   * token_type starts an identifier on '_' and '$', but parse_id's loop accepts neither: the
   * scan then yields an empty variable and the cursor does not move. Any letter moves it.
   */
  lemma ParseIdStalls(s: seq<char>, pos: nat, last: Kind)
    requires pos < |s| && TokenType(s, pos, last) == Ident
    ensures ParseId(s, pos).Variable? && ParseId(s, pos).next == pos <==> s[pos] == '_' || s[pos] == '$'
    ensures s[pos] == '_' || s[pos] == '$' ==> ParseId(s, pos).token.payload == Span(pos, 0)
  {
    if s[pos] == '_' || s[pos] == '$' {
      assert IdentEnd(s, pos) == pos;
    } else {
      assert IdentEnd(s, pos) > pos;
    }
  }
}
