/**
 * Literal materialisation: copystr's de-escaping of a literal's text into the expression's
 * string buffer, and the buffer layout express_create builds from the compiled tokens.
 */
module Literals {
  import opened Wrappers
  import opened Tokens
  import opened Scanner
  import opened Compiler

  /**
   * copystr on a double-quoted literal, from the character after the opening quote: every
   * backslash is dropped and the character after it kept, up to the first unescaped quote.
   */
  function Unescape(s: seq<char>, i: nat): seq<char>
    requires QuoteScan(s, i).Some?
    decreases |s| - i
  {
    if s[i] == '"' then []
    else if s[i] == '\\' then [s[i + 1]] + Unescape(s, i + 2)
    else [s[i]] + Unescape(s, i + 1)
  }

  /** The de-escaped text is no longer than the literal body it comes from. */
  lemma {:induction false} UnescapeShorter(s: seq<char>, i: nat)
    requires QuoteScan(s, i).Some?
    ensures |Unescape(s, i)| <= QuoteScan(s, i).value - i
    decreases |s| - i
  {
    if s[i] != '"' {
      if s[i] == '\\' {
        UnescapeShorter(s, i + 2);
      } else {
        UnescapeShorter(s, i + 1);
      }
    }
  }

  /** The inverse direction: write text as the body of a double-quoted literal. */
  function Escape(t: seq<char>): (r: seq<char>)
    ensures |r| >= |t|
  {
    if t == [] then []
    else (if t[0] == '"' || t[0] == '\\' then ['\\', t[0]] else [t[0]]) + Escape(t[1..])
  }

  /**
   * Escaping round trip: in a literal body written by Escape, the first unescaped quote is the
   * closing one, and copystr's de-escaping gives back exactly the text.
   */
  lemma {:induction false} UnescapeEscape(t: seq<char>, s: seq<char>, i: nat)
    requires i + |Escape(t)| < |s|
    requires s[i..i + |Escape(t)|] == Escape(t) && s[i + |Escape(t)|] == '"'
    ensures QuoteScan(s, i) == Some(i + |Escape(t)|)
    ensures Unescape(s, i) == t
    decreases |t|
  {
    var e := Escape(t);
    if t != [] {
      var head := if t[0] == '"' || t[0] == '\\' then ['\\', t[0]] else [t[0]];
      assert e == head + Escape(t[1..]);
      var j := i + |head|;
      assert s[j..j + |Escape(t[1..])|] == Escape(t[1..]) by {
        assert s[j..j + |Escape(t[1..])|] == e[|head|..];
      }
      assert s[i] == e[0] == head[0];
      if |head| == 2 {
        assert s[i + 1] == e[1] == t[0];
      }
      UnescapeEscape(t[1..], s, j);
      assert t == [t[0]] + t[1..];
    }
  }

  /** Escaping introduces a double quote exactly where the text has one. */
  lemma {:induction false} EscapeQuote(t: seq<char>)
    ensures '"' in Escape(t) <==> '"' in t
  {
    if t != [] {
      var head := if t[0] == '"' || t[0] == '\\' then ['\\', t[0]] else [t[0]];
      assert Escape(t) == head + Escape(t[1..]);
      assert t == [t[0]] + t[1..];
      EscapeQuote(t[1..]);
    }
  }

  /** Escaping keeps the text's last character last. */
  lemma {:induction false} EscapeLast(t: seq<char>)
    requires t != []
    ensures Escape(t) != [] && Escape(t)[|Escape(t)| - 1] == t[|t| - 1]
  {
    var head := if t[0] == '"' || t[0] == '\\' then ['\\', t[0]] else [t[0]];
    assert Escape(t) == head + Escape(t[1..]);
    if |t| > 1 {
      EscapeLast(t[1..]);
    }
  }

  /** The literal `"` + Escape(t) + `"` at pos, as a source text holds it. */
  predicate QuotedAt(s: seq<char>, pos: nat, t: seq<char>) {
    && pos + |Escape(t)| + 1 < |s|
    && s[pos] == '"'
    && s[pos + 1..pos + 1 + |Escape(t)|] == Escape(t)
    && s[pos + 1 + |Escape(t)|] == '"'
  }

  /** Each character of the escaped body sits right after the opening quote. */
  lemma QuotedChar(s: seq<char>, pos: nat, t: seq<char>, j: nat)
    requires QuotedAt(s, pos, t) && j < |Escape(t)|
    ensures s[pos + 1 + j] == Escape(t)[j]
  {
    assert s[pos + 1..pos + 1 + |Escape(t)|][j] == s[pos + 1 + j];
  }

  /** The boundary copystr assumes spans exactly the escaped literal, for every text. */
  lemma ParseStrIntendedEscape(s: seq<char>, pos: nat, t: seq<char>)
    requires QuotedAt(s, pos, t)
    ensures ParseStrIntended(s, pos) ==
      Some((Token(StrLit, 0, 0, Span(pos, |Escape(t)| + 2)), pos + |Escape(t)| + 2))
  {
    UnescapeEscape(t, s, pos + 1);
  }

  /**
   * parse_str's own scan finds the same span, and copystr then gives back t, unless t has no
   * double quote and ends in a backslash.
   */
  lemma ParseStrEscape(s: seq<char>, pos: nat, t: seq<char>)
    requires QuotedAt(s, pos, t)
    requires '"' in t || t == [] || t[|t| - 1] != '\\'
    ensures ParseStr(s, pos) ==
      Some((Token(StrLit, 0, 0, Span(pos, |Escape(t)| + 2)), pos + |Escape(t)| + 2))
    ensures Unescape(s, pos + 1) == t
  {
    UnescapeEscape(t, s, pos + 1);
    EscapedNotClosedAfterBackslash(s, pos, t);
    ParseStrAsIntended(s, pos);
    ParseStrIntendedEscape(s, pos, t);
  }

  /** Unless the text ends in a backslash and holds no double quote, the quote strchr finds
      first is not one that parse_str would mistake for escaped. */
  lemma EscapedNotClosedAfterBackslash(s: seq<char>, pos: nat, t: seq<char>)
    requires QuotedAt(s, pos, t)
    requires '"' in t || t == [] || t[|t| - 1] != '\\'
    ensures !ClosedAfterBackslash(s, pos)
  {
    var e := Escape(t);
    var q := pos + 1 + |e|;
    UnescapeEscape(t, s, pos + 1);
    if '"' in t {
      EscapeQuote(t);
      var j :| 0 <= j < |e| && e[j] == '"';
      QuotedChar(s, pos, t, j);
      assert Strchr(s, pos + 1, '"') != Some(q);
    } else if t != [] {
      EscapeLast(t);
      QuotedChar(s, pos, t, |e| - 1);
    }
  }

  /** In a literal whose text has no double quote, strchr's first quote is the closing one. */
  lemma FirstQuoteCloses(s: seq<char>, pos: nat, t: seq<char>)
    requires QuotedAt(s, pos, t) && '"' !in t
    ensures Strchr(s, pos + 1, '"') == Some(pos + 1 + |Escape(t)|)
  {
    var e := Escape(t);
    var q := pos + 1 + |e|;
    EscapeQuote(t);
    forall k | pos + 1 <= k < q
      ensures s[k] != '"'
    {
      assert s[k] == e[k - pos - 1];
    }
  }

  /**
   * The other case: for a text with no double quote that ends in a backslash, parse_str skips
   * the closing quote, so the literal fails to scan or runs on past its end.
   */
  lemma ParseStrTrailingBackslash(s: seq<char>, pos: nat, t: seq<char>)
    requires QuotedAt(s, pos, t)
    requires '"' !in t && t != [] && t[|t| - 1] == '\\'
    ensures ParseStr(s, pos).Nothing? || ParseStr(s, pos).value.1 > pos + |Escape(t)| + 2
  {
    var e := Escape(t);
    var q := pos + 1 + |e|;
    EscapeLast(t);
    FirstQuoteCloses(s, pos, t);
    ParseStrIntendedEscape(s, pos, t);
    assert s[q - 1] == s[pos + 1..q][|e| - 1] == '\\';
    assert ClosedAfterBackslash(s, pos);
    ParseStrOvershoots(s, pos);
  }

  /** The smallest instance: the literal written for the text `a\` does not scan at all. */
  lemma ParseStrBackslashExample()
    ensures Escape(['a', '\\']) == ['a', '\\', '\\']
    ensures ParseStr(['"', 'a', '\\', '\\', '"'], 0) == Nothing
    ensures ParseStrIntended(['"', 'a', '\\', '\\', '"'], 0) == Some((Token(StrLit, 0, 0, Span(0, 5)), 5))
  {
    var s := ['"', 'a', '\\', '\\', '"'];
    var t := ['a', '\\'];
    assert Escape(t) == ['a'] + Escape(['\\']);
    assert Escape(['\\']) == ['\\', '\\'] + Escape([]);
    assert Escape(t) == s[1..4];
    assert QuotedAt(s, 0, t);
    assert '"' !in t && t[|t| - 1] == '\\';
    ParseStrIntendedEscape(s, 0, t);
    ParseStrTrailingBackslash(s, 0, t);
  }

  /** The characters copystr writes for a variable name or a string literal. */
  function Copied(s: seq<char>, t: Token): (r: seq<char>)
    requires Emitted(s, t) && (t.kind == Ident || t.kind == StrLit)
    ensures |r| <= t.payload.len
  {
    var pos, len := t.payload.pos, t.payload.len;
    if s[pos] == '"' then UnescapeShorter(s, pos + 1); Unescape(s, pos + 1)
    else if s[pos] == '\'' then s[pos + 1..pos + len - 1]
    else s[pos..pos + len]
  }

  /** A literal copies to its source form with the quotes removed and escapes undone; a name
      copies verbatim. */
  lemma CopiedForms(s: seq<char>, t: Token)
    requires Emitted(s, t) && (t.kind == Ident || t.kind == StrLit)
    ensures t.kind == Ident ==> Copied(s, t) == s[t.payload.pos..t.payload.pos + t.payload.len]
    ensures t.kind == StrLit && s[t.payload.pos] == '\'' ==>
      Copied(s, t) == s[t.payload.pos + 1..t.payload.pos + t.payload.len - 1]
    ensures t.kind == StrLit ==> |Copied(s, t)| <= t.payload.len - 2
  {
    var pos := t.payload.pos;
    if t.kind == Ident {
      assert IsIdentChar(s[pos]);
    } else if s[pos] == '"' {
      UnescapeShorter(s, pos + 1);
    }
  }

  /** What express_create reserves for one token: len + 1 for a name or a literal. */
  function Needed(t: Token): nat {
    if (t.kind == Ident || t.kind == StrLit) && t.payload.Span? then t.payload.len + 1 else 0
  }

  /** The reservation for the first i tokens. */
  function ReservedTo(rpn: seq<Token>, i: nat): nat
    requires i <= |rpn|
    decreases i
  {
    if i == 0 then 0 else ReservedTo(rpn, i - 1) + Needed(rpn[i - 1])
  }

  /** The size express_create reserves for the string buffer. */
  function Reserved(rpn: seq<Token>): nat {
    ReservedTo(rpn, |rpn|)
  }

  /** The size copystr returns for a token: the characters written and the NUL. */
  function Used(s: seq<char>, t: Token): (n: nat)
    requires Emitted(s, t)
    ensures n <= Needed(t)
  {
    if t.kind == Ident || t.kind == StrLit then |Copied(s, t)| + 1 else 0
  }

  /** The buffer offset of token i's text: the sizes copystr returned for the tokens before it. */
  function Offset(s: seq<char>, rpn: seq<Token>, i: nat): nat
    requires AllEmitted(s, rpn) && i <= |rpn|
    decreases i
  {
    if i == 0 then 0 else Offset(s, rpn, i - 1) + Used(s, rpn[i - 1])
  }

  /** The text of the first i tokens never takes more than was reserved for them. */
  lemma {:induction false} OffsetWithin(s: seq<char>, rpn: seq<Token>, i: nat)
    requires AllEmitted(s, rpn) && i <= |rpn|
    ensures Offset(s, rpn, i) <= ReservedTo(rpn, i)
    decreases i
  {
    if i > 0 {
      OffsetWithin(s, rpn, i - 1);
    }
  }

  /** A compiled token: names and literals point at their text in the string buffer. */
  function Placed(s: seq<char>, t: Token, at: nat): Token
    requires Emitted(s, t)
  {
    if t.kind == Ident || t.kind == StrLit then t.(payload := Text(at, Copied(s, t))) else t
  }

  /** The first i instructions express_create stores. */
  function MaterialiseTo(s: seq<char>, rpn: seq<Token>, i: nat): (r: seq<Token>)
    requires AllEmitted(s, rpn) && i <= |rpn|
    ensures |r| == i
    decreases i
  {
    if i == 0 then [] else MaterialiseTo(s, rpn, i - 1) + [Placed(s, rpn[i - 1], Offset(s, rpn, i - 1))]
  }

  /** The instructions express_create stores: each name and literal placed at its offset. */
  function Materialise(s: seq<char>, rpn: seq<Token>): seq<Token>
    requires AllEmitted(s, rpn)
  {
    MaterialiseTo(s, rpn, |rpn|)
  }

  /** Instruction j is token j with its text placed at the offset the tokens before it leave. */
  lemma {:induction false} MaterialisedAt(s: seq<char>, rpn: seq<Token>, i: nat, j: nat)
    requires AllEmitted(s, rpn) && j < i <= |rpn|
    ensures MaterialiseTo(s, rpn, i)[j] == Placed(s, rpn[j], Offset(s, rpn, j))
    decreases i
  {
    if j < i - 1 {
      MaterialisedAt(s, rpn, i - 1, j);
    }
  }

  /** Placing the text changes no instruction's kind, argument count or function id. */
  lemma MaterialiseKeepsShape(s: seq<char>, rpn: seq<Token>)
    requires AllEmitted(s, rpn)
    ensures SameShape(Materialise(s, rpn), rpn)
  {
    forall j | 0 <= j < |rpn|
      ensures Materialise(s, rpn)[j] == Placed(s, rpn[j], Offset(s, rpn, j))
    {
      MaterialisedAt(s, rpn, |rpn|, j);
    }
  }

  /** The reservation only grows along the output. */
  lemma {:induction false} ReservedGrows(rpn: seq<Token>, i: nat, j: nat)
    requires i <= j <= |rpn|
    ensures ReservedTo(rpn, i) <= ReservedTo(rpn, j)
    decreases j - i
  {
    if i < j {
      ReservedGrows(rpn, i, j - 1);
    }
  }

  /** The text of token i fits in the buffer express_create reserves. */
  lemma PlaceFits(s: seq<char>, rpn: seq<Token>, i: nat)
    requires AllEmitted(s, rpn) && i < |rpn|
    ensures Offset(s, rpn, i) + Needed(rpn[i]) <= Reserved(rpn)
  {
    OffsetWithin(s, rpn, i);
    ReservedGrows(rpn, i + 1, |rpn|);
  }

  /** The text a placed name or literal points at, followed by its NUL, lies in the buffer. */
  predicate Readable(buf: seq<char>, t: Token) {
    (t.kind == Ident || t.kind == StrLit) && t.payload.Text? ==>
      && t.payload.at + |t.payload.chars| < |buf|
      && buf[t.payload.at..t.payload.at + |t.payload.chars|] == t.payload.chars
      && buf[t.payload.at + |t.payload.chars|] == '\0'
  }

  /** Every instruction's text is readable in the buffer. */
  predicate AllReadable(buf: seq<char>, rpn: seq<Token>) {
    forall j :: 0 <= j < |rpn| ==> Readable(buf, rpn[j])
  }

  /** Writing past the end of the buffer's used part keeps all instructions readable. */
  lemma AllReadableGrows(a: seq<char>, b: seq<char>, rpn: seq<Token>)
    requires AllReadable(a, rpn) && |a| <= |b| && b[..|a|] == a
    ensures AllReadable(b, rpn)
  {
    forall j | 0 <= j < |rpn| ensures Readable(b, rpn[j]) {
      ReadablePrefix(a, b, rpn[j]);
    }
  }

  /** One more token, readable in a buffer that extends the old one, keeps the whole RPN readable. */
  lemma AllReadableSnoc(a: seq<char>, b: seq<char>, rpn: seq<Token>, t: Token)
    requires AllReadable(a, rpn) && |a| <= |b| && b[..|a|] == a && Readable(b, t)
    ensures AllReadable(b, rpn + [t])
  {
    AllReadableGrows(a, b, rpn);
  }

  /** Text readable in a buffer stays readable once more is written after it. */
  lemma ReadablePrefix(a: seq<char>, b: seq<char>, t: Token)
    requires Readable(a, t) && |a| <= |b| && b[..|a|] == a
    ensures Readable(b, t)
  {
    if (t.kind == Ident || t.kind == StrLit) && t.payload.Text? {
      var at, n := t.payload.at, |t.payload.chars|;
      forall k | 0 <= k < |a| ensures b[k] == a[k] {
        assert b[..|a|][k] == b[k];
      }
      assert b[at..at + n] == a[at..at + n];
    }
  }

  /** copystr's loop on a double-quoted literal: de-escape from i up to the closing quote. */
  method CopyEscaped(dest: array<char>, off: nat, s: seq<char>, i0: nat) returns (l: nat)
    requires QuoteScan(s, i0).Some? && off + |Unescape(s, i0)| < dest.Length
    modifies dest
    ensures l == |Unescape(s, i0)|
    ensures dest[off..off + l] == Unescape(s, i0)
    ensures forall k :: 0 <= k < dest.Length && !(off <= k < off + l) ==> dest[k] == old(dest[k])
  {
    ghost var want := Unescape(s, i0);
    ghost var written: seq<char> := [];
    var i := i0;
    l := 0;
    while s[i] != '"'
      invariant QuoteScan(s, i).Some?
      invariant |written| == l && want == written + Unescape(s, i)
      invariant off + |want| < dest.Length
      invariant forall k :: 0 <= k < l ==> dest[off + k] == written[k]
      invariant forall k :: 0 <= k < dest.Length && !(off <= k < off + l) ==> dest[k] == old(dest[k])
      decreases |s| - i
    {
      i, l, written := CopyEscapedChar(dest, off, s, i, l, want, written);
    }
    assert dest[off..off + l] == written;
  }

  /** One pass of copystr's loop: skip a backslash, then copy one character to off + l. */
  method CopyEscapedChar(dest: array<char>, off: nat, s: seq<char>, i: nat, l: nat,
                         ghost want: seq<char>, ghost written: seq<char>)
    returns (j: nat, l': nat, ghost written': seq<char>)
    requires QuoteScan(s, i).Some? && s[i] != '"'
    requires |written| == l && want == written + Unescape(s, i) && off + |want| < dest.Length
    requires forall k :: 0 <= k < l ==> dest[off + k] == written[k]
    modifies dest
    ensures QuoteScan(s, j).Some? && i < j
    ensures l' == l + 1 && |written'| == l' && want == written' + Unescape(s, j)
    ensures forall k :: 0 <= k < l' ==> dest[off + k] == written'[k]
    ensures forall k :: 0 <= k < dest.Length && k != off + l ==> dest[k] == old(dest[k])
  {
    j := i;
    if s[j] == '\\' {
      j := j + 1;
    }
    assert Unescape(s, i) == [s[j]] + Unescape(s, j + 1);
    dest[off + l] := s[j];
    written' := written + [s[j]];
    assert want == written' + Unescape(s, j + 1);
    j, l' := j + 1, l + 1;
  }

  /** copystr's memcpy: count characters from index from. */
  method CopyRun(dest: array<char>, off: nat, s: seq<char>, from: nat, count: nat)
    requires from + count <= |s| && off + count <= dest.Length
    modifies dest
    ensures dest[off..off + count] == s[from..from + count]
    ensures forall k :: 0 <= k < dest.Length && !(off <= k < off + count) ==> dest[k] == old(dest[k])
  {
    var l := 0;
    while l < count
      invariant l <= count
      invariant dest[off..off + l] == s[from..from + l]
      invariant forall k :: 0 <= k < dest.Length && !(off <= k < off + l) ==> dest[k] == old(dest[k])
    {
      dest[off + l] := s[from + l];
      l := l + 1;
    }
  }

  /** copystr: write the de-escaped text at off, then a NUL; return the size used. */
  method CopyStr(dest: array<char>, off: nat, s: seq<char>, t: Token) returns (n: nat)
    requires Emitted(s, t) && (t.kind == Ident || t.kind == StrLit)
    requires off + t.payload.len + 1 <= dest.Length
    modifies dest
    ensures n == |Copied(s, t)| + 1
    ensures dest[off..off + n] == Copied(s, t) + ['\0']
    ensures forall k :: 0 <= k < dest.Length && !(off <= k < off + n) ==> dest[k] == old(dest[k])
  {
    var pos, len := t.payload.pos, t.payload.len;
    CopiedForms(s, t);
    var l;
    if s[pos] == '"' {
      l := CopyEscaped(dest, off, s, pos + 1);
    } else if s[pos] == '\'' {
      CopyRun(dest, off, s, pos + 1, len - 2);
      l := len - 2;
    } else {
      CopyRun(dest, off, s, pos, len);
      l := len;
    }
    dest[off + l] := '\0';
    n := l + 1;
    assert dest[off..off + n] == dest[off..off + l] + ['\0'];
  }
}
