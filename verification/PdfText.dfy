/** Literal strings of a PDF content stream (ISO 32000-1, section 7.3.4.2). */
module PdfText {
  import opened Wrappers

  predicate Printable(c: char) {
    '\U{20}' <= c <= '\U{7e}'
  }

  predicate Combining(c: char) {
    '\U{0300}' <= c <= '\U{036f}'
  }

  function Keep(s: string, p: char -> bool): string {
    if s == "" then "" else (if p(s[0]) then [s[0]] else "") + Keep(s[1..], p)
  }

  /** What is left of a text when it is decomposed (`nfkd`) and cut down to printable ASCII. */
  function Ascii(nfkd: string -> string, s: string): string {
    Keep(Keep(nfkd(s), c => !Combining(c)), c => Printable(c))
  }

  function ReplaceAll(s: string, c: char, text: string): string {
    if s == "" then "" else (if s[0] == c then text else [s[0]]) + ReplaceAll(s[1..], c, text)
  }

  function Escape(t: string): string {
    ReplaceAll(ReplaceAll(ReplaceAll(t, '\\', "\\\\"), '(', "\\("), ')', "\\)")
  }

  function EscapePdf(nfkd: string -> string, s: string): string {
    Escape(Ascii(nfkd, s))
  }

  // ---- Reading a literal -----------------------------------------------------------------

  predicate Octal(c: char) {
    '0' <= c <= '7'
  }

  /** The character that a reverse solidus before `c` stands for. */
  function Escaped(c: char): string {
    match c
    case 'n' => "\n"
    case 'r' => "\r"
    case 't' => "\t"
    case 'b' => "\U{8}"
    case 'f' => "\U{c}"
    case '\n' => ""
    case _ => [c]
  }

  /**
    The text of a literal string after its opening parenthesis, and what follows the
    closing one. Parentheses may nest; octal codes are not read.
   */
  function ReadLiteral(s: string, depth: nat): Option<(string, string)> {
    if s == "" then None
    else if s[0] == ')' && depth == 0 then Some(("", s[1..]))
    else if s[0] == '\\' then
      if |s| < 2 || Octal(s[1]) then None
      else InFront(Escaped(s[1]), ReadLiteral(s[2..], depth))
    else
      var inner := if s[0] == '(' then depth + 1 else if s[0] == ')' then depth - 1 else depth;
      InFront([s[0]], ReadLiteral(s[1..], inner))
  }

  function InFront(text: string, read: Option<(string, string)>): Option<(string, string)> {
    match read
    case None => None
    case Some(found) => Some((text + found.0, found.1))
  }

  // ---- Escaping loses nothing ----------------------------------------------------------

  predicate Special(c: char) {
    c in {'\\', '(', ')'}
  }

  lemma {:induction false} ReplaceConcat(a: string, b: string, c: char, text: string)
    ensures ReplaceAll(a + b, c, text) == ReplaceAll(a, c, text) + ReplaceAll(b, c, text)
  {
    if a == "" {
      assert a + b == b;
    } else {
      assert (a + b)[1..] == a[1..] + b;
      ReplaceConcat(a[1..], b, c, text);
    }
  }

  lemma ReplaceShort(s: string, c: char, text: string)
    ensures |s| == 1 ==> ReplaceAll(s, c, text) == if s[0] == c then text else s
    ensures |s| == 2 ==> ReplaceAll(s, c, text) == (if s[0] == c then text else [s[0]]) + (if s[1] == c then text else [s[1]])
  {
    if |s| == 2 {
      assert ReplaceAll(s[1..], c, text) == (if s[1] == c then text else [s[1]]) + ReplaceAll(s[1..][1..], c, text);
    }
  }

  function EscapedChar(c: char): string {
    if Special(c) then ['\\', c] else [c]
  }

  lemma EscapeOne(c: char)
    ensures Escape([c]) == EscapedChar(c)
  {
    var first := ReplaceAll([c], '\\', "\\\\");
    ReplaceShort([c], '\\', "\\\\");
    ReplaceShort(first, '(', "\\(");
    ReplaceShort(ReplaceAll(first, '(', "\\("), ')', "\\)");
  }

  lemma EscapeConcat(a: string, b: string)
    ensures Escape(a + b) == Escape(a) + Escape(b)
  {
    ReplaceConcat(a, b, '\\', "\\\\");
    ReplaceConcat(ReplaceAll(a, '\\', "\\\\"), ReplaceAll(b, '\\', "\\\\"), '(', "\\(");
    ReplaceConcat(ReplaceAll(ReplaceAll(a, '\\', "\\\\"), '(', "\\("), ReplaceAll(ReplaceAll(b, '\\', "\\\\"), '(', "\\("), ')', "\\)");
  }

  /** A reader finds the text that was escaped, up to the closing parenthesis. */
  lemma {:induction false} ReadsEscaped(t: string, rest: string)
    ensures ReadLiteral(Escape(t) + ")" + rest, 0) == Some((t, rest))
  {
    var s := Escape(t) + ")" + rest;
    if t == "" {
      assert s == ")" + rest && s[1..] == rest;
    } else {
      var others := Escape(t[1..]) + ")" + rest;
      assert t == [t[0]] + t[1..];
      EscapeConcat([t[0]], t[1..]);
      EscapeOne(t[0]);
      assert s == EscapedChar(t[0]) + others;
      ReadsEscaped(t[1..], rest);
      assert s[|EscapedChar(t[0])|..] == others;
    }
  }

  lemma {:induction false} KeepsOnly(s: string, p: char -> bool)
    ensures forall c | c in Keep(s, p) :: p(c) && c in s
  {
    if s != "" {
      KeepsOnly(s[1..], p);
    }
  }

  lemma {:induction false} EscapedPrintable(t: string)
    requires forall c | c in t :: Printable(c)
    ensures forall c | c in Escape(t) :: Printable(c)
  {
    if t != "" {
      EscapedPrintable(t[1..]);
      assert t == [t[0]] + t[1..];
      EscapeConcat([t[0]], t[1..]);
      EscapeOne(t[0]);
    }
  }

  lemma EscapePdfPrintable(nfkd: string -> string, s: string)
    ensures forall c | c in Ascii(nfkd, s) :: Printable(c)
    ensures forall c | c in EscapePdf(nfkd, s) :: Printable(c)
  {
    KeepsOnly(Keep(nfkd(s), c => !Combining(c)), c => Printable(c));
    EscapedPrintable(Ascii(nfkd, s));
  }
}
