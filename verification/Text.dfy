/** Decimal numbers, and texts with numbers in fixed places. */
module Text {
  import opened Wrappers

  predicate IsDigit(c: char) {
    '0' <= c <= '9'
  }

  predicate Digits(s: string) {
    forall c | c in s :: IsDigit(c)
  }

  function Digit(d: nat): (c: char)
    requires d < 10
    ensures IsDigit(c)
  {
    (('0' as int) + d) as char
  }

  function Decimal(n: nat): (r: string)
    ensures |r| > 0 && Digits(r)
  {
    if n < 10 then [Digit(n)] else Decimal(n / 10) + [Digit(n % 10)]
  }

  function Value(s: string): nat
    requires Digits(s)
  {
    if s == "" then 0
    else
      var last := s[|s| - 1];
      assert IsDigit(last) && Digits(s[..|s| - 1]);
      10 * Value(s[..|s| - 1]) + (last as int - '0' as int)
  }

  lemma {:induction false} ValueOfDecimal(n: nat)
    ensures Value(Decimal(n)) == n
  {
    if n >= 10 {
      ValueOfDecimal(n / 10);
    }
  }

  function Power10(k: nat): nat {
    if k == 0 then 1 else 10 * Power10(k - 1)
  }

  /** A number has at most `k` digits exactly when it is below 10^k. */
  lemma {:induction false} DigitCount(n: nat, k: nat)
    requires k > 0
    ensures |Decimal(n)| <= k <==> n < Power10(k)
  {
    if k == 1 {
      assert Power10(1) == 10 * Power10(0);
    } else if n >= 10 {
      DigitCount(n / 10, k - 1);
    } else {
      Power10Grows(k);
    }
  }

  lemma {:induction false} Power10Grows(k: nat)
    requires k > 0
    ensures Power10(k) >= 10
  {
    if k > 1 {
      Power10Grows(k - 1);
    }
  }

  /** The text filled up on the left with zeros to the given width. */
  function Pad(s: string, width: nat): (r: string)
    ensures |r| == if |s| < width then width else |s|
    ensures Digits(s) ==> Digits(r)
    decreases width - |s|
  {
    if |s| >= width then s else Pad("0" + s, width)
  }

  lemma {:induction false} LeadingZero(s: string)
    requires Digits(s)
    ensures Digits("0" + s) && Value("0" + s) == Value(s)
  {
    if s == "" {
      assert ("0" + s)[..0] == "";
    } else {
      LeadingZero(s[..|s| - 1]);
      assert ("0" + s)[..|s|] == "0" + s[..|s| - 1];
    }
  }

  lemma {:induction false} ValueOfPad(s: string, width: nat)
    requires Digits(s)
    ensures Value(Pad(s, width)) == Value(s)
    decreases width - |s|
  {
    if |s| < width {
      LeadingZero(s);
      ValueOfPad("0" + s, width);
    }
  }

  // ---- Reading ----------------------------------------------------------------------

  function Expect(s: string, word: string): Option<string> {
    if word <= s then Some(s[|word|..]) else None
  }

  function DigitRun(s: string): (n: nat)
    ensures n <= |s| && Digits(s[..n])
  {
    if s != "" && IsDigit(s[0]) then
      assert s[..1 + DigitRun(s[1..])] == [s[0]] + s[1..][..DigitRun(s[1..])];
      1 + DigitRun(s[1..])
    else 0
  }

  function Number(s: string): (r: Option<(nat, string)>)
    ensures r.Some? ==> |r.value.1| < |s|
  {
    var n := DigitRun(s);
    if n == 0 then None else Some((Value(s[..n]), s[n..]))
  }

  predicate EndsWithoutDigit(s: string) {
    s != "" && !IsDigit(s[|s| - 1])
  }

  predicate StartsWithoutDigit(s: string) {
    s == "" || !IsDigit(s[0])
  }

  lemma {:induction false} RunOf(digits: string, rest: string)
    requires Digits(digits) && StartsWithoutDigit(rest)
    ensures DigitRun(digits + rest) == |digits|
  {
    if digits == "" {
      assert digits + rest == rest;
    } else {
      assert (digits + rest)[1..] == digits[1..] + rest;
      RunOf(digits[1..], rest);
    }
  }

  lemma ReadsNumber(n: nat, rest: string)
    requires StartsWithoutDigit(rest)
    ensures Number(Decimal(n) + rest) == Some((n, rest))
  {
    RunOf(Decimal(n), rest);
    ValueOfDecimal(n);
    assert (Decimal(n) + rest)[..|Decimal(n)|] == Decimal(n);
  }

  /** The number right before `ending` at the end of the text, when it follows `before`. */
  function LastNumber(s: string, before: string, ending: string): Option<nat> {
    if |s| < |ending| || s[|s| - |ending|..] != ending then None
    else
      var front := s[..|s| - |ending|];
      var start := |front| - TrailingRun(front);
      if start == |front| || start < |before| || front[start - |before|..start] != before then None
      else Some(Value(front[start..]))
  }

  function TrailingRun(s: string): (n: nat)
    ensures n <= |s| && Digits(s[|s| - n..])
  {
    if s != "" && IsDigit(s[|s| - 1]) then
      var others := s[..|s| - 1];
      assert s[|s| - 1 - TrailingRun(others)..] == others[|others| - TrailingRun(others)..] + [s[|s| - 1]];
      1 + TrailingRun(others)
    else 0
  }

  lemma {:induction false} TrailingRunOf(front: string, digits: string)
    requires Digits(digits) && EndsWithoutDigit(front)
    ensures TrailingRun(front + digits) == |digits|
  {
    var s := front + digits;
    if digits == "" {
      assert s == front;
    } else {
      assert s[..|s| - 1] == front + digits[..|digits| - 1];
      TrailingRunOf(front, digits[..|digits| - 1]);
    }
  }

  lemma ReadsLastNumber(front: string, before: string, n: nat, ending: string)
    requires EndsWithoutDigit(before)
    ensures LastNumber(front + before + Decimal(n) + ending, before, ending) == Some(n)
  {
    var s := front + before + Decimal(n) + ending;
    assert s[|s| - |ending|..] == ending;
    assert s[..|s| - |ending|] == front + before + Decimal(n);
    TrailingRunOf(front + before, Decimal(n));
    ValueOfDecimal(n);
  }

  // ---- Templates ------------------------------------------------------------------------

  /** A text with holes for numbers. */
  datatype Token = Word(text: string) | Hole

  type Template = seq<Token>

  function Holes(t: Template): nat {
    if t == [] then 0 else (if t[0].Hole? then 1 else 0) + Holes(t[1..])
  }

  function Fill(t: Template, ns: seq<nat>): string {
    if t == [] then ""
    else
      match t[0]
      case Word(w) => w + Fill(t[1..], ns)
      case Hole => if ns == [] then Fill(t[1..], ns) else Decimal(ns[0]) + Fill(t[1..], ns[1..])
  }

  predicate HasHoles(t: Template, n: nat) {
    Separated(t) && Holes(t) == n
  }

  /** The numbers in the holes of a text that starts like the template, and what follows. */
  function Match(t: Template, s: string): Option<(seq<nat>, string)> {
    if t == [] then Some(([], s))
    else
      match t[0]
      case Word(w) => if w <= s then Match(t[1..], s[|w|..]) else None
      case Hole =>
        match Number(s)
        case None => None
        case Some(found) =>
          match Match(t[1..], found.1)
          case None => None
          case Some(others) => Some(([found.0] + others.0, others.1))
  }

  /** Every number is followed by a word that does not go on with digits. */
  predicate Separated(t: Template) {
    forall i | 0 <= i < |t| && t[i].Hole? :: i + 1 < |t| && t[i + 1].Word? && t[i + 1].text != "" && !IsDigit(t[i + 1].text[0])
  }

  lemma {:induction false} Matches(t: Template, ns: seq<nat>, rest: string)
    requires HasHoles(t, |ns|)
    ensures Match(t, Fill(t, ns) + rest) == Some((ns, rest))
  {
    if t == [] {
      assert Fill(t, ns) + rest == rest && ns == [];
    } else {
      var s := Fill(t, ns) + rest;
      assert Separated(t[1..]);
      if t[0].Hole? {
        var following := Fill(t[1..], ns[1..]) + rest;
        assert s == Decimal(ns[0]) + following;
        assert t[1].Word? && following[0] == t[1].text[0];
        ReadsNumber(ns[0], following);
        Matches(t[1..], ns[1..], rest);
        assert [ns[0]] + ns[1..] == ns;
      } else {
        var following := Fill(t[1..], ns) + rest;
        assert s == t[0].text + following;
        assert s[|t[0].text|..] == following;
        Matches(t[1..], ns, rest);
      }
    }
  }

  // ---- Lines -------------------------------------------------------------------------------

  /** The lines joined with a separator. */
  function Join(lines: seq<string>, separator: char): string
    requires |lines| > 0
  {
    if |lines| == 1 then lines[0] else lines[0] + [separator] + Join(lines[1..], separator)
  }

  /** The parts of `s` between separators. */
  function Split(s: string, separators: set<char>): (r: seq<string>)
    ensures |r| > 0
  {
    if s == "" then [""]
    else
      var rest := Split(s[1..], separators);
      if s[0] in separators then [""] + rest else [[s[0]] + rest[0]] + rest[1..]
  }

  lemma {:induction false} SplitOne(line: string, separator: char)
    requires separator !in line
    ensures Split(line, {separator}) == [line]
  {
    if line != "" {
      SplitOne(line[1..], separator);
      assert [line[0]] + line[1..] == line;
    }
  }

  lemma {:induction false} SplitFirst(line: string, rest: string, separator: char)
    requires separator !in line
    ensures Split(line + [separator] + rest, {separator}) == [line] + Split(rest, {separator})
  {
    var s := line + [separator] + rest;
    if line == "" {
      assert s[1..] == rest;
    } else {
      assert s[1..] == line[1..] + [separator] + rest;
      SplitFirst(line[1..], rest, separator);
      assert [line[0]] + line[1..] == line;
    }
  }

  lemma {:induction false} SplitOfJoin(lines: seq<string>, separator: char)
    requires |lines| > 0 && forall line | line in lines :: separator !in line
    ensures Split(Join(lines, separator), {separator}) == lines
  {
    if |lines| == 1 {
      SplitOne(lines[0], separator);
    } else {
      SplitOfJoin(lines[1..], separator);
      SplitFirst(lines[0], Join(lines[1..], separator), separator);
      assert [lines[0]] + lines[1..] == lines;
    }
  }
}
