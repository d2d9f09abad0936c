/** The hand-written scanner over generated TypeScript: brackets, string literals and comments. */
module Scanner {
  import opened Wrappers

  /** The scanner's fields, as a value. Depths never go below zero. */
  datatype State = State(
    brace: nat, bracket: nat, paren: nat, angle: nat,
    quote: Option<char>, escape: bool, block: bool, line: bool, prev: Option<char>)
  {
    predicate Ignored() {
      quote.Some? || block || line
    }

    predicate Level() {
      brace == 0 && bracket == 0 && paren == 0 && angle == 0
    }

    /** Outside brackets, strings and comments: the only places where a delimiter counts. */
    predicate AtTop() {
      !Ignored() && Level()
    }
  }

  const START := State(0, 0, 0, 0, None, false, false, false, None)

  function Down(depth: nat): nat {
    if depth > 0 then depth - 1 else 0
  }

  /** One character seen by the scanner. */
  function Observed(s: State, ch: char): State {
    var s' := s.(prev := Some(ch));
    if s.line then
      if ch == '\n' then s'.(line := false) else s'
    else if s.block then
      if s.prev == Some('*') && ch == '/' then s.(block := false, prev := None) else s'
    else if s.quote.Some? then
      if s.escape then s'.(escape := false)
      else if ch == '\\' then s'.(escape := true)
      else if ch == s.quote.value then s'.(quote := None)
      else s'
    else if s.prev == Some('/') && ch == '/' then s'.(line := true)
    else if s.prev == Some('/') && ch == '*' then s'.(block := true)
    else Bracketed(s', ch)
  }

  /** The effect of a character that stands outside strings and comments and opens no comment. */
  function Bracketed(s: State, ch: char): State {
    match ch
    case '"' => s.(quote := Some(ch))
    case '\'' => s.(quote := Some(ch))
    case '{' => s.(brace := s.brace + 1)
    case '}' => s.(brace := Down(s.brace))
    case '[' => s.(bracket := s.bracket + 1)
    case ']' => s.(bracket := Down(s.bracket))
    case '(' => s.(paren := s.paren + 1)
    case ')' => s.(paren := Down(s.paren))
    case '<' => s.(angle := s.angle + 1)
    case '>' => s.(angle := Down(s.angle))
    case _ => s
  }

  /** The scanner after a whole text. */
  function Scan(s: State, text: string): State
    decreases |text|
  {
    if text == "" then s else Scan(Observed(s, text[0]), text[1..])
  }

  lemma {:induction false} ScanConcat(s: State, a: string, b: string)
    ensures Scan(s, a + b) == Scan(Scan(s, a), b)
    decreases |a|
  {
    if a == "" {
      assert a + b == b;
    } else {
      assert (a + b)[1..] == a[1..] + b;
      ScanConcat(Observed(s, a[0]), a[1..], b);
    }
  }

  lemma ScanSnoc(s: State, a: string, ch: char)
    ensures Scan(s, a + [ch]) == Observed(Scan(s, a), ch)
  {
    ScanConcat(s, a, [ch]);
    assert Scan(Scan(s, a), [ch]) == Scan(Observed(Scan(s, a), ch), "");
  }

  /** The scanner as the source holds it: an object whose fields `observe` updates. */
  class ScanState {
    var brace: nat
    var bracket: nat
    var paren: nat
    var angle: nat
    var quote: Option<char>
    var escape: bool
    var block: bool
    var line: bool
    var prev: Option<char>

    function View(): State
      reads this
    {
      State(brace, bracket, paren, angle, quote, escape, block, line, prev)
    }

    predicate AtTop()
      reads this
      ensures AtTop() == View().AtTop()
    {
      !(quote.Some? || block || line) && brace == 0 && bracket == 0 && paren == 0 && angle == 0
    }

    constructor ()
      ensures View() == START
    {
      brace, bracket, paren, angle := 0, 0, 0, 0;
      quote, escape, block, line, prev := None, false, false, false, None;
    }

    method Observe(ch: char)
      modifies this
      ensures View() == Observed(old(View()), ch)
    {
      if line {
        if ch == '\n' {
          line := false;
        }
        prev := Some(ch);
        return;
      }
      if block {
        if prev == Some('*') && ch == '/' {
          block := false;
          prev := None;
        } else {
          prev := Some(ch);
        }
        return;
      }
      if quote.Some? {
        if escape {
          escape := false;
        } else if ch == '\\' {
          escape := true;
        } else if ch == quote.value {
          quote := None;
        }
        prev := Some(ch);
        return;
      }
      if prev == Some('/') && ch == '/' {
        line := true;
      } else if prev == Some('/') && ch == '*' {
        block := true;
      } else {
        match ch
        case '"' => quote := Some(ch);
        case '\'' => quote := Some(ch);
        case '{' => brace := brace + 1;
        case '}' => brace := Down(brace);
        case '[' => bracket := bracket + 1;
        case ']' => bracket := Down(bracket);
        case '(' => paren := paren + 1;
        case ')' => paren := Down(paren);
        case '<' => angle := angle + 1;
        case '>' => angle := Down(angle);
        case _ =>
      }
      prev := Some(ch);
    }
  }

  // ----- whitespace

  /** `char::is_whitespace`: the code points with the Unicode property White_Space. */
  predicate IsSpace(c: char) {
    || '\t' <= c <= '\r' || c == ' ' || c == '\U{85}' || c == '\U{A0}' || c == '\U{1680}'
    || '\U{2000}' <= c <= '\U{200A}' || c == '\U{2028}' || c == '\U{2029}' || c == '\U{202F}'
    || c == '\U{205F}' || c == '\U{3000}'
  }

  /** The 25 code points of the property. */
  lemma WhiteSpace(c: char)
    ensures IsSpace(c) <==>
            c as int in {0x9, 0xA, 0xB, 0xC, 0xD, 0x20, 0x85, 0xA0, 0x1680,
                         0x2000, 0x2001, 0x2002, 0x2003, 0x2004, 0x2005, 0x2006, 0x2007, 0x2008, 0x2009, 0x200A,
                         0x2028, 0x2029, 0x202F, 0x205F, 0x3000}
  {
  }

  predicate Blank(t: string) {
    forall i :: 0 <= i < |t| ==> IsSpace(t[i])
  }

  function TrimStart(t: string): (r: string)
    ensures |r| <= |t|
  {
    if t != "" && IsSpace(t[0]) then TrimStart(t[1..]) else t
  }

  function TrimEnd(t: string): string {
    if t != "" && IsSpace(t[|t| - 1]) then TrimEnd(t[..|t| - 1]) else t
  }

  lemma {:induction false} TrimStartCuts(t: string)
    ensures var r := TrimStart(t);
            && |r| <= |t| && r == t[|t| - |r|..] && Blank(t[..|t| - |r|])
            && (r != "" ==> !IsSpace(r[0]))
    decreases |t|
  {
    if t != "" && IsSpace(t[0]) {
      TrimStartCuts(t[1..]);
    }
  }

  lemma {:induction false} TrimEndCuts(t: string)
    ensures var r := TrimEnd(t);
            && |r| <= |t| && r == t[..|r|] && Blank(t[|r|..])
            && (r != "" ==> !IsSpace(r[|r| - 1]))
    decreases |t|
  {
    if t != "" && IsSpace(t[|t| - 1]) {
      var u := t[..|t| - 1];
      TrimEndCuts(u);
      var k := |TrimEnd(u)|;
      assert u[..k] == t[..k] && t[k..] == u[k..] + [t[|t| - 1]];
    }
  }

  function Trim(t: string): string {
    TrimEnd(TrimStart(t))
  }

  predicate IsTrimmed(t: string) {
    t != "" ==> !IsSpace(t[0]) && !IsSpace(t[|t| - 1])
  }

  lemma TrimIsTrimmed(t: string)
    ensures IsTrimmed(Trim(t))
  {
    var a := TrimStart(t);
    var b := TrimEnd(a);
    TrimStartCuts(t);
    TrimEndCuts(a);
    if b != "" {
      assert b[0] == a[0];
    }
  }

  lemma {:induction false} TrimStartBlank(before: string, t: string)
    requires Blank(before)
    ensures TrimStart(before + t) == TrimStart(t)
    decreases |before|
  {
    if before == "" {
      assert before + t == t;
    } else {
      assert (before + t)[1..] == before[1..] + t;
      TrimStartBlank(before[1..], t);
    }
  }

  lemma {:induction false} TrimEndBlank(t: string, after: string)
    requires Blank(after)
    ensures TrimEnd(t + after) == TrimEnd(t)
    decreases |after|
  {
    if after == "" {
      assert t + after == t;
    } else {
      var short := after[..|after| - 1];
      assert (t + after)[..|t + after| - 1] == t + short;
      TrimEndBlank(t, short);
    }
  }

  /** Trimming is the only way to cut blanks off both ends of a text that starts and ends with a visible character. */
  lemma TrimUnique(before: string, t: string, after: string)
    requires Blank(before) && Blank(after) && IsTrimmed(t) && t != ""
    ensures Trim(before + t + after) == t
  {
    assert before + t + after == before + (t + after);
    TrimStartBlank(before, t + after);
    TrimEndBlank(t, after);
  }

  lemma TrimParts(t: string) returns (before: string, after: string)
    ensures t == before + Trim(t) + after && Blank(before) && Blank(after)
  {
    var a := TrimStart(t);
    var b := TrimEnd(a);
    TrimStartCuts(t);
    TrimEndCuts(a);
    before, after := t[..|t| - |a|], a[|b|..];
    assert t == before + a && a == b + after;
  }

  /** Trimming ignores blanks in front. */
  lemma TrimSkipsBlank(before: string, t: string)
    requires Blank(before)
    ensures Trim(before + t) == Trim(t)
  {
    TrimStartBlank(before, t);
  }
}
