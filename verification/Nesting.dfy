/** Delimiters between brackets or inside string literals do not split a text. */
module Nesting {
  import opened Wrappers
  import opened Scanner
  import opened Seqs
  import opened Text
  import opened Split

  /** Text as it is nested: words, bracketed stretches and string literals. */
  datatype Nest = Word(text: string) | Group(open: char, inner: seq<Nest>) | Quoted(quote: char, text: string)

  function Closing(open: char): char {
    if open == '{' then '}' else if open == '[' then ']' else if open == '(' then ')' else '>'
  }

  function WriteOne(n: Nest): string
    decreases n
  {
    match n
    case Word(t) => t
    case Group(open, inner) => [open] + Write(inner) + [Closing(open)]
    case Quoted(quote, t) => [quote] + t + [quote]
  }

  function Write(ns: seq<Nest>): string
    decreases ns
  {
    if ns == [] then "" else WriteOne(ns[0]) + Write(ns[1..])
  }

  /** A character that means nothing to the scanner. */
  predicate IsQuiet(c: char) {
    c !in {'{', '}', '[', ']', '(', ')', '<', '>', '"', '\'', '/'}
  }

  predicate WellNested(n: Nest)
    decreases n
  {
    match n
    case Word(t) => forall i :: 0 <= i < |t| ==> IsQuiet(t[i])
    case Group(open, inner) => open in {'{', '[', '(', '<'} && AllNested(inner)
    case Quoted(quote, t) => quote in {'"', '\''} && quote !in t && '\\' !in t
  }

  predicate AllNested(ns: seq<Nest>)
    decreases ns
  {
    ns == [] || (WellNested(ns[0]) && AllNested(ns[1..]))
  }

  /** No delimiter stands in a word of the outermost level. */
  predicate NoneOutside(ns: seq<Nest>, delims: set<char>) {
    ns == [] || ((ns[0].Word? ==> forall c :: c in ns[0].text ==> c !in delims) && NoneOutside(ns[1..], delims))
  }

  /** The scanner is where it was, but for the last character. */
  predicate Back(s: State, t: State) {
    t == s.(prev := t.prev) && t.prev != Some('/')
  }

  /** Outside strings and comments, and not about to enter a comment. */
  predicate Ready(s: State) {
    !s.Ignored() && !s.escape && s.prev != Some('/')
  }

  ghost predicate Passes(s: State, text: string, delims: set<char>) {
    Back(s, Scan(s, text)) && Uncut(s, text, delims)
  }

  lemma PassesConcat(s: State, a: string, b: string, delims: set<char>)
    requires Ready(s) && Passes(s, a, delims) && Passes(Scan(s, a), b, delims)
    ensures Passes(s, a + b, delims)
  {
    ScanConcat(s, a, b);
    UncutConcat(s, a, b, delims);
  }

  lemma {:induction false} WordPasses(s: State, t: string, delims: set<char>)
    requires Ready(s) && (forall i :: 0 <= i < |t| ==> IsQuiet(t[i]))
    requires !s.Level() || forall c :: c in t ==> c !in delims
    ensures Passes(s, t, delims)
    decreases |t|
  {
    if t != "" {
      var next := Observed(s, t[0]);
      assert IsQuiet(t[0]) && t[0] in t;
      assert forall c :: c in t[1..] ==> c in t;
      WordPasses(next, t[1..], delims);
      UncutStep(s, t, delims);
    }
  }

  /** Inside of a string literal without escapes. */
  lemma {:induction false} LiteralPasses(s: State, t: string, quote: char, delims: set<char>)
    requires s.quote == Some(quote) && !s.line && !s.block && !s.escape && quote !in t && '\\' !in t
    ensures Scan(s, t) == s.(prev := Scan(s, t).prev) && Uncut(s, t, delims)
    decreases |t|
  {
    if t != "" {
      assert t[0] in t && forall c :: c in t[1..] ==> c in t;
      LiteralPasses(Observed(s, t[0]), t[1..], quote, delims);
      UncutStep(s, t, delims);
    }
  }

  predicate Disjoint(delims: set<char>) {
    forall c :: c in delims ==> IsQuiet(c)
  }

  /** One character that is no delimiter. */
  lemma OneStep(s: State, c: char, delims: set<char>)
    requires c !in delims
    ensures Scan(s, [c]) == Observed(s, c) && Uncut(s, [c], delims)
  {
    assert [c][1..] == "";
    assert Scan(Observed(s, c), "") == Observed(s, c);
    UncutStep(s, [c], delims);
    assert Uncut(Observed(s, c), "", delims);
  }

  lemma QuotedPasses(s: State, quote: char, t: string, delims: set<char>)
    requires Ready(s) && quote in {'"', '\''} && quote !in t && '\\' !in t && Disjoint(delims)
    ensures Passes(s, [quote] + t + [quote], delims)
  {
    var inside := Observed(s, quote);
    OneStep(s, quote, delims);
    LiteralPasses(inside, t, quote, delims);
    var there := Scan(inside, t);
    ScanConcat(s, [quote], t);
    UncutConcat(s, [quote], t, delims);
    OneStep(there, quote, delims);
    ScanConcat(s, [quote] + t, [quote]);
    UncutConcat(s, [quote] + t, [quote], delims);
  }

  /** Behind an opening bracket a delimiter does not count; behind the closing one all is as before. */
  lemma BracketsPass(s: State, open: char, t: string, delims: set<char>)
    requires Ready(s) && open in {'{', '[', '(', '<'} && Disjoint(delims)
    requires Passes(Observed(s, open), t, delims)
    ensures Passes(s, [open] + t + [Closing(open)], delims)
  {
    var inside := Observed(s, open);
    OneStep(s, open, delims);
    var there := Scan(inside, t);
    ScanConcat(s, [open], t);
    UncutConcat(s, [open], t, delims);
    OneStep(there, Closing(open), delims);
    ScanConcat(s, [open] + t, [Closing(open)]);
    UncutConcat(s, [open] + t, [Closing(open)], delims);
  }

  lemma Opened(s: State, open: char)
    requires Ready(s) && open in {'{', '[', '(', '<'}
    ensures Ready(Observed(s, open)) && !Observed(s, open).Level()
  {
  }

  lemma {:induction false} OnePasses(s: State, n: Nest, delims: set<char>)
    requires Ready(s) && WellNested(n) && Disjoint(delims)
    requires s.Level() && n.Word? ==> forall c :: c in n.text ==> c !in delims
    ensures Passes(s, WriteOne(n), delims)
    decreases n
  {
    match n
    case Word(t) => WordPasses(s, t, delims);
    case Group(open, inner) =>
      Opened(s, open);
      AllPass(Observed(s, open), inner, delims);
      BracketsPass(s, open, Write(inner), delims);
    case Quoted(quote, t) => QuotedPasses(s, quote, t, delims);
  }

  lemma {:induction false} AllPass(s: State, ns: seq<Nest>, delims: set<char>)
    requires Ready(s) && AllNested(ns) && Disjoint(delims) && (s.Level() ==> NoneOutside(ns, delims))
    ensures Passes(s, Write(ns), delims)
    decreases ns
  {
    if ns == [] {
      assert Uncut(s, "", delims);
    } else {
      OnePasses(s, ns[0], delims);
      var there := Scan(s, WriteOne(ns[0]));
      AllPass(there, ns[1..], delims);
      PassesConcat(s, WriteOne(ns[0]), Write(ns[1..]), delims);
    }
  }

  /**
   * A nested text is not split by delimiters between matching brackets of any of the four kinds, at any depth, or
   * inside of string literals; and a delimiter behind it counts again.
   */
  lemma NestedIsPart(ns: seq<Nest>, delims: set<char>)
    requires AllNested(ns) && Disjoint(delims) && NoneOutside(ns, delims) && Write(ns) != "" && IsTrimmed(Write(ns))
    ensures IsPart(Write(ns), delims) && EndsClosed(Write(ns))
  {
    AllPass(START, ns, delims);
  }

  /** So nested texts that are joined by a delimiter are split into exactly these texts. */
  lemma NestedTextsSplit(texts: seq<seq<Nest>>, written: seq<string>, sep: Separator, delims: set<char>)
    requires |written| == |texts| && sep.Fits(delims)
    requires forall i :: 0 <= i < |texts| ==>
               && written[i] == Write(texts[i]) && AllNested(texts[i]) && NoneOutside(texts[i], delims)
               && written[i] != "" && IsTrimmed(written[i])
    ensures Parts(Join(written, sep.Text()), delims) == written
  {
    forall i | 0 <= i < |written|
      ensures IsPart(written[i], delims) && EndsClosed(written[i])
    {
      NestedIsPart(texts[i], delims);
    }
    AllEndClosed(written);
    SplitOfJoin(written, sep, delims);
  }

  lemma {:induction false} AllEndClosed(ps: seq<string>)
    requires forall i :: 0 <= i < |ps| ==> EndsClosed(ps[i])
    ensures AllButLast(ps, EndsClosed)
  {
    if |ps| > 1 {
      AllEndClosed(ps[1..]);
    }
  }
}
