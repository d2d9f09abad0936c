/** The filters over generated TypeScript files settle in one pass, whatever the ends of the lines look like. */
module Settling {
  import opened Wrappers
  import opened Text
  import opened Scanner
  import opened Seqs
  import opened Split
  import opened Braces
  import opened Imports
  import opened TypeFiles
  import opened Filters
  import opened Properties
  import opened Returns

  // ----- reading a name ignores carriage returns

  function UnixName(name: Option<string>): Option<string> {
    if name.Some? then Some(Unix(name.value)) else None
  }

  lemma {:induction false} TrimStartUnix(t: string)
    ensures TrimStart(Unix(t)) == Unix(TrimStart(t))
    decreases |t|
  {
    if t != "" {
      if IsSpace(t[0]) {
        TrimStartUnix(t[1..]);
        assert !(t[0] == '\r' && |t| > 1 && t[1] == '\n') ==> Unix(t)[1..] == Unix(t[1..]);
      } else {
        UnixEnds(t);
      }
    }
  }

  /** A first character that is no part of a line end. */
  lemma FirstCharUnix(t: string, ch: char)
    requires ch != '\r' && ch != '\n'
    ensures [ch] <= Unix(t) <==> [ch] <= t
    ensures [ch] <= t ==> Unix(t) == [ch] + Unix(t[1..]) && Unix(t)[1..] == Unix(t[1..])
  {
    if t != "" {
      UnixEnds(t);
    }
  }

  lemma CommentOpensUnix(t: string)
    ensures "/*" <= Unix(t) <==> "/*" <= t
    ensures "/*" <= t ==> Unix(t)[2..] == Unix(t[2..])
  {
    FirstCharUnix(t, '/');
    if "/" <= t {
      FirstCharUnix(t[1..], '*');
      assert "/*" <= t <==> "*" <= t[1..];
      assert "/*" <= Unix(t) <==> "*" <= Unix(t)[1..];
      assert "/*" <= t ==> t[1..][1..] == t[2..] && Unix(t)[1..][1..] == Unix(t)[2..];
    }
  }

  lemma CutAround(p: string, m: string, z: string)
    requires m != "" && m[0] != '\n' && m[|m| - 1] != '\r' && '\n' !in m
    ensures Unix(p + m + z) == Unix(p) + m + Unix(z)
  {
    NoNewlineSame(m);
    UnixConcat(p, m);
    UnixConcat(p + m, z);
  }

  /** The text behind the first occurrence of a text. */
  lemma BehindFirst(t: string, m: string, i: nat) returns (p: string, z: string)
    requires FoundAt(t, m, i)
    ensures t == p + m + z && |p| == i && z == t[i + |m|..]
  {
    p, z := t[..i], t[i + |m|..];
    assert t[i..] == m + t[i..][|m|..] && t[i..][|m|..] == z;
    assert t == p + t[i..];
  }

  lemma CommentEndsUnix(t: string)
    ensures FindText(Unix(t), "*/").Some? <==> FindText(t, "*/").Some?
    ensures FindText(t, "*/").Some? ==>
              Unix(t)[FindText(Unix(t), "*/").value + 2..] == Unix(t[FindText(t, "*/").value + 2..])
  {
    FoundUnix(t, "*/");
    if FindText(t, "*/").Some? {
      var p, z := BehindFirst(t, "*/", FindText(t, "*/").value);
      CutAround(p, "*/", z);
      FirstUnix(p, "*/", z, Unix(z), t, Unix(t));
      assert (Unix(p) + "*/" + Unix(z))[|Unix(p)| + 2..] == Unix(z);
    }
  }

  lemma {:induction false} WithoutCommentsUnix(t: string)
    ensures WithoutComments(Unix(t)) == Unix(WithoutComments(t))
    decreases |t|
  {
    var rest := TrimStart(t);
    TrimStartUnix(t);
    CommentOpensUnix(rest);
    if "/*" <= rest {
      var inside := rest[2..];
      CommentEndsUnix(inside);
      if FindText(inside, "*/").Some? {
        WithoutCommentsUnix(inside[FindText(inside, "*/").value + 2..]);
      }
    }
  }

  lemma IdentUnix(t: string)
    ensures Ident(Unix(t)) == Ident(t) && Unix(t)[|Ident(t)|..] == Unix(t[|Ident(t)|..])
  {
    var name, rest := Ident(t), t[|Ident(t)|..];
    assert t == name + rest;
    IdentIsIdent(t);
    UnixConcat(name, rest);
    NoNewlineSame(name);
    if rest != "" {
      UnixEnds(rest);
    }
    IdentBefore(name, Unix(rest));
  }

  lemma {:induction false} IdentIsIdent(t: string)
    ensures forall i :: 0 <= i < |Ident(t)| ==> IsIdentChar(Ident(t)[i])
    ensures |Ident(t)| < |t| ==> !IsIdentChar(t[|Ident(t)|])
    ensures '\n' !in Ident(t) && (Ident(t) != "" ==> Ident(t)[|Ident(t)| - 1] != '\r')
  {
    if t != "" && IsIdentChar(t[0]) {
      IdentIsIdent(t[1..]);
    }
  }

  lemma ClosingQuoteOfReturn(z: string, quote: char, escape: bool)
    requires quote != '\r' && quote != '\n'
    ensures ClosingQuote("\r\n" + z, quote, escape) == Later(Later(ClosingQuote(z, quote, false)))
    ensures ClosingQuote("\n" + z, quote, escape) == Later(ClosingQuote(z, quote, false))
  {
    assert ("\r\n" + z)[1..] == "\n" + z && ("\n" + z)[1..] == z;
    assert ClosingQuote("\n" + z, quote, false) == Later(ClosingQuote(z, quote, false));
  }

  /** Where a literal ends, with and without carriage returns. */
  ghost predicate SameEnd(t: string, i: Option<nat>, j: Option<nat>) {
    (i.Some? <==> j.Some?) && (i.Some? ==> i.value <= |t| && j.value == |Unix(t[..i.value])|)
  }

  lemma EndBehindReturn(z: string, t: string, i: Option<nat>, j: Option<nat>)
    requires t == "\r\n" + z && SameEnd(z, i, j)
    ensures SameEnd(t, Later(Later(i)), Later(j))
  {
    if i.Some? {
      assert t[..i.value + 2] == "\r\n" + z[..i.value];
      UnixOfNewline(z[..i.value]);
    }
  }

  lemma EndBehind(ch: char, z: string, t: string, i: Option<nat>, j: Option<nat>)
    requires t == [ch] + z && !(ch == '\r' && z != "" && z[0] == '\n') && SameEnd(z, i, j)
    ensures SameEnd(t, Later(i), Later(j))
  {
    if i.Some? {
      assert t[..i.value + 1] == [ch] + z[..i.value];
      UnixConcat([ch], z[..i.value]);
      assert Unix([ch]) == [ch];
    }
  }

  lemma {:induction false} ClosingQuoteUnix(t: string, quote: char, escape: bool)
    requires quote != '\r' && quote != '\n'
    ensures SameEnd(t, ClosingQuote(t, quote, escape), ClosingQuote(Unix(t), quote, escape))
    decreases |t|
  {
    if t != "" {
      if t[0] == '\r' && |t| > 1 && t[1] == '\n' {
        var z := t[2..];
        assert t == "\r\n" + z;
        UnixOfNewline(z);
        ClosingQuoteUnix(z, quote, false);
        ClosingQuoteOfReturn(z, quote, escape);
        ClosingQuoteOfReturn(Unix(z), quote, escape);
        EndBehindReturn(z, t, ClosingQuote(z, quote, false), ClosingQuote(Unix(z), quote, false));
      } else {
        var z, e := t[1..], !escape && t[0] == '\\';
        assert t == [t[0]] + z && Unix(t) == [t[0]] + Unix(z) && Unix(t)[1..] == Unix(z);
        ClosingQuoteUnix(z, quote, e);
        EndBehind(t[0], z, t, ClosingQuote(z, quote, e), ClosingQuote(Unix(z), quote, e));
        assert t[..0] == "";
      }
    }
  }

  function UnixPair(l: Option<(string, string)>): Option<(string, string)> {
    if l.Some? then Some((Unix(l.value.0), Unix(l.value.1))) else None
  }

  lemma LiteralParts(t: string, i: nat)
    requires t != "" && (t[0] == '"' || t[0] == '\'') && ClosingQuote(t[1..], t[0], false).Some?
    requires ClosingQuote(t[1..], t[0], false).value == i
    ensures i < |t[1..]| && t[1..][i] == t[0] && Literal(t) == Some((t[1..][..i], t[1..][i + 1..]))
  {
    QuoteAt(t[1..], t[0], false);
    assert t[1..i + 1] == t[1..][..i] && t[i + 2..] == t[1..][i + 1..];
  }

  lemma {:induction false} QuoteAt(t: string, quote: char, escape: bool)
    ensures ClosingQuote(t, quote, escape).Some? ==> t[ClosingQuote(t, quote, escape).value] == quote
    decreases |t|
  {
    if t != "" {
      QuoteAt(t[1..], quote, !escape && t[0] == '\\');
    }
  }

  lemma LiteralUnix(t: string)
    ensures Literal(Unix(t)) == UnixPair(Literal(t))
  {
    if t != "" {
      UnixEnds(t);
      if t[0] == '"' || t[0] == '\'' {
        FirstCharUnix(t, t[0]);
        QuotedUnix(t, t[1..]);
      }
    }
  }

  lemma QuotedUnix(t: string, z: string)
    requires t != "" && (t[0] == '"' || t[0] == '\'') && z == t[1..] && Unix(t) == [t[0]] + Unix(z) && Unix(t)[1..] == Unix(z)
    ensures Literal(Unix(t)) == UnixPair(Literal(t))
  {
    ClosingQuoteUnix(z, t[0], false);
    if ClosingQuote(z, t[0], false).Some? {
      var i := ClosingQuote(z, t[0], false).value;
      var j := |Unix(z[..i])|;
      LiteralParts(t, i);
      LiteralParts(Unix(t), j);
      CutUnix(z, i);
      FirstCharUnix(z[i..], t[0]);
      assert z[i..][1..] == z[i + 1..];
      assert Unix(z)[..j] == Unix(z[..i]) && Unix(z)[j + 1..] == Unix(z[i..])[1..];
    }
  }

  lemma ColonUnix(t: string)
    ensures ColonFollows(Unix(t)) == ColonFollows(t)
  {
    TrimStartUnix(t);
    FirstCharUnix(TrimStart(t), ':');
  }

  lemma SkipQuestionUnix(t: string)
    ensures SkipQuestion(Unix(t)) == Unix(SkipQuestion(t))
  {
    TrimStartUnix(t);
    FirstCharUnix(TrimStart(t), '?');
  }

  lemma PropertyNameUnix(t: string)
    ensures PropertyName(Unix(t)) == UnixName(PropertyName(t))
  {
    var u := TrimStart(t);
    TrimStartUnix(t);
    LiteralUnix(u);
    if Literal(u).Some? {
      ColonUnix(Literal(u).value.1);
    } else {
      IdentUnix(u);
      IdentIsIdent(u);
      NoNewlineSame(Ident(u));
      SkipQuestionUnix(u[|Ident(u)|..]);
      ColonUnix(SkipQuestion(u[|Ident(u)|..]));
    }
  }

  lemma NamesDiffer(name: string, m: string)
    requires '\n' !in m
    ensures Unix(name) == m <==> name == m
  {
    UnixKeeps(name, '\n');
    if '\n' !in name {
      NoNewlineSame(name);
    }
  }

  lemma ListedUnix(name: string, names: set<string>)
    requires forall m :: m in names ==> '\n' !in m
    ensures Unix(name) in names <==> name in names
  {
    if Unix(name) in names {
      NamesDiffer(name, Unix(name));
    }
    if name in names {
      NoNewlineSame(name);
    }
  }

  /** The field filter ignores carriage returns, unless a listed name holds a newline. */
  lemma KeepFieldIgnoresReturns(names: set<string>)
    requires forall m :: m in names ==> '\n' !in m
    ensures IgnoresReturns(KeepField(names))
  {
    forall p
      ensures Agrees(KeepField(names), p)
    {
      WithoutCommentsUnix(p);
      PropertyNameUnix(WithoutComments(p));
      if PropertyName(WithoutComments(p)).Some? {
        ListedUnix(PropertyName(WithoutComments(p)).value, names);
      }
    }
  }

  /** What stands behind the first colon. */
  lemma BehindColonUnix(t: string)
    ensures SplitOnce(Unix(t), ':').1 == UnixName(SplitOnce(t, ':').1)
  {
    var (h, tail) := SplitOnce(t, ':');
    UnixKeeps(h, ':');
    if tail.None? {
      assert t == h;
      BeforeAbsent(Unix(t), ':');
    } else {
      assert t == h + ":" + tail.value;
      CutAround(h, ":", tail.value);
      BeforeJoined(Unix(h), ':', Unix(tail.value));
    }
  }

  lemma PropertyUnix(t: string)
    ensures Property(Unix(t)) == UnixPair(Property(t))
  {
    PropertyNameUnix(t);
    BehindColonUnix(t);
    if SplitOnce(t, ':').1.Some? {
      TrimStartUnix(SplitOnce(t, ':').1.value);
    }
  }

  lemma {:induction false} MethodInUnix(fields: seq<string>)
    ensures MethodIn(MapUnix(fields)) == UnixName(MethodIn(fields))
  {
    if fields != [] {
      MethodInUnix(fields[1..]);
      assert MapUnix(fields)[0] == Unix(fields[0]) && MapUnix(fields)[1..] == MapUnix(fields[1..]);
      PropertyUnix(fields[0]);
      if Property(fields[0]).Some? {
        NamesDiffer(Property(fields[0]).value.0, "method");
        TrimStartUnix(Property(fields[0]).value.1);
        LiteralUnix(TrimStart(Property(fields[0]).value.1));
      }
    }
  }

  lemma MethodOfUnix(arm: string)
    ensures MethodOf(Unix(arm)) == UnixName(MethodOf(arm))
  {
    BraceSpanUnix(arm);
    if BraceSpan(arm).Some? {
      var (o, c) := BraceSpan(arm).value;
      PairPlaces(arm, o, c, BraceSpan(Unix(arm)));
      FoundIsSpan(arm, o, c);
      SpanOpens(arm, o, c);
      SlicesUnix(arm, o, c, |Unix(arm[..o])|, |Unix(arm[..c])|);
      PartsUnix(arm[o + 1..c], COMMA);
      MethodInUnix(Parts(arm[o + 1..c], COMMA));
    }
  }

  /** The arm filter ignores carriage returns, unless a listed method holds a newline. */
  lemma KeepArmIgnoresReturns(methods: set<string>)
    requires forall m :: m in methods ==> '\n' !in m
    ensures IgnoresReturns(KeepArm(methods))
  {
    forall p
      ensures Agrees(KeepArm(methods), p)
    {
      MethodOfUnix(p);
      if MethodOf(p).Some? {
        ListedUnix(MethodOf(p).value, methods - {""});
      }
    }
  }

  // ----- one pass is enough

  /** A filter on a text that has no carriage returns at line ends, or a filter that ignores them. */
  ghost predicate Suits(keep: string -> bool, content: string) {
    (Unix(content) == content || IgnoresReturns(keep)) && NoCrlf(Unix(content))
  }

  /**
   * The arm filter, pruning of imports included, changes nothing the second time: if no line ends in two carriage
   * returns and the file without its carriage returns meets what a pass needs.
   */
  lemma ArmsSettleInOnePass(content: string, keep: string -> bool)
    requires SplitAlias(content).Some? ==> Suits(keep, content) && ArmsSettle(Unix(content), keep)
    ensures FilterArms(FilterArms(content, keep), keep) == FilterArms(content, keep)
  {
    if SplitAlias(content).Some? {
      if Unix(content) != content {
        ArmsUnix(content, keep);
      }
      ArmFilterIsIdempotent(Unix(content), keep);
    }
  }

  /** What the field filter needs to settle in one pass, on a file without carriage returns at line ends. */
  ghost predicate FieldsSettle(head: string, text: string, o: nat, c: nat, keep: string -> bool, pass: FieldPass) {
    && IsTypeBody(head, text, o, c) && pass.Of(head, text, o, c, keep) && Enclosed(pass.inner)
    && AllButLast(Survivors(text[o + 1..c], FIELD_DELIMS, keep), NotInLineComment)
    && StretchStays(head, pass.next, pass.close, pass.scope)
  }

  /** So it is for the field filter. */
  lemma FieldsSettleInOnePass(head: string, text: string, o: nat, c: nat, keep: string -> bool, pass: FieldPass)
    requires IsTypeBody(head, text, o, c) && Suits(keep, head + text)
    requires FieldsSettle(Unix(head), Unix(text), |Unix(text[..o])|, |Unix(text[..c])|, keep, pass)
    ensures FilterFields(FilterFields(head + text, keep), keep) == FilterFields(head + text, keep)
  {
    var o2, c2 := |Unix(text[..o])|, |Unix(text[..c])|;
    NoCrlfIsUnixLines(Unix(head + text));
    TypeBodyUnix(head, text, o, c, o2, c2);
    if Unix(head + text) != head + text {
      FieldsUnix(head, text, o, c, o2, c2, keep);
    }
    FieldFilterIsIdempotent(Unix(head), Unix(text), o2, c2, keep, pass);
  }

  /** The filter of `ClientRequest.ts`, for any methods without newlines in their names. */
  lemma ClientRequestSettles(content: string, methods: set<string>)
    requires forall m :: m in methods ==> '\n' !in m
    requires SplitAlias(content).Some? ==> NoCrlf(Unix(content)) && ArmsSettle(Unix(content), KeepArm(methods))
    ensures var once := FilterArms(content, KeepArm(methods)); FilterArms(once, KeepArm(methods)) == once
  {
    KeepArmIgnoresReturns(methods);
    ArmsSettleInOnePass(content, KeepArm(methods));
  }

  /** The filter of a type file, for any fields without newlines in their names. */
  lemma TypeFileSettles(head: string, text: string, o: nat, c: nat, names: set<string>, pass: FieldPass)
    requires forall m :: m in names ==> '\n' !in m
    requires IsTypeBody(head, text, o, c) && NoCrlf(Unix(head + text))
    requires FieldsSettle(Unix(head), Unix(text), |Unix(text[..o])|, |Unix(text[..c])|, KeepField(names), pass)
    ensures var once := FilterFields(head + text, KeepField(names)); FilterFields(once, KeepField(names)) == once
  {
    KeepFieldIgnoresReturns(names);
    FieldsSettleInOnePass(head, text, o, c, KeepField(names), pass);
  }
}
