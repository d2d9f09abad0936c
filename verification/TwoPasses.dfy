/**
 * Files on which the two TypeScript filters do not settle in one pass: an import that holds the first `=`, two carriage
 * returns at the end of a line, an arm that ends in a line comment, and fields whose braces cross other brackets.
 */
module TwoPasses {
  import opened Wrappers
  import opened Text
  import opened Scanner
  import opened Seqs
  import opened Split
  import opened Braces
  import opened Imports
  import opened TypeFiles
  import opened Filters
  import opened Properties

  // ----- an import that holds the first `=`

  lemma NoImport(t: string)
    requires t != "" && IsTrimmed(t) && t[0] != 'i'
    ensures ImportedName(t) == None
  {
    TrimTrimmed(t);
    assert IMPORT[0] == 'i';
  }

  lemma PrunedLine(t: string, scope: string)
    requires t != "" && '\n' !in t && !IsUnused(t, scope)
    ensures Pruned(t, scope) == t
  {
    BeforeAbsent(t, '\n');
    assert Lines(t) == [t];
    assert !EndsWithNewline(t) by {
      assert t[|t| - 1] in t;
    }
  }

  lemma PrunedFirstLine(a: string, b: string, scope: string)
    requires '\n' !in a && '\n' !in b && NoReturn(a) && b != "" && IsUnused(a, scope) && !IsUnused(b, scope)
    ensures Pruned(a + "\n" + b, scope) == b
  {
    var t := a + "\n" + b;
    BeforeJoined(a, '\n', b);
    BeforeAbsent(b, '\n');
    assert Lines(t) == [a] + [b];
    FilterAppend([a], [b], Stays(scope));
    assert !EndsWithNewline(t) by {
      assert t[|t| - 1] == b[|b| - 1] && b[|b| - 1] in b;
    }
  }

  /** A line `import type { name } from ...`. */
  lemma ImportedNameOf(line: string, b: string, name: string, e: string, z: string)
    requires line == IMPORT + (b + name + e + FROM + z) && IsTrimmed(line)
    requires Blank(b) && Blank(e) && name != "" && IsTrimmed(name)
    requires '}' !in b + name + e && ',' !in name && ' ' !in name
    ensures ImportedName(line) == Some(name)
  {
    TrimTrimmed(line);
    assert line[|IMPORT|..] == b + name + e + FROM + z;
    NameBeforeFrom(b + name + e, z, b + name + e + FROM + z);
    TrimUnique(b, name, e);
    FindTextAbsent(name, " as ");
  }

  lemma NameBeforeFrom(p: string, z: string, rest: string)
    requires '}' !in p && rest == p + FROM + z
    ensures FindText(rest, FROM) == Some(|p|) && rest[..|p|] == p
  {
    FindTextAfter(p, FROM, z);
  }

  lemma ArmPass(content: string, u: string, body: string, newBody: string, next: string, keep: string -> bool)
    requires '=' !in u && content == u + "=" + body + ";" && Filtered(body, ARM_DELIMS, ARMS, keep) == newBody
    requires next == u + "=" + newBody + ";"
    ensures FilterArms(content, keep) == Pruned(next, newBody)
  {
    assert ";" == ";" + "";
    ArmsOfAlias(content, keep, u, body, "");
  }

  /** An import line that holds the first `=` of a file, and the alias that it stands before. */
  datatype Moving = Moving(u: string, rest: string, w: string, body: string) {
    function Line(): string {
      u + "=" + rest
    }

    function Alias(inner: string): string {
      w + "=" + inner + ";"
    }

    function Content(): string {
      Line() + "\n" + Alias(body)
    }

    /** What the first pass takes for the body. */
    function Seen(): string {
      rest + "\n" + w + "=" + body
    }
  }

  lemma MovingIsAlias(m: Moving)
    ensures m.Content() == m.u + "=" + m.Seen() + ";"
  {
  }

  lemma MovingFirst(m: Moving, keep: string -> bool)
    requires '=' !in m.u && Filtered(m.Seen(), ARM_DELIMS, ARMS, keep) == m.Seen()
    requires '\n' !in m.Line() && NoReturn(m.Line()) && '\n' !in m.Alias(m.body)
    requires IsUnused(m.Line(), m.Seen()) && !IsUnused(m.Alias(m.body), m.Seen())
    ensures FilterArms(m.Content(), keep) == m.Alias(m.body)
  {
    MovingIsAlias(m);
    ArmPass(m.Content(), m.u, m.Seen(), m.Seen(), m.Content(), keep);
    PrunedFirstLine(m.Line(), m.Alias(m.body), m.Seen());
  }

  /** If it goes, the next pass finds the alias, and changes the file unless its body is settled already. */
  lemma DroppedImportMovesAlias(m: Moving, keep: string -> bool, inner: string)
    requires '=' !in m.u && Filtered(m.Seen(), ARM_DELIMS, ARMS, keep) == m.Seen()
    requires '\n' !in m.Line() && NoReturn(m.Line()) && '\n' !in m.Alias(m.body)
    requires IsUnused(m.Line(), m.Seen()) && !IsUnused(m.Alias(m.body), m.Seen())
    requires '=' !in m.w && inner == Filtered(m.body, ARM_DELIMS, ARMS, keep)
    requires '\n' !in m.Alias(inner) && !IsUnused(m.Alias(inner), inner)
    ensures FilterArms(FilterArms(m.Content(), keep), keep) == FilterArms(m.Content(), keep) <==> inner == m.body
  {
    MovingFirst(m, keep);
    ArmPass(m.Alias(m.body), m.w, m.body, inner, m.Alias(inner), keep);
    PrunedLine(m.Alias(inner), inner);
    AliasDiffers(m, inner);
  }

  lemma AliasDiffers(m: Moving, inner: string)
    ensures m.Alias(inner) == m.Alias(m.body) <==> inner == m.body
  {
    var n := |m.w| + 1;
    assert m.Alias(inner)[n..|m.Alias(inner)| - 1] == inner;
    assert m.Alias(m.body)[n..|m.Alias(m.body)| - 1] == m.body;
  }

  lemma {:induction false} QuotedIsUncut(s: State, text: string, delims: set<char>)
    requires s.quote == Some('"') && !s.line && !s.block && !s.escape && '"' !in text && '\\' !in text
    ensures Uncut(s, text, delims)
    decreases |text|
  {
    if text != "" {
      QuotedIsUncut(Observed(s, text[0]), text[1..], delims);
      UncutStep(s, text, delims);
    }
  }

  /** A text in which a string literal is opened and not closed is one part. */
  lemma OpenQuoteIsOnePart(front: string, rest: string, delims: set<char>)
    requires (forall i :: 0 <= i < |front| ==> front[i] !in delims) && '"' !in rest && '\\' !in rest
    requires var s := Scan(START, front); s.quote == Some('"') && !s.line && !s.block && !s.escape
    requires front + rest != "" && IsTrimmed(front + rest)
    ensures Parts(front + rest, delims) == [front + rest]
  {
    UncutWithout(START, front, delims);
    QuotedIsUncut(Scan(START, front), rest, delims);
    UncutConcat(START, front, rest, delims);
    SinglePart(front + rest, delims);
  }

  lemma QuoteOpens()
    ensures var s := Scan(START, "b\""); s.quote == Some('"') && !s.line && !s.block && !s.escape
  {
  }

  const MOVING := Moving(IMPORT + " A " + FROM + "\"./a", "b\";", "export type T ", " X | Y")

  lemma MovingImports()
    ensures ImportedName(MOVING.Line()) == Some("A") && IsTrimmed(MOVING.Line())
  {
    var z := "\"./a=b\";";
    assert MOVING.Line() == IMPORT + (" " + "A" + " " + FROM + z);
    ImportedNameOf(MOVING.Line(), " ", "A", " ", z);
  }

  lemma OneArmStays(body: string, keep: string -> bool)
    requires Parts(body, ARM_DELIMS) == [body] && keep(body)
    ensures Filtered(body, ARM_DELIMS, ARMS, keep) == body
  {
  }

  lemma QuotedRest(rest: string)
    requires rest == ";" + "\n" + MOVING.w + "= X | Y"
    ensures '"' !in rest && '\\' !in rest && |rest| > 0 && rest[|rest| - 1] == 'Y'
    ensures MOVING.Seen() == "b\"" + rest
  {
    NoneIn(";", "\n", MOVING.w, "= X | Y", '"');
    NoneIn(";", "\n", MOVING.w, "= X | Y", '\\');
    SeenIs("b\";", MOVING.w, " X | Y");
  }

  lemma SeenIs(path: string, w: string, body: string)
    requires path == "b\"" + ";"
    ensures path + "\n" + w + "=" + body == "b\"" + (";" + "\n" + w + ("=" + body))
  {
  }

  lemma MovingHasNoBrace()
    ensures '{' !in MOVING.Seen()
  {
    var rest := ";" + "\n" + MOVING.w + "= X | Y";
    QuotedRest(rest);
    NoneIn(";", "\n", MOVING.w, "= X | Y", '{');
    assert '{' !in "b\"";
  }

  lemma MovingIsQuoted()
    ensures Parts(MOVING.Seen(), ARM_DELIMS) == [MOVING.Seen()]
  {
    var rest := ";" + "\n" + MOVING.w + "= X | Y";
    QuotedRest(rest);
    QuoteOpens();
    assert ("b\"" + rest)[0] == 'b' && ("b\"" + rest)[|rest| + 1] == 'Y';
    OpenQuoteIsOnePart("b\"", rest, ARM_DELIMS);
  }

  /** Two words with a delimiter between them. */
  lemma TwoWords(x: string, y: string)
    requires x != "" && y != "" && IsTrimmed(x) && IsTrimmed(y) && '|' !in x && '|' !in y && Scan(START, " " + x + " ").AtTop()
    ensures Parts((" " + x + " ") + (['|'] + (" " + y)), ARM_DELIMS) == [x, y]
  {
    var a, b := " " + x + " ", " " + y;
    UncutWithout(START, a, ARM_DELIMS);
    UncutWithout(Observed(Scan(START, a), '|'), b, ARM_DELIMS);
    TrimUnique(" ", x, " ");
    assert " " + y + "" == b;
    TrimUnique(" ", y, "");
    TwoParts(a, '|', b, ARM_DELIMS);
  }

  lemma TwoLetters()
    ensures Parts(" X | Y", ARM_DELIMS) == ["X", "Y"]
  {
    assert Scan(START, " " + "X" + " ").AtTop() by {
      ScanThree(START, ' ', 'X', ' ');
      assert " " + "X" + " " == [' ', 'X', ' '];
    }
    TwoWords("X", "Y");
    assert " X | Y" == (" " + "X" + " ") + (['|'] + (" " + "Y"));
  }

  lemma TwoArmsJoined(body: string, x: string, y: string, keep: string -> bool)
    requires Parts(body, ARM_DELIMS) == [x, y] && keep(x) && keep(y)
    ensures Filtered(body, ARM_DELIMS, ARMS, keep) == x + ARMS.Text() + y
  {
    FilterAll([x, y], keep);
    assert Survivors(body, ARM_DELIMS, keep) == [x, y];
    assert [x, y][1..] == [y] && Join([y], ARMS.Text()) == y;
  }

  /** Which characters the lines hold, part by part. */
  lemma MovingHolds(m: Moving, inner: string)
    ensures '\n' !in m.u && '\n' !in m.rest ==> '\n' !in m.Line()
    ensures '\n' !in m.w && '\n' !in inner ==> '\n' !in m.Alias(inner)
    ensures 'A' !in m.rest && 'A' !in m.w && 'A' !in m.body ==> 'A' !in m.Seen()
    ensures m.rest != "" ==> NoReturn(m.Line()) == NoReturn(m.rest)
  {
  }

  lemma MovingImportPart()
    ensures '=' !in MOVING.u && '\n' !in MOVING.u
  {
    NoneIn(IMPORT, " A ", FROM, "\"./a", '=');
    NoneIn(IMPORT, " A ", FROM, "\"./a", '\n');
  }

  lemma NoneIn(a: string, b: string, c: string, d: string, ch: char)
    requires ch !in a && ch !in b && ch !in c && ch !in d
    ensures ch !in a + b + c + d
  {
  }

  lemma MovingAliasPart()
    ensures '=' !in MOVING.w && '\n' !in MOVING.w && 'A' !in MOVING.w
  {
  }

  lemma MovingPathPart()
    ensures '\n' !in MOVING.rest && 'A' !in MOVING.rest && NoReturn(MOVING.rest)
  {
  }

  lemma MovingParts()
    ensures '=' !in MOVING.u && '\n' !in MOVING.u
    ensures '=' !in MOVING.w && '\n' !in MOVING.w && 'A' !in MOVING.w
    ensures '\n' !in MOVING.rest && 'A' !in MOVING.rest && NoReturn(MOVING.rest)
  {
    MovingImportPart();
    MovingAliasPart();
    MovingPathPart();
  }

  lemma MovingLines()
    ensures '\n' !in MOVING.Line() && NoReturn(MOVING.Line()) && 'A' !in MOVING.Seen()
    ensures '\n' !in MOVING.Alias(" X | Y") && '\n' !in MOVING.Alias("X | Y")
  {
    MovingParts();
    MovingHolds(MOVING, " X | Y");
    MovingHolds(MOVING, "X | Y");
  }

  lemma MovingAliases(inner: string, scope: string)
    ensures !IsUnused(MOVING.Alias(inner), scope)
  {
    NoImport(MOVING.Alias(inner));
  }

  lemma MovingIsUnused()
    ensures IsUnused(MOVING.Line(), MOVING.Seen())
  {
    MovingImports();
    MovingLines();
    FindTextAbsent(MOVING.Seen(), "A");
  }

  lemma MovingArms(keep: string -> bool)
    requires keep("X") && keep("Y")
    ensures Filtered(MOVING.body, ARM_DELIMS, ARMS, keep) == "X | Y"
  {
    TwoLetters();
    TwoArmsJoined(" X | Y", "X", "Y", keep);
    assert "X" + ARMS.Text() + "Y" == "X | Y";
  }

  /** The arm filter takes two passes on a file whose first line imports an unused `A` from `"./a=b"`. */
  lemma ImportPathWithEquals(methods: set<string>)
    ensures var keep := KeepArm(methods);
            FilterArms(FilterArms(MOVING.Content(), keep), keep) != FilterArms(MOVING.Content(), keep)
  {
    var keep := KeepArm(methods);
    MovingHasNoBrace();
    NoBraceNoMethod(MOVING.Seen());
    NoBraceNoMethod("X");
    NoBraceNoMethod("Y");
    MovingIsUnused();
    MovingIsQuoted();
    OneArmStays(MOVING.Seen(), keep);
    MovingLines();
    MovingParts();
    MovingArms(keep);
    MovingAliases(" X | Y", MOVING.Seen());
    MovingAliases("X | Y", "X | Y");
    DroppedImportMovesAlias(MOVING, keep, "X | Y");
  }

  lemma TwoLines(a: string, b: string)
    requires '\n' !in a && '\n' !in b && b != ""
    ensures Lines(a + "\n" + b) == [Chomp(a), b] && !EndsWithNewline(a + "\n" + b)
  {
    var t := a + "\n" + b;
    BeforeJoined(a, '\n', b);
    BeforeAbsent(b, '\n');
    assert Lines(t) == [Chomp(a)] + [b];
    assert !EndsWithNewline(t) by {
      assert t[|t| - 1] == b[|b| - 1] && b[|b| - 1] in b;
    }
  }

  lemma PrunedTwoLines(a: string, b: string, scope: string)
    requires '\n' !in a && '\n' !in b && b != "" && !IsUnused(Chomp(a), scope) && !IsUnused(b, scope)
    ensures Pruned(a + "\n" + b, scope) == Chomp(a) + "\n" + b
  {
    TwoLines(a, b);
    FilterAll([Chomp(a), b], Stays(scope));
    assert [Chomp(a), b] == [Chomp(a)] + [b];
    JoinCons(Chomp(a), [b]);
  }

  lemma EmptyAlias(a: string, keep: string -> bool)
    requires '=' !in a && '\n' !in a && !IsUnused(Chomp(a), "")
    ensures FilterArms(a + "\n" + "=;", keep) == Chomp(a) + "\n" + "=;"
  {
    assert Filtered("", ARM_DELIMS, ARMS, keep) == "";
    assert a + "\n" + "=;" == (a + "\n") + "=" + "" + ";";
    ArmPass(a + "\n" + "=;", a + "\n", "", "", a + "\n" + "=;", keep);
    NoImport("=;");
    PrunedTwoLines(a, "=;", "");
  }

  /** Each pass takes one carriage return off the end of a line. */
  lemma ReturnsGoOneByOne(keep: string -> bool)
    ensures FilterArms("\r\r" + "\n" + "=;", keep) == "\r" + "\n" + "=;"
    ensures FilterArms("\r" + "\n" + "=;", keep) == "" + "\n" + "=;"
  {
    EmptyStays("");
    assert Chomp("\r\r") == "\r" && Chomp("\r") == "";
    assert !IsUnused("\r", "") by {
      assert Trim("\r") == "" by {
        TrimStartBlank("\r", "");
        assert "\r" + "" == "\r";
      }
    }
    EmptyAlias("\r\r", keep);
    EmptyAlias("\r", keep);
  }

  // ----- a type body whose braces do not balance

  /** The scanner in brackets, outside strings and comments and behind no slash. */
  predicate In(s: State, brace: nat, paren: nat) {
    s == START.(brace := brace, paren := paren, prev := s.prev) && s.prev != Some('/')
  }

  lemma {:induction false} InIdent(s: State, brace: nat, paren: nat, name: string)
    requires In(s, brace, paren) && forall i :: 0 <= i < |name| ==> IsIdentChar(name[i])
    ensures In(Scan(s, name), brace, paren)
    decreases |name|
  {
    if name != "" {
      InIdent(Observed(s, name[0]), brace, paren, name[1..]);
    }
  }

  /** A brace that closes no pair, and the stretch behind it up to the next brace. */
  lemma SpanLeg(s: State, ch: char, word: string, rest: string, i: nat, open: Option<nat>)
    requires NoBraces(word) && (open.Some? ==> open.value < i) && !Observed(s, ch).AtTop()
    ensures var last := if s.AtTop() && ch == '{' then Some(i) else open;
            SpanFrom(s, [ch] + (word + rest), i, open) == SpanFrom(Scan(Observed(s, ch), word), rest, i + 1 + |word|, last)
  {
    assert ([ch] + (word + rest))[1..] == word + rest;
    SpanSkips(Observed(s, ch), word, rest, i + 1, if s.AtTop() && ch == '{' then Some(i) else open);
  }

  lemma InsideBrackets(s: State, brace: nat, paren: nat)
    requires In(s, brace, paren)
    ensures s.AtTop() <==> brace == 0 && paren == 0
    ensures In(Observed(s, '{'), brace + 1, paren) && In(Observed(s, '}'), Down(brace), paren)
    ensures Observed(s, '}').AtTop() <==> brace <= 1 && paren == 0
    ensures !Observed(s, '{').AtTop()
  {
  }

  lemma OpeningLeg(s: State, word: string, rest: string, i: nat, brace: nat, paren: nat)
    requires NoBraces(word) && i > 0 && In(s, brace, paren) && (brace > 0 || paren > 0)
    ensures SpanFrom(s, ['{'] + (word + rest), i, Some(0)) == SpanFrom(Scan(Observed(s, '{'), word), rest, i + 1 + |word|, Some(0))
  {
    InsideBrackets(s, brace, paren);
    SpanLeg(s, '{', word, rest, i, Some(0));
  }

  lemma ClosingLeg(s: State, word: string, rest: string, i: nat, brace: nat, paren: nat)
    requires NoBraces(word) && i > 0 && In(s, brace, paren) && (brace > 1 || paren > 0)
    ensures SpanFrom(s, ['}'] + (word + rest), i, Some(0)) == SpanFrom(Scan(Observed(s, '}'), word), rest, i + 1 + |word|, Some(0))
  {
    InsideBrackets(s, brace, paren);
    SpanLeg(s, '}', word, rest, i, Some(0));
  }

  lemma FirstLeg(word: string, rest: string)
    requires NoBraces(word)
    ensures BraceSpan(['{'] + (word + rest)) == SpanFrom(Scan(Observed(START, '{'), word), rest, 1 + |word|, Some(0))
  {
    InsideBrackets(START, 0, 0);
    SpanLeg(START, '{', word, rest, 0, None);
  }

  lemma SpanEnds(s: State, z: string, i: nat)
    requires In(s, 1, 0) && i > 0
    ensures SpanFrom(s, ['}'] + z, i, Some(0)) == Some((0, i))
  {
  }

  lemma CrossedEnd(s: State, c: string, z: string, t: string, i: nat, sc: State, end: nat)
    requires NoBraces(c) && 0 < i && end == i + 1 + |c| && t == ['{'] + (c + (['}'] + z))
    requires In(s, 0, 1) && sc == Scan(Observed(s, '{'), c) && In(sc, 1, 0)
    ensures SpanFrom(s, t, i, Some(0)) == Some((0, end))
  {
    OpeningLeg(s, c, ['}'] + z, i, 0, 1);
    SpanEnds(sc, z, end);
  }

  lemma CrossedRest(s: State, b: string, t: string, t2: string, i: nat, j: nat, sb: State, end: nat)
    requires NoBraces(b) && 0 < i && j == i + 1 + |b| && t2 == ['}'] + (b + t) && In(s, 1, 1) && sb == Scan(Observed(s, '}'), b)
    requires SpanFrom(sb, t, j, Some(0)) == Some((0, end))
    ensures SpanFrom(s, t2, i, Some(0)) == Some((0, end))
  {
    ClosingLeg(s, b, t, i, 1, 1);
  }

  lemma SpanFollows(a: string, t: string, t2: string, i: nat, sa: State, end: nat)
    requires NoBraces(a) && i == 1 + |a| && t2 == ['{'] + (a + t) && sa == Scan(Observed(START, '{'), a)
    requires SpanFrom(sa, t, i, Some(0)) == Some((0, end))
    ensures BraceSpan(t2) == Some((0, end))
  {
    FirstLeg(a, t);
  }

  lemma UncrossedEnd(s: State, z: string, t: string, i: nat, sz: State, end: nat)
    requires NoBraces(z) && 0 < i && end == i + 1 + |z| && t == ['}'] + (z + "}")
    requires In(s, 2, 0) && sz == Scan(Observed(s, '}'), z) && In(sz, 1, 0)
    ensures SpanFrom(s, t, i, Some(0)) == Some((0, end))
  {
    ClosingLeg(s, z, "}", i, 2, 0);
    assert ['}'] + "" == "}";
    SpanEnds(sz, "", end);
  }

  lemma UncrossedRest(s: State, c: string, t: string, t2: string, i: nat, j: nat, sc: State, end: nat)
    requires NoBraces(c) && 0 < i && j == i + 1 + |c| && t2 == ['{'] + (c + t) && In(s, 1, 1) && sc == Scan(Observed(s, '{'), c)
    requires SpanFrom(sc, t, j, Some(0)) == Some((0, end))
    ensures SpanFrom(s, t2, i, Some(0)) == Some((0, end))
  {
    OpeningLeg(s, c, t, i, 1, 1);
  }

  predicate NoBraces(t: string) {
    '{' !in t && '}' !in t
  }

  lemma TwoFields(x: string, y: string, keep: string -> bool)
    requires x != "" && y != "" && IsTrimmed(x) && IsTrimmed(y) && Scan(START, x).AtTop()
    requires (forall i :: 0 <= i < |x| ==> x[i] !in FIELD_DELIMS) && (forall i :: 0 <= i < |y| ==> y[i] !in FIELD_DELIMS)
    requires keep(x) != keep(y)
    ensures Filtered(x + ([','] + y), FIELD_DELIMS, FIELDS, keep) == if keep(x) then x else y
  {
    TrimTrimmed(x);
    TrimTrimmed(y);
    UncutWithout(START, x, FIELD_DELIMS);
    UncutWithout(Observed(Scan(START, x), ','), y, FIELD_DELIMS);
    TwoParts(x, ',', y, FIELD_DELIMS);
    assert [x, y] == [x] + [y];
    FilterAppend([x], [y], keep);
    assert Filter([x], keep) == (if keep(x) then [x] else []) && Filter([y], keep) == (if keep(y) then [y] else []);
  }

  lemma FieldsBehindEquals(text: string, c: nat, keep: string -> bool)
    requires text != "" && text[0] == '{' && IsSpan(text, 0, c) && c < |text|
    ensures c > 0 && FilterFields("=" + text, keep) == FieldsPruned("=", text, 0, c, keep)
  {
    assert "" + "=" + text == "=" + text;
    AnchorBehindEquals("", text);
    SpanOpens(text, 0, c);
    FilterFieldsIs("=", text, 0, c, keep);
  }

  lemma PrunedOnLine(text: string, c: nat, inner: string, next: string, keep: string -> bool)
    requires 0 < c < |text| && Filtered(text[1..c], FIELD_DELIMS, FIELDS, keep) == inner
    requires next == text[..1] + inner + text[c..] && '\n' !in next && IsTrimmed("=" + next)
    ensures FieldsPruned("=", text, 0, c, keep) == "=" + next
  {
    NoImport("=" + next);
    PrunedLine("=" + next, Scope("=" + next, inner));
  }

  /** A file that is one line, and its filtered form too. */
  lemma FieldPassOnLine(text: string, c: nat, inner: string, next: string, keep: string -> bool)
    requires text != "" && text[0] == '{' && IsSpan(text, 0, c) && c < |text| && Filtered(text[1..c], FIELD_DELIMS, FIELDS, keep) == inner
    requires next == text[..1] + inner + text[c..] && '\n' !in next && IsTrimmed("=" + next)
    ensures FilterFields("=" + text, keep) == "=" + next
  {
    FieldsBehindEquals(text, c, keep);
    PrunedOnLine(text, c, inner, next, keep);
  }

  /** Three fields `p`, `q` and `r`; braces of the first two cross their parentheses. */
  datatype Crossing = Crossing(p: string, q: string, r: string) {
    predicate Named() {
      IsIdent(p) && IsIdent(q) && IsIdent(r)
    }

    function First(): string {
      p + ":" + "(})"
    }

    function Second(): string {
      q + ":" + "({)"
    }

    function Third(): string {
      r + ":" + "1"
    }

    function Text(): string {
      "{" + (First() + ([','] + Second())) + ("}," + Third() + "}")
    }

    function Once(): string {
      "{" + Second() + ("}," + Third() + "}")
    }

    function Twice(): string {
      "{" + (Second() + "}") + "}"
    }
  }

  lemma KeptUnlessListed(names: set<string>, name: string, value: string)
    requires IsIdent(name)
    ensures KeepField(names)(name + ":" + value) <==> name !in names
  {
    NameOfField(name, false, value);
    assert name + "" + ":" + value == name + ":" + value;
  }

  lemma NameIn(name: string, brace: nat, paren: nat, s: State)
    requires IsIdent(name) && In(s, brace, paren)
    ensures In(Scan(s, name + ":"), brace, paren) && In(Scan(s, name + ":" + "("), brace, paren + 1)
    ensures NoBraces(name + ":" + "(")
  {
    InIdent(s, brace, paren, name);
    ScanSnoc(s, name, ':');
    ScanSnoc(s, name + ":", '(');
  }

  /** The scanner behind a closing parenthesis, a comma, a name and an opening parenthesis. */
  lemma NextIn(name: string, s: State, b: string)
    requires IsIdent(name) && In(s, 0, 1) && b == ")," + (name + ":" + "(")
    ensures In(Scan(s, b), 0, 1) && NoBraces(b)
  {
    var next := Observed(Observed(s, ')'), ',');
    assert b == [')'] + ([','] + (name + ":" + "("));
    assert b[1..][1..] == name + ":" + "(" && Scan(s, b) == Scan(next, b[1..][1..]);
    NameIn(name, 0, 0, next);
  }

  lemma ScanOne(s: State, ch: char)
    ensures Scan(s, [ch]) == Observed(s, ch)
  {
    assert Scan(s, [ch]) == Scan(Observed(s, ch), "");
  }

  /** Braces that cross other brackets: the last of three closing ones is the first that counts. */
  lemma CrossingSpan(x: Crossing, a: string, b: string, z: string, end: nat)
    requires x.Named() && a == x.p + ":" + "(" && b == ")," + (x.q + ":" + "(") && end == |a| + |b| + 4
    ensures BraceSpan(['{'] + (a + (['}'] + (b + (['{'] + ([')'] + (['}'] + z))))))) == Some((0, end))
  {
    var t3 := ['{'] + ([')'] + (['}'] + z));
    var t2 := ['}'] + (b + t3);
    var i, j := 1 + |a|, 2 + |a| + |b|;
    var sa := Scan(Observed(START, '{'), a);
    NameIn(x.p, 1, 0, Observed(START, '{'));
    var sb := Scan(Observed(sa, '}'), b);
    NextIn(x.q, Observed(sa, '}'), b);
    ScanOne(Observed(sb, '{'), ')');
    CrossedEnd(sb, [')'], z, t3, j, Scan(Observed(sb, '{'), [')']), end);
    CrossedRest(sa, b, t3, t2, i, j, sb, end);
    SpanFollows(a, t2, ['{'] + (a + t2), i, sa, end);
  }

  lemma OnceSpan(x: Crossing, a: string, z: string, end: nat)
    requires x.Named() && a == x.q + ":" + "(" && z == "," + x.Third() && end == |a| + |z| + 4
    ensures BraceSpan(['{'] + (a + (['{'] + ([')'] + (['}'] + (z + "}")))))) == Some((0, end))
  {
    var t3 := ['}'] + (z + "}");
    var t2 := ['{'] + ([')'] + t3);
    var i, j := 1 + |a|, 3 + |a|;
    var sa := Scan(Observed(START, '{'), a);
    NameIn(x.q, 1, 0, Observed(START, '{'));
    var sc := Scan(Observed(sa, '{'), [')']);
    ScanOne(Observed(sa, '{'), ')');
    ThirdIn(x.r, Observed(sc, '}'), z);
    UncrossedEnd(sc, z, t3, j, Scan(Observed(sc, '}'), z), end);
    UncrossedRest(sa, [')'], t3, t2, i, j, sc, end);
    SpanFollows(a, t2, ['{'] + (a + t2), i, sa, end);
  }

  lemma ThirdIn(r: string, s: State, z: string)
    requires IsIdent(r) && In(s, 1, 0) && z == "," + (r + ":" + "1")
    ensures In(Scan(s, z), 1, 0) && NoBraces(z)
  {
    var next := Observed(s, ',');
    assert z[1..] == r + ":" + "1";
    NameIn(r, 1, 0, next);
    ScanSnoc(next, r + ":", '1');
  }

  lemma FieldTops(name: string)
    requires IsIdent(name)
    ensures Scan(START, name + ":" + "(})").AtTop() && Scan(START, name + ":" + "({)}").AtTop()
  {
    InIdent(START, 0, 0, name);
    ScanSnoc(START, name, ':');
    var s := Scan(START, name + ":");
    assert In(s, 0, 0);
    ScanConcat(START, name + ":", "(})");
    ScanConcat(START, name + ":", "({)}");
    ScanThree(s, '(', '}', ')');
    ScanThree(s, '(', '{', ')');
    assert "(})" == ['(', '}', ')'] && "({)}" == ['(', '{', ')'] + ['}'];
    ScanSnoc(s, ['(', '{', ')'], '}');
  }

  lemma ScanThree(s: State, a: char, b: char, c: char)
    ensures Scan(s, [a, b, c]) == Observed(Observed(Observed(s, a), b), c)
  {
    assert [a, b, c] == [a, b] + [c] && [a, b] == [a] + [b];
    ScanSnoc(s, [a, b], c);
    ScanSnoc(s, [a], b);
    assert Scan(s, [a]) == Scan(Observed(s, a), "");
  }

  lemma FieldIsPlain(name: string, value: string)
    requires IsIdent(name) && value in {"(})", "({)", "({)}", "1"}
    ensures name + ":" + value != "" && IsTrimmed(name + ":" + value) && '\n' !in name + ":" + value
    ensures forall i :: 0 <= i < |name + ":" + value| ==> (name + ":" + value)[i] !in FIELD_DELIMS
  {
    assert forall i :: 0 <= i < |value| ==> value[i] !in FIELD_DELIMS && value[i] != '\n' && !IsSpace(value[i]);
    assert IsIdentChar(name[0]);
  }

  lemma CrossingShape(x: Crossing)
    requires x.Named()
    ensures IsSpan(x.Text(), 0, 1 + |x.First()| + 1 + |x.Second()|)
  {
    var a, b, z := x.p + ":" + "(", ")," + (x.q + ":" + "("), "," + x.Third() + "}";
    assert x.Text() == ['{'] + (a + (['}'] + (b + (['{'] + ([')'] + (['}'] + z))))));
    CrossingSpan(x, a, b, z, |a| + |b| + 4);
    BraceSpanFinds(x.Text());
  }

  lemma OnceShape(x: Crossing)
    requires x.Named()
    ensures IsSpan(x.Once(), 0, |x.Once()| - 1)
  {
    var a, z := x.q + ":" + "(", "," + x.Third();
    assert x.Once() == ['{'] + (a + (['{'] + ([')'] + (['}'] + (z + "}")))));
    OnceSpan(x, a, z, |a| + |z| + 4);
    BraceSpanFinds(x.Once());
  }

  lemma CrossingPass(x: Crossing, keep: string -> bool)
    requires x.Named() && !keep(x.First()) && keep(x.Second())
    ensures FilterFields("=" + x.Text(), keep) == "=" + x.Once()
  {
    var c := 1 + |x.First()| + 1 + |x.Second()|;
    CrossingShape(x);
    FieldIsPlain(x.p, "(})");
    FieldIsPlain(x.q, "({)");
    FieldIsPlain(x.r, "1");
    FieldTops(x.p);
    TwoFields(x.First(), x.Second(), keep);
    assert x.Text()[1..c] == x.First() + ([','] + x.Second()) && x.Text()[c..] == "}," + x.Third() + "}";
    assert x.Text()[..1] + x.Second() + x.Text()[c..] == x.Once();
    FieldPassOnLine(x.Text(), c, x.Second(), x.Once(), keep);
  }

  lemma OnceFields(x: Crossing, keep: string -> bool, field: string)
    requires x.Named() && field == x.q + ":" + "({)}" && keep(field) && !keep(x.Third())
    ensures Filtered(field + ([','] + x.Third()), FIELD_DELIMS, FIELDS, keep) == field && '\n' !in field
  {
    FieldIsPlain(x.q, "({)}");
    FieldIsPlain(x.r, "1");
    FieldTops(x.q);
    TwoFields(field, x.Third(), keep);
  }

  lemma OnceSlices(x: Crossing, field: string, c: nat)
    requires field == x.q + ":" + "({)}" && c == |x.Once()| - 1
    ensures x.Once()[1..c] == field + ([','] + x.Third()) && x.Once()[..1] + field + x.Once()[c..] == x.Twice()
  {
    assert field == x.Second() + "}";
    assert x.Once()[c..] == "}";
  }

  lemma OncePass(x: Crossing, keep: string -> bool, field: string)
    requires x.Named() && field == x.q + ":" + "({)}" && keep(field) && !keep(x.Third())
    ensures FilterFields("=" + x.Once(), keep) == "=" + x.Twice()
  {
    var c := |x.Once()| - 1;
    OnceShape(x);
    OnceFields(x, keep, field);
    OnceSlices(x, field, c);
    FieldPassOnLine(x.Once(), c, field, x.Twice(), keep);
  }

  /**
   * Fields whose braces cross their parentheses: dropping one of them changes where the body ends. So
   * `={p:(}),q:({)},r:1}` takes two passes if `p` and `r` are listed and `q` is not, whatever the names are.
   */
  lemma CrossedBracesTakeTwoPasses(x: Crossing, names: set<string>)
    requires x.Named() && x.p in names && x.q !in names && x.r in names
    ensures var once := FilterFields("=" + x.Text(), KeepField(names)); FilterFields(once, KeepField(names)) != once
  {
    var keep := KeepField(names);
    KeptUnlessListed(names, x.p, "(})");
    KeptUnlessListed(names, x.q, "({)");
    KeptUnlessListed(names, x.q, "({)}");
    KeptUnlessListed(names, x.r, "1");
    CrossingPass(x, keep);
    OncePass(x, keep, x.q + ":" + "({)}");
    assert |x.Once()| != |x.Twice()|;
  }

  // ----- an arm that ends in a line comment

  /** An arm `p` that ends in a line comment, before an arm of two rows, `o` and `|x`. */
  datatype Hiding = Hiding(p: string, o: string, x: string) {
    function Second(): string {
      o + "\n" + (['|'] + x)
    }

    function Body(): string {
      (p + "\n") + (['|'] + Second())
    }

    /** What the second pass takes for the first arm: the comment runs to the end of the row. */
    function Merged(): string {
      p + (" | " + o)
    }

    function Filtered(): string {
      (Merged() + "\n") + (['|'] + x)
    }

    predicate Visible() {
      && p != "" && o != "" && x != "" && IsTrimmed(p) && IsTrimmed(o) && IsTrimmed(x)
      && '\n' !in p && '\n' !in o && '\n' !in x && '|' !in p && '|' !in x
    }

    /** The comment reaches to the end of `p`, and the delimiter of the second arm stands inside of brackets. */
    predicate Hides() {
      Scan(START, p).line && Scan(START, p + "\n").AtTop() && Uncut(START, Second(), ARM_DELIMS)
    }
  }

  /** A line comment runs to the end of its row, whatever stands there. */
  lemma {:induction false} CommentToNewline(s: State, text: string)
    requires s.line && '\n' !in text
    ensures Scan(s, text + "\n") == Observed(s, '\n')
    decreases |text|
  {
    if text == "" {
      assert text + "\n" == ['\n'];
    } else {
      assert (text + "\n")[1..] == text[1..] + "\n";
      CommentToNewline(Observed(s, text[0]), text[1..]);
    }
  }

  lemma RowStaysPart(p: string, row: string)
    requires Scan(START, p).line && Uncut(START, p, ARM_DELIMS) && '\n' !in row
    ensures Uncut(START, p + row + "\n", ARM_DELIMS) && Scan(START, p + row + "\n") == Observed(Scan(START, p), '\n')
  {
    var s := Scan(START, p);
    LineCommentSwallows(s, row, ARM_DELIMS);
    UncutConcat(START, p, row, ARM_DELIMS);
    UncutWithout(Scan(START, p + row), "\n", ARM_DELIMS);
    UncutConcat(START, p + row, "\n", ARM_DELIMS);
    CommentToNewline(s, row);
    ScanConcat(START, p, row + "\n");
    assert p + row + "\n" == p + (row + "\n");
  }

  /** A row and a second one behind a delimiter. */
  lemma TwoRows(front: string, back: string)
    requires front != "" && back != "" && IsTrimmed(front) && IsTrimmed(back)
    requires Uncut(START, front + "\n", ARM_DELIMS) && Scan(START, front + "\n").AtTop() && Uncut(START, back, ARM_DELIMS)
    ensures Parts((front + "\n") + (['|'] + back), ARM_DELIMS) == [front, back]
  {
    var s := Scan(START, front + "\n");
    ScanSane(START, front + "\n");
    FreshAfterDelimiter(s, '|', ARM_DELIMS);
    FreshScan(Observed(s, '|'), back, ARM_DELIMS);
    TrimTail(front, "\n");
    TrimTrimmed(back);
    TwoParts(front + "\n", '|', back, ARM_DELIMS);
  }

  lemma HidingFirst(h: Hiding)
    requires h.Visible() && h.Hides()
    ensures Parts(h.Body(), ARM_DELIMS) == [h.p, h.Second()]
  {
    UncutWithout(START, h.p, ARM_DELIMS);
    RowStaysPart(h.p, "");
    assert h.p + "" + "\n" == h.p + "\n";
    assert h.Second()[0] == h.o[0] && h.Second()[|h.Second()| - 1] == h.x[|h.x| - 1];
    TwoRows(h.p, h.Second());
  }

  lemma HidingSecond(h: Hiding)
    requires h.Visible() && h.Hides()
    ensures Parts(h.Filtered(), ARM_DELIMS) == [h.Merged(), h.x]
  {
    UncutWithout(START, h.p, ARM_DELIMS);
    RowStaysPart(h.p, "");
    assert h.p + "" + "\n" == h.p + "\n";
    assert '\n' !in " | " + h.o;
    RowStaysPart(h.p, " | " + h.o);
    assert h.Merged()[0] == h.p[0] && h.Merged()[|h.Merged()| - 1] == h.o[|h.o| - 1];
    UncutWithout(START, h.x, ARM_DELIMS);
    TwoRows(h.Merged(), h.x);
  }

  lemma ArmsOnly(content: string, body: string, next: string, keep: string -> bool)
    requires content == "=" + body + ";" && Filtered(body, ARM_DELIMS, ARMS, keep) == next
    ensures FilterArms(content, keep) == Pruned("=" + next + ";", next)
  {
    assert "" + "=" + body + ";" == content && "" + "=" + next + ";" == "=" + next + ";";
    ArmPass(content, "", body, next, "=" + next + ";", keep);
  }

  lemma PrunedHiding(h: Hiding, scope: string)
    requires h.Visible()
    ensures Pruned("=" + h.Filtered() + ";", scope) == "=" + h.Filtered() + ";"
  {
    var a, b := "=" + h.Merged(), "|" + h.x + ";";
    assert "=" + h.Filtered() + ";" == a + "\n" + b;
    assert a[|a| - 1] == h.o[|h.o| - 1] && '\n' !in a && '\n' !in b;
    NoImport(a);
    NoImport(b);
    PrunedTwoLines(a, b, scope);
  }

  lemma HidingPass(h: Hiding, keep: string -> bool)
    requires h.Visible() && h.Hides() && keep(h.p) && keep(h.Second())
    ensures FilterArms("=" + h.Body() + ";", keep) == "=" + h.Filtered() + ";"
  {
    HidingFirst(h);
    TwoArmsJoined(h.Body(), h.p, h.Second(), keep);
    assert h.p + ARMS.Text() + h.Second() == h.Filtered();
    ArmsOnly("=" + h.Body() + ";", h.Body(), h.Filtered(), keep);
    PrunedHiding(h, h.Filtered());
  }

  lemma PrunedCut(h: Hiding, next: string)
    requires h.Visible() && next == h.Merged() + ARMS.Text() + h.x
    ensures Pruned("=" + next + ";", next) == "=" + next + ";"
  {
    assert '\n' !in ARMS.Text() && '\n' !in h.Merged();
    assert '\n' !in "=" + next + ";";
    NoImport("=" + next + ";");
    PrunedLine("=" + next + ";", next);
  }

  lemma CutPass(h: Hiding, keep: string -> bool, next: string)
    requires h.Visible() && h.Hides() && keep(h.Merged()) && keep(h.x) && next == h.Merged() + ARMS.Text() + h.x
    ensures FilterArms("=" + h.Filtered() + ";", keep) == "=" + next + ";"
  {
    HidingSecond(h);
    TwoArmsJoined(h.Filtered(), h.Merged(), h.x, keep);
    ArmsOnly("=" + h.Filtered() + ";", h.Filtered(), next, keep);
    PrunedCut(h, next);
  }

  /** The comment hides the brackets of the next arm from the second pass, which then cuts inside of that arm. */
  lemma CommentHidesBrackets(h: Hiding, keep: string -> bool)
    requires h.Visible() && h.Hides() && keep(h.p) && keep(h.Second()) && keep(h.Merged()) && keep(h.x)
    ensures var once := FilterArms("=" + h.Body() + ";", keep); FilterArms(once, keep) != once
  {
    HidingPass(h, keep);
    CutPass(h, keep, h.Merged() + ARMS.Text() + h.x);
    assert |h.Filtered()| != |h.Merged() + ARMS.Text() + h.x|;
  }

  const HIDING := Hiding("a//", "(", "x)")

  lemma CommentEnds()
    ensures Scan(START, "a//").line && Scan(START, "a//" + "\n").AtTop()
  {
    ScanSnoc(START, "a//", '\n');
  }

  lemma BracketHidesDelimiter()
    ensures Uncut(START, "(" + "\n" + (['|'] + "x)"), ARM_DELIMS)
  {
    UncutWithout(START, "(" + "\n", ARM_DELIMS);
    var s := Scan(START, "(" + "\n");
    ScanSnoc(START, "(", '\n');
    assert !s.AtTop();
    UncutWithout(Observed(s, '|'), "x)", ARM_DELIMS);
    assert (['|'] + "x)")[1..] == "x)";
    UncutStep(s, ['|'] + "x)", ARM_DELIMS);
    UncutConcat(START, "(" + "\n", ['|'] + "x)", ARM_DELIMS);
  }

  lemma HidingHides()
    ensures HIDING.Visible() && HIDING.Hides()
  {
    CommentEnds();
    BracketHidesDelimiter();
  }

  /** The file `=a//\n|(\n|x);`, all of whose arms are kept. */
  lemma CommentTakesTwoPasses(methods: set<string>)
    ensures var keep, content := KeepArm(methods), "=" + HIDING.Body() + ";";
            FilterArms(FilterArms(content, keep), keep) != FilterArms(content, keep)
  {
    HidingHides();
    NoBraceNoMethod(HIDING.p);
    NoBraceNoMethod(HIDING.Second());
    NoBraceNoMethod(HIDING.Merged());
    NoBraceNoMethod(HIDING.x);
    CommentHidesBrackets(HIDING, KeepArm(methods));
  }
}
