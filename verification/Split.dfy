/** Splitting a type body at its top-level delimiters, and joining the surviving parts again. */
module Split {
  import opened Wrappers
  import opened Scanner
  import opened Text
  import opened Seqs

  /** The raw pieces of `text` between top-level delimiters, scanned from `s`. */
  function Pieces(s: State, text: string, delims: set<char>): (ps: seq<string>)
    ensures ps != []
    decreases |text|
  {
    if text == "" then [""]
    else
      var ps := Pieces(Observed(s, text[0]), text[1..], delims);
      if s.AtTop() && text[0] in delims then [""] + ps else [[text[0]] + ps[0]] + ps[1..]
  }

  /** The pieces that are not blank, trimmed. */
  function Visible(ps: seq<string>): seq<string> {
    if ps == [] then []
    else (if Trim(ps[0]) == "" then [] else [Trim(ps[0])]) + Visible(ps[1..])
  }

  function SplitFrom(s: State, text: string, delims: set<char>): seq<string> {
    Visible(Pieces(s, text, delims))
  }

  /** What `split_top_level_multi` returns. */
  function Parts(text: string, delims: set<char>): seq<string> {
    SplitFrom(START, text, delims)
  }

  // ----- the loop of the source

  /** The pieces of a text, given that `current` has been read since the last delimiter. */
  function PiecesAfter(current: string, s: State, rest: string, delims: set<char>): seq<string> {
    var ps := Pieces(s, rest, delims);
    [current + ps[0]] + ps[1..]
  }

  lemma PiecesAfterNothing(s: State, rest: string, delims: set<char>)
    ensures PiecesAfter("", s, rest, delims) == Pieces(s, rest, delims)
  {
    var ps := Pieces(s, rest, delims);
    assert "" + ps[0] == ps[0] && ps == [ps[0]] + ps[1..];
  }

  lemma PiecesAfterStep(current: string, s: State, rest: string, delims: set<char>)
    requires rest != ""
    ensures PiecesAfter(current, s, rest, delims) ==
              var s' := Observed(s, rest[0]);
              if s.AtTop() && rest[0] in delims then [current] + PiecesAfter("", s', rest[1..], delims)
              else PiecesAfter(current + [rest[0]], s', rest[1..], delims)
  {
    var s', ps := Observed(s, rest[0]), Pieces(Observed(s, rest[0]), rest[1..], delims);
    if s.AtTop() && rest[0] in delims {
      assert current + "" == current && "" + ps[0] == ps[0];
      assert [""] + ps == [""] + ([ps[0]] + ps[1..]);
    } else {
      assert current + ([rest[0]] + ps[0]) == (current + [rest[0]]) + ps[0];
    }
  }

  function NonEmpty(part: string): seq<string> {
    if part == "" then [] else [part]
  }

  lemma VisibleCons(p: string, ps: seq<string>)
    ensures Visible([p] + ps) == NonEmpty(Trim(p)) + Visible(ps)
  {
  }

  /** The loop has `input[start..index]` in hand, and `parts` from before it. */
  ghost predicate Splitting(input: string, delims: set<char>, start: nat, index: nat, s: State, parts: seq<string>) {
    && start <= index <= |input|
    && Parts(input, delims) == parts + Visible(PiecesAfter(input[start..index], s, input[index..], delims))
  }

  lemma SplitCut(input: string, delims: set<char>, start: nat, index: nat, s: State, parts: seq<string>)
    requires index < |input| && Splitting(input, delims, start, index, s, parts) && s.AtTop() && input[index] in delims
    ensures Splitting(input, delims, index + 1, index + 1, Observed(s, input[index]), parts + NonEmpty(Trim(input[start..index])))
  {
    var current, rest := input[start..index], input[index..];
    var later := PiecesAfter("", Observed(s, input[index]), input[index + 1..], delims);
    assert rest[1..] == input[index + 1..];
    PiecesAfterStep(current, s, rest, delims);
    VisibleCons(current, later);
    assert input[index + 1..index + 1] == "";
    Regroup(parts, NonEmpty(Trim(current)), Visible(later));
  }

  lemma Regroup(a: seq<string>, b: seq<string>, c: seq<string>)
    ensures a + (b + c) == (a + b) + c
  {
  }

  lemma SplitGoOn(input: string, delims: set<char>, start: nat, index: nat, s: State, parts: seq<string>)
    requires index < |input| && Splitting(input, delims, start, index, s, parts) && !(s.AtTop() && input[index] in delims)
    ensures Splitting(input, delims, start, index + 1, Observed(s, input[index]), parts)
  {
    var current, rest := input[start..index], input[index..];
    assert rest[1..] == input[index + 1..];
    PiecesAfterStep(current, s, rest, delims);
    assert current + [input[index]] == input[start..index + 1];
  }

  lemma SplitStep(input: string, delims: set<char>, start: nat, index: nat, s: State, parts: seq<string>)
    requires index < |input| && Splitting(input, delims, start, index, s, parts)
    ensures s.AtTop() && input[index] in delims ==>
              Splitting(input, delims, index + 1, index + 1, Observed(s, input[index]), parts + NonEmpty(Trim(input[start..index])))
    ensures !(s.AtTop() && input[index] in delims) ==>
              Splitting(input, delims, start, index + 1, Observed(s, input[index]), parts)
  {
    if s.AtTop() && input[index] in delims {
      SplitCut(input, delims, start, index, s, parts);
    } else {
      SplitGoOn(input, delims, start, index, s, parts);
    }
  }

  lemma SplitDone(input: string, delims: set<char>, start: nat, s: State, parts: seq<string>)
    requires Splitting(input, delims, start, |input|, s, parts)
    ensures Parts(input, delims) == parts + NonEmpty(Trim(input[start..]))
  {
    var tail := input[start..];
    assert input[start..|input|] == tail && input[|input|..] == "";
    assert tail + "" == tail;
    assert PiecesAfter(tail, s, "", delims) == [tail] + [];
    VisibleCons(tail, []);
  }

  lemma SplitStart(input: string, delims: set<char>)
    ensures Splitting(input, delims, 0, 0, START, [])
  {
    PiecesAfterNothing(START, input, delims);
    assert input[0..0] == "" && input[0..] == input;
  }

  method SplitTopLevelMulti(input: string, delims: set<char>) returns (parts: seq<string>)
    ensures parts == Parts(input, delims)
  {
    var state := new ScanState();
    var start := 0;
    parts := [];
    ghost var s := START;
    SplitStart(input, delims);
    for index := 0 to |input|
      invariant state.View() == s
      invariant Splitting(input, delims, start, index, s, parts)
    {
      var ch := input[index];
      SplitStep(input, delims, start, index, s, parts);
      if state.AtTop() && ch in delims {
        parts := PushPart(parts, input[start..index]);
        start := index + 1;
      }
      state.Observe(ch);
      s := Observed(s, ch);
    }
    SplitDone(input, delims, start, s, parts);
    parts := PushPart(parts, input[start..]);
  }

  /** Keeps a piece that is not blank, trimmed. */
  method PushPart(parts0: seq<string>, piece: string) returns (parts: seq<string>)
    ensures parts == parts0 + NonEmpty(Trim(piece))
  {
    parts := parts0;
    var part := Trim(piece);
    if part != "" {
      parts := parts + [part];
    }
  }

  // ----- fresh states

  /** Nothing is open, and the last character cannot begin a comment: scanning on is like starting anew. */
  predicate Fresh(s: State) {
    s == START.(prev := s.prev) && s.prev != Some('/')
  }

  /** An escape is pending only inside a string literal, and only quotes open one. */
  predicate Sane(s: State) {
    && (s.escape ==> s.quote.Some?)
    && (s.quote.Some? ==> s.quote.value in {'"', '\''})
  }

  /** Delimiters that mean nothing else to the scanner. */
  predicate Plain(delims: set<char>) {
    forall d :: d in delims ==>
      !IsSpace(d) && d !in {'/', '*', '"', '\'', '\\', '{', '}', '[', ']', '(', ')', '<', '>'}
  }

  lemma {:induction false} ScanSane(s: State, text: string)
    requires Sane(s)
    ensures Sane(Scan(s, text))
    decreases |text|
  {
    if text != "" {
      ScanSane(Observed(s, text[0]), text[1..]);
    }
  }

  lemma FreshScan(s: State, text: string, delims: set<char>)
    requires Fresh(s)
    ensures Pieces(s, text, delims) == Pieces(START, text, delims)
    ensures text != "" ==> Scan(s, text) == Scan(START, text)
  {
  }

  lemma FreshAfterDelimiter(s: State, d: char, delims: set<char>)
    requires Sane(s) && s.AtTop() && d in delims && Plain(delims)
    ensures Fresh(Observed(s, d))
  {
  }

  predicate Uncut(s: State, text: string, delims: set<char>) {
    Pieces(s, text, delims) == [text]
  }

  lemma {:induction false} PiecesConcat(s: State, a: string, b: string, delims: set<char>)
    requires Uncut(s, a, delims)
    ensures Pieces(s, a + b, delims) == PiecesAfter(a, Scan(s, a), b, delims)
    decreases |a|
  {
    if a == "" {
      assert a + b == b;
      PiecesAfterNothing(s, b, delims);
    } else {
      var s' := Observed(s, a[0]);
      assert (a + b)[1..] == a[1..] + b;
      UncutStep(s, a, delims);
      PiecesConcat(s', a[1..], b, delims);
      var qs := Pieces(Scan(s, a), b, delims);
      assert [a[0]] + (a[1..] + qs[0]) == a + qs[0];
    }
  }

  lemma {:induction false} UncutConcat(s: State, a: string, b: string, delims: set<char>)
    ensures Uncut(s, a + b, delims) <==> Uncut(s, a, delims) && Uncut(Scan(s, a), b, delims)
    decreases |a|
  {
    if Uncut(s, a, delims) {
      PiecesConcat(s, a, b, delims);
      var qs := Pieces(Scan(s, a), b, delims);
      if [a + qs[0]] + qs[1..] == [a + b] {
        assert ([a + qs[0]] + qs[1..])[0] == a + b;
        assert qs[0] == (a + qs[0])[|a|..] && b == (a + b)[|a|..];
      }
    } else if a != "" {
      assert (a + b)[1..] == a[1..] + b;
      UncutConcat(Observed(s, a[0]), a[1..], b, delims);
      UncutStep(s, a, delims);
      UncutStep(s, a + b, delims);
    }
  }

  lemma UncutStep(s: State, text: string, delims: set<char>)
    requires text != ""
    ensures Uncut(s, text, delims) <==>
              !(s.AtTop() && text[0] in delims) && Uncut(Observed(s, text[0]), text[1..], delims)
  {
    var ps := Pieces(Observed(s, text[0]), text[1..], delims);
    assert text == [text[0]] + text[1..];
    if [[text[0]] + ps[0]] + ps[1..] == [text] {
      assert ([[text[0]] + ps[0]] + ps[1..])[0] == text;
      assert ps[0] == ([text[0]] + ps[0])[1..];
    }
  }

  lemma {:induction false} BlankStaysTop(s: State, blank: string, delims: set<char>)
    requires Sane(s) && s.AtTop() && Blank(blank) && Plain(delims)
    ensures Uncut(s, blank, delims) && Scan(s, blank).AtTop() && Sane(Scan(s, blank))
    ensures Fresh(s) || blank != "" ==> Fresh(Scan(s, blank))
    decreases |blank|
  {
    if blank != "" {
      var s' := Observed(s, blank[0]);
      assert IsSpace(blank[0]);
      assert Fresh(s');
      BlankStaysTop(s', blank[1..], delims);
      UncutStep(s, blank, delims);
    }
  }

  /** Blanks in front of a text do not show in its parts. */
  lemma SplitSkipsBlank(s: State, blank: string, text: string, delims: set<char>)
    requires Fresh(s) && Blank(blank) && Plain(delims)
    ensures SplitFrom(s, blank + text, delims) == Parts(text, delims)
  {
    BlankStaysTop(s, blank, delims);
    PiecesConcat(s, blank, text, delims);
    FreshScan(Scan(s, blank), text, delims);
    TrimSkipsBlank(blank, Pieces(START, text, delims)[0]);
  }

  // ----- what splitting yields

  /** A text that splitting can return: trimmed, not empty, without a top-level delimiter. */
  predicate IsPart(p: string, delims: set<char>) {
    p != "" && IsTrimmed(p) && Uncut(START, p, delims)
  }

  /** Whether the scanner is at the top level after the part, so that a delimiter behind it counts. */
  predicate EndsClosed(p: string) {
    Scan(START, p).AtTop()
  }

  /** Whether the part ends inside a `//` comment: trimming has cut off the newline that closed it. */
  predicate EndsInLineComment(p: string) {
    Scan(START, p).line
  }

  /** The first piece of a text: either all of it, or what stands before the first delimiter that counts. */
  lemma {:induction false} FirstPiece(s: State, text: string, delims: set<char>)
    ensures var ps := Pieces(s, text, delims);
            var a := ps[0];
            && a <= text && Uncut(s, a, delims)
            && if |ps| == 1 then a == text
               else && |a| < |text| && text[|a|] in delims && Scan(s, a).AtTop()
                    && ps[1..] == Pieces(Observed(Scan(s, a), text[|a|]), text[|a| + 1..], delims)
    decreases |text|
  {
    if text != "" && !(s.AtTop() && text[0] in delims) {
      var s' := Observed(s, text[0]);
      FirstPiece(s', text[1..], delims);
      var b := Pieces(s', text[1..], delims)[0];
      var a := [text[0]] + b;
      assert a[1..] == b && a[0] == text[0];
      UncutStep(s, a, delims);
      if |b| < |text[1..]| {
        assert text[1..][|b| + 1..] == text[|a| + 1..];
      }
    }
  }

  /** If blanks bring the scanner to the top level, it was there before or in a line comment. */
  lemma {:induction false} BeforeBlank(s: State, blank: string)
    requires Sane(s) && Blank(blank) && Scan(s, blank).AtTop()
    ensures s.AtTop() || s.line
    decreases |blank|
  {
    if blank != "" {
      assert IsSpace(blank[0]);
      BeforeBlank(Observed(s, blank[0]), blank[1..]);
    }
  }

  /** A piece scanned from a fresh state is blank or trims to a part; before a delimiter the part is closed or ends in a line comment. */
  lemma PieceIsPart(s: State, piece: string, delims: set<char>)
    requires Fresh(s) && Plain(delims) && Uncut(s, piece, delims) && Trim(piece) != ""
    ensures IsPart(Trim(piece), delims)
    ensures Scan(s, piece).AtTop() ==> EndsClosed(Trim(piece)) || EndsInLineComment(Trim(piece))
  {
    var p := Trim(piece);
    var before, after := TrimParts(piece);
    TrimIsTrimmed(piece);
    assert piece == before + (p + after);
    BlankStaysTop(s, before, delims);
    var s' := Scan(s, before);
    UncutConcat(s, before, p + after, delims);
    UncutConcat(s', p, after, delims);
    FreshScan(s', p, delims);
    if Scan(s, piece).AtTop() {
      ScanConcat(s, before, p + after);
      ScanConcat(s', p, after);
      ScanSane(s', p);
      BeforeBlank(Scan(s', p), after);
    }
  }

  predicate ClosedOrComment(p: string) {
    EndsClosed(p) || EndsInLineComment(p)
  }

  ghost predicate AreParts(ps: seq<string>, delims: set<char>) {
    forall p :: p in ps ==> IsPart(p, delims)
  }

  /** A split text: its first piece, trimmed, and the parts of what stands behind the delimiter, if there is one. */
  lemma SplitPeel(s: State, text: string, delims: set<char>) returns (a: string, cut: bool)
    ensures a <= text && Uncut(s, a, delims)
    ensures !cut ==> a == text && SplitFrom(s, text, delims) == NonEmpty(Trim(a))
    ensures cut ==> |a| < |text| && text[|a|] in delims && Scan(s, a).AtTop()
    ensures cut ==> SplitFrom(s, text, delims) ==
                    NonEmpty(Trim(a)) + SplitFrom(Observed(Scan(s, a), text[|a|]), text[|a| + 1..], delims)
  {
    FirstPiece(s, text, delims);
    var ps := Pieces(s, text, delims);
    a, cut := ps[0], |ps| > 1;
    assert ps == [a] + ps[1..];
    VisibleCons(a, ps[1..]);
  }

  lemma {:induction false} SplitYieldsParts(s: State, text: string, delims: set<char>)
    requires Fresh(s) && Plain(delims)
    ensures AreParts(SplitFrom(s, text, delims), delims)
    ensures AllButLast(SplitFrom(s, text, delims), ClosedOrComment)
    decreases |text|
  {
    var a, cut := SplitPeel(s, text, delims);
    if Trim(a) != "" {
      PieceIsPart(s, a, delims);
    }
    if cut {
      var next, rest := Observed(Scan(s, a), text[|a|]), text[|a| + 1..];
      ScanSane(s, a);
      FreshAfterDelimiter(Scan(s, a), text[|a|], delims);
      SplitYieldsParts(next, rest, delims);
      ConsPart(Trim(a), SplitFrom(next, rest, delims), delims);
    } else {
      ConsPart(Trim(a), [], delims);
    }
  }

  lemma ConsPart(p: string, ps: seq<string>, delims: set<char>)
    requires AreParts(ps, delims) && AllButLast(ps, ClosedOrComment)
    requires p != "" ==> IsPart(p, delims) && (ps == [] || ClosedOrComment(p))
    ensures AreParts(NonEmpty(p) + ps, delims) && AllButLast(NonEmpty(p) + ps, ClosedOrComment)
  {
    assert p == "" ==> NonEmpty(p) + ps == ps;
    assert p != "" ==> (NonEmpty(p) + ps)[1..] == ps;
  }

  // ----- joining and splitting again

  /** A separator: one delimiter, blanks around it, no newline. */
  datatype Separator = Separator(before: string, delim: char, after: string) {
    function Text(): string {
      before + [delim] + after
    }

    predicate Fits(delims: set<char>) {
      && delim in delims && Plain(delims)
      && Blank(before) && Blank(after) && '\n' !in before && '\n' !in after
    }
  }

  const ARMS := Separator(" ", '|', " ")
  const FIELDS := Separator("", ',', " ")

  /** A delimiter behind an uncut text that leaves the scanner at the top level ends the first piece. */
  lemma PeelPiece(piece: string, d: char, behind: string, delims: set<char>)
    requires Uncut(START, piece, delims) && Scan(START, piece).AtTop() && d in delims
    ensures Pieces(START, piece + ([d] + behind), delims)
            == [piece] + Pieces(Observed(Scan(START, piece), d), behind, delims)
  {
    var s := Scan(START, piece);
    PiecesConcat(START, piece, [d] + behind, delims);
    PiecesAfterStep(piece, s, [d] + behind, delims);
    assert ([d] + behind)[1..] == behind;
    PiecesAfterNothing(Observed(s, d), behind, delims);
  }

  lemma BlankTail(p: string, blank: string, delims: set<char>)
    requires Uncut(START, p, delims) && Scan(START, p).AtTop() && Blank(blank) && Plain(delims)
    ensures Uncut(START, p + blank, delims) && Scan(START, p + blank).AtTop() && Sane(Scan(START, p + blank))
  {
    ScanSane(START, p);
    BlankStaysTop(Scan(START, p), blank, delims);
    UncutConcat(START, p, blank, delims);
    ScanConcat(START, p, blank);
  }

  lemma TrimTail(p: string, blank: string)
    requires p != "" && IsTrimmed(p) && Blank(blank)
    ensures Trim(p + blank) == p
  {
    assert "" + p + blank == p + blank;
    TrimUnique("", p, blank);
  }

  lemma ClosedPiece(p: string, blank: string, delims: set<char>)
    requires IsPart(p, delims) && EndsClosed(p) && Blank(blank) && Plain(delims)
    ensures Uncut(START, p + blank, delims) && Scan(START, p + blank).AtTop() && Sane(Scan(START, p + blank))
    ensures Trim(p + blank) == p
  {
    BlankTail(p, blank, delims);
    TrimTail(p, blank);
  }

  /** Splitting peels a closed part off the front of a joined text. */
  lemma PeelPart(p: string, sep: Separator, rest: string, delims: set<char>)
    requires IsPart(p, delims) && EndsClosed(p) && sep.Fits(delims)
    ensures Parts(p + sep.Text() + rest, delims) == [p] + Parts(rest, delims)
  {
    var piece, behind := p + sep.before, sep.after + rest;
    ClosedPiece(p, sep.before, delims);
    var s := Observed(Scan(START, piece), sep.delim);
    assert p + sep.Text() + rest == piece + ([sep.delim] + behind);
    PeelPiece(piece, sep.delim, behind, delims);
    VisibleCons(piece, Pieces(s, behind, delims));
    FreshAfterDelimiter(Scan(START, piece), sep.delim, delims);
    SplitSkipsBlank(s, sep.after, rest, delims);
  }

  lemma SinglePart(p: string, delims: set<char>)
    requires IsPart(p, delims)
    ensures Parts(p, delims) == [p]
  {
    assert "" + p + "" == p;
    TrimUnique("", p, "");
    VisibleCons(p, []);
    assert [p] + [] == [p];
  }

  /** Joined parts split into exactly these parts, if all but the last end closed. */
  lemma {:induction false} SplitOfJoin(ps: seq<string>, sep: Separator, delims: set<char>)
    requires AreParts(ps, delims) && AllButLast(ps, EndsClosed) && sep.Fits(delims)
    ensures Parts(Join(ps, sep.Text()), delims) == ps
  {
    if ps == [] {
      assert Pieces(START, "", delims) == [""] + [];
      VisibleCons("", []);
    } else if |ps| == 1 {
      assert ps == [ps[0]];
      SinglePart(ps[0], delims);
    } else {
      assert ps == [ps[0]] + ps[1..];
      SplitOfJoin(ps[1..], sep, delims);
      PeelPart(ps[0], sep, Join(ps[1..], sep.Text()), delims);
    }
  }

  lemma {:induction false} LineCommentSwallows(s: State, text: string, delims: set<char>)
    requires s.line && '\n' !in text
    ensures Uncut(s, text, delims) && Scan(s, text).line
    decreases |text|
  {
    if text != "" {
      assert text[0] in text && forall c :: c in text[1..] ==> c in text;
      LineCommentSwallows(Observed(s, text[0]), text[1..], delims);
      UncutStep(s, text, delims);
    }
  }

  /** A visible character at `i` survives trimming of a text that starts visibly. */
  lemma TrimKeepsVisible(text: string, i: nat)
    requires i < |text| && !IsSpace(text[0]) && !IsSpace(text[i])
    ensures |Trim(text)| > i
  {
    var before, after := TrimParts(text);
  }

  /** A part that ends in a line comment swallows the separator behind it. */
  lemma CommentSwallowsSeparator(p: string, sep: Separator, rest: string, delims: set<char>)
    requires IsPart(p, delims) && EndsInLineComment(p) && sep.Fits(delims)
    ensures var ps := Parts(p + sep.Text() + rest, delims); ps != [] && ps[0] != p
  {
    var a := p + sep.Text();
    assert sep.Text()[|sep.before|] == sep.delim;
    assert '\n' !in sep.Text();
    LineCommentSwallows(Scan(START, p), sep.Text(), delims);
    UncutConcat(START, p, sep.Text(), delims);
    PiecesConcat(START, a, rest, delims);
    var ps := Pieces(START, a + rest, delims);
    assert ps[0][0] == p[0] && ps[0][|p| + |sep.before|] == sep.delim;
    TrimKeepsVisible(ps[0], |p| + |sep.before|);
    assert ps == [ps[0]] + ps[1..];
    VisibleCons(ps[0], ps[1..]);
  }

  predicate NotInLineComment(p: string) {
    !EndsInLineComment(p)
  }

  /**
   * Splitting undoes joining exactly when no part but the last ends in a line comment.
   */
  lemma {:induction false} SplitOfJoinIff(ps: seq<string>, sep: Separator, delims: set<char>)
    requires AreParts(ps, delims) && AllButLast(ps, ClosedOrComment) && sep.Fits(delims)
    ensures Parts(Join(ps, sep.Text()), delims) == ps <==> AllButLast(ps, NotInLineComment)
  {
    if |ps| <= 1 {
      SplitOfJoin(ps, sep, delims);
    } else {
      var rest := Join(ps[1..], sep.Text());
      SplitOfJoinIff(ps[1..], sep, delims);
      assert ps == [ps[0]] + ps[1..];
      if EndsInLineComment(ps[0]) {
        CommentSwallowsSeparator(ps[0], sep, rest, delims);
      } else {
        PeelPart(ps[0], sep, rest, delims);
        assert ([ps[0]] + Parts(rest, delims))[1..] == Parts(rest, delims);
      }
    }
  }

  // ----- the filters

  /** The parts of `body` that a filter keeps. */
  function Survivors(body: string, delims: set<char>, keep: string -> bool): seq<string> {
    Filter(Parts(body, delims), keep)
  }

  /** The text that a filter puts in place of `body`. */
  function Filtered(body: string, delims: set<char>, sep: Separator, keep: string -> bool): string {
    Join(Survivors(body, delims, keep), sep.Text())
  }

  lemma SurvivorsAreParts(body: string, delims: set<char>, keep: string -> bool)
    requires Plain(delims)
    ensures AreParts(Survivors(body, delims, keep), delims)
    ensures AllButLast(Survivors(body, delims, keep), ClosedOrComment)
  {
    SplitYieldsParts(START, body, delims);
    FilterKeepsAllButLast(Parts(body, delims), keep, ClosedOrComment);
  }

  /**
   * Splitting a filtered body gives back exactly the surviving parts, in order, if and only if no survivor
   * but the last ends in a line comment.
   */
  lemma FilteredSplitsIntoSurvivorsIff(body: string, delims: set<char>, sep: Separator, keep: string -> bool)
    requires sep.Fits(delims)
    ensures Parts(Filtered(body, delims, sep, keep), delims) == Survivors(body, delims, keep)
            <==> AllButLast(Survivors(body, delims, keep), NotInLineComment)
  {
    SurvivorsAreParts(body, delims, keep);
    SplitOfJoinIff(Survivors(body, delims, keep), sep, delims);
  }

  /** Filtering a filtered body again changes nothing. */
  lemma FilterIsIdempotent(body: string, delims: set<char>, sep: Separator, keep: string -> bool)
    requires sep.Fits(delims) && AllButLast(Survivors(body, delims, keep), NotInLineComment)
    ensures Filtered(Filtered(body, delims, sep, keep), delims, sep, keep) == Filtered(body, delims, sep, keep)
  {
    FilteredSplitsIntoSurvivorsIff(body, delims, sep, keep);
    FilterAll(Survivors(body, delims, keep), keep);
  }

  // ----- parts that joining swallows

  lemma {:induction false} UncutWithout(s: State, text: string, delims: set<char>)
    requires forall i :: 0 <= i < |text| ==> text[i] !in delims
    ensures Uncut(s, text, delims)
    decreases |text|
  {
    if text != "" {
      UncutWithout(Observed(s, text[0]), text[1..], delims);
      UncutStep(s, text, delims);
    }
  }

  lemma CommentIsPart()
    ensures IsPart("a//", {'|'}) && IsPart("b", {'|'}) && EndsInLineComment("a//") && EndsClosed("b")
  {
    UncutWithout(START, "a//", {'|'});
    UncutWithout(START, "b", {'|'});
  }

  /** A line comment at the end of an arm swallows the separator and the next arm. */
  lemma CommentSwallowsArm()
    ensures Parts(Join(["a//", "b"], ARMS.Text()), {'|'}) != ["a//", "b"]
  {
    CommentIsPart();
    assert ["a//", "b"][1..] == ["b"];
    SplitOfJoinIff(["a//", "b"], ARMS, {'|'});
  }

  lemma ArmBeforeNewline()
    ensures Scan(START, "a//\n").AtTop() && Trim("a//\n") == "a//"
  {
    assert "" + "a//" + "\n" == "a//\n";
    TrimUnique("", "a//", "\n");
  }

  lemma TwoParts(a: string, d: char, b: string, delims: set<char>)
    requires Uncut(START, a, delims) && Scan(START, a).AtTop() && d in delims && Trim(a) != ""
    requires Uncut(Observed(Scan(START, a), d), b, delims) && Trim(b) != ""
    ensures Parts(a + ([d] + b), delims) == [Trim(a), Trim(b)]
  {
    PeelPiece(a, d, b, delims);
    VisibleCons(a, [b]);
    VisibleCons(b, []);
    assert [b] + [] == [b] && Visible([]) == [];
    assert [Trim(a)] + [Trim(b)] == [Trim(a), Trim(b)];
  }

  lemma TrimTrimmed(p: string)
    requires p != "" && IsTrimmed(p)
    ensures Trim(p) == p
  {
    assert "" + p + "" == p;
    TrimUnique("", p, "");
  }

  lemma TwoArms()
    ensures Parts("a//\n|b", {'|'}) == ["a//", "b"]
  {
    ArmBeforeNewline();
    UncutWithout(START, "a//\n", {'|'});
    UncutWithout(Observed(Scan(START, "a//\n"), '|'), "b", {'|'});
    TrimTrimmed("b");
    TwoParts("a//\n", '|', "b", {'|'});
    assert "a//\n|b" == "a//\n" + (['|'] + "b");
  }

  /** So a body of two arms is filtered into a text of one, even if both survive. */
  lemma FilteredBodyHasOneArm(keep: string -> bool)
    requires keep("a//") && keep("b")
    ensures Survivors("a//\n|b", {'|'}, keep) == ["a//", "b"]
    ensures Parts(Filtered("a//\n|b", {'|'}, ARMS, keep), {'|'}) != ["a//", "b"]
  {
    TwoArms();
    FilterAll(["a//", "b"], keep);
    CommentSwallowsArm();
  }
}
