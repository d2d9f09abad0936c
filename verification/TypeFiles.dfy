/** Where the two filters over generated TypeScript files look: the body of a type alias, and the braces of a type body. */
module TypeFiles {
  import opened Wrappers
  import opened Text
  import opened Scanner
  import opened Seqs
  import opened Split
  import opened Braces

  const ARM_DELIMS := {'|'}
  const FIELD_DELIMS := {',', ';'}

  // ----- union arms

  /** The index of the last `c` in `t`, or `|t|` when there is none. */
  function LastIndex(t: string, c: char): (i: nat)
    ensures i <= |t| && (i < |t| ==> t[i] == c && c !in t[i + 1..])
    ensures i == |t| ==> c !in t
  {
    if t == "" then 0
    else
      var i := LastIndex(t[1..], c);
      if i < |t| - 1 then i + 1 else if t[0] == c then 0 else |t|
  }

  /** `split_type_alias`: the text around the body between the first `=` and the last `;`. */
  function SplitAlias(content: string): Option<(string, string, string)> {
    var eq, semi := |Before(content, '=')|, LastIndex(content, ';');
    if eq == |content| || semi == |content| || semi <= eq then None
    else Some((content[..eq + 1], content[eq + 1..semi], content[semi..]))
  }

  /** A text is cut at its first `=` and its last `;`. */
  lemma AliasOf(u: string, body: string, v: string, content: string)
    requires '=' !in u && ';' !in v && content == u + "=" + body + (";" + v)
    ensures SplitAlias(content) == Some((u + "=", body, ";" + v))
  {
    var semi := |u| + 1 + |body|;
    assert content == u + ['='] + (body + (";" + v));
    BeforeJoined(u, '=', body + (";" + v));
    assert content[semi] == ';' && content[semi..] == ";" + v && content[semi + 1..] == v;
    LastIndexIs(content, ';', semi);
    assert content[..|u| + 1] == u + "=" && content[|u| + 1..semi] == body;
  }

  lemma LastIndexIs(t: string, ch: char, i: nat)
    requires i < |t| && t[i] == ch && ch !in t[i + 1..]
    ensures LastIndex(t, ch) == i
  {
  }

  lemma AliasParts(content: string) returns (u: string, v: string)
    requires SplitAlias(content).Some?
    ensures '=' !in u && ';' !in v
    ensures SplitAlias(content).value.0 == u + "=" && SplitAlias(content).value.2 == ";" + v
    ensures content == u + "=" + SplitAlias(content).value.1 + (";" + v)
  {
    u := Before(content, '=');
    var semi := LastIndex(content, ';');
    v := content[semi + 1..];
    assert content[..|u| + 1] == u + "=" && content[semi..] == ";" + v;
  }

  lemma NoAlias(u: string, t: string, content: string)
    requires '=' !in u && ';' !in t && content == u + "=" + t
    ensures SplitAlias(content) == None
  {
    assert content == u + ['='] + t;
    BeforeJoined(u, '=', t);
  }

  lemma NoEqualsNoAlias(content: string)
    requires '=' !in content
    ensures SplitAlias(content) == None
  {
    BeforeAbsent(content, '=');
  }

  // ----- scanning inside braces

  /** No closing brace outside strings and comments lacks its opening brace. */
  predicate Balanced(s: State, text: string)
    decreases |text|
  {
    text == "" || ((!s.Ignored() && text[0] == '}' ==> s.brace > 0) && Balanced(Observed(s, text[0]), text[1..]))
  }

  function Lift(s: State): State {
    s.(brace := s.brace + 1)
  }

  /** Inside one more pair of braces the scanner behaves as outside, one level deeper. */
  lemma {:induction false} LiftedScan(s: State, text: string)
    requires Balanced(s, text)
    ensures Scan(Lift(s), text) == Lift(Scan(s, text))
    decreases |text|
  {
    if text != "" {
      assert Observed(Lift(s), text[0]) == Lift(Observed(s, text[0]));
      LiftedScan(Observed(s, text[0]), text[1..]);
    }
  }

  lemma {:induction false} BalancedConcat(s: State, a: string, b: string)
    ensures Balanced(s, a + b) <==> Balanced(s, a) && Balanced(Scan(s, a), b)
    decreases |a|
  {
    if a == "" {
      assert a + b == b;
    } else {
      assert (a + b)[1..] == a[1..] + b;
      BalancedConcat(Observed(s, a[0]), a[1..], b);
    }
  }

  lemma {:induction false} BalancedWithoutBraces(s: State, text: string)
    requires '}' !in text
    ensures Balanced(s, text)
    decreases |text|
  {
    if text != "" {
      assert text[0] in text && forall c :: c in text[1..] ==> c in text;
      BalancedWithoutBraces(Observed(s, text[0]), text[1..]);
    }
  }

  lemma BalancedFresh(s: State, text: string)
    requires Fresh(s)
    ensures Balanced(s, text) == Balanced(START, text)
  {
  }

  ghost predicate AllBalanced(ps: seq<string>) {
    forall p :: p in ps ==> Balanced(START, p)
  }

  ghost predicate AllClosed(ps: seq<string>) {
    forall p :: p in ps ==> EndsClosed(p)
  }

  lemma BalancedCut(s: State, text: string, a: string)
    requires a <= text && |a| < |text| && Balanced(s, text)
    ensures Balanced(s, a) && Balanced(Observed(Scan(s, a), text[|a|]), text[|a| + 1..])
    ensures Scan(Observed(Scan(s, a), text[|a|]), text[|a| + 1..]) == Scan(s, text)
  {
    var d, rest := text[|a|], text[|a| + 1..];
    assert text == a + ([d] + rest);
    BalancedConcat(s, a, [d] + rest);
    ScanConcat(s, a, [d] + rest);
    assert ([d] + rest)[1..] == rest;
  }

  /** The parts of a balanced text are balanced; if the text ends at the top level, so does each part or it ends in a comment. */
  lemma {:induction false} PartsOfBalanced(s: State, text: string, delims: set<char>)
    requires Fresh(s) && Plain(delims) && Balanced(s, text) && Scan(s, text).AtTop()
    ensures forall p :: p in SplitFrom(s, text, delims) ==> Balanced(START, p) && ClosedOrComment(p)
    decreases |text|
  {
    var a, cut := SplitPeel(s, text, delims);
    if cut {
      BalancedCut(s, text, a);
      ScanSane(s, a);
      FreshAfterDelimiter(Scan(s, a), text[|a|], delims);
      PartsOfBalanced(Observed(Scan(s, a), text[|a|]), text[|a| + 1..], delims);
    }
    if Trim(a) != "" {
      PieceIsPart(s, a, delims);
      PieceIsBalanced(s, a, delims);
    }
  }

  lemma PieceIsBalanced(s: State, piece: string, delims: set<char>)
    requires Fresh(s) && Plain(delims) && Balanced(s, piece) && Trim(piece) != ""
    ensures Balanced(START, Trim(piece))
  {
    var before, after := TrimParts(piece);
    var p := Trim(piece);
    assert piece == before + (p + after);
    BlankStaysTop(s, before, delims);
    BalancedConcat(s, before, p + after);
    BalancedConcat(Scan(s, before), p, after);
    BalancedFresh(Scan(s, before), p);
  }

  lemma SeparatorIsNeutral(s: State, sep: Separator, delims: set<char>)
    requires Sane(s) && s.AtTop() && sep.Fits(delims)
    ensures Balanced(s, sep.Text()) && Fresh(Scan(s, sep.Text()))
  {
    var front := sep.before + [sep.delim];
    assert '}' !in sep.Text() by {
      assert !IsSpace('}') && sep.delim != '}';
      assert forall i :: 0 <= i < |sep.Text()| ==> IsSpace(sep.Text()[i]) || sep.Text()[i] == sep.delim;
    }
    BalancedWithoutBraces(s, sep.Text());
    BlankStaysTop(s, sep.before, delims);
    ScanSnoc(s, sep.before, sep.delim);
    FreshAfterDelimiter(Scan(s, sep.before), sep.delim, delims);
    BlankStaysTop(Scan(s, front), sep.after, delims);
    ScanConcat(s, front, sep.after);
  }

  /** Joining closed and balanced parts gives a closed and balanced text. */
  lemma {:induction false} JoinedIsBalanced(ps: seq<string>, sep: Separator, delims: set<char>)
    requires AllBalanced(ps) && AllClosed(ps) && sep.Fits(delims)
    ensures Balanced(START, Join(ps, sep.Text())) && EndsClosed(Join(ps, sep.Text()))
  {
    if |ps| == 1 {
      assert ps[0] in ps;
    } else if |ps| > 1 {
      assert ps[0] in ps && forall p :: p in ps[1..] ==> p in ps;
      JoinedIsBalanced(ps[1..], sep, delims);
      var p, rest := ps[0], Join(ps[1..], sep.Text());
      var s := Scan(START, p);
      ScanSane(START, p);
      SeparatorIsNeutral(s, sep, delims);
      var s' := Scan(s, sep.Text());
      assert p + sep.Text() + rest == p + (sep.Text() + rest);
      BalancedConcat(START, p, sep.Text() + rest);
      BalancedConcat(s, sep.Text(), rest);
      BalancedFresh(s', rest);
      ScanConcat(START, p, sep.Text() + rest);
      ScanConcat(s, sep.Text(), rest);
      FreshScan(s', rest, delims);
    }
  }

  // ----- fields of a type body

  /** The state just inside a top-level brace, one level below a fresh one. */
  function Inside(): (s: State)
    ensures Fresh(s) && Sane(s) && s.AtTop()
  {
    START.(prev := Some('{'))
  }

  lemma OpeningBrace(s: State, rest: string)
    requires Sane(s) && s.AtTop()
    ensures Scan(s, ['{'] + rest) == Scan(Lift(Inside()), rest)
  {
  }

  /** A text is balanced and closed just inside a brace exactly if it is so on its own. */
  lemma InsideLikeStart(inner: string)
    ensures Balanced(Inside(), inner) == Balanced(START, inner)
    ensures Scan(Inside(), inner).AtTop() == EndsClosed(inner)
  {
  }

  lemma ClosingBrace(s: State)
    requires Sane(s)
    ensures Observed(Lift(s), '}').AtTop() <==> s.AtTop()
  {
  }

  /** What can stand between two braces so that they are found as a pair. */
  ghost predicate Enclosed(inner: string) {
    IsSpan("{" + inner + "}", 0, |inner| + 1)
  }

  lemma TopsOutside(text: string, next: string, o: nat)
    requires o < |text| && o < |next| && text[..o] == next[..o]
    ensures Tops(next)[..o + 1] == Tops(text)[..o + 1]
  {
    forall i | 0 <= i <= o
      ensures Tops(next)[i] == Tops(text)[i]
    {
      assert text[..i] == text[..o][..i] && next[..i] == next[..o][..i];
    }
  }

  lemma TopInside(head: string, inner: string, tail: string, k: nat, text: string)
    requires Scan(START, head).AtTop() && k <= |inner| + 1 && tail != "" && tail[0] == '}'
    requires text == head + ("{" + inner) + tail
    ensures Tops(text)[|head| + 1 + k] == Scan(Lift(Inside()), (inner + "}")[..k]).AtTop()
  {
    assert text[..|head| + 1 + k] == head + (['{'] + (inner + "}")[..k]);
    ScanSane(START, head);
    ScanConcat(START, head, ['{'] + (inner + "}")[..k]);
    OpeningBrace(Scan(START, head), (inner + "}")[..k]);
  }

  /** Behind any text that ends at the top level, the scanner is inside the braces as it is without that text. */
  lemma TopAlone(head: string, inner: string, tail: string, k: nat, text: string, alone: string)
    requires Scan(START, head).AtTop() && k <= |inner| + 1 && tail != "" && tail[0] == '}'
    requires text == head + ("{" + inner) + tail && alone == "{" + inner + "}"
    ensures Tops(text)[|head| + 1 + k] == Tops(alone)[1 + k]
  {
    TopInside(head, inner, tail, k, text);
    NothingBefore(inner, alone);
    TopInside("", inner, "}", k, alone);
  }

  lemma NothingBefore(inner: string, alone: string)
    requires alone == "{" + inner + "}"
    ensures alone == "" + ("{" + inner) + "}"
  {
  }

  lemma SameCharacters(head: string, inner: string, tail: string, text: string, alone: string)
    requires tail != "" && tail[0] == '}' && text == head + ("{" + inner) + tail && alone == "{" + inner + "}"
    ensures |head| + |alone| <= |text| && Occurs(alone, text, |head|)
  {
  }

  lemma SameLevels(head: string, inner: string, tail: string, text: string, alone: string, tops: seq<bool>, aloneTops: seq<bool>)
    requires Scan(START, head).AtTop() && tail != "" && tail[0] == '}'
    requires text == head + ("{" + inner) + tail && alone == "{" + inner + "}"
    requires tops == Tops(text) && aloneTops == Tops(alone)
    ensures Occurs(aloneTops, tops, |head|)
  {
    forall j | 0 < j < |aloneTops|
      ensures aloneTops[j] == tops[|head| + j]
    {
      TopAlone(head, inner, tail, j - 1, text, alone);
    }
  }

  lemma ShiftedAlone(head: string, inner: string, tail: string, text: string, alone: string)
    requires Scan(START, head).AtTop() && tail != "" && tail[0] == '}'
    requires text == head + ("{" + inner) + tail && alone == "{" + inner + "}"
    ensures |head| + |alone| <= |text| && Shifted(text, Tops(text), |head|, alone, Tops(alone))
  {
    SameCharacters(head, inner, tail, text, alone);
    SameLevels(head, inner, tail, text, alone, Tops(text), Tops(alone));
  }

  lemma EnclosedIff(inner: string, alone: string)
    requires alone == "{" + inner + "}"
    ensures Enclosed(inner) <==> Undisturbed(alone, Tops(alone), 0, |alone| - 1)
  {
    AloneStarts(alone);
    AlonePair(alone, Tops(alone), |inner| + 1);
  }

  lemma UndisturbedAlone(head: string, inner: string, tail: string, text: string, c: nat)
    requires Scan(START, head).AtTop() && tail != "" && tail[0] == '}' && text == head + ("{" + inner) + tail
    requires c == |head| + 1 + |inner|
    ensures Undisturbed(text, Tops(text), |head|, c) <==> Enclosed(inner)
  {
    var alone := "{" + inner + "}";
    ShiftedAlone(head, inner, tail, text, alone);
    ShiftUndisturbed(text, Tops(text), |head|, alone, Tops(alone));
    assert c == |head| + |alone| - 1;
    EnclosedIff(inner, alone);
  }

  lemma AloneStarts(alone: string)
    ensures Tops(alone)[0]
  {
    assert alone[..0] == "";
  }

  lemma Rewrap(text: string, o: nat, c: nat, inner: string)
    requires o < c < |text| && text[o] == '{' && text[c] == '}'
    ensures var next := text[..o + 1] + inner + text[c..];
            && next == text[..o] + ("{" + inner) + text[c..]
            && o + 1 < |next| && next[..o + 1] == text[..o + 1] && next[..o] == text[..o]
  {
  }

  /** Of the texts that can be put between the braces of the pair found in a file, exactly the enclosed ones are found there again. */
  lemma SpanAroundIff(text: string, o: nat, c: nat, inner: string, next: string)
    requires IsSpan(text, o, c) && next == text[..o + 1] + inner + text[c..]
    ensures IsSpan(next, o, o + 1 + |inner|) <==> Enclosed(inner)
  {
    SpanOpens(text, o, c);
    Rewrap(text, o, c, inner);
    TopsOutside(text, next, o);
    PairAroundIff(text, Tops(text), o, c, next, Tops(next), o + 1 + |inner|);
    UndisturbedAlone(text[..o], inner, text[c..], next, o + 1 + |inner|);
  }

  lemma SpanOpens(text: string, o: nat, c: nat)
    requires IsSpan(text, o, c)
    ensures o < c < |text| && text[o] == '{' && text[c] == '}' && Scan(START, text[..o]).AtTop()
  {
  }

  lemma OwnInner(text: string, o: nat, c: nat)
    requires o < c < |text|
    ensures text == text[..o + 1] + text[o + 1..c] + text[c..]
  {
  }

  /** So what stands between the braces of the pair is enclosed. */
  lemma InnerIsEnclosed(text: string, o: nat, c: nat)
    requires IsSpan(text, o, c)
    ensures c < |text| && Enclosed(text[o + 1..c])
  {
    SpanOpens(text, o, c);
    OwnInner(text, o, c);
    SpanAroundIff(text, o, c, text[o + 1..c], text);
  }

  lemma BalancedNeverTop(inner: string, k: nat)
    requires Balanced(START, inner) && k <= |inner|
    ensures !Scan(Lift(Inside()), inner[..k]).AtTop()
  {
    assert inner == inner[..k] + inner[k..];
    BalancedConcat(START, inner[..k], inner[k..]);
    InsideLikeStart(inner[..k]);
    LiftedScan(Inside(), inner[..k]);
  }

  lemma BalancedLast(inner: string)
    requires Balanced(START, inner)
    ensures Scan(Lift(Inside()), inner + "}").AtTop() <==> EndsClosed(inner)
  {
    InsideLikeStart(inner);
    LiftedScan(Inside(), inner);
    ScanSane(Inside(), inner);
    ScanSnoc(Lift(Inside()), inner, '}');
    ClosingBrace(Scan(Inside(), inner));
  }

  lemma BalancedTops(inner: string, alone: string, i: nat)
    requires Balanced(START, inner) && alone == "{" + inner + "}" && 0 < i <= |inner| + 1
    ensures !Tops(alone)[i]
  {
    NothingBefore(inner, alone);
    TopInside("", inner, "}", i - 1, alone);
    assert (inner + "}")[..i - 1] == inner[..i - 1];
    BalancedNeverTop(inner, i - 1);
  }

  /** A text whose closing braces have their opening ones is enclosed exactly if it ends at the top level. */
  lemma BalancedIsEnclosedIff(inner: string)
    requires Balanced(START, inner)
    ensures Enclosed(inner) <==> EndsClosed(inner)
  {
    var alone, n := "{" + inner + "}", |inner|;
    forall i | 0 < i <= n + 1
      ensures !Tops(alone)[i]
    {
      BalancedTops(inner, alone, i);
    }
    NothingBefore(inner, alone);
    TopInside("", inner, "}", n + 1, alone);
    assert (inner + "}")[..n + 1] == inner + "}";
    BalancedLast(inner);
    EnclosedIff(inner, alone);
    OnlyLastCloses(alone, Tops(alone));
  }

  lemma OnlyLastCloses(alone: string, tops: seq<bool>)
    requires |tops| == |alone| + 1 && |alone| > 1 && alone[|alone| - 1] == '}'
    requires forall i :: 0 < i < |alone| ==> !tops[i]
    ensures Undisturbed(alone, tops, 0, |alone| - 1) <==> tops[|alone|]
  {
  }

  // ----- where the type body is looked for

  const MARKER := "export interface"

  /** Where `type_body_brace_span` starts to scan: behind the first `=`, or else behind `export interface`. */
  function Anchor(content: string): Option<nat> {
    if '=' in content then Some(|Before(content, '=')| + 1)
    else
      match FindText(content, MARKER)
      case None => None
      case Some(i) => Some(i + |MARKER|)
  }

  lemma AnchorInside(content: string)
    requires Anchor(content).Some?
    ensures Anchor(content).value <= |content|
  {
  }

  lemma BeforeIsInside(s: string, c: char)
    requires c in s
    ensures |Before(s, c)| < |s|
  {
  }

  lemma FirstEqualsKept(head: string, text: string, next: string)
    requires '=' in head + text && |Before(head + text, '=')| + 1 == |head|
    ensures '=' in head + next && |Before(head + next, '=')| + 1 == |head|
  {
    var k := |head| - 1;
    BeforeIsInside(head + text, '=');
    assert (head + text)[..k] == head[..k] && (head + text)[k] == head[k];
    assert head + next == head[..k] + ['='] + next;
    BeforeJoined(head[..k], '=', next);
    assert (head + next)[k] == '=';
  }

  lemma MarkerKept(head: string, text: string, next: string)
    requires FindText(head + text, MARKER).Some? && FindText(head + text, MARKER).value + |MARKER| == |head|
    ensures FindText(head + next, MARKER) == FindText(head + text, MARKER)
  {
    assert (head + text)[..|head|] == head && (head + next)[..|head|] == head;
    FindTextPrefix(head + text, head + next, |head|, MARKER);
  }

  /** Where the scan starts depends on what stands before it, unless a first `=` turns up behind it. */
  lemma AnchorKept(head: string, text: string, next: string)
    requires Anchor(head + text) == Some(|head|)
    requires '=' !in head + text ==> '=' !in next
    ensures Anchor(head + next) == Some(|head|)
  {
    if '=' in head + text {
      FirstEqualsKept(head, text, next);
    } else {
      MarkerKept(head, text, next);
      assert '=' !in head + next by {
        assert forall ch :: ch in head ==> ch in head + text;
      }
    }
  }

  /** A file is cut in two where the scan starts; the braces of the type body are indices into the second part. */
  ghost predicate IsTypeBody(head: string, text: string, o: nat, c: nat) {
    Anchor(head + text) == Some(|head|) && o < c < |text| && IsSpan(text, o, c)
  }

  /** `type_body_brace_span`: where the scan starts, and the braces from there on. */
  method TypeBodyBraceSpan(content: string) returns (span: Option<(nat, nat, nat)>)
    ensures span.Some? ==> span.value.0 <= |content|
    ensures span.Some? ==> IsTypeBody(content[..span.value.0], content[span.value.0..], span.value.1, span.value.2)
    ensures span.None? && Anchor(content).Some? ==>
              Anchor(content).value <= |content| && forall o, c :: !IsSpan(content[Anchor(content).value..], o, c)
  {
    if Anchor(content).None? {
      return None;
    }
    AnchorInside(content);
    var a := Anchor(content).value;
    var found := FindTopLevelBraceSpan(content[a..]);
    if found.None? {
      return None;
    }
    assert content[..a] + content[a..] == content;
    return Some((a, found.value.0, found.value.1));
  }
}
