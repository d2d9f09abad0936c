/** The two filters over generated TypeScript files: the arms of a union, and the fields of a type body. */
module Filters {
  import opened Wrappers
  import opened Text
  import opened Scanner
  import opened Seqs
  import opened Split
  import opened Braces
  import opened Imports
  import opened TypeFiles

  /** Where the imports of a filtered file have to be used: in its alias, or else in the new body. */
  function Scope(content: string, newBody: string): string {
    if SplitAlias(content).Some? then SplitAlias(content).value.1 else newBody
  }

  // ----- union arms

  /** `filter_client_request_ts_contents`, for any choice of arms. */
  function FilterArms(content: string, keep: string -> bool): string {
    match SplitAlias(content)
    case None => content
    case Some((prefix, body, suffix)) =>
      var newBody := Filtered(body, ARM_DELIMS, ARMS, keep);
      Pruned(prefix + newBody + suffix, Scope(prefix + newBody + suffix, newBody))
  }

  method FilterClientRequest(content: string, keep: string -> bool) returns (filtered: string)
    ensures filtered == FilterArms(content, keep)
  {
    var alias := SplitAlias(content);
    if alias.None? {
      return content;
    }
    var (prefix, body, suffix) := alias.value;
    var arms := SplitTopLevelMulti(body, ARM_DELIMS);
    var newBody := Join(Filter(arms, keep), ARMS.Text());
    var next := prefix + newBody + suffix;
    filtered := PruneUnusedTypeImports(next, Scope(next, newBody));
  }

  // ----- carriage returns

  ghost predicate NoneHasCrlf(ps: seq<string>) {
    forall i :: 0 <= i < |ps| ==> NoCrlf(ps[i])
  }

  lemma TrimNoCrlf(t: string)
    requires NoCrlf(t)
    ensures NoCrlf(Trim(t))
  {
    var before, after := TrimParts(t);
    NoCrlfInside(before, Trim(t), after);
  }

  lemma {:induction false} PartsNoCrlf(s: State, text: string, delims: set<char>)
    requires NoCrlf(text)
    ensures NoneHasCrlf(SplitFrom(s, text, delims))
    decreases |text|
  {
    var a, cut := SplitPeel(s, text, delims);
    if cut {
      var rest := text[|a| + 1..];
      assert text == a + [text[|a|]] + rest;
      NoCrlfInside(a, [text[|a|]], rest);
      PartsNoCrlf(Observed(Scan(s, a), text[|a|]), rest, delims);
    }
    TrimNoCrlf(a);
  }

  lemma {:induction false} FilterNoCrlf(ps: seq<string>, keep: string -> bool)
    requires NoneHasCrlf(ps)
    ensures NoneHasCrlf(Filter(ps, keep))
  {
    if ps != [] {
      FilterNoCrlf(ps[1..], keep);
    }
  }

  lemma {:induction false} JoinNoCrlf(ps: seq<string>, sep: string)
    requires NoneHasCrlf(ps) && sep != "" && '\r' !in sep && '\n' !in sep
    ensures NoCrlf(Join(ps, sep))
  {
    if |ps| > 1 {
      JoinNoCrlf(ps[1..], sep);
      NoCrlfConcat(ps[0], sep);
      NoCrlfConcat(ps[0] + sep, Join(ps[1..], sep));
    }
  }

  lemma FilteredNoCrlf(body: string, delims: set<char>, sep: Separator, keep: string -> bool)
    requires NoCrlf(body) && sep.Text() != "" && '\r' !in sep.Text() && '\n' !in sep.Text()
    ensures NoCrlf(Filtered(body, delims, sep, keep))
  {
    PartsNoCrlf(START, body, delims);
    FilterNoCrlf(Parts(body, delims), keep);
    JoinNoCrlf(Survivors(body, delims, keep), sep.Text());
  }

  /** Another text without carriage returns at line ends between characters that are none of the two. */
  lemma ReplacedUnixLines(prefix: string, body: string, suffix: string, newBody: string)
    requires UnixLines(prefix + body + suffix) && NoCrlf(newBody)
    requires NoReturn(prefix) && suffix != "" && suffix[0] != '\n'
    ensures UnixLines(prefix + newBody + suffix)
  {
    NoCrlfIsUnixLines(prefix + body + suffix);
    NoCrlfInside(prefix, body, suffix);
    NoCrlfConcat(prefix, newBody);
    NoCrlfConcat(prefix + newBody, suffix);
    NoCrlfIsUnixLines(prefix + newBody + suffix);
  }

  lemma BodyNoCrlf(prefix: string, body: string, suffix: string)
    requires UnixLines(prefix + body + suffix)
    ensures NoCrlf(body)
  {
    NoCrlfIsUnixLines(prefix + body + suffix);
    NoCrlfInside(prefix, body, suffix);
  }

  // ----- the arm filter settles

  /** Neither the line that holds the first `=` nor the one that holds the last `;` is an import that the body leaves unused. */
  predicate AliasLinesStay(prefix: string, body: string, suffix: string) {
    var rows := RowsOver(prefix, body, suffix);
    Stays(body)(rows[0]) && Stays(body)(rows[|rows| - 1])
  }

  /** What an arm filter needs to settle in one pass. */
  ghost predicate ArmsSettle(content: string, keep: string -> bool) {
    match SplitAlias(content)
    case None => true
    case Some((prefix, body, suffix)) =>
      && AllButLast(Survivors(body, ARM_DELIMS, keep), NotInLineComment)
      && UnixLines(content)
      && AliasLinesStay(prefix, Filtered(body, ARM_DELIMS, ARMS, keep), suffix)
  }

  /** Pruning around the body of an alias whose lines stay leaves an alias with the same body. */
  lemma PrunedAlias(u: string, body: string, v: string, content: string)
    requires '=' !in u && ';' !in v && content == u + "=" + body + (";" + v)
    requires UnixLines(content) && AliasLinesStay(u + "=", body, ";" + v)
    ensures var pruned := Pruned(content, body);
            && SplitAlias(pruned).Some? && SplitAlias(pruned).value.1 == body
            && pruned == SplitAlias(pruned).value.0 + body + SplitAlias(pruned).value.2
            && Pruned(pruned, body) == pruned
  {
    var keep := Stays(body);
    EdgeRowsSuffice(u + "=", body, ";" + v);
    EmptyStays(body);
    KeptBeforeSnoc(u, "=", keep);
    KeptBehindCons(';', v, keep);
    FilterLinesAround(u + "=", body, ";" + v, keep);
    KeptHoldsNoNewCharacter(u, keep, '=');
    KeptHoldsNoNewCharacter(v, keep, ';');
    AliasOf(KeptBefore(u, keep), body, KeptBehind(v, keep), Pruned(content, body));
  }

  lemma ArmsOfAlias(content: string, keep: string -> bool, u: string, body: string, v: string)
    requires '=' !in u && ';' !in v && content == u + "=" + body + (";" + v)
    ensures var newBody := Filtered(body, ARM_DELIMS, ARMS, keep);
            FilterArms(content, keep) == Pruned(u + "=" + newBody + (";" + v), newBody)
  {
    var newBody := Filtered(body, ARM_DELIMS, ARMS, keep);
    AliasOf(u, body, v, content);
    AliasOf(u, newBody, v, u + "=" + newBody + (";" + v));
  }

  lemma NewArmsUnixLines(u: string, body: string, v: string, keep: string -> bool)
    requires UnixLines(u + "=" + body + (";" + v))
    ensures UnixLines(u + "=" + Filtered(body, ARM_DELIMS, ARMS, keep) + (";" + v))
  {
    BodyNoCrlf(u + "=", body, ";" + v);
    FilteredNoCrlf(body, ARM_DELIMS, ARMS, keep);
    ReplacedUnixLines(u + "=", body, ";" + v, Filtered(body, ARM_DELIMS, ARMS, keep));
  }

  /** A pruned file whose alias holds filtered arms and whose imports are used is left alone. */
  lemma SettledArms(pruned: string, body: string, keep: string -> bool)
    requires SplitAlias(pruned).Some? && SplitAlias(pruned).value.1 == body
    requires pruned == SplitAlias(pruned).value.0 + body + SplitAlias(pruned).value.2
    requires Pruned(pruned, body) == pruned && Filtered(body, ARM_DELIMS, ARMS, keep) == body
    ensures FilterArms(pruned, keep) == pruned
  {
  }

  /** The arm filter, pruning of imports included, changes nothing the second time. */
  lemma ArmFilterIsIdempotent(content: string, keep: string -> bool)
    requires ArmsSettle(content, keep)
    ensures FilterArms(FilterArms(content, keep), keep) == FilterArms(content, keep)
  {
    if SplitAlias(content).Some? {
      var body := SplitAlias(content).value.1;
      var newBody := Filtered(body, ARM_DELIMS, ARMS, keep);
      var u, v := AliasParts(content);
      ArmsOfAlias(content, keep, u, body, v);
      NewArmsUnixLines(u, body, v, keep);
      PrunedAlias(u, newBody, v, u + "=" + newBody + (";" + v));
      FilterIsIdempotent(body, ARM_DELIMS, ARMS, keep);
      SettledArms(FilterArms(content, keep), newBody, keep);
    }
  }

  // ----- fields of a type body

  /** A text with the fields between two braces filtered. */
  function FilterFieldsAt(text: string, o: nat, c: nat, keep: string -> bool): string
    requires o < c < |text|
  {
    text[..o + 1] + NewInner(text, o, c, keep) + text[c..]
  }

  function NewInner(text: string, o: nat, c: nat, keep: string -> bool): string
    requires o < c < |text|
  {
    Filtered(text[o + 1..c], FIELD_DELIMS, FIELDS, keep)
  }

  function FieldsPruned(head: string, text: string, o: nat, c: nat, keep: string -> bool): string
    requires o < c < |text|
  {
    var next := head + FilterFieldsAt(text, o, c, keep);
    Pruned(next, Scope(next, NewInner(text, o, c, keep)))
  }

  ghost predicate HasTypeBody(content: string) {
    exists head, text, o, c :: content == head + text && IsTypeBody(head, text, o, c)
  }

  /** `filter_experimental_type_fields_ts_contents`, for any choice of fields. */
  ghost function FilterFields(content: string, keep: string -> bool): string {
    if HasTypeBody(content) then
      var head, text, o, c :| content == head + text && IsTypeBody(head, text, o, c);
      FieldsPruned(head, text, o, c, keep)
    else content
  }

  lemma TypeBodyIsUnique(head: string, text: string, o: nat, c: nat, head2: string, text2: string, o2: nat, c2: nat)
    requires IsTypeBody(head, text, o, c) && IsTypeBody(head2, text2, o2, c2) && head + text == head2 + text2
    ensures head == head2 && text == text2 && o == o2 && c == c2
  {
    assert head == (head + text)[..|head|] && head2 == (head2 + text2)[..|head2|];
    assert text == (head + text)[|head|..] && text2 == (head2 + text2)[|head2|..];
    SpanIsUnique(text, o, c, o2, c2);
  }

  lemma FilterFieldsIs(head: string, text: string, o: nat, c: nat, keep: string -> bool)
    requires IsTypeBody(head, text, o, c)
    ensures FilterFields(head + text, keep) == FieldsPruned(head, text, o, c, keep)
  {
    var content := head + text;
    assert HasTypeBody(content);
    var h, t, o2, c2 :| content == h + t && IsTypeBody(h, t, o2, c2) && FilterFields(content, keep) == FieldsPruned(h, t, o2, c2, keep);
    TypeBodyIsUnique(head, text, o, c, h, t, o2, c2);
  }

  method FilterTypeFields(content: string, keep: string -> bool) returns (filtered: string)
    ensures filtered == FilterFields(content, keep)
  {
    var span := TypeBodyBraceSpan(content);
    if span.None? {
      NoTypeBody(content);
      return content;
    }
    var (start, open, close) := span.value;
    var head, text := content[..start], content[start..];
    assert head + text == content;
    var fields := SplitTopLevelMulti(text[open + 1..close], FIELD_DELIMS);
    var newInner := Join(Filter(fields, keep), FIELDS.Text());
    var next := head + (text[..open + 1] + newInner + text[close..]);
    filtered := PruneUnusedTypeImports(next, Scope(next, newInner));
    FilterFieldsIs(head, text, open, close, keep);
  }

  lemma NoTypeBody(content: string)
    requires Anchor(content).Some? ==>
               Anchor(content).value <= |content| && forall o, c :: !IsSpan(content[Anchor(content).value..], o, c)
    ensures !HasTypeBody(content)
  {
    forall head, text, o, c | content == head + text
      ensures !IsTypeBody(head, text, o, c)
    {
      assert content[|head|..] == text;
    }
  }

  // ----- where the search starts, once imports are pruned

  ghost predicate NoneFinds(hs: seq<string>, m: string) {
    forall i :: 0 <= i < |hs| ==> FindText(hs[i], m).None?
  }

  lemma UnlinesCons(hs: seq<string>, t: string)
    requires hs != []
    ensures Unlines(hs) + t == hs[0] + "\n" + (Unlines(hs[1..]) + t)
    ensures |Unlines(hs)| == |hs[0]| + 1 + |Unlines(hs[1..])|
  {
  }

  lemma {:induction false} FoundBehindLines(hs: seq<string>, t: string, m: string, all: string)
    requires m != "" && '\n' !in m && NoneFinds(hs, m) && FindText(t, m).Some? && all == Unlines(hs) + t
    ensures FindText(all, m).Some? && FindText(all, m).value == |Unlines(hs)| + FindText(t, m).value
    decreases |hs|
  {
    if hs == [] {
      assert all == t;
    } else {
      var rest := Unlines(hs[1..]) + t;
      UnlinesCons(hs, t);
      TailFindsNothing(hs, m);
      FoundBehindLines(hs[1..], t, m, rest);
      FoundBehindLine(hs[0], rest, m, all);
      var n := FindText(all, m).value;
      assert n == |hs[0]| + 1 + |Unlines(hs[1..])| + FindText(t, m).value;
    }
  }

  lemma TailFindsNothing(hs: seq<string>, m: string)
    requires hs != [] && NoneFinds(hs, m)
    ensures FindText(hs[0], m).None? && NoneFinds(hs[1..], m)
  {
  }

  lemma FoundBehindLine(h: string, rest: string, m: string, all: string)
    requires m != "" && '\n' !in m && all == h + "\n" + rest && FindText(h, m).None? && FindText(rest, m).Some?
    ensures FindText(all, m) == Some(|h| + 1 + FindText(rest, m).value)
  {
    FindTextInLines(h, rest, m, all);
  }

  lemma {:induction false} NotFoundInLines(hs: seq<string>, t: string, m: string, all: string)
    requires m != "" && '\n' !in m && all == Unlines(hs) + t
    requires FindText(all, m).Some? && FindText(all, m).value >= |Unlines(hs)|
    ensures NoneFinds(hs, m) && FindText(t, m) == Some(FindText(all, m).value - |Unlines(hs)|)
    decreases |hs|
  {
    if hs == [] {
      assert all == t;
    } else {
      var rest := Unlines(hs[1..]) + t;
      UnlinesCons(hs, t);
      NotFoundInLine(hs[0], rest, m, all);
      NotFoundInLines(hs[1..], t, m, rest);
    }
  }

  lemma NotFoundInLine(h: string, rest: string, m: string, all: string)
    requires m != "" && '\n' !in m && all == h + "\n" + rest && FindText(all, m).Some? && FindText(all, m).value > |h|
    ensures FindText(h, m).None? && FindText(rest, m).Some? && FindText(all, m).value == |h| + 1 + FindText(rest, m).value
  {
    FindTextInLines(h, rest, m, all);
  }

  lemma {:induction false} FilterFindsNothing(hs: seq<string>, keep: string -> bool, m: string)
    requires NoneFinds(hs, m)
    ensures NoneFinds(Filter(hs, keep), m)
  {
    if hs != [] {
      FilterFindsNothing(hs[1..], keep, m);
    }
  }

  lemma FoundInRow(x: string, m: string, rest: string, rest2: string)
    requires FindText(x + m + rest, m) == Some(|x|)
    ensures FindText(x + m + rest2, m) == Some(|x|)
  {
    assert (x + m + rest)[..|x + m|] == x + m && (x + m + rest2)[..|x + m|] == x + m;
    FindTextPrefix(x + m + rest, x + m + rest2, |x + m|, m);
  }

  lemma Regroup4(a: string, b: string, c: string, d: string)
    ensures (a + b) + c + d == a + (b + c + d)
  {
  }

  lemma FirstInLastRow(w: string, m: string, rest: string)
    requires m != "" && '\n' !in m && FindText(w + m + rest, m) == Some(|w|)
    ensures NoneFinds(Init(w), m) && FindText(LastRow(w) + m + rest, m) == Some(|LastRow(w)|)
  {
    CutLastRow(w);
    Regroup4(Unlines(Init(w)), LastRow(w), m, rest);
    NotFoundInLines(Init(w), LastRow(w) + m + rest, m, w + m + rest);
  }

  /** The first occurrence of a text stays so when lines before it go and what follows it changes. */
  lemma FirstStaysFirst(w: string, m: string, rest: string, rest2: string, keep: string -> bool)
    requires m != "" && '\n' !in m && FindText(w + m + rest, m) == Some(|w|)
    ensures var found := FindText(KeptBefore(w, keep) + m + rest2, m);
            found.Some? && found.value == |KeptBefore(w, keep)|
  {
    var x, kept := LastRow(w), Filter(Init(w), keep);
    FirstInLastRow(w, m, rest);
    FoundInRow(x, m, rest, rest2);
    FilterFindsNothing(Init(w), keep, m);
    Regroup4(Unlines(kept), x, m, rest2);
    FoundBehindLines(kept, x + m + rest2, m, KeptBefore(w, keep) + m + rest2);
  }

  lemma AnchorAtEquals(head: string, text: string) returns (u: string)
    requires Anchor(head + text) == Some(|head|) && '=' in head + text
    ensures head == u + "=" && '=' !in u
  {
    u := Before(head + text, '=');
    BeforeIsInside(head + text, '=');
    assert (head + text)[..|head|] == head;
    assert head == u + [(head + text)[|u|]];
  }

  lemma AnchorBehindEquals(u: string, text: string)
    requires '=' !in u
    ensures Anchor(u + "=" + text) == Some(|u| + 1)
  {
    assert u + "=" + text == u + ['='] + text;
    BeforeJoined(u, '=', text);
    assert (u + "=" + text)[|u|] == '=';
  }

  lemma EndsWith(head: string, text: string, m: string, i: nat)
    requires i + |m| == |head| && m <= (head + text)[i..]
    ensures head == head[..i] + m
  {
    assert m == (head + text)[i..][..|m|];
  }

  lemma AnchorAtMarker(head: string, text: string) returns (w: string)
    requires Anchor(head + text) == Some(|head|) && '=' !in head + text
    ensures head == w + MARKER && FindText(w + MARKER + text, MARKER) == Some(|w|)
  {
    var i := FindText(head + text, MARKER).value;
    EndsWith(head, text, MARKER, i);
    w := head[..i];
  }

  lemma AnchorOfKeptEquals(u: string, text2: string, keep: string -> bool)
    requires '=' !in u
    ensures LastRow(u + "=") != "" && Anchor(KeptBefore(u + "=", keep) + text2) == Some(|KeptBefore(u + "=", keep)|)
    ensures '=' in KeptBefore(u + "=", keep)
  {
    KeptBeforeSnoc(u, "=", keep);
    KeptHoldsNoNewCharacter(u, keep, '=');
    AnchorBehindEquals(KeptBefore(u, keep), text2);
    assert KeptBefore(u + "=", keep)[|KeptBefore(u, keep)|] == '=';
  }

  /** Where the search starts when lines before it go, and what follows it changes but brings no first `=`. */
  lemma AnchorOfKept(head: string, text: string, text2: string, keep: string -> bool)
    requires Anchor(head + text) == Some(|head|) && ('=' !in head + text ==> '=' !in text2)
    ensures LastRow(head) != "" && Anchor(KeptBefore(head, keep) + text2) == Some(|KeptBefore(head, keep)|)
    ensures '=' in KeptBefore(head, keep) <==> '=' in head
  {
    if '=' in head + text {
      var u := AnchorAtEquals(head, text);
      assert head[|u|] == '=';
      AnchorOfKeptEquals(u, text2, keep);
    } else {
      AnchorOfKeptMarker(head, text, text2, keep);
    }
  }

  lemma MarkerIsOneRow()
    ensures MARKER != "" && '\n' !in MARKER && '=' !in MARKER
  {
  }

  lemma AnchorBehindMarker(w: string, text: string, content: string)
    requires content == w + MARKER + text && '=' !in content && FindText(content, MARKER) == Some(|w|)
    ensures Anchor(content) == Some(|w + MARKER|)
  {
  }

  lemma AnchorOfKeptMarker(head: string, text: string, text2: string, keep: string -> bool)
    requires Anchor(head + text) == Some(|head|) && '=' !in head + text && '=' !in text2
    ensures LastRow(head) != "" && Anchor(KeptBefore(head, keep) + text2) == Some(|KeptBefore(head, keep)|)
    ensures '=' !in KeptBefore(head, keep) && '=' !in head
  {
    assert forall ch :: ch in head ==> ch in head + text;
    var w := AnchorAtMarker(head, text);
    MarkerIsOneRow();
    KeptBeforeSnoc(w, MARKER, keep);
    FirstStaysFirst(w, MARKER, text, text2, keep);
    KeptHoldsNoNewCharacter(head, keep, '=');
    AnchorBehindMarker(KeptBefore(w, keep), text2, KeptBefore(head, keep) + text2);
  }

  // ----- the scope of a type body

  /** Behind an anchor at `=`, the scope ends at the last `;`. */
  function FieldScope(head: string, text: string, inner: string): string {
    var semi := LastIndex(text, ';');
    if '=' in head && semi < |text| then text[..semi] else inner
  }

  lemma ScopeIs(head: string, text: string, inner: string)
    requires Anchor(head + text) == Some(|head|)
    ensures Scope(head + text, inner) == FieldScope(head, text, inner)
  {
    if '=' in head + text {
      var u := AnchorAtEquals(head, text);
      var semi := LastIndex(text, ';');
      assert head[|u|] == '=';
      if semi < |text| {
        assert text == text[..semi] + (";" + text[semi + 1..]);
        assert head + text == u + "=" + text[..semi] + (";" + text[semi + 1..]);
        AliasOf(u, text[..semi], text[semi + 1..], head + text);
      } else {
        NoAlias(u, text, head + text);
      }
    } else {
      assert forall ch :: ch in head ==> ch in head + text;
      NoEqualsNoAlias(head + text);
    }
  }

  /** The stretch behind the anchor that the second pass reads: up to the closing brace, and the scope. */
  function StretchEnd(head: string, text: string, c: nat): (e: nat)
    requires c < |text|
    ensures c < e <= |text|
  {
    var semi := LastIndex(text, ';');
    if '=' in head && c < semi < |text| then semi else c + 1
  }

  /** What is kept behind the stretch leaves the scope as it is. */
  lemma ScopeOfKept(head: string, text: string, c: nat, inner: string, keep: string -> bool)
    requires c < |text|
    ensures var e := StretchEnd(head, text, c);
            forall head2 :: ('=' in head2 <==> '=' in head) ==>
              FieldScope(head2, text[..e] + KeptBehind(text[e..], keep), inner) == FieldScope(head, text, inner)
  {
    if '=' in head {
      LastSemiOfKept(head, text, c, keep);
    }
  }

  lemma LastSemiOfKept(head: string, text: string, c: nat, keep: string -> bool)
    requires c < |text| && '=' in head
    ensures var e, semi := StretchEnd(head, text, c), LastIndex(text, ';');
            var next := text[..e] + KeptBehind(text[e..], keep);
            if semi < |text| then semi < |next| && LastIndex(next, ';') == semi && next[..semi] == text[..semi]
            else LastIndex(next, ';') == |next|
  {
    var e, semi := StretchEnd(head, text, c), LastIndex(text, ';');
    if semi == |text| {
      KeptHoldsNoNewCharacter(text[e..], keep, ';');
      NoSemi(text[..e] + KeptBehind(text[e..], keep));
    } else if semi == e {
      SemiBehind(text, e, keep);
    } else {
      SemiInside(text, semi, e, keep);
    }
  }

  lemma NoSemi(t: string)
    requires ';' !in t
    ensures LastIndex(t, ';') == |t|
  {
  }

  lemma SemiBehind(text: string, e: nat, keep: string -> bool)
    requires e < |text| && text[e] == ';' && ';' !in text[e + 1..]
    ensures var next := text[..e] + KeptBehind(text[e..], keep);
            e < |next| && LastIndex(next, ';') == e && next[..e] == text[..e]
  {
    var next := text[..e] + KeptBehind(text[e..], keep);
    assert text[e..] == [';'] + text[e + 1..];
    KeptBehindCons(';', text[e + 1..], keep);
    KeptHoldsNoNewCharacter(text[e + 1..], keep, ';');
    assert next[e + 1..] == KeptBehind(text[e + 1..], keep);
    LastIndexIs(next, ';', e);
  }

  lemma SemiInside(text: string, semi: nat, e: nat, keep: string -> bool)
    requires semi < e <= |text| && text[semi] == ';' && ';' !in text[semi + 1..]
    ensures var next := text[..e] + KeptBehind(text[e..], keep);
            semi < |next| && LastIndex(next, ';') == semi && next[..semi] == text[..semi]
  {
    var kept := KeptBehind(text[e..], keep);
    var next := text[..e] + kept;
    assert forall ch :: ch in text[e..] ==> ch in text[semi + 1..] by {
      assert text[e..] == text[semi + 1..][e - semi - 1..];
    }
    KeptHoldsNoNewCharacter(text[e..], keep, ';');
    assert next[semi + 1..] == text[semi + 1..][..e - semi - 1] + kept;
    LastIndexIs(next, ';', semi);
  }

  // ----- the field filter settles

  lemma TrimHoldsNoNewCharacter(t: string, ch: char)
    requires ch !in t
    ensures ch !in Trim(t)
  {
    var before, after := TrimParts(t);
  }

  lemma {:induction false} VisibleHoldsNoNewCharacter(ps: seq<string>, ch: char)
    requires NoneHolds(ps, ch)
    ensures NoneHolds(Visible(ps), ch)
  {
    if ps != [] {
      VisibleHoldsNoNewCharacter(ps[1..], ch);
      TrimHoldsNoNewCharacter(ps[0], ch);
    }
  }

  lemma {:induction false} PiecesHoldNoNewCharacter(s: State, text: string, delims: set<char>, ch: char)
    requires ch !in text
    ensures NoneHolds(Pieces(s, text, delims), ch)
    decreases |text|
  {
    if text != "" {
      PiecesHoldNoNewCharacter(Observed(s, text[0]), text[1..], delims, ch);
    }
  }

  lemma {:induction false} JoinHoldsNoNewCharacter(ps: seq<string>, sep: string, ch: char)
    requires ch !in sep && NoneHolds(ps, ch)
    ensures ch !in Join(ps, sep)
  {
    if |ps| > 1 {
      JoinHoldsNoNewCharacter(ps[1..], sep, ch);
    }
  }

  lemma NoNewEquals(text: string, o: nat, c: nat, keep: string -> bool)
    requires o < c < |text| && '=' !in text
    ensures '=' !in FilterFieldsAt(text, o, c, keep)
  {
    var body := text[o + 1..c];
    PiecesHoldNoNewCharacter(START, body, FIELD_DELIMS, '=');
    VisibleHoldsNoNewCharacter(Pieces(START, body, FIELD_DELIMS), '=');
    FilterHoldsNoNewCharacter(Parts(body, FIELD_DELIMS), keep, '=');
    JoinHoldsNoNewCharacter(Survivors(body, FIELD_DELIMS, keep), FIELDS.Text(), '=');
  }

  lemma AnchorOfFiltered(head: string, text: string, o: nat, c: nat, keep: string -> bool)
    requires Anchor(head + text) == Some(|head|) && o < c < |text|
    ensures Anchor(head + FilterFieldsAt(text, o, c, keep)) == Some(|head|)
  {
    if '=' !in head + text {
      assert forall ch :: ch in text ==> ch in head + text;
      NoNewEquals(text, o, c, keep);
    }
    AnchorKept(head, text, FilterFieldsAt(text, o, c, keep));
  }

  lemma Slices(text: string, o: nat, c: nat, inner: string, next: string)
    requires o < c < |text| && next == text[..o + 1] + inner + text[c..]
    ensures o < o + 1 + |inner| < |next|
    ensures next[..o + 1] == text[..o + 1]
    ensures next[o + 1..o + 1 + |inner|] == inner
    ensures next[o + 1 + |inner|..] == text[c..]
  {
  }

  /** The filtered file has its type body where the new fields are exactly if they are enclosed. */
  lemma TypeBodyOfFilteredIff(head: string, text: string, o: nat, c: nat, keep: string -> bool, inner: string, next: string, c2: nat)
    requires IsTypeBody(head, text, o, c) && inner == NewInner(text, o, c, keep) && next == FilterFieldsAt(text, o, c, keep)
    requires c2 == o + 1 + |inner|
    ensures IsTypeBody(head, next, o, c2) <==> Enclosed(inner)
  {
    AnchorOfFiltered(head, text, o, c, keep);
    SpanOfFilteredIff(text, o, c, inner, next, c2);
  }

  lemma SpanOfFilteredIff(text: string, o: nat, c: nat, inner: string, next: string, c2: nat)
    requires o < c < |text| && IsSpan(text, o, c) && next == text[..o + 1] + inner + text[c..] && c2 == o + 1 + |inner|
    ensures c2 < |next| && (IsSpan(next, o, c2) <==> Enclosed(inner))
  {
    Slices(text, o, c, inner, next);
    SpanAroundIff(text, o, c, inner, next);
  }

  /** The pair of a text is that of any other text with the same beginning. */
  lemma SpanOfPrefix(text: string, next: string, o: nat, c: nat)
    requires c < |text| && c < |next| && IsSpan(text, o, c) && text[..c + 1] == next[..c + 1]
    ensures IsSpan(next, o, c)
  {
    forall i | 0 <= i <= c + 1
      ensures Tops(next)[i] == Tops(text)[i]
    {
      assert text[..i] == text[..c + 1][..i] && next[..i] == next[..c + 1][..i];
    }
    forall i | 0 <= i <= c
      ensures next[i] == text[i]
    {
      assert text[i] == text[..c + 1][i] && next[i] == next[..c + 1][i];
    }
    SamePair(text, Tops(text), next, Tops(next), o, c);
  }

  lemma SamePair(text: string, tops: seq<bool>, next: string, nextTops: seq<bool>, o: nat, c: nat)
    requires |tops| == |text| + 1 && |nextTops| == |next| + 1 && c < |text| && c < |next| && IsPair(text, tops, o, c)
    requires forall i :: 0 <= i <= c ==> next[i] == text[i]
    requires forall i :: 0 <= i <= c + 1 ==> nextTops[i] == tops[i]
    ensures IsPair(next, nextTops, o, c)
  {
    forall i: nat | i <= c
      ensures Opens(next, nextTops, i) == Opens(text, tops, i) && Closes(next, nextTops, i) == Closes(text, tops, i)
    {
    }
  }

  /** No line that the stretch shares with its surroundings is an import that the scope leaves unused. */
  ghost predicate StretchStays(head: string, text: string, c: nat, scope: string)
    requires c < |text|
  {
    var e := StretchEnd(head, text, c);
    All(RowsOver(head, text[..e], text[e..]), Stays(scope))
  }

  /** Pruning around such a stretch leaves a file with the same type body and the same scope, and settles. */
  lemma PrunedTypeBody(head: string, text: string, o: nat, c: nat, inner: string, scope: string, e: nat, head2: string, text2: string)
    requires IsTypeBody(head, text, o, c) && UnixLines(head + text) && scope == FieldScope(head, text, inner)
    requires StretchStays(head, text, c, scope) && e == StretchEnd(head, text, c)
    requires head2 == KeptBefore(head, Stays(scope)) && text2 == text[..e] + KeptBehind(text[e..], Stays(scope))
    ensures Pruned(head + text, scope) == head2 + text2 && Pruned(head2 + text2, scope) == head2 + text2
    ensures IsTypeBody(head2, text2, o, c) && FieldScope(head2, text2, inner) == scope
  {
    PrunedAnchor(head, text, e, Stays(scope));
    PrunedStretch(head, text, e, scope);
    ScopeOfKept(head, text, c, inner, Stays(scope));
    PrunedSpan(text, o, c, e, KeptBehind(text[e..], Stays(scope)), text2);
  }

  lemma PrunedAnchor(head: string, text: string, e: nat, keep: string -> bool)
    requires Anchor(head + text) == Some(|head|) && e <= |text|
    ensures var head2, text2 := KeptBefore(head, keep), text[..e] + KeptBehind(text[e..], keep);
            LastRow(head) != "" && Anchor(head2 + text2) == Some(|head2|) && ('=' in head2 <==> '=' in head)
  {
    StillNoEquals(head, text, e, keep);
    AnchorOfKept(head, text, text[..e] + KeptBehind(text[e..], keep), keep);
  }

  lemma PrunedSpan(text: string, o: nat, c: nat, e: nat, tail: string, text2: string)
    requires o < c < e <= |text| && IsSpan(text, o, c) && text2 == text[..e] + tail
    ensures c < |text2| && IsSpan(text2, o, c)
  {
    assert text2[..c + 1] == text[..c + 1];
    SpanOfPrefix(text, text2, o, c);
  }

  lemma StillNoEquals(head: string, text: string, e: nat, keep: string -> bool)
    requires e <= |text|
    ensures '=' !in head + text ==> '=' !in text[..e] + KeptBehind(text[e..], keep)
  {
    if '=' !in head + text {
      assert forall ch :: ch in text ==> ch in head + text;
      KeptHoldsNoNewCharacter(text[e..], keep, '=');
    }
  }

  lemma PrunedStretch(head: string, text: string, e: nat, scope: string)
    requires e <= |text| && UnixLines(head + text) && LastRow(head) != ""
    requires All(RowsOver(head, text[..e], text[e..]), Stays(scope))
    ensures var pruned := KeptBefore(head, Stays(scope)) + (text[..e] + KeptBehind(text[e..], Stays(scope)));
            Pruned(head + text, scope) == pruned && Pruned(pruned, scope) == pruned
  {
    EmptyStays(scope);
    Regroup3(head, text[..e], text[e..]);
    assert text[..e] + text[e..] == text;
    FilterLinesAround(head, text[..e], text[e..], Stays(scope));
    Regroup3(KeptBefore(head, Stays(scope)), text[..e], KeptBehind(text[e..], Stays(scope)));
  }

  lemma Regroup3(a: string, b: string, c: string)
    ensures a + b + c == a + (b + c)
  {
  }

  lemma NewFieldsUnixLines(head: string, text: string, o: nat, c: nat, keep: string -> bool)
    requires o < c < |text| && text[o] == '{' && text[c] == '}' && UnixLines(head + text)
    ensures UnixLines(head + FilterFieldsAt(text, o, c, keep))
  {
    var body := text[o + 1..c];
    assert head + text == (head + text[..o + 1]) + body + text[c..];
    BodyNoCrlf(head + text[..o + 1], body, text[c..]);
    FilteredNoCrlf(body, FIELD_DELIMS, FIELDS, keep);
    ReplacedUnixLines(head + text[..o + 1], body, text[c..], NewInner(text, o, c, keep));
    assert head + FilterFieldsAt(text, o, c, keep) == (head + text[..o + 1]) + NewInner(text, o, c, keep) + text[c..];
  }

  lemma SettledFields(head: string, text: string, o: nat, c: nat, inner: string, scope: string, keep: string -> bool)
    requires IsTypeBody(head, text, o, c) && text[o + 1..c] == inner && Filtered(inner, FIELD_DELIMS, FIELDS, keep) == inner
    requires FieldScope(head, text, inner) == scope && Pruned(head + text, scope) == head + text
    ensures FilterFields(head + text, keep) == head + text
  {
    FilterFieldsIs(head, text, o, c, keep);
    FieldsUnchanged(text, o, c, inner, keep);
    ScopeIs(head, text, inner);
  }

  lemma FieldsUnchanged(text: string, o: nat, c: nat, inner: string, keep: string -> bool)
    requires o < c < |text| && text[o + 1..c] == inner && Filtered(inner, FIELD_DELIMS, FIELDS, keep) == inner
    ensures NewInner(text, o, c, keep) == inner && FilterFieldsAt(text, o, c, keep) == text
  {
    OwnInner(text, o, c);
  }

  /** What the first half of a field filter makes of a file: its new fields, the text behind the anchor, the closing
      brace in it, and the scope by which imports are judged. */
  datatype FieldPass = FieldPass(inner: string, next: string, close: nat, scope: string) {
    ghost predicate Of(head: string, text: string, o: nat, c: nat, keep: string -> bool)
      requires o < c < |text|
    {
      && inner == NewInner(text, o, c, keep) && next == FilterFieldsAt(text, o, c, keep)
      && close == o + 1 + |inner| < |next| && scope == FieldScope(head, next, inner)
    }
  }

  lemma FirstPassBody(head: string, text: string, o: nat, c: nat, keep: string -> bool, pass: FieldPass)
    requires IsTypeBody(head, text, o, c) && pass.Of(head, text, o, c, keep) && Enclosed(pass.inner)
    ensures IsTypeBody(head, pass.next, o, pass.close)
  {
    TypeBodyOfFilteredIff(head, text, o, c, keep, pass.inner, pass.next, pass.close);
  }

  lemma FirstPassIs(head: string, text: string, o: nat, c: nat, keep: string -> bool, inner: string, next: string)
    requires IsTypeBody(head, text, o, c) && inner == NewInner(text, o, c, keep) && next == FilterFieldsAt(text, o, c, keep)
    requires UnixLines(head + text)
    ensures FilterFields(head + text, keep) == Pruned(head + next, FieldScope(head, next, inner))
    ensures UnixLines(head + next)
  {
    FilterFieldsIs(head, text, o, c, keep);
    AnchorOfFiltered(head, text, o, c, keep);
    ScopeIs(head, next, inner);
    SpanOpens(text, o, c);
    NewFieldsUnixLines(head, text, o, c, keep);
  }

  lemma SameInner(text: string, e: nat, tail: string, o: nat, c: nat)
    requires o < c < e <= |text|
    ensures (text[..e] + tail)[o + 1..c] == text[o + 1..c]
  {
  }

  lemma SecondPass(head: string, text: string, o: nat, c: nat, inner: string, keep: string -> bool, scope: string)
    requires IsTypeBody(head, text, o, c) && UnixLines(head + text) && scope == FieldScope(head, text, inner)
    requires StretchStays(head, text, c, scope)
    requires text[o + 1..c] == inner && Filtered(inner, FIELD_DELIMS, FIELDS, keep) == inner
    ensures FilterFields(Pruned(head + text, scope), keep) == Pruned(head + text, scope)
  {
    var e := StretchEnd(head, text, c);
    var tail := KeptBehind(text[e..], Stays(scope));
    var head2, text2 := KeptBefore(head, Stays(scope)), text[..e] + tail;
    PrunedTypeBody(head, text, o, c, inner, scope, e, head2, text2);
    SameInner(text, e, tail, o, c);
    SettledFields(head2, text2, o, c, inner, scope, keep);
  }

  lemma FieldsFit()
    ensures FIELDS.Fits(FIELD_DELIMS)
  {
  }

  lemma FieldsSettle(body: string, keep: string -> bool, inner: string)
    requires AllButLast(Survivors(body, FIELD_DELIMS, keep), NotInLineComment)
    requires inner == Filtered(body, FIELD_DELIMS, FIELDS, keep)
    ensures Filtered(inner, FIELD_DELIMS, FIELDS, keep) == inner
  {
    FieldsFit();
    FilterIsIdempotent(body, FIELD_DELIMS, FIELDS, keep);
  }

  /**
   * The field filter, pruning of imports included, changes nothing the second time: if no surviving field but the
   * last ends in a line comment, the new fields `inner` are enclosed, no line ends in a carriage return, and no
   * import line that overlaps what the second pass reads goes unused.
   */
  lemma FieldFilterIsIdempotent(head: string, text: string, o: nat, c: nat, keep: string -> bool, pass: FieldPass)
    requires IsTypeBody(head, text, o, c) && pass.Of(head, text, o, c, keep)
    requires AllButLast(Survivors(text[o + 1..c], FIELD_DELIMS, keep), NotInLineComment)
    requires Enclosed(pass.inner)
    requires UnixLines(head + text) && StretchStays(head, pass.next, pass.close, pass.scope)
    ensures FilterFields(FilterFields(head + text, keep), keep) == FilterFields(head + text, keep)
  {
    FirstPassIs(head, text, o, c, keep, pass.inner, pass.next);
    FirstPassBody(head, text, o, c, keep, pass);
    BothPasses(head, text, o, c, keep, pass);
  }

  lemma BothPasses(head: string, text: string, o: nat, c: nat, keep: string -> bool, pass: FieldPass)
    requires o < c < |text| && pass.Of(head, text, o, c, keep) && IsTypeBody(head, pass.next, o, pass.close)
    requires AllButLast(Survivors(text[o + 1..c], FIELD_DELIMS, keep), NotInLineComment)
    requires UnixLines(head + pass.next) && StretchStays(head, pass.next, pass.close, pass.scope)
    ensures FilterFields(Pruned(head + pass.next, pass.scope), keep) == Pruned(head + pass.next, pass.scope)
  {
    Slices(text, o, c, pass.inner, pass.next);
    FieldsSettle(text[o + 1..c], keep, pass.inner);
    SecondPass(head, pass.next, o, pass.close, pass.inner, keep, pass.scope);
  }

  /** The survivors of a balanced and closed text are balanced, and closed unless they end in a line comment. */
  lemma SurvivorsOfBalanced(inner: string, keep: string -> bool)
    requires Balanced(START, inner) && EndsClosed(inner)
    ensures AllBalanced(Survivors(inner, FIELD_DELIMS, keep))
    ensures forall p :: p in Survivors(inner, FIELD_DELIMS, keep) ==> ClosedOrComment(p)
  {
    PartsOfBalanced(START, inner, FIELD_DELIMS);
  }

  lemma NewFieldsBalanced(body: string, keep: string -> bool)
    requires Balanced(START, body) && EndsClosed(body)
    requires forall p :: p in Survivors(body, FIELD_DELIMS, keep) ==> NotInLineComment(p)
    ensures Balanced(START, Filtered(body, FIELD_DELIMS, FIELDS, keep)) && EndsClosed(Filtered(body, FIELD_DELIMS, FIELDS, keep))
  {
    SurvivorsOfBalanced(body, keep);
    JoinedIsBalanced(Survivors(body, FIELD_DELIMS, keep), FIELDS, FIELD_DELIMS);
  }

  /** Where the braces of a type body balance, its surviving fields are enclosed unless one ends in a line comment. */
  lemma BalancedFieldsAreEnclosed(text: string, o: nat, c: nat, keep: string -> bool, body: string)
    requires o < c < |text| && body == text[o + 1..c] && IsSpan(text, o, c) && Balanced(START, body)
    requires forall p :: p in Survivors(body, FIELD_DELIMS, keep) ==> NotInLineComment(p)
    ensures Enclosed(Filtered(body, FIELD_DELIMS, FIELDS, keep))
  {
    InnerIsEnclosed(text, o, c);
    BalancedIsEnclosedIff(body);
    NewFieldsBalanced(body, keep);
    BalancedIsEnclosedIff(Filtered(body, FIELD_DELIMS, FIELDS, keep));
  }
}
