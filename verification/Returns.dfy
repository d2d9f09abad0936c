/** Carriage returns at the ends of lines mean nothing to the filters over generated TypeScript files. */
module Returns {
  import opened Wrappers
  import opened Text
  import opened Scanner
  import opened Seqs
  import opened Split
  import opened Braces
  import opened Imports
  import opened TypeFiles
  import opened Filters

  // ----- texts without carriage returns before newlines

  /** A text without the carriage returns that stand before a newline. */
  function Unix(t: string): string {
    if t == "" then ""
    else if t[0] == '\r' && |t| > 1 && t[1] == '\n' then Unix(t[1..])
    else [t[0]] + Unix(t[1..])
  }

  predicate Meets(a: string, b: string) {
    a != "" && a[|a| - 1] == '\r' && b != "" && b[0] == '\n'
  }

  lemma {:induction false} UnixConcat(a: string, b: string)
    requires !Meets(a, b)
    ensures Unix(a + b) == Unix(a) + Unix(b)
    decreases |a|
  {
    if a == "" {
      assert a + b == b;
    } else {
      assert (a + b)[1..] == a[1..] + b;
      UnixConcat(a[1..], b);
      assert |a| > 1 ==> (a + b)[1] == a[1];
    }
  }

  lemma {:induction false} UnixKeeps(t: string, ch: char)
    ensures ch in Unix(t) ==> ch in t
    ensures ch != '\r' && ch in t ==> ch in Unix(t)
    decreases |t|
  {
    if t != "" {
      UnixKeeps(t[1..], ch);
    }
  }

  lemma {:induction false} UnixEnds(t: string)
    requires t != ""
    ensures Unix(t) != "" && Unix(t)[|Unix(t)| - 1] == t[|t| - 1]
    ensures Unix(t)[0] == t[0] || (Unix(t)[0] == '\n' && t[0] == '\r' && |t| > 1 && t[1] == '\n')
    decreases |t|
  {
    if |t| > 1 {
      UnixEnds(t[1..]);
    }
  }

  lemma {:induction false} UnixSame(t: string)
    requires NoCrlf(t)
    ensures Unix(t) == t
    decreases |t|
  {
    if t != "" {
      assert forall i :: 0 <= i < |t[1..]| ==> t[1..][i] == t[i + 1];
      UnixSame(t[1..]);
    }
  }

  lemma NoNewlineSame(t: string)
    requires '\n' !in t
    ensures Unix(t) == t
  {
    UnixSame(t);
  }

  lemma UnixOfNewline(rest: string)
    ensures Unix("\n" + rest) == "\n" + Unix(rest) && Unix("\r\n" + rest) == "\n" + Unix(rest)
  {
    assert ("\n" + rest)[1..] == rest && ("\r\n" + rest)[1..] == "\n" + rest;
  }

  lemma ChompParts(h: string)
    ensures Chomp(h) == h || h == Chomp(h) + "\r"
    ensures forall c :: c in Chomp(h) ==> c in h
  {
  }

  lemma UnixOfUnixLine(g: string, rest: string, t: string)
    requires '\n' !in g && NoReturn(g) && t == g + ("\n" + rest)
    ensures Unix(t) == g + ("\n" + Unix(rest))
  {
    NoNewlineSame(g);
    UnixOfNewline(rest);
    UnixConcat(g, "\n" + rest);
  }

  lemma UnixOfReturnLine(g: string, rest: string, t: string)
    requires '\n' !in g && t == g + ("\r\n" + rest)
    ensures Unix(t) == g + ("\n" + Unix(rest))
  {
    NoNewlineSame(g);
    UnixOfNewline(rest);
    UnixConcat(g, "\r\n" + rest);
  }

  /** One line and what stands behind it. */
  lemma UnixOfLine(h: string, rest: string, t: string)
    requires '\n' !in h && t == h + "\n" + rest
    ensures Unix(t) == Chomp(h) + "\n" + Unix(rest)
  {
    var g, u := Chomp(h), Unix(rest);
    assert g + "\n" + u == g + ("\n" + u);
    if h != "" && h[|h| - 1] == '\r' {
      assert h == g + "\r" && t == g + ("\r\n" + rest);
      UnixOfReturnLine(g, rest, t);
    } else {
      assert t == g + ("\n" + rest);
      UnixOfUnixLine(g, rest, t);
    }
  }

  // ----- the scanner

  lemma ReturnIsSilent(s: State)
    requires Sane(s)
    ensures Observed(Observed(s, '\r'), '\n') == Observed(s, '\n')
  {
  }

  lemma StaysSane(s: State, ch: char)
    requires Sane(s)
    ensures Sane(Observed(s, ch))
  {
  }

  // ----- splitting and joining

  function MapUnix(ps: seq<string>): (qs: seq<string>)
    ensures |qs| == |ps|
  {
    if ps == [] then [] else [Unix(ps[0])] + MapUnix(ps[1..])
  }

  lemma MapUnixCons(p: string, ps: seq<string>)
    ensures MapUnix([p] + ps) == [Unix(p)] + MapUnix(ps)
  {
    assert ([p] + ps)[1..] == ps;
  }

  lemma PiecesStep(s: State, t: string, delims: set<char>, qs: seq<string>)
    requires t != "" && !(s.AtTop() && t[0] in delims) && qs == Pieces(Observed(s, t[0]), t[1..], delims)
    ensures Pieces(s, t, delims) == [[t[0]] + qs[0]] + qs[1..]
  {
  }

  lemma FirstPieceBegins(s: State, t: string, delims: set<char>)
    ensures var p := Pieces(s, t, delims)[0]; p != "" ==> t != "" && p[0] == t[0]
    ensures t != "" && t[0] !in delims ==> Pieces(s, t, delims)[0] != ""
  {
  }

  lemma PiecesOfReturn(s: State, t: string, delims: set<char>)
    requires Sane(s) && |t| > 1 && t[0] == '\r' && t[1] == '\n' && '\r' !in delims && '\n' !in delims
    ensures var qs := Pieces(s, t[1..], delims); qs[0] != "" && qs[0][0] == '\n' && Pieces(s, t, delims) == [['\r'] + qs[0]] + qs[1..]
  {
    var rs := Pieces(Observed(s, '\n'), t[1..][1..], delims);
    ReturnIsSilent(s);
    PiecesStep(s, t[1..], delims, rs);
    PiecesStep(Observed(s, '\r'), t[1..], delims, rs);
    PiecesStep(s, t, delims, Pieces(Observed(s, '\r'), t[1..], delims));
  }

  lemma MapUnixReplaced(ps: seq<string>, p: string)
    requires ps != [] && Unix(p) == Unix(ps[0])
    ensures MapUnix([p] + ps[1..]) == MapUnix(ps)
  {
    MapUnixCons(p, ps[1..]);
  }

  lemma {:induction false} PiecesUnix(s: State, t: string, delims: set<char>)
    requires Sane(s) && '\r' !in delims && '\n' !in delims
    ensures Pieces(s, Unix(t), delims) == MapUnix(Pieces(s, t, delims))
    decreases |t|
  {
    if t != "" {
      if t[0] == '\r' && |t| > 1 && t[1] == '\n' {
        var qs := Pieces(s, t[1..], delims);
        PiecesUnix(s, t[1..], delims);
        PiecesOfReturn(s, t, delims);
        assert (['\r'] + qs[0])[1..] == qs[0];
        MapUnixReplaced(qs, ['\r'] + qs[0]);
      } else {
        PiecesUnixStep(s, t, delims, Pieces(Observed(s, t[0]), t[1..], delims));
      }
    }
  }

  lemma {:induction false} PiecesUnixStep(s: State, t: string, delims: set<char>, qs: seq<string>)
    requires Sane(s) && '\r' !in delims && '\n' !in delims && t != "" && !(t[0] == '\r' && |t| > 1 && t[1] == '\n')
    requires qs == Pieces(Observed(s, t[0]), t[1..], delims)
    ensures Pieces(s, Unix(t), delims) == MapUnix(Pieces(s, t, delims))
    decreases |t|, 0
  {
    StaysSane(s, t[0]);
    PiecesUnix(Observed(s, t[0]), t[1..], delims);
    assert Unix(t) == [t[0]] + Unix(t[1..]) && Unix(t)[1..] == Unix(t[1..]);
    if s.AtTop() && t[0] in delims {
      MapUnixCons("", qs);
    } else {
      PiecesStep(s, t, delims, qs);
      PiecesStep(s, Unix(t), delims, MapUnix(qs));
      FirstPieceBegins(Observed(s, t[0]), t[1..], delims);
      UnixConcat([t[0]], qs[0]);
      assert Unix([t[0]]) == [t[0]];
      MapUnixCons([t[0]] + qs[0], qs[1..]);
    }
  }

  lemma {:induction false} UnixBlank(t: string)
    requires Blank(t)
    ensures Blank(Unix(t))
    decreases |t|
  {
    if t != "" {
      UnixBlank(t[1..]);
    }
  }

  lemma TrimUnix(t: string)
    ensures Trim(Unix(t)) == Unix(Trim(t))
  {
    var before, after := TrimParts(t);
    var p := Trim(t);
    TrimIsTrimmed(t);
    UnixBlank(before);
    UnixBlank(after);
    if p == "" {
      assert t == before + after && Blank(t);
      UnixBlank(t);
      TrimStartBlank(Unix(t), "");
      assert Unix(t) + "" == Unix(t);
    } else {
      UnixEnds(p);
      UnixConcat(before, p);
      UnixConcat(before + p, after);
      TrimUnique(Unix(before), Unix(p), Unix(after));
    }
  }

  lemma {:induction false} VisibleUnix(ps: seq<string>)
    ensures Visible(MapUnix(ps)) == MapUnix(Visible(ps))
  {
    if ps != [] {
      VisibleUnix(ps[1..]);
      TrimUnix(ps[0]);
      assert ps == [ps[0]] + ps[1..];
      VisibleCons(ps[0], ps[1..]);
      VisibleCons(Unix(ps[0]), MapUnix(ps[1..]));
      if Trim(ps[0]) == "" {
        assert [] + Visible(ps[1..]) == Visible(ps[1..]);
      } else {
        UnixEnds(Trim(ps[0]));
        MapUnixCons(Trim(ps[0]), Visible(ps[1..]));
      }
    }
  }

  lemma PartsUnix(t: string, delims: set<char>)
    requires '\r' !in delims && '\n' !in delims
    ensures Parts(Unix(t), delims) == MapUnix(Parts(t, delims))
  {
    PiecesUnix(START, t, delims);
    VisibleUnix(Pieces(START, t, delims));
  }

  /** The filter decides on a part as it does on the part without its carriage returns. */
  predicate Agrees(keep: string -> bool, p: string) {
    keep(p) == keep(Unix(p))
  }

  ghost predicate IgnoresReturns(keep: string -> bool) {
    forall p :: Agrees(keep, p)
  }

  lemma {:induction false} FilterUnix(ps: seq<string>, keep: string -> bool)
    requires IgnoresReturns(keep)
    ensures Filter(MapUnix(ps), keep) == MapUnix(Filter(ps, keep))
  {
    if ps != [] {
      var p, rest := ps[0], ps[1..];
      FilterUnix(rest, keep);
      FilterStep(p, rest, ps, keep);
      FilterStep(Unix(p), MapUnix(rest), MapUnix(ps), keep);
      assert Agrees(keep, p);
      MapUnixCons(p, Filter(rest, keep));
    }
  }

  lemma FilterStep(p: string, rest: seq<string>, ps: seq<string>, keep: string -> bool)
    requires ps == [p] + rest
    ensures Filter(ps, keep) == if keep(p) then [p] + Filter(rest, keep) else Filter(rest, keep)
  {
    assert ps[1..] == rest;
    assert [] + Filter(rest, keep) == Filter(rest, keep);
  }

  /** What stands between joined parts: no line end at either side. */
  predicate Inert(sep: string) {
    sep != "" && sep[0] != '\n' && sep[|sep| - 1] != '\r' && Unix(sep) == sep
  }

  lemma {:induction false} JoinUnix(ps: seq<string>, sep: string)
    requires Inert(sep)
    ensures Unix(Join(ps, sep)) == Join(MapUnix(ps), sep)
  {
    if |ps| > 1 {
      JoinUnix(ps[1..], sep);
      UnixConcat(ps[0], sep);
      UnixConcat(ps[0] + sep, Join(ps[1..], sep));
      assert MapUnix(ps)[1..] == MapUnix(ps[1..]);
    }
  }

  lemma FilteredUnix(body: string, delims: set<char>, sep: Separator, keep: string -> bool)
    requires '\r' !in delims && '\n' !in delims && Inert(sep.Text()) && IgnoresReturns(keep)
    ensures Filtered(Unix(body), delims, sep, keep) == Unix(Filtered(body, delims, sep, keep))
  {
    PartsUnix(body, delims);
    FilterUnix(Parts(body, delims), keep);
    JoinUnix(Survivors(body, delims, keep), sep.Text());
  }

  // ----- finding texts

  lemma NotAtReturn(g: string, m: string, i: nat)
    requires m != "" && m[|m| - 1] != '\r' && i + |m| <= |g| + 1 && m <= (g + "\r")[i..]
    ensures i + |m| <= |g|
  {
    var h := g + "\r";
    assert h[i..][|m| - 1] == m[|m| - 1];
    assert h[i + |m| - 1] == h[i..][|m| - 1];
  }

  lemma FoundBeforeReturn(g: string, m: string)
    requires m != "" && m[|m| - 1] != '\r'
    ensures FindText(g, m).Some? <==> FindText(g + "\r", m).Some?
  {
    var h := g + "\r";
    assert h[..|g|] == g && g[..|g|] == g;
    if FindText(h, m).Some? {
      NotAtReturn(g, m, FindText(h, m).value);
      FindTextPrefix(h, g, |g|, m);
    } else if FindText(g, m).Some? {
      FindTextPrefix(g, h, |g|, m);
    }
  }

  lemma FoundChomped(h: string, m: string)
    requires m != "" && m[|m| - 1] != '\r'
    ensures FindText(Chomp(h), m).Some? <==> FindText(h, m).Some?
  {
    ChompParts(h);
    FoundBeforeReturn(Chomp(h), m);
  }

  /** A text of one line is found in a text exactly if it is found there without the carriage returns. */
  lemma {:induction false} FoundUnix(t: string, m: string)
    requires m != "" && m[|m| - 1] != '\r' && '\n' !in m
    ensures FindText(Unix(t), m).Some? <==> FindText(t, m).Some?
    decreases |t|
  {
    var (h, tail) := SplitOnce(t, '\n');
    if tail.None? {
      NoNewlineSame(t);
    } else {
      var rest := tail.value;
      assert t == h + "\n" + rest;
      UnixOfLine(h, rest, t);
      FoundUnix(rest, m);
      FoundChomped(h, m);
      FindTextInLines(h, rest, m, t);
      FindTextInLines(Chomp(h), Unix(rest), m, Unix(t));
    }
  }

  lemma FirstInLine(w: string, m: string, z: string, y: string)
    requires m != "" && FindText(w + m + z, m).Some? && FindText(w + m + z, m).value == |w|
    ensures FindText(w + m + y, m).Some? && FindText(w + m + y, m).value == |w|
  {
    var a, b, k := w + m + z, w + m + y, |w| + |m|;
    assert a[..k] == w + m && b[..k] == w + m;
    FindTextPrefix(a, b, k, m);
  }

  lemma FirstBehindLine(h: string, rest: string, m: string, t: string)
    requires m != "" && '\n' !in m && t == h + "\n" + rest && FindText(t, m).Some? && FindText(t, m).value > |h|
    ensures FindText(h, m).None? && FindText(rest, m).Some? && FindText(rest, m).value == FindText(t, m).value - |h| - 1
  {
    FindTextInLines(h, rest, m, t);
  }

  lemma FoundPastLine(h: string, rest: string, m: string, t: string)
    requires m != "" && '\n' !in m && t == h + "\n" + rest && FindText(h, m).None? && FindText(rest, m).Some?
    ensures FindText(t, m).Some? && FindText(t, m).value == FindText(rest, m).value + |h| + 1
  {
    FindTextInLines(h, rest, m, t);
  }

  ghost predicate FoundAt(t: string, m: string, i: nat) {
    FindText(t, m).Some? && FindText(t, m).value == i
  }

  lemma FirstUnixStep(h: string, t2: string, u2: string, m: string, t: string, u: string)
    requires m != "" && m[|m| - 1] != '\r' && '\n' !in m && t == h + "\n" + t2 && u == Chomp(h) + "\n" + u2
    requires FindText(t, m).Some? && FindText(t, m).value > |h| && FindText(u2, m).Some?
    ensures FoundAt(u, m, |Chomp(h)| + 1 + FindText(u2, m).value)
  {
    FirstBehindLine(h, t2, m, t);
    FoundChomped(h, m);
    FoundPastLine(Chomp(h), u2, m, u);
  }

  lemma LineAndRest(h: string, rest: string, m: string, z: string)
    ensures h + "\n" + rest + m + z == h + "\n" + (rest + m + z)
  {
  }

  /** And its first occurrence stays the first. */
  lemma {:induction false} FirstUnix(w: string, m: string, z: string, y: string, t: string, u: string)
    requires m != "" && m[|m| - 1] != '\r' && '\n' !in m && t == w + m + z && u == Unix(w) + m + y && FoundAt(t, m, |w|)
    ensures FoundAt(u, m, |Unix(w)|)
    decreases |w|
  {
    var (h, tail) := SplitOnce(w, '\n');
    if tail.None? {
      NoNewlineSame(w);
      FirstInLine(w, m, z, y);
    } else {
      var rest := tail.value;
      var t2, u2 := rest + m + z, Unix(rest) + m + y;
      assert w == h + "\n" + rest;
      LineAndRest(h, rest, m, z);
      FirstBehindLine(h, t2, m, t);
      FirstUnix(rest, m, z, y, t2, u2);
      UnixOfLine(h, rest, w);
      LineAndRest(Chomp(h), Unix(rest), m, y);
      FirstUnixStep(h, t2, u2, m, t, u);
    }
  }

  // ----- pruning imports

  lemma {:induction false} LinesUnix(t: string)
    requires NoCrlf(Unix(t))
    ensures Lines(Unix(t)) == Lines(t) && NoneHolds(Lines(t), '\n')
    decreases |t|
  {
    var (h, tail) := SplitOnce(t, '\n');
    if tail.None? {
      NoNewlineSame(t);
    } else {
      var rest := tail.value;
      assert t == h + "\n" + rest;
      UnixOfLine(h, rest, t);
      ChompParts(h);
      NoCrlfOfLine(Chomp(h), Unix(rest));
      LinesUnix(rest);
      LinesOfLine(h, rest, t);
      LinesOfLine(Chomp(h), Unix(rest), Unix(t));
    }
  }

  lemma LinesOfLine(h: string, rest: string, t: string)
    requires '\n' !in h && t == h + "\n" + rest
    ensures Lines(t) == [Chomp(h)] + Lines(rest)
  {
    BeforeJoined(h, '\n', rest);
  }

  lemma EndsUnix(t: string)
    ensures EndsWithNewline(Unix(t)) == EndsWithNewline(t)
  {
    if t != "" {
      UnixEnds(t);
    }
  }

  lemma UnusedUnix(line: string, scope: string)
    requires '\n' !in line
    ensures IsUnused(line, Unix(scope)) == IsUnused(line, scope)
  {
    if ImportedName(line).Some? {
      var name := ImportedName(line).value;
      var b, e := NameWithin(line);
      assert forall c :: c in name ==> c in line;
      NameIsTrimmed(line);
      FoundUnix(scope, name);
    }
  }

  lemma NameIsTrimmed(line: string)
    requires ImportedName(line).Some?
    ensures ImportedName(line).value != "" && IsTrimmed(ImportedName(line).value)
  {
    var rest := StripPrefix(Trim(line), IMPORT).value;
    TrimIsTrimmed(rest[..FindText(rest, FROM).value]);
  }

  /** Pruning takes the carriage returns off. */
  lemma PrunedUnix(t: string, scope: string)
    requires NoCrlf(Unix(t))
    ensures Pruned(t, scope) == Pruned(Unix(t), Unix(scope))
  {
    LinesUnix(t);
    EndsUnix(t);
    forall i | 0 <= i < |Lines(t)|
      ensures Stays(scope)(Lines(t)[i]) == Stays(Unix(scope))(Lines(t)[i])
    {
      UnusedUnix(Lines(t)[i], scope);
    }
    FilterAgrees(Lines(t), Stays(scope), Stays(Unix(scope)));
  }

  // ----- the arm filter

  lemma AroundEquals(u: string, rest: string)
    ensures Unix(u + "=" + rest) == Unix(u) + "=" + Unix(rest)
  {
    UnixConcat(u, "=");
    UnixConcat(u + "=", rest);
    assert Unix("=") == "=";
  }

  lemma AliasUnix(u: string, body: string, v: string)
    ensures Unix(u + "=" + body + (";" + v)) == Unix(u) + "=" + Unix(body) + (";" + Unix(v))
  {
    AroundEquals(u, body);
    UnixConcat(u + "=" + body, ";" + v);
    UnixConcat(";", v);
    assert Unix(";") == ";";
  }

  lemma DelimsAreInert()
    ensures '\r' !in ARM_DELIMS && '\n' !in ARM_DELIMS && '\r' !in FIELD_DELIMS && '\n' !in FIELD_DELIMS
    ensures Inert(ARMS.Text()) && Inert(FIELDS.Text())
  {
    NoNewlineSame(ARMS.Text());
    NoNewlineSame(FIELDS.Text());
  }

  /** With or without carriage returns at the ends of its lines, a file is filtered into the same one. */
  lemma ArmsUnix(content: string, keep: string -> bool)
    requires SplitAlias(content).Some? && NoCrlf(Unix(content)) && IgnoresReturns(keep)
    ensures FilterArms(content, keep) == FilterArms(Unix(content), keep)
  {
    var body := SplitAlias(content).value.1;
    var u, v := AliasParts(content);
    var newBody := Filtered(body, ARM_DELIMS, ARMS, keep);
    UnixKeeps(u, '=');
    UnixKeeps(v, ';');
    AliasUnix(u, body, v);
    ArmsOfAlias(content, keep, u, body, v);
    ArmsOfAlias(Unix(content), keep, Unix(u), Unix(body), Unix(v));
    DelimsAreInert();
    FilteredUnix(body, ARM_DELIMS, ARMS, keep);
    AliasUnix(u, newBody, v);
    NoCrlfIsUnixLines(Unix(content));
    NewArmsUnixLines(Unix(u), Unix(body), Unix(v), keep);
    NoCrlfIsUnixLines(Unix(u + "=" + newBody + (";" + v)));
    PrunedUnix(u + "=" + newBody + (";" + v), newBody);
  }

  // ----- braces

  /** The same place in a text and in the text without carriage returns. */
  ghost predicate SamePlace(rest: string, i: nat, j: nat, k: nat, k2: nat) {
    i <= k <= i + |rest| && k2 == j + |Unix(rest[..k - i])|
  }

  lemma PlaceBehind(ch: char, rest: string, all: string, i: nat, j: nat, k: nat, k2: nat)
    requires all == [ch] + rest && !(ch == '\r' && rest != "" && rest[0] == '\n') && SamePlace(rest, i + 1, j + 1, k, k2)
    ensures SamePlace(all, i, j, k, k2)
  {
    var n := k - i;
    assert all[..n] == [ch] + rest[..n - 1];
    UnixConcat([ch], rest[..n - 1]);
    assert Unix([ch]) == [ch];
  }

  lemma PlaceBehindReturn(rest: string, all: string, i: nat, j: nat, k: nat, k2: nat)
    requires all == "\r\n" + rest && SamePlace(rest, i + 2, j + 1, k, k2)
    ensures SamePlace(all, i, j, k, k2)
  {
    var n := k - i;
    assert all[..n] == "\r\n" + rest[..n - 2];
    UnixOfNewline(rest[..n - 2]);
  }

  /** The pairs found in two searches are at the same places. */
  ghost predicate SamePair(r: Option<(nat, nat)>, r2: Option<(nat, nat)>, rest: string, i: nat, j: nat, open: Option<nat>, open2: Option<nat>) {
    && (r.Some? <==> r2.Some?)
    && (r.Some? ==>
          && SamePlace(rest, i, j, r.value.1, r2.value.1)
          && ((r.value.0 < i && open == Some(r.value.0) && open2 == Some(r2.value.0))
              || (r.value.0 >= i && SamePlace(rest, i, j, r.value.0, r2.value.0))))
  }

  lemma HereIsHere(rest: string, i: nat, j: nat)
    ensures SamePlace(rest, i, j, i, j)
  {
    assert rest[..0] == "";
  }

  lemma SpanStep(s: State, rest: string, i: nat, open: Option<nat>)
    requires rest != "" && (open.Some? ==> open.value < i)
    ensures var next, last := Observed(s, rest[0]), if s.AtTop() && rest[0] == '{' then Some(i) else open;
            SpanFrom(s, rest, i, open) ==
            if next.AtTop() && rest[0] == '}' && last.Some? then Some((last.value, i)) else SpanFrom(next, rest[1..], i + 1, last)
  {
  }

  lemma SpanPastReturn(s: State, rest: string, all: string, i: nat, open: Option<nat>)
    requires Sane(s) && all == "\r\n" + rest && (open.Some? ==> open.value < i)
    ensures SpanFrom(s, all, i, open) == SpanFrom(Observed(s, '\n'), rest, i + 2, open)
  {
    ReturnIsSilent(s);
    SpanStep(s, all, i, open);
    assert all[1..] == "\n" + rest && all[1..][1..] == rest;
    SpanStep(Observed(s, '\r'), all[1..], i + 1, open);
  }

  lemma SpanPastNewline(s: State, rest: string, i: nat, open: Option<nat>)
    requires open.Some? ==> open.value < i
    ensures SpanFrom(s, "\n" + rest, i, open) == SpanFrom(Observed(s, '\n'), rest, i + 1, open)
  {
    SpanStep(s, "\n" + rest, i, open);
    assert ("\n" + rest)[1..] == rest;
  }

  lemma {:induction false} SpanUnixFrom(s: State, rest: string, i: nat, j: nat, open: Option<nat>, open2: Option<nat>)
    requires Sane(s) && (open.Some? <==> open2.Some?) && (open.Some? ==> open.value < i && open2.value < j)
    ensures SamePair(SpanFrom(s, rest, i, open), SpanFrom(s, Unix(rest), j, open2), rest, i, j, open, open2)
    decreases |rest|
  {
    if rest != "" {
      if rest[0] == '\r' && |rest| > 1 && rest[1] == '\n' {
        var tail := rest[2..];
        assert rest == "\r\n" + tail;
        UnixOfNewline(tail);
        SpanPastReturn(s, tail, rest, i, open);
        SpanPastNewline(s, Unix(tail), j, open2);
        StaysSane(s, '\n');
        SpanUnixFrom(Observed(s, '\n'), tail, i + 2, j + 1, open, open2);
        PairBehindReturn(SpanFrom(s, rest, i, open), SpanFrom(s, Unix(rest), j, open2), tail, rest, i, j, open, open2);
      } else {
        SpanUnixStep(s, rest, i, j, open, open2);
      }
    }
  }

  lemma PairBehindReturn(r: Option<(nat, nat)>, r2: Option<(nat, nat)>, tail: string, rest: string, i: nat, j: nat, open: Option<nat>, open2: Option<nat>)
    requires rest == "\r\n" + tail && SamePair(r, r2, tail, i + 2, j + 1, open, open2) && (open.Some? ==> open.value < i)
    ensures SamePair(r, r2, rest, i, j, open, open2)
  {
    if r.Some? {
      PlaceBehindReturn(tail, rest, i, j, r.value.1, r2.value.1);
      if r.value.0 >= i + 2 {
        PlaceBehindReturn(tail, rest, i, j, r.value.0, r2.value.0);
      }
    }
  }

  lemma PairBehind(r: Option<(nat, nat)>, r2: Option<(nat, nat)>, ch: char, tail: string, rest: string, i: nat, j: nat,
                   open: Option<nat>, open2: Option<nat>, last: Option<nat>, last2: Option<nat>)
    requires rest == [ch] + tail && !(ch == '\r' && tail != "" && tail[0] == '\n') && (open.Some? ==> open.value < i)
    requires SamePair(r, r2, tail, i + 1, j + 1, last, last2)
    requires (last == open && last2 == open2) || (last == Some(i) && last2 == Some(j))
    ensures SamePair(r, r2, rest, i, j, open, open2)
  {
    HereIsHere(rest, i, j);
    if r.Some? {
      PlaceBehind(ch, tail, rest, i, j, r.value.1, r2.value.1);
      if r.value.0 >= i + 1 {
        PlaceBehind(ch, tail, rest, i, j, r.value.0, r2.value.0);
      }
    }
  }

  lemma {:induction false} SpanUnixStep(s: State, rest: string, i: nat, j: nat, open: Option<nat>, open2: Option<nat>)
    requires Sane(s) && (open.Some? <==> open2.Some?) && (open.Some? ==> open.value < i && open2.value < j)
    requires rest != "" && !(rest[0] == '\r' && |rest| > 1 && rest[1] == '\n')
    ensures SamePair(SpanFrom(s, rest, i, open), SpanFrom(s, Unix(rest), j, open2), rest, i, j, open, open2)
    decreases |rest|, 0
  {
    var ch, tail := rest[0], rest[1..];
    var next, opens := Observed(s, ch), s.AtTop() && ch == '{';
    var last, last2 := if opens then Some(i) else open, if opens then Some(j) else open2;
    assert rest == [ch] + tail && Unix(rest) == [ch] + Unix(tail) && Unix(rest)[1..] == Unix(tail);
    SpanStep(s, rest, i, open);
    SpanStep(s, Unix(rest), j, open2);
    HereIsHere(rest, i, j);
    if !(next.AtTop() && ch == '}' && last.Some?) {
      StaysSane(s, ch);
      SpanUnixFrom(next, tail, i + 1, j + 1, last, last2);
      PairBehind(SpanFrom(next, tail, i + 1, last), SpanFrom(next, Unix(tail), j + 1, last2), ch, tail, rest, i, j, open, open2, last, last2);
    }
  }

  /** The first pair of braces, with and without carriage returns. */
  lemma BraceSpanUnix(text: string)
    ensures SamePair(BraceSpan(text), BraceSpan(Unix(text)), text, 0, 0, None, None)
  {
    SpanUnixFrom(START, text, 0, 0, None, None);
  }

  lemma PairPlaces(text: string, o: nat, c: nat, found: Option<(nat, nat)>)
    requires SamePair(Some((o, c)), found, text, 0, 0, None, None)
    ensures o <= |text| && c <= |text| && found == Some((|Unix(text[..o])|, |Unix(text[..c])|))
  {
  }

  lemma FoundIsSpan(text: string, o: nat, c: nat)
    requires BraceSpan(text) == Some((o, c))
    ensures IsSpan(text, o, c)
  {
    BraceSpanFinds(text);
  }

  lemma SpanFoundUnix(text: string, o: nat, c: nat) returns (found: Option<(nat, nat)>)
    requires IsSpan(text, o, c)
    ensures SamePair(Some((o, c)), found, text, 0, 0, None, None)
    ensures found.Some? ==> IsSpan(Unix(text), found.value.0, found.value.1)
  {
    SpanIsFound(text, o, c);
    BraceSpanUnix(text);
    found := BraceSpan(Unix(text));
    if found.Some? {
      FoundIsSpan(Unix(text), found.value.0, found.value.1);
    }
  }

  lemma SpanUnix(text: string, o: nat, c: nat)
    requires o < c < |text| && IsSpan(text, o, c)
    ensures IsSpan(Unix(text), |Unix(text[..o])|, |Unix(text[..c])|)
  {
    var found := SpanFoundUnix(text, o, c);
    PairPlaces(text, o, c, found);
  }

  lemma CutUnix(t: string, k: nat)
    requires k <= |t| && (k == |t| || t[k] != '\n' || (k > 0 && t[k - 1] != '\r'))
    ensures Unix(t) == Unix(t[..k]) + Unix(t[k..])
  {
    assert t == t[..k] + t[k..];
    UnixConcat(t[..k], t[k..]);
  }

  lemma UnixWithLast(t: string, o: nat)
    requires o < |t| && t[o] != '\n'
    ensures Unix(t[..o + 1]) == Unix(t[..o]) + [t[o]]
  {
    assert t[..o + 1] == t[..o] + [t[o]];
    UnixConcat(t[..o], [t[o]]);
    assert Unix([t[o]]) == [t[o]];
  }

  /** The parts of a text around and between two braces. */
  ghost predicate PartsAt(u: string, o2: nat, c2: nat, before: string, inner: string, behind: string) {
    o2 < c2 < |u| && u[..o2 + 1] == before && u[o2 + 1..c2] == inner && u[c2..] == behind
  }

  lemma ThreeParts(u: string, before: string, inner: string, behind: string, o2: nat, c2: nat)
    requires u == before + inner + behind && behind != "" && |before| == o2 + 1 && c2 == |before + inner|
    ensures PartsAt(u, o2, c2, before, inner, behind)
  {
  }

  lemma SlicesUnix(text: string, o: nat, c: nat, o2: nat, c2: nat)
    requires o < c < |text| && text[o] == '{' && text[c] == '}' && o2 == |Unix(text[..o])| && c2 == |Unix(text[..c])|
    ensures PartsAt(Unix(text), o2, c2, Unix(text[..o + 1]), Unix(text[o + 1..c]), Unix(text[c..]))
  {
    CutUnix(text, c);
    var front := text[..c];
    assert front[..o + 1] == text[..o + 1] && front[o + 1..] == text[o + 1..c];
    CutUnix(front, o + 1);
    UnixWithLast(text, o);
    UnixEnds(text[c..]);
    ThreeParts(Unix(text), Unix(text[..o + 1]), Unix(text[o + 1..c]), Unix(text[c..]), o2, c2);
  }

  // ----- the field filter

  lemma EqualsAnchorUnix(head: string, text: string)
    requires Anchor(head + text) == Some(|head|) && '=' in head + text
    ensures Unix(head + text) == Unix(head) + Unix(text) && Anchor(Unix(head) + Unix(text)) == Some(|Unix(head)|)
  {
    var u := AnchorAtEquals(head, text);
    UnixConcat(u, "=");
    assert Unix("=") == "=";
    UnixConcat(head, text);
    UnixKeeps(u, '=');
    AnchorBehindEquals(Unix(u), Unix(text));
  }

  lemma MarkerAnchorUnix(head: string, text: string)
    requires Anchor(head + text) == Some(|head|) && '=' !in head + text
    ensures Unix(head + text) == Unix(head) + Unix(text) && Anchor(Unix(head) + Unix(text)) == Some(|Unix(head)|)
  {
    var w := AnchorAtMarker(head, text);
    MarkerIsOneRow();
    UnixMarker(w, head);
    UnixConcat(head, text);
    UnixKeeps(head + text, '=');
    var u := Unix(w) + MARKER + Unix(text);
    FirstUnix(w, MARKER, text, Unix(text), w + MARKER + text, u);
    AnchorBehindMarker(Unix(w), Unix(text), u);
  }

  lemma UnixMarker(w: string, head: string)
    requires head == w + MARKER
    ensures Unix(head) == Unix(w) + MARKER && head != "" && head[|head| - 1] != '\r' && MARKER[|MARKER| - 1] != '\r'
  {
    MarkerIsOneRow();
    NoNewlineSame(MARKER);
    UnixConcat(w, MARKER);
  }

  lemma AnchorUnix(head: string, text: string)
    requires Anchor(head + text) == Some(|head|)
    ensures Unix(head + text) == Unix(head) + Unix(text) && Anchor(Unix(head) + Unix(text)) == Some(|Unix(head)|)
    ensures NoReturn(head)
  {
    if '=' in head + text {
      var u := AnchorAtEquals(head, text);
      EqualsAnchorUnix(head, text);
    } else {
      var w := AnchorAtMarker(head, text);
      UnixMarker(w, head);
      MarkerAnchorUnix(head, text);
    }
  }

  lemma TypeBodyUnix(head: string, text: string, o: nat, c: nat, o2: nat, c2: nat)
    requires IsTypeBody(head, text, o, c) && o2 == |Unix(text[..o])| && c2 == |Unix(text[..c])|
    ensures Unix(head + text) == Unix(head) + Unix(text) && IsTypeBody(Unix(head), Unix(text), o2, c2)
  {
    AnchorUnix(head, text);
    SpanOpens(text, o, c);
    SlicesUnix(text, o, c, o2, c2);
    SpanUnix(text, o, c);
  }

  lemma ScopeUnix(t: string, newBody: string)
    ensures Scope(Unix(t), Unix(newBody)) == Unix(Scope(t, newBody))
  {
    if SplitAlias(t).Some? {
      var u, v := AliasParts(t);
      var body := SplitAlias(t).value.1;
      UnixKeeps(u, '=');
      UnixKeeps(v, ';');
      AliasUnix(u, body, v);
      AliasOf(Unix(u), Unix(body), Unix(v), Unix(t));
    } else if '=' in t {
      NoAliasUnix(t);
    } else {
      UnixKeeps(t, '=');
      NoEqualsNoAlias(Unix(t));
    }
  }

  lemma NoAliasUnix(t: string)
    requires '=' in t && SplitAlias(t).None?
    ensures SplitAlias(Unix(t)).None?
  {
    var u := Before(t, '=');
    BeforeIsInside(t, '=');
    var rest := t[|u| + 1..];
    assert t == u + "=" + rest;
    var semi := LastIndex(t, ';');
    assert semi <= |u| || semi == |t|;
    assert ';' !in rest;
    AroundEquals(u, rest);
    UnixKeeps(u, '=');
    UnixKeeps(rest, ';');
    NoAlias(Unix(u), Unix(rest), Unix(t));
  }

  lemma ReplacedUnix(before: string, inner: string, behind: string)
    requires NoReturn(before) && behind != "" && behind[0] != '\n'
    ensures Unix(before + inner + behind) == Unix(before) + Unix(inner) + Unix(behind)
  {
    UnixConcat(before, inner);
    UnixConcat(before + inner, behind);
  }

  /** The new text behind the anchor, with and without carriage returns. */
  lemma FilteredAtUnix(text: string, o: nat, c: nat, o2: nat, c2: nat, keep: string -> bool)
    requires o < c < |text| && text[o] == '{' && text[c] == '}' && IgnoresReturns(keep)
    requires o2 == |Unix(text[..o])| && c2 == |Unix(text[..c])|
    ensures o2 < c2 < |Unix(text)|
    ensures NewInner(Unix(text), o2, c2, keep) == Unix(NewInner(text, o, c, keep))
    ensures FilterFieldsAt(Unix(text), o2, c2, keep) == Unix(FilterFieldsAt(text, o, c, keep))
  {
    SlicesUnix(text, o, c, o2, c2);
    DelimsAreInert();
    FilteredUnix(text[o + 1..c], FIELD_DELIMS, FIELDS, keep);
    ReplacedUnix(text[..o + 1], NewInner(text, o, c, keep), text[c..]);
  }

  /** With or without carriage returns at the ends of its lines, a file is filtered into the same one. */
  lemma FieldsUnix(head: string, text: string, o: nat, c: nat, o2: nat, c2: nat, keep: string -> bool)
    requires IsTypeBody(head, text, o, c) && NoCrlf(Unix(head + text)) && IgnoresReturns(keep)
    requires o2 == |Unix(text[..o])| && c2 == |Unix(text[..c])|
    ensures Unix(head + text) == Unix(head) + Unix(text) && IsTypeBody(Unix(head), Unix(text), o2, c2)
    ensures FilterFields(head + text, keep) == FilterFields(Unix(head) + Unix(text), keep)
  {
    TypeBodyUnix(head, text, o, c, o2, c2);
    SpanOpens(text, o, c);
    FilteredAtUnix(text, o, c, o2, c2, keep);
    PrunedFieldsUnix(head, text, o, c, o2, c2, keep);
    FilterFieldsIs(head, text, o, c, keep);
    FilterFieldsIs(Unix(head), Unix(text), o2, c2, keep);
  }

  lemma PrunedFieldsUnix(head: string, text: string, o: nat, c: nat, o2: nat, c2: nat, keep: string -> bool)
    requires IsTypeBody(head, text, o, c) && NoCrlf(Unix(head + text))
    requires Unix(head + text) == Unix(head) + Unix(text) && IsTypeBody(Unix(head), Unix(text), o2, c2)
    requires NewInner(Unix(text), o2, c2, keep) == Unix(NewInner(text, o, c, keep))
    requires FilterFieldsAt(Unix(text), o2, c2, keep) == Unix(FilterFieldsAt(text, o, c, keep))
    ensures FieldsPruned(head, text, o, c, keep) == FieldsPruned(Unix(head), Unix(text), o2, c2, keep)
  {
    var next, newInner := head + FilterFieldsAt(text, o, c, keep), NewInner(text, o, c, keep);
    AnchorUnix(head, text);
    UnixConcat(head, FilterFieldsAt(text, o, c, keep));
    SpanOpens(Unix(text), o2, c2);
    NoCrlfIsUnixLines(Unix(head + text));
    NewFieldsUnixLines(Unix(head), Unix(text), o2, c2, keep);
    NoCrlfIsUnixLines(Unix(next));
    ScopeUnix(next, newInner);
    PrunedUnix(next, Scope(next, newInner));
  }
}
