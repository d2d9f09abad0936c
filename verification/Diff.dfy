/** Counts and fingerprints of the lines that a unified diff adds and deletes. */
module Diff {
  import opened Wrappers
  import opened Text
  import opened Scanner
  import opened Seqs

  /** What the parser takes from elsewhere: the digest, and which characters are alphanumeric. */
  datatype Rules = Rules(hash: (string, string) -> string, alphanumeric: char -> bool)

  /** For counting only. */
  const PLAIN := Rules((domain, value) => value, c => true)

  datatype Fingerprint = Fingerprint(pathHash: string, lineHash: string)

  datatype Summary = Summary(added: nat, deleted: nat, prints: seq<Fingerprint>)

  const NOTHING := Summary(0, 0, [])

  function Combine(a: Summary, b: Summary): Summary {
    Summary(a.added + b.added, a.deleted + b.deleted, a.prints + b.prints)
  }

  // ----- effective lines

  function Word(s: string): (w: string)
    ensures w <= s && forall i :: 0 <= i < |w| ==> !IsSpace(w[i])
  {
    if s == "" || IsSpace(s[0]) then "" else [s[0]] + Word(s[1..])
  }

  /** `str::split_whitespace`. */
  function Words(s: string): seq<string>
    decreases |s|
  {
    if s == "" then []
    else if IsSpace(s[0]) then Words(s[1..])
    else
      var w := Word(s);
      [w] + Words(s[|w|..])
  }

  function Utf8Length(s: string): nat {
    if s == "" then 0
    else
      (if s[0] < '\U{80}' then 1 else if s[0] < '\U{800}' then 2 else if s[0] < '\U{10000}' then 3 else 4)
      + Utf8Length(s[1..])
  }

  /** How many characters of `s` are at or above a code point. */
  function From(s: string, c: char): nat {
    if s == "" then 0 else From(s[1..], c) + if s[0] >= c then 1 else 0
  }

  /** One byte a character, and one more from each of the three bounds of UTF-8 on. */
  lemma {:induction false} Utf8Lengths(s: string)
    ensures Utf8Length(s) == |s| + From(s, '\U{80}') + From(s, '\U{800}') + From(s, '\U{10000}')
  {
    if s != "" {
      Utf8Lengths(s[1..]);
    }
  }

  predicate Telling(s: string, r: Rules) {
    exists i :: 0 <= i < |s| && (r.alphanumeric(s[i]) || s[i] == '_')
  }

  /** `normalize_effective_line`. */
  function Effective(line: string, r: Rules): Option<string> {
    var normalized := Join(Words(line), " ");
    if Utf8Length(normalized) <= 3 || !Telling(normalized, r) then None else Some(normalized)
  }

  ghost predicate IsWord(w: string) {
    w != "" && forall i :: 0 <= i < |w| ==> !IsSpace(w[i])
  }

  ghost predicate AreWords(ws: seq<string>) {
    forall i :: 0 <= i < |ws| ==> IsWord(ws[i])
  }

  lemma {:induction false} WordsAreWords(s: string)
    ensures AreWords(Words(s))
    decreases |s|
  {
    if s != "" {
      if IsSpace(s[0]) {
        WordsAreWords(s[1..]);
      } else {
        WordsAreWords(s[|Word(s)|..]);
      }
    }
  }

  lemma {:induction false} WordThenSpace(w: string, rest: string)
    requires forall i :: 0 <= i < |w| ==> !IsSpace(w[i])
    requires rest != "" ==> IsSpace(rest[0])
    ensures Word(w + rest) == w
  {
    if w == "" {
      assert w + rest == rest;
    } else {
      assert (w + rest)[1..] == w[1..] + rest;
      WordThenSpace(w[1..], rest);
      assert w == [w[0]] + w[1..];
    }
  }

  lemma WordsAfterSpace(rest: string)
    ensures Words(" " + rest) == Words(rest)
  {
  }

  lemma WordsCons(w: string, rest: string)
    requires IsWord(w) && (rest != "" ==> IsSpace(rest[0]))
    ensures Words(w + rest) == [w] + Words(rest)
  {
    WordThenSpace(w, rest);
    assert (w + rest)[|w|..] == rest;
  }

  lemma JoinedStep(w: string, rest: string)
    requires IsWord(w)
    ensures Words(w + " " + rest) == [w] + Words(rest)
  {
    assert w + " " + rest == w + (" " + rest);
    WordsCons(w, " " + rest);
    WordsAfterSpace(rest);
  }

  /** Splitting undoes joining. */
  lemma {:induction false} WordsOfJoined(ws: seq<string>)
    requires AreWords(ws)
    ensures Words(Join(ws, " ")) == ws
  {
    if ws != [] {
      var w, rest := ws[0], ws[1..];
      assert ws == [w] + rest;
      if rest == [] {
        WordsCons(w, "");
        assert Join(ws, " ") == w + "";
      } else {
        WordsOfJoined(rest);
        JoinedStep(w, Join(rest, " "));
        assert Join(ws, " ") == w + " " + Join(rest, " ");
      }
    }
  }

  /** A normalised line is its own normal form. */
  lemma EffectiveIsIdempotent(line: string, r: Rules)
    requires Effective(line, r).Some?
    ensures Effective(Effective(line, r).value, r) == Effective(line, r)
  {
    WordsAreWords(line);
    WordsOfJoined(Words(line));
  }

  lemma {:induction false} WordBeforeSpace(s: string, c: char)
    requires IsSpace(c)
    ensures Word(s + [c]) == Word(s)
  {
    if s != "" {
      assert (s + [c])[1..] == s[1..] + [c];
      WordBeforeSpace(s[1..], c);
    }
  }

  lemma {:induction false} TrailingSpace(s: string, c: char)
    requires IsSpace(c)
    ensures Words(s + [c]) == Words(s)
    decreases |s|
  {
    if s == "" {
      assert (s + [c])[1..] == "";
    } else if IsSpace(s[0]) {
      assert (s + [c])[1..] == s[1..] + [c];
      TrailingSpace(s[1..], c);
    } else {
      WordBeforeSpace(s, c);
      var w := Word(s);
      assert (s + [c])[|w|..] == s[|w|..] + [c];
      TrailingSpace(s[|w|..], c);
    }
  }

  /** Words between blanks. */
  function Spread(ws: seq<string>, gaps: seq<string>): string
    requires |gaps| == |ws| + 1
  {
    if ws == [] then gaps[0] else gaps[0] + ws[0] + Spread(ws[1..], gaps[1..])
  }

  /** All gaps are blank, and there is one between any two words. */
  ghost predicate Apart(ws: seq<string>, gaps: seq<string>) {
    && |gaps| == |ws| + 1 && (forall i :: 0 <= i < |gaps| ==> Blank(gaps[i]))
    && forall i :: 0 < i < |ws| ==> gaps[i] != ""
  }

  lemma {:induction false} WordsAfterBlank(blank: string, rest: string)
    requires Blank(blank)
    ensures Words(blank + rest) == Words(rest)
    decreases |blank|
  {
    if blank == "" {
      assert blank + rest == rest;
    } else {
      assert (blank + rest)[1..] == blank[1..] + rest;
      WordsAfterBlank(blank[1..], rest);
    }
  }

  lemma ApartLater(ws: seq<string>, gaps: seq<string>)
    requires AreWords(ws) && Apart(ws, gaps) && ws != []
    ensures AreWords(ws[1..]) && Apart(ws[1..], gaps[1..])
    ensures var later := Spread(ws[1..], gaps[1..]); later != "" ==> IsSpace(later[0])
  {
    var later := Spread(ws[1..], gaps[1..]);
    assert Blank(gaps[1]) && gaps[1] <= later;
    if |ws| > 1 {
      assert gaps[1] != "" && later[0] == gaps[1][0];
    }
  }

  /** Splitting a line into words undoes any spreading of them. */
  lemma {:induction false} WordsOfSpread(ws: seq<string>, gaps: seq<string>)
    requires AreWords(ws) && Apart(ws, gaps)
    ensures Words(Spread(ws, gaps)) == ws
    decreases |ws|
  {
    if ws == [] {
      assert gaps[0] + "" == gaps[0];
      WordsAfterBlank(gaps[0], "");
    } else {
      var later := Spread(ws[1..], gaps[1..]);
      ApartLater(ws, gaps);
      WordsOfSpread(ws[1..], gaps[1..]);
      assert gaps[0] + ws[0] + later == gaps[0] + (ws[0] + later);
      WordsAfterBlank(gaps[0], ws[0] + later);
      WordsCons(ws[0], later);
      assert ws == [ws[0]] + ws[1..];
    }
  }

  /**
   * A line of words counts by these words with one space between any two, and only if that is more than three bytes
   * long and holds an alphanumeric character or an underscore.
   */
  lemma EffectiveOfWords(ws: seq<string>, gaps: seq<string>, r: Rules, normal: string)
    requires AreWords(ws) && Apart(ws, gaps) && normal == Join(ws, " ")
    ensures Effective(Spread(ws, gaps), r) ==
            if Utf8Length(normal) > 3 && exists i :: 0 <= i < |normal| && (r.alphanumeric(normal[i]) || normal[i] == '_')
            then Some(normal) else None
  {
    WordsOfSpread(ws, gaps);
  }

  // ----- the parser

  const NO_FILE := "/dev/null"

  /** `normalize_diff_path`. */
  function NormalizePath(path: string): Option<string> {
    var p := Trim(path);
    if p == NO_FILE then None
    else if StripPrefix(p, "b/").Some? then StripPrefix(p, "b/")
    else if StripPrefix(p, "a/").Some? then StripPrefix(p, "a/")
    else Some(p)
  }

  const SECTION := "diff --git "
  const HUNK := "@@ "
  const TARGET := "+++ "
  const ORIGIN := "--- "

  datatype Reader = Reader(path: Option<string>, inHunk: bool, summary: Summary)

  const FRESH := Reader(None, false, NOTHING)

  function PrintsOf(path: Option<string>, line: string, r: Rules): seq<Fingerprint> {
    if path.Some? && Effective(line, r).Some?
    then [Fingerprint(r.hash("path", path.value), r.hash("line", Effective(line, r).value))]
    else []
  }

  function Addition(path: Option<string>, line: string, r: Rules): Summary {
    Summary(1, 0, PrintsOf(path, line, r))
  }

  const DELETION := Summary(0, 1, [])

  function Read(p: Reader, line: string, r: Rules): Reader {
    if SECTION <= line then p.(path := None, inHunk := false)
    else if HUNK <= line then p.(inHunk := true)
    else if !p.inHunk && TARGET <= line then p.(path := NormalizePath(line[|TARGET|..]))
    else if !p.inHunk && ORIGIN <= line then p
    else if "+" <= line then p.(summary := Combine(p.summary, Addition(p.path, line[1..], r)))
    else if "-" <= line then p.(summary := Combine(p.summary, DELETION))
    else p
  }

  function ReadAll(p: Reader, lines: seq<string>, r: Rules): Reader
    decreases |lines|
  {
    if lines == [] then p else ReadAll(Read(p, lines[0], r), lines[1..], r)
  }

  lemma {:induction false} ReadAllConcat(p: Reader, a: seq<string>, b: seq<string>, r: Rules)
    ensures ReadAll(p, a + b, r) == ReadAll(ReadAll(p, a, r), b, r)
    decreases |a|
  {
    if a == [] {
      assert a + b == b;
    } else {
      assert (a + b)[1..] == a[1..] + b;
      ReadAllConcat(Read(p, a[0], r), a[1..], b, r);
    }
  }

  /** The body of the parser's loop. */
  method ReadLine(line: string, r: Rules, path0: Option<string>, inHunk0: bool, added0: nat, deleted0: nat, prints0: seq<Fingerprint>)
    returns (path: Option<string>, inHunk: bool, added: nat, deleted: nat, prints: seq<Fingerprint>)
    ensures Reader(path, inHunk, Summary(added, deleted, prints)) ==
            Read(Reader(path0, inHunk0, Summary(added0, deleted0, prints0)), line, r)
  {
    path, inHunk, added, deleted, prints := path0, inHunk0, added0, deleted0, prints0;
    if SECTION <= line {
      path, inHunk := None, false;
    } else if HUNK <= line {
      inHunk := true;
    } else if !inHunk && TARGET <= line {
      path := NormalizePath(line[|TARGET|..]);
    } else if !inHunk && ORIGIN <= line {
    } else if "+" <= line {
      added := added + 1;
      var effective := Effective(line[1..], r);
      if path.Some? && effective.Some? {
        prints := prints + [Fingerprint(r.hash("path", path.value), r.hash("line", effective.value))];
      }
    } else if "-" <= line {
      deleted := deleted + 1;
    }
  }

  method AcceptedLineFingerprints(diff: string, r: Rules) returns (summary: Summary)
    ensures summary == ReadAll(FRESH, Lines(diff), r).summary
  {
    var path: Option<string>, inHunk := None, false;
    var added: nat, deleted: nat, prints: seq<Fingerprint> := 0, 0, [];
    var lines := Lines(diff);
    for i := 0 to |lines|
      invariant ReadAll(Reader(path, inHunk, Summary(added, deleted, prints)), lines[i..], r) == ReadAll(FRESH, lines, r)
    {
      assert lines[i..][1..] == lines[i + 1..];
      path, inHunk, added, deleted, prints := ReadLine(lines[i], r, path, inHunk, added, deleted, prints);
    }
    summary := Summary(added, deleted, prints);
  }

  // ----- accumulation

  /** Reading only ever adds to the summary. */
  lemma {:induction false} ReadAllAccumulates(p: Reader, base: Summary, lines: seq<string>, r: Rules)
    ensures ReadAll(p.(summary := Combine(base, p.summary)), lines, r) ==
            var q := ReadAll(p, lines, r);
            q.(summary := Combine(base, q.summary))
    decreases |lines|
  {
    if lines != [] {
      var q := Read(p, lines[0], r);
      ReadStep(p, base, lines[0], r);
      ReadAllAccumulates(q, base, lines[1..], r);
    }
  }

  lemma CombineAssociates(a: Summary, b: Summary, c: Summary)
    ensures Combine(Combine(a, b), c) == Combine(a, Combine(b, c))
  {
  }

  lemma ReadStep(p: Reader, base: Summary, line: string, r: Rules)
    ensures var q := Read(p, line, r);
            Read(p.(summary := Combine(base, p.summary)), line, r) == q.(summary := Combine(base, q.summary))
  {
  }

  lemma ReadFirst(p: Reader, lines: seq<string>, r: Rules)
    requires lines != [] && SECTION <= lines[0]
    ensures ReadAll(p, lines, r) == ReadAll(Reader(None, false, p.summary), lines[1..], r)
  {
  }

  lemma CombineNothing(s: Summary)
    ensures Combine(s, NOTHING) == s && Combine(NOTHING, s) == s
  {
  }

  lemma ReadSections(p: Reader, lines: seq<string>, r: Rules)
    requires lines != [] ==> SECTION <= lines[0]
    ensures ReadAll(p, lines, r).summary == Combine(p.summary, ReadAll(FRESH, lines, r).summary)
  {
    CombineNothing(p.summary);
    if lines != [] {
      ReadFirst(p, lines, r);
      ReadFirst(FRESH, lines, r);
      ReadAllAccumulates(FRESH, p.summary, lines[1..], r);
    }
  }

  /** A text followed by file sections: their summaries add up, whatever state the text leaves behind. */
  lemma SectionsCompose(a: seq<string>, b: seq<string>, r: Rules)
    requires b != [] ==> SECTION <= b[0]
    ensures ReadAll(FRESH, a + b, r).summary == Combine(ReadAll(FRESH, a, r).summary, ReadAll(FRESH, b, r).summary)
  {
    ReadAllConcat(FRESH, a, b, r);
    ReadSections(ReadAll(FRESH, a, r), b, r);
  }

  // ----- structured diffs

  datatype Change = Added(text: string) | Deleted(text: string) | Kept(text: string) | Remark(text: string)

  datatype Hunk = Hunk(range: string, changes: seq<Change>)

  /** The file before and after, absent if it is created or deleted. */
  datatype Sides = Sides(origin: Option<string>, target: Option<string>)

  /** A section of `git diff`: a header, extended header lines, and, unless it is binary or only a mode, files and hunks. */
  datatype Section = Section(header: string, extra: seq<string>, files: Option<Sides>, hunks: seq<Hunk>)

  /** An extended header line is no other kind of line. */
  predicate IsExtra(line: string) {
    !("diff --git " <= line) && !("@@ " <= line) && !("+" <= line) && !("-" <= line)
  }

  predicate EndsVisibly(path: string) {
    path == "" || !IsSpace(path[|path| - 1])
  }

  predicate WellFormed(f: Section) {
    && (forall i :: 0 <= i < |f.extra| ==> IsExtra(f.extra[i]))
    && (f.files.None? ==> f.hunks == [])
    && (TargetPath(f).Some? ==> EndsVisibly(TargetPath(f).value))
  }

  function PrintChange(c: Change): string {
    match c
    case Added(t) => "+" + t
    case Deleted(t) => "-" + t
    case Kept(t) => " " + t
    case Remark(t) => "\\" + t
  }

  function PrintChanges(cs: seq<Change>): seq<string> {
    if cs == [] then [] else [PrintChange(cs[0])] + PrintChanges(cs[1..])
  }

  function PrintHunk(h: Hunk): seq<string> {
    ["@@ " + h.range] + PrintChanges(h.changes)
  }

  function PrintHunks(hs: seq<Hunk>): seq<string> {
    if hs == [] then [] else PrintHunk(hs[0]) + PrintHunks(hs[1..])
  }

  function PrintPath(prefix: string, path: Option<string>): string {
    if path.Some? then prefix + path.value else "/dev/null"
  }

  function PrintFiles(files: Option<Sides>): seq<string> {
    if files.None? then []
    else ["--- " + PrintPath("a/", files.value.origin), "+++ " + PrintPath("b/", files.value.target)]
  }

  function PrintSection(f: Section): seq<string> {
    ["diff --git " + f.header] + f.extra + PrintFiles(f.files) + PrintHunks(f.hunks)
  }

  function PrintAll(fs: seq<Section>): seq<string> {
    if fs == [] then [] else PrintSection(fs[0]) + PrintAll(fs[1..])
  }

  /** What a change amounts to, under a target path. */
  function TallyOne(c: Change, path: Option<string>, r: Rules): Summary {
    match c
    case Added(t) => Addition(path, t, r)
    case Deleted(_) => DELETION
    case _ => NOTHING
  }

  function Tally(cs: seq<Change>, path: Option<string>, r: Rules): Summary {
    if cs == [] then NOTHING else Combine(TallyOne(cs[0], path, r), Tally(cs[1..], path, r))
  }

  function Changes(hs: seq<Hunk>): seq<Change> {
    if hs == [] then [] else hs[0].changes + Changes(hs[1..])
  }

  /** The file that the section's added lines are in. */
  function TargetPath(f: Section): Option<string> {
    if f.files.None? then None else f.files.value.target
  }

  function TallyAll(fs: seq<Section>, r: Rules): Summary {
    if fs == [] then NOTHING
    else Combine(Tally(Changes(fs[0].hunks), TargetPath(fs[0]), r), TallyAll(fs[1..], r))
  }

  lemma TallyCons(c: Change, cs: seq<Change>, path: Option<string>, r: Rules)
    ensures Tally([c] + cs, path, r) == Combine(TallyOne(c, path, r), Tally(cs, path, r))
  {
  }

  lemma {:induction false} TallyConcat(a: seq<Change>, b: seq<Change>, path: Option<string>, r: Rules)
    ensures Tally(a + b, path, r) == Combine(Tally(a, path, r), Tally(b, path, r))
  {
    if a == [] {
      assert a + b == b;
    } else {
      var c, rest := a[0], a[1..];
      assert a == [c] + rest && a + b == [c] + (rest + b);
      TallyCons(c, rest, path, r);
      TallyCons(c, rest + b, path, r);
      TallyConcat(rest, b, path, r);
      CombineAssociates(TallyOne(c, path, r), Tally(rest, path, r), Tally(b, path, r));
    }
  }

  lemma NotAHeader(line: string)
    requires line != "" && line[0] != 'd' && line[0] != '@'
    ensures !(SECTION <= line) && !(HUNK <= line)
  {
  }

  lemma ReadNeutral(p: Reader, line: string, r: Rules)
    requires line != "" && line[0] != 'd' && line[0] != '@' && line[0] != '+' && line[0] != '-'
    ensures Read(p, line, r) == p
  {
  }

  /** Inside a hunk every change is taken for what it is, even if it looks like a file header. */
  lemma ReadChange(p: Reader, c: Change, r: Rules)
    requires p.inHunk
    ensures Read(p, PrintChange(c), r) == p.(summary := Combine(p.summary, TallyOne(c, p.path, r)))
  {
    var line := PrintChange(c);
    assert line[1..] == c.text;
    if c.Added? || c.Deleted? {
      NotAHeader(line);
    } else {
      ReadNeutral(p, line, r);
      assert Combine(p.summary, NOTHING) == p.summary;
    }
  }

  lemma {:induction false} ReadChanges(p: Reader, cs: seq<Change>, r: Rules)
    requires p.inHunk
    ensures ReadAll(p, PrintChanges(cs), r) == p.(summary := Combine(p.summary, Tally(cs, p.path, r)))
    decreases |cs|
  {
    if cs == [] {
      assert Combine(p.summary, NOTHING) == p.summary;
    } else {
      var q := Read(p, PrintChange(cs[0]), r);
      ReadChange(p, cs[0], r);
      ReadChanges(q, cs[1..], r);
      assert PrintChanges(cs)[1..] == PrintChanges(cs[1..]);
      CombineAssociates(p.summary, TallyOne(cs[0], p.path, r), Tally(cs[1..], p.path, r));
    }
  }

  lemma ReadHunk(p: Reader, h: Hunk, r: Rules)
    ensures ReadAll(p, PrintHunk(h), r) ==
            p.(inHunk := true, summary := Combine(p.summary, Tally(h.changes, p.path, r)))
  {
    var line := HUNK + h.range;
    assert line[0] != SECTION[0] && HUNK <= line;
    assert PrintHunk(h)[1..] == PrintChanges(h.changes);
    ReadChanges(p.(inHunk := true), h.changes, r);
  }

  lemma {:induction false} ReadHunks(p: Reader, hs: seq<Hunk>, r: Rules)
    ensures ReadAll(p, PrintHunks(hs), r) ==
            p.(inHunk := p.inHunk || hs != [], summary := Combine(p.summary, Tally(Changes(hs), p.path, r)))
    decreases |hs|
  {
    if hs == [] {
      assert Combine(p.summary, NOTHING) == p.summary;
    } else {
      var q := ReadAll(p, PrintHunk(hs[0]), r);
      ReadHunk(p, hs[0], r);
      ReadAllConcat(p, PrintHunk(hs[0]), PrintHunks(hs[1..]), r);
      ReadHunks(q, hs[1..], r);
      TallyConcat(hs[0].changes, Changes(hs[1..]), p.path, r);
      CombineAssociates(p.summary, Tally(hs[0].changes, p.path, r), Tally(Changes(hs[1..]), p.path, r));
    }
  }

  lemma {:induction false} ReadExtra(p: Reader, extra: seq<string>, r: Rules)
    requires !p.inHunk && forall i :: 0 <= i < |extra| ==> IsExtra(extra[i])
    ensures ReadAll(p, extra, r) == p
    decreases |extra|
  {
    if extra != [] {
      assert TARGET[0] == '+' && ORIGIN[0] == '-';
      ReadExtra(p, extra[1..], r);
    }
  }

  lemma ReadFiles(p: Reader, files: Option<Sides>, r: Rules)
    requires !p.inHunk && p.path.None? && files.Some?
    ensures ReadAll(p, PrintFiles(files), r) == p.(path := NormalizePath(PrintPath("b/", files.value.target)))
  {
    var origin, target := ORIGIN + PrintPath("a/", files.value.origin), TARGET + PrintPath("b/", files.value.target);
    assert origin[0] == '-' && target[0] == '+' && ORIGIN <= origin && TARGET <= target;
    assert target[|TARGET|..] == PrintPath("b/", files.value.target);
    assert ReadAll(p, [origin, target], r) == ReadAll(Read(p, origin, r), [target], r);
    assert ReadAll(p, [target], r) == ReadAll(Read(p, target, r), [], r);
  }

  /** The path that git prints for a file is recovered just when it does not end in white space. */
  lemma TargetPathIff(path: string)
    ensures NormalizePath("b/" + path) == Some(path) <==> EndsVisibly(path)
  {
    var t := "b/" + path;
    assert t[0] == 'b' && t[|"b/"|..] == path;
    if EndsVisibly(path) {
      assert Trim(t) == t;
      assert t[0] != NO_FILE[0];
    } else {
      assert TrimStart(t) == t;
      TrimEndCuts(t);
      assert |Trim(t)| < |t|;
    }
  }

  /** Without `b/` in front a leading `a/` goes. */
  lemma OriginPath(path: string)
    requires path != "" && IsTrimmed(path)
    ensures NormalizePath("a/" + path) == Some(path)
  {
    var t := "a/" + path;
    assert t[0] == 'a' && t[|"a/"|..] == path && t[|t| - 1] == path[|path| - 1];
    assert "" + t + "" == t;
    TrimUnique("", t, "");
    assert t[0] != NO_FILE[0];
  }

  /** Any other path stays as it is. */
  lemma PlainPath(path: string)
    requires path != "" && IsTrimmed(path) && path != "/dev/null" && !("a/" <= path) && !("b/" <= path)
    ensures NormalizePath(path) == Some(path)
  {
    assert "" + path + "" == path;
    TrimUnique("", path, "");
  }

  lemma NoTarget()
    ensures NormalizePath(NO_FILE) == None
  {
    assert "" + NO_FILE + "" == NO_FILE;
    TrimUnique("", NO_FILE, "");
  }

  lemma ReadFront(f: Section, r: Rules)
    requires WellFormed(f)
    ensures ReadAll(FRESH, [SECTION + f.header] + f.extra + PrintFiles(f.files), r) == FRESH.(path := TargetPath(f))
  {
    var head := [SECTION + f.header];
    assert SECTION <= SECTION + f.header;
    assert ReadAll(FRESH, head, r) == ReadAll(Read(FRESH, head[0], r), [], r);
    ReadAllConcat(FRESH, head, f.extra, r);
    ReadExtra(FRESH, f.extra, r);
    ReadAllConcat(FRESH, head + f.extra, PrintFiles(f.files), r);
    if f.files.Some? {
      ReadFiles(FRESH, f.files, r);
      if f.files.value.target.Some? {
        TargetPathIff(f.files.value.target.value);
      } else {
        NoTarget();
      }
    }
  }

  lemma ReadSection(f: Section, r: Rules)
    requires WellFormed(f)
    ensures ReadAll(FRESH, PrintSection(f), r).summary == Tally(Changes(f.hunks), TargetPath(f), r)
  {
    var front, p := [SECTION + f.header] + f.extra + PrintFiles(f.files), FRESH.(path := TargetPath(f));
    ReadFront(f, r);
    ReadAllConcat(FRESH, front, PrintHunks(f.hunks), r);
    ReadHunks(p, f.hunks, r);
    CombineNothing(Tally(Changes(f.hunks), p.path, r));
  }

  /** Reading what was printed yields the exact totals, and the fingerprints in order under the right paths. */
  lemma {:induction false} ReadAfterPrint(fs: seq<Section>, r: Rules)
    requires forall i :: 0 <= i < |fs| ==> WellFormed(fs[i])
    ensures ReadAll(FRESH, PrintAll(fs), r).summary == TallyAll(fs, r)
    decreases |fs|
  {
    if fs != [] {
      ReadSection(fs[0], r);
      ReadAfterPrint(fs[1..], r);
      if |fs| > 1 {
        assert SECTION <= SECTION + fs[1].header;
        assert PrintAll(fs[1..])[0] == SECTION + fs[1].header;
      }
      SectionsCompose(PrintSection(fs[0]), PrintAll(fs[1..]), r);
    }
  }

  // ----- totals by kind

  /** A change and the file that it is made in. */
  datatype Placed = Placed(change: Change, path: Option<string>)

  function PlacedIn(cs: seq<Change>, path: Option<string>): seq<Placed> {
    if cs == [] then [] else [Placed(cs[0], path)] + PlacedIn(cs[1..], path)
  }

  /** All changes of a diff, in order. */
  function AllPlaced(fs: seq<Section>): seq<Placed> {
    if fs == [] then []
    else PlacedIn(Changes(fs[0].hunks), if fs[0].files.Some? then fs[0].files.value.target else None) + AllPlaced(fs[1..])
  }

  predicate IsAdded(p: Placed) {
    p.change.Added?
  }

  predicate IsDeleted(p: Placed) {
    p.change.Deleted?
  }

  /** The effective added lines, each as the digests of its path and of its normal form. */
  function Prints(ps: seq<Placed>, r: Rules): seq<Fingerprint> {
    if ps == [] then []
    else
      var p := ps[0];
      (if p.change.Added? && p.path.Some? && Effective(p.change.text, r).Some?
       then [Fingerprint(r.hash("path", p.path.value), r.hash("line", Effective(p.change.text, r).value))] else [])
      + Prints(ps[1..], r)
  }

  ghost predicate Sums(s: Summary, ps: seq<Placed>, r: Rules) {
    s.added == |Filter(ps, IsAdded)| && s.deleted == |Filter(ps, IsDeleted)| && s.prints == Prints(ps, r)
  }

  lemma {:induction false} PrintsAppend(a: seq<Placed>, b: seq<Placed>, r: Rules)
    ensures Prints(a + b, r) == Prints(a, r) + Prints(b, r)
  {
    if a == [] {
      assert a + b == b;
    } else {
      assert (a + b)[1..] == a[1..] + b;
      PrintsAppend(a[1..], b, r);
    }
  }

  lemma SumsAppend(s: Summary, a: seq<Placed>, t: Summary, b: seq<Placed>, r: Rules)
    requires Sums(s, a, r) && Sums(t, b, r)
    ensures Sums(Combine(s, t), a + b, r)
  {
    FilterAppend(a, b, IsAdded);
    FilterAppend(a, b, IsDeleted);
    PrintsAppend(a, b, r);
  }

  lemma OneSums(c: Change, path: Option<string>, r: Rules)
    ensures Sums(TallyOne(c, path, r), [Placed(c, path)], r)
  {
    var one := [Placed(c, path)];
    assert one[1..] == [];
  }

  lemma {:induction false} TallySums(cs: seq<Change>, path: Option<string>, r: Rules)
    ensures Sums(Tally(cs, path, r), PlacedIn(cs, path), r)
  {
    if cs != [] {
      OneSums(cs[0], path, r);
      TallySums(cs[1..], path, r);
      SumsAppend(TallyOne(cs[0], path, r), [Placed(cs[0], path)], Tally(cs[1..], path, r), PlacedIn(cs[1..], path), r);
    }
  }

  lemma {:induction false} TallyAllSums(fs: seq<Section>, r: Rules)
    ensures Sums(TallyAll(fs, r), AllPlaced(fs), r)
  {
    if fs != [] {
      var first, path := Changes(fs[0].hunks), TargetPath(fs[0]);
      TallySums(first, path, r);
      TallyAllSums(fs[1..], r);
      SumsAppend(Tally(first, path, r), PlacedIn(first, path), TallyAll(fs[1..], r), AllPlaced(fs[1..]), r);
    }
  }

  /** Of a printed diff the parser reports as many added and deleted lines as there are, and the effective added ones by path. */
  lemma TotalsAreExact(fs: seq<Section>, r: Rules)
    requires forall i :: 0 <= i < |fs| ==> WellFormed(fs[i])
    ensures var s := ReadAll(FRESH, PrintAll(fs), r).summary;
            && s.added == |Filter(AllPlaced(fs), IsAdded)| && s.deleted == |Filter(AllPlaced(fs), IsDeleted)|
            && s.prints == Prints(AllPlaced(fs), r)
  {
    ReadAfterPrint(fs, r);
    TallyAllSums(fs, r);
  }

  // ----- whole texts

  lemma PrefixIgnoresReturn(prefix: string, line: string)
    requires '\r' !in prefix
    ensures prefix <= Chomp(line) <==> prefix <= line
  {
  }

  lemma {:induction false} TrimStartBeforeSpace(t: string, c: char)
    requires IsSpace(c)
    ensures TrimStart(t + [c]) == if TrimStart(t) == "" then "" else TrimStart(t) + [c]
    decreases |t|
  {
    if t == "" {
      assert (t + [c])[1..] == "";
    } else if IsSpace(t[0]) {
      assert (t + [c])[1..] == t[1..] + [c];
      TrimStartBeforeSpace(t[1..], c);
    }
  }

  lemma TrimBeforeSpace(t: string, c: char)
    requires IsSpace(c)
    ensures Trim(t + [c]) == Trim(t)
  {
    TrimStartBeforeSpace(t, c);
    TrimEndBlank(TrimStart(t), [c]);
  }

  lemma ReturnAtEnd(line: string, k: nat)
    requires k <= |Chomp(line)|
    ensures NormalizePath(line[k..]) == NormalizePath(Chomp(line)[k..])
    ensures Words(line[k..]) == Words(Chomp(line)[k..])
  {
    if Chomp(line) != line {
      assert line[k..] == Chomp(line)[k..] + ['\r'];
      TrimBeforeSpace(Chomp(line)[k..], '\r');
      TrailingSpace(Chomp(line)[k..], '\r');
    }
  }

  /** Carriage returns at line ends change nothing. */
  lemma ReadChomped(p: Reader, line: string, r: Rules)
    ensures Read(p, Chomp(line), r) == Read(p, line, r)
  {
    PrefixIgnoresReturn(SECTION, line);
    PrefixIgnoresReturn(HUNK, line);
    PrefixIgnoresReturn(TARGET, line);
    PrefixIgnoresReturn(ORIGIN, line);
    PrefixIgnoresReturn("+", line);
    PrefixIgnoresReturn("-", line);
    if TARGET <= line {
      ReturnAtEnd(line, |TARGET|);
    }
    if "+" <= line {
      ReturnAtEnd(line, 1);
    }
  }

  /** Reading a text made of lines is reading the lines. */
  lemma {:induction false} ReadText(p: Reader, lines: seq<string>, r: Rules)
    requires forall i :: 0 <= i < |lines| ==> '\n' !in lines[i]
    ensures ReadAll(p, Lines(Unlines(lines)), r) == ReadAll(p, lines, r)
    decreases |lines|
  {
    if lines != [] {
      var line, text := lines[0], Unlines(lines[1..]);
      BeforeJoined(line, '\n', text);
      assert Lines(Unlines(lines)) == [Chomp(line)] + Lines(text);
      assert ([Chomp(line)] + Lines(text))[1..] == Lines(text);
      ReadChomped(p, line, r);
      ReadText(Read(p, line, r), lines[1..], r);
    }
  }

  lemma ReadPrintedText(fs: seq<Section>, r: Rules)
    requires forall i :: 0 <= i < |fs| ==> WellFormed(fs[i])
    requires forall i :: 0 <= i < |PrintAll(fs)| ==> '\n' !in PrintAll(fs)[i]
    ensures ReadAll(FRESH, Lines(Unlines(PrintAll(fs))), r).summary == TallyAll(fs, r)
  {
    ReadText(FRESH, PrintAll(fs), r);
    ReadAfterPrint(fs, r);
  }

  /** The counts do not depend on the digest or on what is alphanumeric. */
  lemma {:induction false} CountsIgnoreRules(p: Reader, q: Reader, lines: seq<string>, r1: Rules, r2: Rules)
    requires p.inHunk == q.inHunk && p.summary.added == q.summary.added && p.summary.deleted == q.summary.deleted
    ensures ReadAll(p, lines, r1).summary.added == ReadAll(q, lines, r2).summary.added
    ensures ReadAll(p, lines, r1).summary.deleted == ReadAll(q, lines, r2).summary.deleted
    decreases |lines|
  {
    if lines != [] {
      CountsIgnoreRules(Read(p, lines[0], r1), Read(q, lines[0], r2), lines[1..], r1, r2);
    }
  }

  /** A path that ends in white space is not recovered. */
  lemma SpaceAtEndOfPath()
    ensures NormalizePath("b/" + "x ") != Some("x ")
  {
    TargetPathIff("x ");
  }
}
