/** Removing the import lines of a generated TypeScript file that nothing uses. */
module Imports {
  import opened Wrappers
  import opened Text
  import opened Scanner
  import opened Seqs

  // ----- the operation

  const IMPORT := "import type {"
  const FROM := "} from "

  /** `parse_imported_type_name`: the one name that a line imports. */
  function ImportedName(line: string): Option<string> {
    var rest := StripPrefix(Trim(line), IMPORT);
    if rest.None? || FindText(rest.value, FROM).None? then None
    else
      var name := Trim(rest.value[..FindText(rest.value, FROM).value]);
      if name == "" || ',' in name || FindText(name, " as ").Some? then None else Some(name)
  }

  /** Whether a line is removed: it imports a name that does not occur in `scope`. */
  predicate IsUnused(line: string, scope: string) {
    ImportedName(line).Some? && FindText(scope, ImportedName(line).value).None?
  }

  function Stays(scope: string): string -> bool {
    (line: string) => !IsUnused(line, scope)
  }

  predicate EndsWithNewline(t: string) {
    t != "" && t[|t| - 1] == '\n'
  }

  /** A text with only some of its lines. */
  function FilterLines(content: string, keep: string -> bool): string {
    Join(Filter(Lines(content), keep), "\n") + if EndsWithNewline(content) then "\n" else ""
  }

  function Pruned(content: string, scope: string): string {
    FilterLines(content, Stays(scope))
  }

  method PruneUnusedTypeImports(content: string, scope: string) returns (rewritten: string)
    ensures rewritten == Pruned(content, scope)
  {
    var all, keep := Lines(content), Stays(scope);
    var lines: seq<string> := [];
    for i := 0 to |all|
      invariant lines == Filter(all[..i], keep)
    {
      FilterSnoc(all, i, keep);
      if keep(all[i]) {
        lines := lines + [all[i]];
      }
    }
    assert all[..|all|] == all;
    rewritten := Join(lines, "\n");
    if EndsWithNewline(content) {
      rewritten := rewritten + "\n";
    }
  }

  lemma FilterSnoc(xs: seq<string>, i: nat, keep: string -> bool)
    requires i < |xs|
    ensures Filter(xs[..i + 1], keep) == Filter(xs[..i], keep) + if keep(xs[i]) then [xs[i]] else []
  {
    assert xs[..i + 1] == xs[..i] + [xs[i]];
    FilterAppend(xs[..i], [xs[i]], keep);
  }

  // ----- texts as rows

  /** The stretches of a text between its newlines, an empty last one included. */
  function Rows(t: string): (rows: seq<string>)
    ensures rows != []
    decreases |t|
  {
    var (head, tail) := SplitOnce(t, '\n');
    if tail.None? then [head] else [head] + Rows(tail.value)
  }

  ghost predicate NoneHolds(ps: seq<string>, ch: char) {
    forall i :: 0 <= i < |ps| ==> ch !in ps[i]
  }

  lemma {:induction false} RowsAreRows(t: string)
    ensures NoneHolds(Rows(t), '\n')
    decreases |t|
  {
    var (head, tail) := SplitOnce(t, '\n');
    if tail.Some? {
      RowsAreRows(tail.value);
    }
  }

  lemma RowsCons(h: string, t: string)
    requires '\n' !in h
    ensures Rows(h + "\n" + t) == [h] + Rows(t)
  {
    BeforeJoined(h, '\n', t);
  }

  lemma RowsLast(h: string)
    requires '\n' !in h
    ensures Rows(h) == [h]
  {
    BeforeAbsent(h, '\n');
  }

  lemma JoinCons(r: string, rs: seq<string>)
    requires rs != []
    ensures Join([r] + rs, "\n") == r + "\n" + Join(rs, "\n")
  {
    assert ([r] + rs)[1..] == rs;
  }

  lemma {:induction false} RowsOfJoin(rs: seq<string>)
    requires rs != [] && NoneHolds(rs, '\n')
    ensures Rows(Join(rs, "\n")) == rs
  {
    assert rs == [rs[0]] + rs[1..];
    if |rs| == 1 {
      RowsLast(rs[0]);
    } else {
      JoinCons(rs[0], rs[1..]);
      RowsOfJoin(rs[1..]);
      RowsCons(rs[0], Join(rs[1..], "\n"));
    }
  }

  lemma {:induction false} JoinOfRows(t: string)
    ensures Join(Rows(t), "\n") == t
    decreases |t|
  {
    var (head, tail) := SplitOnce(t, '\n');
    if tail.Some? {
      JoinOfRows(tail.value);
      JoinCons(head, Rows(tail.value));
    }
  }

  /** The rows of `ts`, each behind a newline. */
  function Behind(ts: seq<string>): string {
    if ts == [] then "" else "\n" + ts[0] + Behind(ts[1..])
  }

  lemma {:induction false} JoinBehind(r: string, ts: seq<string>)
    ensures Join([r] + ts, "\n") == r + Behind(ts)
    decreases |ts|
  {
    if ts != [] {
      JoinCons(r, ts);
      JoinBehind(ts[0], ts[1..]);
      assert ts == [ts[0]] + ts[1..];
    }
  }

  lemma {:induction false} JoinMiddle(ms: seq<string>, ts: seq<string>)
    requires ms != []
    ensures Join(ms + ts, "\n") == Join(ms, "\n") + Behind(ts)
    decreases |ms|
  {
    assert ms == [ms[0]] + ms[1..];
    if |ms| == 1 {
      JoinBehind(ms[0], ts);
    } else {
      JoinCons(ms[0], ms[1..]);
      JoinMiddle(ms[1..], ts);
      JoinCons(ms[0], ms[1..] + ts);
      assert ms + ts == [ms[0]] + (ms[1..] + ts);
    }
  }

  /** Rows joined: the lines before some of them, these, and the lines behind them. */
  lemma {:induction false} JoinAround(hs: seq<string>, ms: seq<string>, ts: seq<string>)
    requires ms != []
    ensures Join(hs + ms + ts, "\n") == Unlines(hs) + Join(ms, "\n") + Behind(ts)
    decreases |hs|
  {
    if hs == [] {
      assert hs + ms + ts == ms + ts;
      JoinMiddle(ms, ts);
    } else {
      JoinAround(hs[1..], ms, ts);
      JoinCons(hs[0], hs[1..] + ms + ts);
      assert hs + ms + ts == [hs[0]] + (hs[1..] + ms + ts);
    }
  }

  function Init(a: string): seq<string> {
    Rows(a)[..|Rows(a)| - 1]
  }

  function LastRow(a: string): string {
    Rows(a)[|Rows(a)| - 1]
  }

  lemma CutLastRow(a: string)
    ensures a == Unlines(Init(a)) + LastRow(a)
    ensures NoneHolds(Init(a), '\n') && '\n' !in LastRow(a)
  {
    JoinOfRows(a);
    RowsAreRows(a);
    assert Rows(a) == Init(a) + [LastRow(a)] + [];
    JoinAround(Init(a), [LastRow(a)], []);
  }

  lemma CutFirstRow(z: string)
    ensures z == Rows(z)[0] + Behind(Rows(z)[1..])
    ensures '\n' !in Rows(z)[0] && NoneHolds(Rows(z)[1..], '\n')
  {
    var rows := Rows(z);
    JoinOfRows(z);
    RowsAreRows(z);
    assert rows == [rows[0]] + rows[1..];
    JoinBehind(rows[0], rows[1..]);
  }

  /** The rows that a stretch `m` of a text shares with what stands around it. */
  function RowsOver(a: string, m: string, z: string): (rows: seq<string>)
    ensures rows != []
  {
    Rows(LastRow(a) + m + Rows(z)[0])
  }

  lemma JoinRowsOver(a: string, m: string, z: string, hs: seq<string>, ts: seq<string>)
    ensures Join(hs + RowsOver(a, m, z) + ts, "\n") == (Unlines(hs) + LastRow(a)) + m + (Rows(z)[0] + Behind(ts))
  {
    var x, y := LastRow(a), Rows(z)[0];
    JoinOfRows(x + m + y);
    JoinAround(hs, RowsOver(a, m, z), ts);
    Regroup(Unlines(hs), x, m, y, Behind(ts));
  }

  lemma Regroup(a: string, b: string, c: string, d: string, e: string)
    ensures a + (b + c + d) + e == (a + b) + c + (d + e)
  {
  }

  lemma RowsAround(a: string, m: string, z: string)
    ensures Rows(a + m + z) == Init(a) + RowsOver(a, m, z) + Rows(z)[1..]
  {
    CutLastRow(a);
    CutFirstRow(z);
    JoinRowsOver(a, m, z, Init(a), Rows(z)[1..]);
    RowsAreRows(LastRow(a) + m + Rows(z)[0]);
    RowsOfJoin(Init(a) + RowsOver(a, m, z) + Rows(z)[1..]);
  }

  // ----- filtering lines is filtering rows

  predicate NoReturn(row: string) {
    row == "" || row[|row| - 1] != '\r'
  }

  /** No line of the text ends in a carriage return. */
  predicate UnixLines(t: string) {
    AllButLast(Rows(t), NoReturn)
  }

  /** In such a text the lines are the rows, but for an empty last one. */
  lemma {:induction false} LinesAreRows(t: string)
    requires UnixLines(t)
    ensures Lines(t) == if LastRow(t) == "" then Init(t) else Rows(t)
    decreases |t|
  {
    var (head, tail) := SplitOnce(t, '\n');
    if tail.Some? {
      var rows := Rows(tail.value);
      assert ([head] + rows)[1..] == rows;
      LinesAreRows(tail.value);
      assert Init(t) == [head] + Init(tail.value);
    }
  }

  lemma {:induction false} NewlineAtEnd(t: string)
    ensures EndsWithNewline(t) <==> |Rows(t)| > 1 && LastRow(t) == ""
    decreases |t|
  {
    var (head, tail) := SplitOnce(t, '\n');
    if tail.Some? {
      assert t == head + "\n" + tail.value;
      NewlineAtEnd(tail.value);
    }
  }

  lemma FilterLast(init: seq<string>, x: string, keep: string -> bool)
    requires keep(x)
    ensures Filter(init + [x], keep) == Filter(init, keep) + [x]
  {
    FilterAppend(init, [x], keep);
  }

  lemma FilterWithEmpty(init: seq<string>, keep: string -> bool, row: string)
    requires keep("") && row in init && keep(row)
    ensures Join(Filter(init + [""], keep), "\n") == Join(Filter(init, keep), "\n") + "\n"
  {
    FilterLast(init, "", keep);
    JoinEmpty(Filter(init, keep));
  }

  lemma JoinEmpty(rs: seq<string>)
    requires rs != []
    ensures Join(rs + [""], "\n") == Join(rs, "\n") + "\n"
  {
    JoinMiddle(rs, [""]);
    assert Behind([""]) == "\n";
  }

  /** Filtering the lines of such a text filters its rows, unless no line is left. */
  lemma FilterLinesRows(t: string, keep: string -> bool, row: string)
    requires UnixLines(t) && keep("") && row in Rows(t) && row != "" && keep(row)
    ensures FilterLines(t, keep) == Join(Filter(Rows(t), keep), "\n")
  {
    LinesAreRows(t);
    NewlineAtEnd(t);
    if LastRow(t) == "" {
      assert Rows(t) == Init(t) + [""];
      FilterWithEmpty(Init(t), keep, row);
    }
  }

  lemma {:induction false} FilterHoldsNoNewCharacter(ps: seq<string>, keep: string -> bool, ch: char)
    requires NoneHolds(ps, ch)
    ensures NoneHolds(Filter(ps, keep), ch)
  {
    if ps != [] {
      FilterHoldsNoNewCharacter(ps[1..], keep, ch);
    }
  }

  /** A second time changes nothing. */
  lemma FilterLinesTwice(t: string, keep: string -> bool, row: string)
    requires UnixLines(t) && keep("") && row in Rows(t) && row != "" && keep(row)
    ensures FilterLines(FilterLines(t, keep), keep) == FilterLines(t, keep)
  {
    FilterLinesRows(t, keep, row);
    RowsAreRows(t);
    FilterHoldsNoNewCharacter(Rows(t), keep, '\n');
    RowsOfJoin(Filter(Rows(t), keep));
    FilterKeepsAllButLast(Rows(t), keep, NoReturn);
    FilterLinesRows(FilterLines(t, keep), keep, row);
    FilterTwice(Rows(t), keep);
  }

  // ----- pruning around a stretch of a text

  /** What is left of the text before and behind a stretch whose rows stay. */
  function KeptBefore(a: string, keep: string -> bool): string {
    Unlines(Filter(Init(a), keep)) + LastRow(a)
  }

  function KeptBehind(z: string, keep: string -> bool): string {
    Rows(z)[0] + Behind(Filter(Rows(z)[1..], keep))
  }

  ghost predicate All(rows: seq<string>, keep: string -> bool) {
    forall i :: 0 <= i < |rows| ==> keep(rows[i])
  }

  lemma NonEmptyRow(x: string, m: string, y: string)
    requires x != "" && '\n' !in x
    ensures Rows(x + m + y)[0] != ""
  {
    assert (x + m + y)[0] == x[0] && x[0] in x;
  }

  lemma FirstRowOver(a: string, m: string, z: string)
    requires LastRow(a) != ""
    ensures RowsOver(a, m, z)[0] != "" && RowsOver(a, m, z)[0] in Rows(a + m + z)
  {
    RowsAround(a, m, z);
    RowInMiddle(Init(a), RowsOver(a, m, z), Rows(z)[1..]);
    RowsAreRows(a);
    NonEmptyRow(LastRow(a), m, Rows(z)[0]);
  }

  lemma RowInMiddle(hs: seq<string>, ms: seq<string>, ts: seq<string>)
    requires ms != []
    ensures ms[0] in hs + ms + ts
  {
    assert (hs + ms + ts)[|hs|] == ms[0];
  }

  lemma FilterRowsAround(a: string, m: string, z: string, keep: string -> bool)
    requires All(RowsOver(a, m, z), keep)
    ensures Filter(Rows(a + m + z), keep) ==
            Filter(Init(a), keep) + RowsOver(a, m, z) + Filter(Rows(z)[1..], keep)
  {
    var hs, ms, ts := Init(a), RowsOver(a, m, z), Rows(z)[1..];
    RowsAround(a, m, z);
    FilterAppend(hs + ms, ts, keep);
    FilterAppend(hs, ms, keep);
    FilterAll(ms, keep);
  }

  lemma FilterLinesAround(a: string, m: string, z: string, keep: string -> bool)
    requires UnixLines(a + m + z) && keep("") && All(RowsOver(a, m, z), keep) && LastRow(a) != ""
    ensures FilterLines(a + m + z, keep) == KeptBefore(a, keep) + m + KeptBehind(z, keep)
    ensures FilterLines(FilterLines(a + m + z, keep), keep) == FilterLines(a + m + z, keep)
  {
    FirstRowOver(a, m, z);
    FilterLinesRows(a + m + z, keep, RowsOver(a, m, z)[0]);
    FilterLinesTwice(a + m + z, keep, RowsOver(a, m, z)[0]);
    FilterRowsAround(a, m, z, keep);
    JoinRowsOver(a, m, z, Filter(Init(a), keep), Filter(Rows(z)[1..], keep));
  }

  lemma {:induction false} RowsHoldNoNewCharacter(t: string, ch: char)
    requires ch !in t
    ensures NoneHolds(Rows(t), ch)
    decreases |t|
  {
    var (head, tail) := SplitOnce(t, '\n');
    if tail.Some? {
      RowsHoldNoNewCharacter(tail.value, ch);
    }
  }

  lemma {:induction false} LinesHoldNoNewCharacter(rs: seq<string>, ch: char)
    requires NoneHolds(rs, ch) && ch != '\n'
    ensures ch !in Unlines(rs) && ch !in Behind(rs)
  {
    if rs != [] {
      LinesHoldNoNewCharacter(rs[1..], ch);
    }
  }

  /** What is left around a stretch holds no new character. */
  lemma KeptHoldsNoNewCharacter(t: string, keep: string -> bool, ch: char)
    requires ch !in t && ch != '\n'
    ensures ch !in KeptBefore(t, keep) && ch !in KeptBehind(t, keep)
  {
    RowsHoldNoNewCharacter(t, ch);
    FilterHoldsNoNewCharacter(Init(t), keep, ch);
    FilterHoldsNoNewCharacter(Rows(t)[1..], keep, ch);
    LinesHoldNoNewCharacter(Filter(Init(t), keep), ch);
    LinesHoldNoNewCharacter(Filter(Rows(t)[1..], keep), ch);
  }

  lemma RowsConcat(a: string, z: string)
    ensures Rows(a + z) == Init(a) + [LastRow(a) + Rows(z)[0]] + Rows(z)[1..]
  {
    RowsAround(a, "", z);
    RowsAreRows(a);
    RowsAreRows(z);
    NoMiddle(a, z);
    NoMiddle(LastRow(a), Rows(z)[0]);
    RowsLast(LastRow(a) + Rows(z)[0]);
  }

  lemma NoMiddle(a: string, z: string)
    ensures a + "" + z == a + z
  {
  }

  lemma KeptBeforeSnoc(u: string, tail: string, keep: string -> bool)
    requires '\n' !in tail
    ensures KeptBefore(u + tail, keep) == KeptBefore(u, keep) + tail
    ensures LastRow(u + tail) == LastRow(u) + tail
  {
    RowsLast(tail);
    RowsConcat(u, tail);
    assert Init(u + tail) == Init(u);
  }

  lemma KeptBehindCons(ch: char, v: string, keep: string -> bool)
    requires ch != '\n'
    ensures KeptBehind([ch] + v, keep) == [ch] + KeptBehind(v, keep)
  {
    RowsLast([ch]);
    RowsConcat([ch], v);
    assert Rows([ch] + v) == [[ch] + Rows(v)[0]] + Rows(v)[1..];
  }

  // ----- lines inside the scope

  lemma RowWithin(t: string, i: nat)
    requires i < |Rows(t)|
    ensures t == Unlines(Rows(t)[..i]) + Rows(t)[i] + Behind(Rows(t)[i + 1..])
  {
    JoinOfRows(t);
    assert Rows(t) == Rows(t)[..i] + [Rows(t)[i]] + Rows(t)[i + 1..];
    JoinAround(Rows(t)[..i], [Rows(t)[i]], Rows(t)[i + 1..]);
  }

  lemma NameWithin(line: string) returns (a: string, z: string)
    requires ImportedName(line).Some?
    ensures line == a + ImportedName(line).value + z
  {
    var t := Trim(line);
    var before, after := TrimParts(line);
    var rest := t[|IMPORT|..];
    var k := FindText(rest, FROM).value;
    var b, e := TrimParts(rest[..k]);
    a, z := before + t[..|IMPORT|] + b, e + rest[k..] + after;
    Unwrap(line, before, t, after, |IMPORT|, k, b, Trim(rest[..k]), e);
  }

  lemma Unwrap(line: string, before: string, t: string, after: string, n: nat, k: nat, b: string, name: string, e: string)
    requires line == before + t + after && n <= |t| && k <= |t| - n && t[n..][..k] == b + name + e
    ensures line == (before + t[..n] + b) + name + (e + t[n..][k..] + after)
  {
    assert t == t[..n] + (t[n..][..k] + t[n..][k..]);
  }

  /** A line that stands in the scope is not removed: the name it imports occurs there. */
  lemma StaysInScope(line: string, a: string, z: string)
    ensures !IsUnused(line, a + line + z)
  {
    if ImportedName(line).Some? {
      var b, e := NameWithin(line);
      var name := ImportedName(line).value;
      assert a + line + z == (a + b) + name + (e + z);
      FindTextInside(a + b, name, e + z);
    }
  }

  /** The rows strictly inside a stretch are rows of it. */
  lemma RowsInside(x: string, m: string, y: string, i: nat)
    requires '\n' !in x && '\n' !in y && 0 < i < |Rows(x + m + y)| - 1
    ensures i < |Rows(m)| && Rows(x + m + y)[i] == Rows(m)[i]
  {
    RowsBefore(x, m + y);
    RowsBehind(m, y);
    assert x + m + y == x + (m + y);
  }

  lemma RowsBefore(x: string, t: string)
    requires '\n' !in x
    ensures Rows(x + t) == [x + Rows(t)[0]] + Rows(t)[1..]
  {
    RowsLast(x);
    RowsConcat(x, t);
  }

  lemma RowsBehind(t: string, y: string)
    requires '\n' !in y
    ensures Rows(t + y) == Init(t) + [LastRow(t) + y]
  {
    RowsLast(y);
    RowsConcat(t, y);
  }

  /** If the scope is the stretch, only its first and last rows can be removed. */
  lemma EdgeRowsSuffice(a: string, m: string, z: string)
    requires Stays(m)(RowsOver(a, m, z)[0]) && Stays(m)(RowsOver(a, m, z)[|RowsOver(a, m, z)| - 1])
    ensures All(RowsOver(a, m, z), Stays(m))
  {
    var rows := RowsOver(a, m, z);
    RowsAreRows(a);
    RowsAreRows(z);
    forall i | 0 <= i < |rows|
      ensures Stays(m)(rows[i])
    {
      if 0 < i < |rows| - 1 {
        RowsInside(LastRow(a), m, Rows(z)[0], i);
        RowWithin(m, i);
        StaysInScope(rows[i], Unlines(Rows(m)[..i]), Behind(Rows(m)[i + 1..]));
      }
    }
  }

  lemma EmptyStays(scope: string)
    ensures Stays(scope)("")
  {
  }

  // ----- carriage returns

  /** No carriage return stands before a newline. */
  ghost predicate NoCrlf(t: string) {
    forall i :: 0 <= i < |t| - 1 && t[i] == '\r' ==> t[i + 1] != '\n'
  }

  lemma {:induction false} NoCrlfIsUnixLines(t: string)
    ensures NoCrlf(t) <==> UnixLines(t)
    decreases |t|
  {
    var (head, tail) := SplitOnce(t, '\n');
    if tail.Some? {
      assert t == head + "\n" + tail.value;
      NoCrlfIsUnixLines(tail.value);
      NoCrlfOfLine(head, tail.value);
      assert ([head] + Rows(tail.value))[1..] == Rows(tail.value);
    }
  }

  lemma NoCrlfOfLine(h: string, rest: string)
    requires '\n' !in h
    ensures NoCrlf(h + "\n" + rest) <==> NoReturn(h) && NoCrlf(rest)
  {
    var t := h + "\n" + rest;
    assert forall i :: 0 <= i < |rest| ==> rest[i] == t[|h| + 1 + i];
    if NoCrlf(t) {
      assert h != "" ==> t[|h| - 1] == h[|h| - 1] && t[|h|] == '\n';
    }
  }

  lemma NoCrlfConcat(a: string, b: string)
    requires NoCrlf(a) && NoCrlf(b) && (NoReturn(a) || b == "" || b[0] != '\n')
    ensures NoCrlf(a + b)
  {
  }

  lemma NoCrlfInside(a: string, m: string, z: string)
    requires NoCrlf(a + m + z)
    ensures NoCrlf(a) && NoCrlf(m) && NoCrlf(z)
  {
    var t := a + m + z;
    assert forall i :: 0 <= i < |a| ==> a[i] == t[i];
    assert forall i :: 0 <= i < |m| ==> m[i] == t[|a| + i];
    assert forall i :: 0 <= i < |z| ==> z[i] == t[|a| + |m| + i];
  }
}
