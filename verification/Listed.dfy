/** Which arms and fields of a written file the two filters leave, told from how the file is written. */
module Listed {
  import opened Wrappers
  import opened Text
  import opened Scanner
  import opened Seqs
  import opened Split
  import opened Braces
  import opened Imports
  import opened TypeFiles
  import opened Filters
  import opened Properties

  /** An arm or a field as it is written, and the name in it that decides whether it stays. */
  datatype Entry = Entry(text: string, name: Option<string>)

  function Texts(entries: seq<Entry>): seq<string> {
    if entries == [] then [] else [entries[0].text] + Texts(entries[1..])
  }

  /** The entries without a listed name, in their order. */
  function Unlisted(entries: seq<Entry>, names: set<string>): seq<Entry> {
    if entries == [] then []
    else if entries[0].name.Some? && entries[0].name.value in names then Unlisted(entries[1..], names)
    else [entries[0]] + Unlisted(entries[1..], names)
  }

  /** A filter keeps an entry exactly if its name is not listed. */
  ghost predicate Decides(keep: string -> bool, names: set<string>, e: Entry) {
    keep(e.text) <==> e.name.None? || e.name.value !in names
  }

  lemma {:induction false} KeptTexts(entries: seq<Entry>, keep: string -> bool, names: set<string>)
    requires forall i :: 0 <= i < |entries| ==> Decides(keep, names, entries[i])
    ensures Filter(Texts(entries), keep) == Texts(Unlisted(entries, names))
  {
    if entries != [] {
      var rest := entries[1..];
      assert Decides(keep, names, entries[0]);
      forall i | 0 <= i < |rest|
        ensures Decides(keep, names, rest[i])
      {
        assert rest[i] == entries[i + 1];
      }
      KeptTexts(rest, keep, names);
      var texts := Texts(entries);
      assert texts[0] == entries[0].text && texts[1..] == Texts(rest);
      if entries[0].name.Some? && entries[0].name.value in names {
        assert [] + Texts(Unlisted(rest, names)) == Texts(Unlisted(rest, names));
      } else {
        assert ([entries[0]] + Unlisted(rest, names))[1..] == Unlisted(rest, names);
      }
    }
  }

  /** Parts that end at the top level. */
  ghost predicate Separable(entries: seq<Entry>, delims: set<char>) {
    forall i :: 0 <= i < |entries| ==> IsPart(entries[i].text, delims) && EndsClosed(entries[i].text)
  }

  lemma {:induction false} TextsAreParts(entries: seq<Entry>, delims: set<char>)
    requires Separable(entries, delims)
    ensures AreParts(Texts(entries), delims) && AllButLast(Texts(entries), EndsClosed)
  {
    if entries != [] {
      var rest := entries[1..];
      forall i | 0 <= i < |rest|
        ensures IsPart(rest[i].text, delims) && EndsClosed(rest[i].text)
      {
        assert rest[i] == entries[i + 1];
      }
      TextsAreParts(rest, delims);
      assert Texts(entries)[1..] == Texts(rest);
    }
  }

  lemma {:induction false} UnlistedIsSeparable(entries: seq<Entry>, names: set<string>, delims: set<char>)
    requires Separable(entries, delims)
    ensures Separable(Unlisted(entries, names), delims)
  {
    if entries != [] {
      var rest := entries[1..];
      forall i | 0 <= i < |rest|
        ensures IsPart(rest[i].text, delims) && EndsClosed(rest[i].text)
      {
        assert rest[i] == entries[i + 1];
      }
      UnlistedIsSeparable(rest, names, delims);
    }
  }

  /** A body of written entries, blanks before it or not: what the filter puts in its place, and what that consists of. */
  lemma BodyWithoutListed(blank: string, entries: seq<Entry>, body: string, delims: set<char>, sep: Separator,
                          keep: string -> bool, names: set<string>)
    requires sep.Fits(delims) && Blank(blank) && Separable(entries, delims) && body == blank + Join(Texts(entries), sep.Text())
    requires forall i :: 0 <= i < |entries| ==> Decides(keep, names, entries[i])
    ensures Filtered(body, delims, sep, keep) == Join(Texts(Unlisted(entries, names)), sep.Text())
    ensures Parts(Filtered(body, delims, sep, keep), delims) == Texts(Unlisted(entries, names))
  {
    TextsAreParts(entries, delims);
    SplitOfJoin(Texts(entries), sep, delims);
    SplitSkipsBlank(START, blank, Join(Texts(entries), sep.Text()), delims);
    KeptTexts(entries, keep, names);
    UnlistedIsSeparable(entries, names, delims);
    TextsAreParts(Unlisted(entries, names), delims);
    SplitOfJoin(Texts(Unlisted(entries, names)), sep, delims);
  }

  // ----- arms

  /** An arm written as an object of fields, the first one called `method` at `k`. */
  ghost predicate IsRequest(fields: seq<string>, k: nat, name: string, text: string) {
    && AreParts(fields, {','}) && AllButLast(fields, EndsClosed)
    && k < |fields| && fields[k] == "\"method\": \"" + name + "\"" && '"' !in name && '\\' !in name
    && (forall i :: 0 <= i < k ==> OtherField(fields[i]))
    && Enclosed(Join(fields, ", ")) && text == "{" + Join(fields, ", ") + "}"
  }

  /** An arm as it is written: an object with a method, or a text without braces. */
  ghost predicate IsArm(e: Entry) {
    match e.name
    case None => '{' !in e.text
    case Some(name) => exists fields, k :: IsRequest(fields, k, name, e.text)
  }

  lemma RequestNames(fields: seq<string>, k: nat, name: string, text: string)
    requires IsRequest(fields, k, name, text)
    ensures MethodOf(text) == Some(name)
  {
    assert FIELDS.Text() == ", " && COMMA == {','};
    assert MethodField(name) == "\"method\": \"" + name + "\"";
    MethodOfArm(fields, k, name, Join(fields, ", "));
  }

  lemma NamedArmStaysIff(text: string, name: string, methods: set<string>)
    requires MethodOf(text) == Some(name)
    ensures KeepArm(methods)(text) <==> name == "" || name !in methods
  {
  }

  /** An arm stays exactly if it has no method, an empty one, or one that is not listed. */
  lemma ArmStaysIff(e: Entry, methods: set<string>)
    requires IsArm(e)
    ensures KeepArm(methods)(e.text) <==> e.name.None? || e.name.value == "" || e.name.value !in methods
  {
    match e.name
    case None => NoBraceNoMethod(e.text);
    case Some(name) =>
      var fields, k :| IsRequest(fields, k, name, e.text);
      RequestNames(fields, k, name, e.text);
      NamedArmStaysIff(e.text, name, methods);
  }

  lemma ArmsAreDecided(arms: seq<Entry>, methods: set<string>)
    requires forall i :: 0 <= i < |arms| ==> IsArm(arms[i])
    ensures forall i :: 0 <= i < |arms| ==> Decides(KeepArm(methods), methods - {""}, arms[i])
  {
    forall i | 0 <= i < |arms|
      ensures Decides(KeepArm(methods), methods - {""}, arms[i])
    {
      ArmStaysIff(arms[i], methods);
    }
  }

  /**
   * The arm filter on a written file: the arms with a listed method go, the others stay in their order, and nothing
   * else changes but for the imports that are no longer used.
   */
  lemma ListedArmsGo(u: string, blank: string, arms: seq<Entry>, v: string, methods: set<string>, content: string, rest: string)
    requires '=' !in u && ';' !in v && Blank(blank) && Separable(arms, {'|'}) && forall i :: 0 <= i < |arms| ==> IsArm(arms[i])
    requires content == u + "=" + (blank + Join(Texts(arms), " | ")) + (";" + v)
    requires rest == Join(Texts(Unlisted(arms, methods - {""})), " | ")
    ensures FilterArms(content, KeepArm(methods)) == Pruned(u + "=" + rest + (";" + v), rest)
    ensures Parts(rest, {'|'}) == Texts(Unlisted(arms, methods - {""}))
  {
    var body := blank + Join(Texts(arms), " | ");
    assert ARMS.Text() == " | " && ARM_DELIMS == {'|'};
    ArmsAreDecided(arms, methods);
    BodyWithoutListed(blank, arms, body, ARM_DELIMS, ARMS, KeepArm(methods), methods - {""});
    AliasOf(u, body, v, content);
    AliasOf(u, rest, v, u + "=" + rest + (";" + v));
  }

  // ----- fields

  /** Text in front of the first end of a comment. */
  predicate IsComment(c: string) {
    forall i :: 0 <= i < |c| ==> !("*/" <= (c + "*/")[i..])
  }

  lemma {:induction false} CommentEnds(c: string, behind: string, t: string)
    requires IsComment(c) && t == c + "*/" + behind
    ensures FindText(t, "*/") == Some(|c|)
    decreases |c|
  {
    if c == "" {
      assert t == "*/" + behind;
    } else {
      assert !("*/" <= (c + "*/")[0..]);
      assert (c + "*/")[0] == t[0] && (c + "*/")[1] == t[1];
      assert t[1..] == c[1..] + "*/" + behind;
      forall i | 0 <= i < |c[1..]|
        ensures !("*/" <= (c[1..] + "*/")[i..])
      {
        assert (c[1..] + "*/")[i..] == (c + "*/")[i + 1..];
      }
      CommentEnds(c[1..], behind, t[1..]);
    }
  }

  /** A comment in front of a field is passed over. */
  lemma CommentIsPassed(c: string, behind: string, t: string)
    requires IsComment(c) && t == "/*" + (c + "*/" + behind)
    ensures WithoutComments(t) == WithoutComments(behind)
  {
    VisibleStart(t);
    assert t[2..] == c + "*/" + behind;
    CommentEnds(c, behind, t[2..]);
    assert t[2..][|c| + 2..] == behind;
  }

  /** A letter, a digit or an underscore. */
  predicate IsWordChar(c: char) {
    'a' <= c <= 'z' || 'A' <= c <= 'Z' || '0' <= c <= '9' || c == '_'
  }

  /** A field with its name, a question mark behind it or not, and its type. */
  ghost predicate IsNamed(name: string, optional: bool, value: string, field: string) {
    && name != "" && (forall i :: 0 <= i < |name| ==> IsWordChar(name[i]))
    && field == name + (if optional then "?" else "") + ":" + value
  }

  /** A field as it is written: alone, or behind a comment and blanks. */
  ghost predicate IsField(name: string, text: string) {
    || (exists optional, value :: IsNamed(name, optional, value, text))
    || (exists c, blank, optional, value, field :: IsCommented(c, blank, name, optional, value, field, text))
  }

  ghost predicate IsCommented(c: string, blank: string, name: string, optional: bool, value: string, field: string, text: string) {
    IsComment(c) && Blank(blank) && IsNamed(name, optional, value, field) && text == "/*" + (c + "*/" + (blank + field))
  }

  lemma NamedIsRead(name: string, optional: bool, value: string, field: string)
    requires IsNamed(name, optional, value, field)
    ensures WithoutComments(field) == field && PropertyName(field) == Some(name) && TrimStart(field) == field
  {
    NameOfField(name, optional, value);
    assert field[0] == name[0] && IsIdentChar(field[0]);
    VisibleStart(field);
  }

  lemma BlankIsPassed(blank: string, field: string)
    requires Blank(blank)
    ensures WithoutComments(blank + field) == WithoutComments(field)
  {
    TrimStartBlank(blank, field);
  }

  lemma FieldIsRead(name: string, text: string)
    requires IsField(name, text)
    ensures PropertyName(WithoutComments(text)) == Some(name)
  {
    if optional, value :| IsNamed(name, optional, value, text) {
      NamedIsRead(name, optional, value, text);
    } else {
      var c, blank, optional, value, field :| IsCommented(c, blank, name, optional, value, field, text);
      CommentIsPassed(c, blank + field, text);
      BlankIsPassed(blank, field);
      NamedIsRead(name, optional, value, field);
    }
  }

  /** A field stays exactly if its name is not listed. */
  lemma FieldStaysIff(name: string, text: string, names: set<string>)
    requires IsField(name, text)
    ensures KeepField(names)(text) <==> name !in names
  {
    FieldIsRead(name, text);
  }

  ghost predicate AreFields(fields: seq<Entry>) {
    forall i :: 0 <= i < |fields| ==> fields[i].name.Some? && IsField(fields[i].name.value, fields[i].text)
  }

  lemma FieldsAreDecided(fields: seq<Entry>, names: set<string>)
    requires AreFields(fields)
    ensures forall i :: 0 <= i < |fields| ==> Decides(KeepField(names), names, fields[i])
  {
    forall i | 0 <= i < |fields|
      ensures Decides(KeepField(names), names, fields[i])
    {
      FieldStaysIff(fields[i].name.value, fields[i].text, names);
    }
  }

  lemma BodyWithoutFields(blank: string, fields: seq<Entry>, body: string, names: set<string>, rest: string)
    requires Blank(blank) && Separable(fields, {',', ';'}) && AreFields(fields) && body == blank + Join(Texts(fields), ", ")
    requires rest == Join(Texts(Unlisted(fields, names)), ", ")
    ensures Filtered(body, FIELD_DELIMS, FIELDS, KeepField(names)) == rest && Parts(rest, {',', ';'}) == Texts(Unlisted(fields, names))
  {
    assert FIELDS.Text() == ", " && FIELD_DELIMS == {',', ';'};
    FieldsAreDecided(fields, names);
    FieldsFit();
    BodyWithoutListed(blank, fields, body, FIELD_DELIMS, FIELDS, KeepField(names), names);
  }

  /**
   * The field filter on a written type body: the fields with a listed name go, the others stay in their order, and
   * nothing else changes but for the imports that are no longer used.
   */
  lemma ListedFieldsGo(head: string, text: string, o: nat, c: nat, blank: string, fields: seq<Entry>, names: set<string>, rest: string)
    requires IsTypeBody(head, text, o, c) && text[o + 1..c] == blank + Join(Texts(fields), ", ")
    requires Blank(blank) && Separable(fields, {',', ';'}) && AreFields(fields)
    requires rest == Join(Texts(Unlisted(fields, names)), ", ")
    ensures var next := head + (text[..o + 1] + rest + text[c..]);
            FilterFields(head + text, KeepField(names)) == Pruned(next, Scope(next, rest))
    ensures Parts(rest, {',', ';'}) == Texts(Unlisted(fields, names))
  {
    BodyWithoutFields(blank, fields, text[o + 1..c], names, rest);
    FilterFieldsIs(head, text, o, c, KeepField(names));
  }

  // ----- imports

  ghost predicate Contains(m: string, t: string) {
    exists i :: 0 <= i <= |t| && m <= t[i..]
  }

  lemma {:induction false} FoundIff(t: string, m: string)
    ensures FindText(t, m).Some? <==> Contains(m, t)
    decreases |t|
  {
    assert t[0..] == t;
    if FindText(t, m).Some? {
      assert m <= t[FindText(t, m).value..];
    } else if Contains(m, t) {
      var i :| 0 <= i <= |t| && m <= t[i..];
      assert i > 0 && t[1..][i - 1..] == t[i..];
      FoundIff(t[1..], m);
    }
  }

  /** A line that imports `name`, which can be several names or a renaming. */
  ghost predicate IsImport(line: string, before: string, name: string, tail: string, after: string) {
    && Blank(before) && Blank(after) && name != "" && IsTrimmed(name) && '}' !in name
    && tail != "" && !IsSpace(tail[|tail| - 1])
    && exists a, b :: Blank(a) && Blank(b) && line == before + Imported(a + name + b, tail) + after
  }

  function Imported(names: string, tail: string): string {
    "import type {" + names + "} from " + tail
  }

  lemma ImportedParts(names: string, tail: string)
    requires '}' !in names
    ensures StripPrefix(Imported(names, tail), IMPORT) == Some(names + "} from " + tail)
    ensures FindText(names + "} from " + tail, FROM) == Some(|names|) && (names + "} from " + tail)[..|names|] == names
  {
    var line := Imported(names, tail);
    assert IMPORT == "import type {" && FROM == "} from ";
    assert line == IMPORT + (names + "} from " + tail);
    FindTextAfter(names, FROM, tail);
  }

  lemma BlankHasNoBrace(a: string, name: string, b: string)
    requires Blank(a) && Blank(b) && '}' !in name
    ensures '}' !in a + name + b
  {
  }

  lemma ImportedIsTrimmed(names: string, tail: string)
    requires tail != "" && !IsSpace(tail[|tail| - 1])
    ensures Imported(names, tail) != "" && IsTrimmed(Imported(names, tail))
  {
    var line := Imported(names, tail);
    assert line[0] == 'i' && line[|line| - 1] == tail[|tail| - 1];
  }

  /** An import line goes exactly if it imports one name, not renamed, that does not occur in the scope. */
  lemma ImportGoesIff(line: string, before: string, name: string, tail: string, after: string, scope: string)
    requires IsImport(line, before, name, tail, after)
    ensures IsUnused(line, scope) <==> ',' !in name && !Contains(" as ", name) && !Contains(name, scope)
  {
    var a, b :| Blank(a) && Blank(b) && line == before + Imported(a + name + b, tail) + after;
    var names := a + name + b;
    ImportedIsTrimmed(names, tail);
    TrimUnique(before, Imported(names, tail), after);
    BlankHasNoBrace(a, name, b);
    ImportedParts(names, tail);
    TrimUnique(a, name, b);
    FoundIff(name, " as ");
    FoundIff(scope, name);
  }

  /** Any line that does not begin so stays. */
  lemma OtherLinesStay(line: string, scope: string)
    requires !("import type {" <= Trim(line))
    ensures !IsUnused(line, scope)
  {
  }

  // ----- where the type body is looked for

  lemma {:induction false} FirstFound(u: string, m: string, v: string, t: string)
    requires t == u + m + v && forall i :: 0 <= i < |u| ==> !(m <= t[i..])
    ensures FindText(t, m) == Some(|u|)
    decreases |u|
  {
    assert t[0..] == t;
    if u == "" {
      assert t == m + v;
    } else {
      assert !(m <= t[0..]);
      assert t[1..] == u[1..] + m + v;
      forall i | 0 <= i < |u[1..]|
        ensures !(m <= t[1..][i..])
      {
        assert t[1..][i..] == t[i + 1..];
      }
      FirstFound(u[1..], m, v, t[1..]);
    }
  }

  /** Without an `=`, behind the first `export interface`; without either, nowhere. */
  lemma BodyBehindInterface(u: string, v: string, t: string)
    requires t == u + "export interface" + v && '=' !in t && forall i :: 0 <= i < |u| ==> !("export interface" <= t[i..])
    ensures Anchor(t) == Some(|u| + |"export interface"|)
  {
    FirstFound(u, "export interface", v, t);
  }

  lemma NoBody(t: string)
    requires '=' !in t && !Contains("export interface", t)
    ensures Anchor(t) == None
  {
    FoundIff(t, "export interface");
  }
}
