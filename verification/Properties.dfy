/** How the filters read the name of a field and the method of an arm. */
module Properties {
  import opened Wrappers
  import opened Text
  import opened Scanner
  import opened Seqs
  import opened Split
  import opened Braces
  import opened TypeFiles

  // ----- string literals and names

  predicate IsIdentChar(ch: char) {
    '0' <= ch <= '9' || 'a' <= ch <= 'z' || 'A' <= ch <= 'Z' || ch == '_'
  }

  /** The identifier that a text begins with. */
  function Ident(t: string): (name: string)
    ensures name <= t
  {
    if t == "" || !IsIdentChar(t[0]) then "" else [t[0]] + Ident(t[1..])
  }

  function Later(i: Option<nat>): Option<nat> {
    if i.Some? then Some(i.value + 1) else None
  }

  /** Where a string literal ends, its opening quote having been read. */
  function ClosingQuote(t: string, quote: char, escape: bool): (i: Option<nat>)
    ensures i.Some? ==> i.value < |t|
  {
    if t == "" then None
    else if escape then Later(ClosingQuote(t[1..], quote, false))
    else if t[0] == '\\' then Later(ClosingQuote(t[1..], quote, true))
    else if t[0] == quote then Some(0)
    else Later(ClosingQuote(t[1..], quote, false))
  }

  /** `parse_string_literal`: the literal as it stands, and the text behind it. */
  function Literal(t: string): Option<(string, string)> {
    if t == "" || (t[0] != '"' && t[0] != '\'') then None
    else
      match ClosingQuote(t[1..], t[0], false)
      case None => None
      case Some(i) => Some((t[1..i + 1], t[i + 2..]))
  }

  method ParseStringLiteral(input: string) returns (r: Option<(string, nat)>)
    ensures r.None? <==> Literal(input).None?
    ensures r.Some? ==> r.value.1 <= |input| && Literal(input) == Some((r.value.0, input[r.value.1..]))
  {
    if input == "" {
      return None;
    }
    var quote, escape := input[0], false;
    if quote != '"' && quote != '\'' {
      return None;
    }
    for index := 1 to |input|
      invariant var all, rest := ClosingQuote(input[1..], quote, false), ClosingQuote(input[index..], quote, escape);
                && (all.None? <==> rest.None?)
                && (rest.Some? ==> all.value == index - 1 + rest.value)
    {
      var ch := input[index];
      assert input[index..][1..] == input[index + 1..];
      if escape {
        escape := false;
      } else if ch == '\\' {
        escape := true;
      } else if ch == quote {
        assert input[1..][..index - 1] == input[1..index];
        return Some((input[1..index], index + 1));
      }
    }
    return None;
  }

  /** `strip_leading_block_comments`. */
  function WithoutComments(t: string): string
    decreases |t|
  {
    var rest := TrimStart(t);
    if "/*" <= rest && FindText(rest[2..], "*/").Some?
    then WithoutComments(rest[2..][FindText(rest[2..], "*/").value + 2..])
    else rest
  }

  method StripLeadingBlockComments(input: string) returns (rest: string)
    ensures rest == WithoutComments(input)
  {
    rest := TrimStart(input);
    TrimStartTwice(input);
    while "/*" <= rest && FindText(rest[2..], "*/").Some?
      invariant TrimStart(rest) == rest && WithoutComments(rest) == WithoutComments(input)
      decreases |rest|
    {
      var behind := rest[2..][FindText(rest[2..], "*/").value + 2..];
      rest := TrimStart(behind);
      TrimStartTwice(behind);
    }
  }

  predicate ColonFollows(t: string) {
    ":" <= TrimStart(t)
  }

  function SkipQuestion(t: string): string {
    var rest := TrimStart(t);
    if "?" <= rest then rest[1..] else rest
  }

  /** `parse_property_name`: a string literal or an identifier, with a colon behind it. */
  function PropertyName(input: string): Option<string> {
    var t := TrimStart(input);
    match Literal(t)
    case Some((name, rest)) => if ColonFollows(rest) then Some(name) else None
    case None =>
      var name := Ident(t);
      if name != "" && ColonFollows(SkipQuestion(t[|name|..])) then Some(name) else None
  }

  method IdentEnd(t: string) returns (end: nat)
    ensures end <= |t| && t[..end] == Ident(t)
  {
    end := 0;
    while end < |t| && IsIdentChar(t[end])
      invariant end <= |t| && forall i :: 0 <= i < end ==> IsIdentChar(t[i])
    {
      end := end + 1;
    }
    assert t == t[..end] + t[end..];
    IdentBefore(t[..end], t[end..]);
  }

  method ParsePropertyName(input: string) returns (name: Option<string>)
    ensures name == PropertyName(input)
  {
    var trimmed := TrimStart(input);
    var literal := ParseStringLiteral(trimmed);
    if literal.Some? {
      var rest := TrimStart(trimmed[literal.value.1..]);
      return if ":" <= rest then Some(literal.value.0) else None;
    }
    var end := IdentEnd(trimmed);
    if end == 0 {
      return None;
    }
    var rest := SkipQuestion(trimmed[end..]);
    return if ColonFollows(rest) then Some(trimmed[..end]) else None;
  }

  lemma TrimStartTwice(t: string)
    ensures TrimStart(TrimStart(t)) == TrimStart(t)
  {
    TrimStartCuts(t);
  }

  /** `parse_property`: the name, and what stands behind the first colon. */
  function Property(input: string): Option<(string, string)> {
    match PropertyName(input)
    case None => None
    case Some(name) =>
      match SplitOnce(input, ':')
      case (_, Some(value)) => Some((name, TrimStart(value)))
      case (_, None) => None
  }

  // ----- what the filters ask

  const COMMA := {','}

  /** The method that the first field called `method` names. */
  function MethodIn(fields: seq<string>): Option<string> {
    if fields == [] then None
    else
      match Property(fields[0])
      case Some((name, value)) =>
        if name != "method" then MethodIn(fields[1..])
        else
          (match Literal(TrimStart(value))
           case Some((literal, _)) => Some(literal)
           case None => None)
      case None => MethodIn(fields[1..])
  }

  /** `extract_method_from_arm`. */
  function MethodOf(arm: string): Option<string> {
    match BraceSpan(arm)
    case None => None
    case Some((open, close)) => MethodIn(Parts(arm[open + 1..close], COMMA))
  }

  method ExtractMethodFromArm(arm: string) returns (name: Option<string>)
    ensures name == MethodOf(arm)
  {
    var span := FindTopLevelBraceSpan(arm);
    if span.None? {
      return None;
    }
    var fields := SplitTopLevelMulti(arm[span.value.0 + 1..span.value.1], COMMA);
    for i := 0 to |fields|
      invariant MethodIn(fields) == MethodIn(fields[i..])
    {
      assert fields[i..][1..] == fields[i + 1..];
      var property := Property(fields[i]);
      if property.Some? && property.value.0 == "method" {
        var literal := ParseStringLiteral(TrimStart(property.value.1));
        return if literal.Some? then Some(literal.value.0) else None;
      }
    }
    return None;
  }

  /** The arms that stay: those of no listed method. */
  function KeepArm(methods: set<string>): string -> bool {
    (arm: string) => MethodOf(arm).None? || MethodOf(arm).value !in methods - {""}
  }

  /** The fields that stay: those without a listed name. */
  function KeepField(names: set<string>): string -> bool {
    (field: string) => PropertyName(WithoutComments(field)).None? || PropertyName(WithoutComments(field)).value !in names
  }

  // ----- reading what was written

  lemma {:induction false} IdentBefore(name: string, rest: string)
    requires (forall i :: 0 <= i < |name| ==> IsIdentChar(name[i])) && (rest != "" ==> !IsIdentChar(rest[0]))
    ensures Ident(name + rest) == name
    decreases |name|
  {
    if name == "" {
      assert name + rest == rest;
    } else {
      assert (name + rest)[1..] == name[1..] + rest;
      IdentBefore(name[1..], rest);
    }
  }

  lemma {:induction false} QuoteBefore(text: string, quote: char, rest: string)
    requires quote != '\\' && quote !in text && '\\' !in text
    ensures ClosingQuote(text + [quote] + rest, quote, false) == Some(|text|)
    decreases |text|
  {
    var all := text + [quote] + rest;
    if text != "" {
      assert all[1..] == text[1..] + [quote] + rest && all[0] in text;
      QuoteBefore(text[1..], quote, rest);
    }
  }

  /** A quoted text without quotes and escapes is read back. */
  lemma LiteralOf(text: string, quote: char, rest: string)
    requires (quote == '"' || quote == '\'') && quote !in text && '\\' !in text
    ensures Literal([quote] + text + [quote] + rest) == Some((text, rest))
  {
    var all := [quote] + text + [quote] + rest;
    assert all[1..] == text + [quote] + rest;
    QuoteBefore(text, quote, rest);
    assert all[1..|text| + 1] == text && all[|text| + 2..] == rest;
  }

  predicate IsIdent(name: string) {
    name != "" && forall i :: 0 <= i < |name| ==> IsIdentChar(name[i])
  }

  lemma VisibleStart(t: string)
    requires t != "" && !IsSpace(t[0])
    ensures TrimStart(t) == t
  {
  }

  /** An identifier with a colon, a question mark before it or not, is read back. */
  lemma NameOfField(name: string, optional: bool, value: string)
    requires IsIdent(name)
    ensures PropertyName(name + (if optional then "?" else "") + ":" + value) == Some(name)
    ensures WithoutComments(name + (if optional then "?" else "") + ":" + value) == name + (if optional then "?" else "") + ":" + value
  {
    var rest := (if optional then "?" else "") + ":" + value;
    var t := name + (if optional then "?" else "") + ":" + value;
    assert t == name + rest && IsIdentChar(t[0]) && t[|name|..] == rest;
    VisibleStart(t);
    IdentBefore(name, rest);
    VisibleStart(rest);
    if optional {
      assert rest[1..] == ":" + value;
    } else {
      assert rest == ":" + value;
    }
    VisibleStart(":" + value);
  }

  /** A quoted name with a colon is read back. */
  lemma NameOfQuotedField(name: string, value: string)
    requires '"' !in name && '\\' !in name
    ensures PropertyName("\"" + name + "\"" + ":" + value) == Some(name)
  {
    var t := "\"" + name + "\"" + ":" + value;
    assert t == ['"'] + name + ['"'] + (":" + value);
    VisibleStart(t);
    LiteralOf(name, '"', ":" + value);
    VisibleStart(":" + value);
  }

  /** A field that is not called `method`. */
  predicate OtherField(field: string) {
    PropertyName(field) != Some("method")
  }

  function MethodField(name: string): string {
    "\"method\": \"" + name + "\""
  }

  /** A quoted name, a colon, a blank and a value. */
  lemma PropertyOfQuoted(name: string, value: string)
    requires '"' !in name && '\\' !in name && ':' !in name && value != "" && !IsSpace(value[0])
    ensures Property("\"" + name + "\"" + ":" + (" " + value)) == Some((name, value))
  {
    var key := "\"" + name + "\"";
    NameOfQuotedField(name, " " + value);
    assert key + ":" + (" " + value) == key + [':'] + (" " + value);
    BeforeJoined(key, ':', " " + value);
    assert (" " + value)[1..] == value;
    VisibleStart(value);
  }

  lemma MethodFieldIs(name: string, value: string)
    requires value == "\"" + name + "\""
    ensures MethodField(name) == "\"" + "method" + "\"" + ":" + (" " + value)
  {
  }

  lemma PropertyOfMethod(name: string, value: string)
    requires value == "\"" + name + "\""
    ensures Property(MethodField(name)) == Some(("method", value))
  {
    MethodFieldIs(name, value);
    PropertyOfQuoted("method", value);
  }

  lemma {:induction false} MethodInFields(fields: seq<string>, k: nat, name: string)
    requires k < |fields| && fields[k] == MethodField(name) && '"' !in name && '\\' !in name
    requires forall i :: 0 <= i < k ==> OtherField(fields[i])
    ensures MethodIn(fields) == Some(name)
    decreases k
  {
    if k == 0 {
      var value := "\"" + name + "\"";
      PropertyOfMethod(name, value);
      VisibleStart(value);
      assert value == ['"'] + name + ['"'] + "";
      LiteralOf(name, '"', "");
    } else {
      MethodInFields(fields[1..], k - 1, name);
    }
  }

  /** The method of an arm written as an object of fields is read back. */
  lemma MethodOfArm(fields: seq<string>, k: nat, name: string, inner: string)
    requires AreParts(fields, COMMA) && AllButLast(fields, EndsClosed) && inner == Join(fields, FIELDS.Text()) && Enclosed(inner)
    requires k < |fields| && fields[k] == MethodField(name) && '"' !in name && '\\' !in name
    requires forall i :: 0 <= i < k ==> OtherField(fields[i])
    ensures MethodOf("{" + inner + "}") == Some(name)
  {
    var arm := "{" + inner + "}";
    assert IsSpan(arm, 0, |inner| + 1);
    SpanIsFound(arm, 0, |inner| + 1);
    assert arm[1..|inner| + 1] == inner;
    SplitOfJoin(fields, FIELDS, COMMA);
    MethodInFields(fields, k, name);
  }

  /** A text without an opening brace names no method. */
  lemma NoBraceNoMethod(arm: string)
    requires '{' !in arm
    ensures MethodOf(arm) == None
  {
    NoBraceNoSpan(START, arm, 0);
  }
}
