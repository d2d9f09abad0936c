/** The first pair of top-level braces in a text. */
module Braces {
  import opened Wrappers
  import opened Scanner

  /** Whether the scanner is at the top level after `i` characters, for every `i`. */
  ghost function Tops(text: string): (tops: seq<bool>)
    ensures |tops| == |text| + 1
    ensures forall i :: 0 <= i <= |text| ==> tops[i] == Scan(START, text[..i]).AtTop()
  {
    seq(|text| + 1, i requires 0 <= i <= |text| => Scan(START, text[..i]).AtTop())
  }

  /** A `{` that stands at the top level. */
  predicate Opens(text: string, tops: seq<bool>, i: nat)
    requires |tops| == |text| + 1
  {
    i < |text| && text[i] == '{' && tops[i]
  }

  /** A `}` that leads to the top level. */
  predicate Closes(text: string, tops: seq<bool>, i: nat)
    requires |tops| == |text| + 1
  {
    i < |text| && text[i] == '}' && tops[i + 1]
  }

  /** No top-level brace closes before `c` after one has opened. */
  ghost predicate NoPairBefore(text: string, tops: seq<bool>, c: nat)
    requires |tops| == |text| + 1
  {
    forall i: nat, j: nat :: i < j < c && Opens(text, tops, i) ==> !Closes(text, tops, j)
  }

  /** The first top-level brace that closes an open one, and the last that opened before it. */
  ghost predicate IsPair(text: string, tops: seq<bool>, o: nat, c: nat)
    requires |tops| == |text| + 1
  {
    && o < c && Opens(text, tops, o) && Closes(text, tops, c)
    && (forall i: nat :: o < i < c ==> !Opens(text, tops, i))
    && NoPairBefore(text, tops, c)
  }

  ghost predicate IsSpan(text: string, o: nat, c: nat) {
    IsPair(text, Tops(text), o, c)
  }

  lemma SpanIsUnique(text: string, o1: nat, c1: nat, o2: nat, c2: nat)
    requires IsSpan(text, o1, c1) && IsSpan(text, o2, c2)
    ensures o1 == o2 && c1 == c2
  {
  }

  /** The loop has seen `index` characters, found no pair, and `open` is the last top-level brace that opened. */
  ghost predicate Searching(text: string, tops: seq<bool>, index: nat, open: Option<nat>)
    requires |tops| == |text| + 1
  {
    && index <= |text|
    && (open.Some? ==> open.value < index && Opens(text, tops, open.value))
    && (forall i: nat :: i < index && (open.None? || open.value < i) ==> !Opens(text, tops, i))
    && NoPairBefore(text, tops, index)
  }

  lemma SearchStep(text: string, tops: seq<bool>, index: nat, open: Option<nat>, next: Option<nat>)
    requires |tops| == |text| + 1 && index < |text| && Searching(text, tops, index, open)
    requires next == if Opens(text, tops, index) then Some(index) else open
    ensures Closes(text, tops, index) && next.Some? ==> IsPair(text, tops, next.value, index)
    ensures !(Closes(text, tops, index) && next.Some?) ==> Searching(text, tops, index + 1, next)
  {
  }

  /** The search in what is left of a text behind `i` characters, `open` being the last top-level brace that opened. */
  function SpanFrom(s: State, rest: string, i: nat, open: Option<nat>): (span: Option<(nat, nat)>)
    requires open.Some? ==> open.value < i
    ensures span.Some? ==> span.value.0 < span.value.1 < i + |rest|
    decreases |rest|
  {
    if rest == "" then None
    else
      var next, last := Observed(s, rest[0]), if s.AtTop() && rest[0] == '{' then Some(i) else open;
      if next.AtTop() && rest[0] == '}' && last.Some? then Some((last.value, i)) else SpanFrom(next, rest[1..], i + 1, last)
  }

  /** `find_top_level_brace_span`. */
  function BraceSpan(text: string): (span: Option<(nat, nat)>)
    ensures span.Some? ==> span.value.0 < span.value.1 < |text|
  {
    SpanFrom(START, text, 0, None)
  }

  /** The search finds the pair, or there is none. */
  lemma {:induction false} SpanFromFinds(text: string, i: nat, s: State, open: Option<nat>)
    requires i <= |text| && s == Scan(START, text[..i]) && Searching(text, Tops(text), i, open)
    ensures var span := SpanFrom(s, text[i..], i, open);
            if span.Some? then IsSpan(text, span.value.0, span.value.1) else NoPairBefore(text, Tops(text), |text|)
    decreases |text| - i
  {
    if i < |text| {
      var next := if Opens(text, Tops(text), i) then Some(i) else open;
      assert text[..i + 1] == text[..i] + [text[i]] && text[i..][1..] == text[i + 1..];
      ScanSnoc(START, text[..i], text[i]);
      SearchStep(text, Tops(text), i, open, next);
      if !(Closes(text, Tops(text), i) && next.Some?) {
        SpanFromFinds(text, i + 1, Observed(s, text[i]), next);
      }
    }
  }

  lemma BraceSpanFinds(text: string)
    ensures var span := BraceSpan(text);
            if span.Some? then IsSpan(text, span.value.0, span.value.1) else NoPairBefore(text, Tops(text), |text|)
  {
    assert text[..0] == "" && text[0..] == text;
    SpanFromFinds(text, 0, START, None);
  }

  /** The search passes a stretch without braces. */
  lemma {:induction false} SpanSkips(s: State, word: string, rest: string, i: nat, open: Option<nat>)
    requires '{' !in word && '}' !in word && (open.Some? ==> open.value < i)
    ensures SpanFrom(s, word + rest, i, open) == SpanFrom(Scan(s, word), rest, i + |word|, open)
    decreases |word|
  {
    if word == "" {
      assert word + rest == rest;
    } else {
      assert (word + rest)[1..] == word[1..] + rest && word[0] in word;
      SpanSkips(Observed(s, word[0]), word[1..], rest, i + 1, open);
    }
  }

  lemma SpanIsFound(text: string, o: nat, c: nat)
    requires IsSpan(text, o, c)
    ensures BraceSpan(text) == Some((o, c))
  {
    BraceSpanFinds(text);
    if BraceSpan(text).Some? {
      SpanIsUnique(text, o, c, BraceSpan(text).value.0, BraceSpan(text).value.1);
    }
  }

  lemma {:induction false} NoBraceNoSpan(s: State, rest: string, i: nat)
    requires '{' !in rest
    ensures SpanFrom(s, rest, i, None) == None
    decreases |rest|
  {
    if rest != "" {
      NoBraceNoSpan(Observed(s, rest[0]), rest[1..], i + 1);
    }
  }

  method FindTopLevelBraceSpan(input: string) returns (span: Option<(nat, nat)>)
    ensures span == BraceSpan(input)
    ensures span.Some? ==> IsSpan(input, span.value.0, span.value.1)
    ensures span.None? ==> NoPairBefore(input, Tops(input), |input|)
  {
    BraceSpanFinds(input);
    var state := new ScanState();
    var open: Option<nat> := None;
    for index := 0 to |input|
      invariant open.Some? ==> open.value < index
      invariant SpanFrom(state.View(), input[index..], index, open) == BraceSpan(input)
    {
      var ch := input[index];
      assert input[index..][1..] == input[index + 1..];
      if state.AtTop() && ch == '{' {
        open := Some(index);
      }
      state.Observe(ch);
      if state.AtTop() && ch == '}' && open.Some? {
        return Some((open.value, index));
      }
    }
    return None;
  }

  /** No top-level brace opens or closes between `o` and `c`, and the one at `c` closes. */
  ghost predicate Undisturbed(text: string, tops: seq<bool>, o: nat, c: nat)
    requires |tops| == |text| + 1
  {
    (forall i: nat :: o < i < c ==> !Opens(text, tops, i) && !Closes(text, tops, i)) && Closes(text, tops, c)
  }

  /** A text that agrees with another up to the opening brace of its first pair: where that brace's pair ends. */
  lemma PairAroundIff(text: string, tops: seq<bool>, o: nat, c: nat, next: string, nextTops: seq<bool>, c2: nat)
    requires |tops| == |text| + 1 && |nextTops| == |next| + 1 && IsPair(text, tops, o, c)
    requires o < |next| && next[..o + 1] == text[..o + 1] && nextTops[..o + 1] == tops[..o + 1] && o < c2
    ensures IsPair(next, nextTops, o, c2) <==> Undisturbed(next, nextTops, o, c2)
  {
    forall i | 0 <= i <= o
      ensures next[i] == text[i] && nextTops[i] == tops[i]
    {
      assert nextTops[i] == nextTops[..o + 1][i] && tops[i] == tops[..o + 1][i];
      assert next[i] == next[..o + 1][i] && text[i] == text[..o + 1][i];
    }
    if Undisturbed(next, nextTops, o, c2) {
      forall i: nat, j: nat | i < j < c2 && Opens(next, nextTops, i)
        ensures !Closes(next, nextTops, j)
      {
        if j < o {
          assert Opens(text, tops, i) && !Closes(text, tops, j);
        }
      }
    }
  }

  /** The same elements elsewhere, from the second on. */
  ghost predicate Occurs<T>(part: seq<T>, all: seq<T>, o: nat) {
    o + |part| <= |all| && forall j :: 0 < j < |part| ==> part[j] == all[o + j]
  }

  /** The same characters and levels elsewhere. */
  ghost predicate Shifted(text: string, tops: seq<bool>, o: nat, alone: string, aloneTops: seq<bool>)
    requires |tops| == |text| + 1 && |aloneTops| == |alone| + 1 && o + |alone| <= |text|
  {
    Occurs(aloneTops, tops, o) && Occurs(alone, text, o)
  }

  lemma ShiftBraces(text: string, tops: seq<bool>, o: nat, alone: string, aloneTops: seq<bool>, j: nat)
    requires |tops| == |text| + 1 && |aloneTops| == |alone| + 1 && o + |alone| <= |text|
    requires Shifted(text, tops, o, alone, aloneTops) && 0 < j < |alone|
    ensures Opens(alone, aloneTops, j) == Opens(text, tops, o + j)
    ensures Closes(alone, aloneTops, j) == Closes(text, tops, o + j)
  {
    assert aloneTops[j + 1] == tops[o + (j + 1)];
  }

  lemma ShiftUndisturbed(text: string, tops: seq<bool>, o: nat, alone: string, aloneTops: seq<bool>)
    requires |tops| == |text| + 1 && |aloneTops| == |alone| + 1 && o + |alone| <= |text| && |alone| > 1
    requires Shifted(text, tops, o, alone, aloneTops)
    ensures Undisturbed(text, tops, o, o + |alone| - 1) <==> Undisturbed(alone, aloneTops, 0, |alone| - 1)
  {
    ShiftBraces(text, tops, o, alone, aloneTops, |alone| - 1);
    if Undisturbed(text, tops, o, o + |alone| - 1) {
      forall j: nat | 0 < j < |alone| - 1
        ensures !Opens(alone, aloneTops, j) && !Closes(alone, aloneTops, j)
      {
        ShiftBraces(text, tops, o, alone, aloneTops, j);
      }
    }
    if Undisturbed(alone, aloneTops, 0, |alone| - 1) {
      forall i: nat | o < i < o + |alone| - 1
        ensures !Opens(text, tops, i) && !Closes(text, tops, i)
      {
        ShiftBraces(text, tops, o, alone, aloneTops, i - o);
      }
    }
  }

  lemma AlonePair(alone: string, tops: seq<bool>, c: nat)
    requires |tops| == |alone| + 1 && 0 < c < |alone| && alone[0] == '{' && tops[0]
    ensures IsPair(alone, tops, 0, c) <==> Undisturbed(alone, tops, 0, c)
  {
  }
}
