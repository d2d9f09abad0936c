/** The string operations that the models share. */
module Text {
  import opened Wrappers

  /** `str::strip_prefix`. */
  function StripPrefix(s: string, prefix: string): Option<string> {
    if prefix <= s then Some(s[|prefix|..]) else None
  }

  /** The part of `s` before its first `c`; all of `s` when there is none. */
  function Before(s: string, c: char): (head: string)
    ensures head <= s && c !in head
    ensures |head| < |s| ==> s[|head|] == c
  {
    if s == "" || s[0] == c then "" else [s[0]] + Before(s[1..], c)
  }

  /** `str::split_once` on a character, with an absent tail when `c` does not occur. */
  function SplitOnce(s: string, c: char): (string, Option<string>) {
    var head := Before(s, c);
    (head, if |head| < |s| then Some(s[|head| + 1..]) else None)
  }

  lemma {:induction false} BeforeJoined(head: string, c: char, tail: string)
    requires c !in head
    ensures Before(head + [c] + tail, c) == head
    ensures SplitOnce(head + [c] + tail, c) == (head, Some(tail))
  {
    var s := head + [c] + tail;
    assert s[|head|] == c;
    assert Before(s, c) == s[..|head|];
    assert s[|head| + 1..] == tail;
  }

  lemma BeforeAbsent(s: string, c: char)
    requires c !in s
    ensures Before(s, c) == s && SplitOnce(s, c) == (s, None)
  {
  }

  /** `str::replace`: every non-overlapping occurrence, left to right, without rescanning. */
  function Replace(s: string, from: string, to: string): string
    requires from != ""
    decreases |s|
  {
    if s == "" then ""
    else if from <= s then to + Replace(s[|from|..], from, to)
    else [s[0]] + Replace(s[1..], from, to)
  }

  lemma {:induction false} ReplaceAbsent(s: string, from: string, to: string)
    requires from != "" && from[0] !in s
    ensures Replace(s, from, to) == s
    decreases |s|
  {
    if s != "" {
      ReplaceAbsent(s[1..], from, to);
      assert s == [s[0]] + s[1..];
    }
  }

  /** A text that does not begin with `from` and holds `from[0]` only in its first place is left alone. */
  lemma ReplaceElsewhere(s: string, from: string, to: string)
    requires from != "" && s != "" && !(from <= s) && from[0] !in s[1..]
    ensures Replace(s, from, to) == s
  {
  }

  lemma ReplacePrefix(rest: string, from: string, to: string)
    requires from != "" && from[0] !in rest
    ensures Replace(from + rest, from, to) == to + rest
  {
    var s := from + rest;
    assert s[|from|..] == rest;
    ReplaceAbsent(rest, from, to);
  }

  /** `trim_end_matches(|c| c.is_ascii_digit())`. */
  function TrimDigits(s: string): (t: string)
    ensures t <= s
  {
    if s != "" && '0' <= s[|s| - 1] <= '9' then TrimDigits(s[..|s| - 1]) else s
  }

  /** Digits at the end go, up to the last character that is none. */
  lemma {:induction false} TrimDigitsOf(base: string, digits: string)
    requires forall i :: 0 <= i < |digits| ==> digits[i] in "0123456789"
    requires base != "" ==> base[|base| - 1] !in "0123456789"
    ensures TrimDigits(base + digits) == base
    decreases |digits|
  {
    var s := base + digits;
    if digits == "" {
      assert s == base;
      if base != "" && '0' <= base[|base| - 1] <= '9' {
        IsDigit(base[|base| - 1]);
      }
    } else {
      assert s[|s| - 1] == digits[|digits| - 1] && digits[|digits| - 1] in "0123456789";
      assert s[..|s| - 1] == base + digits[..|digits| - 1];
      TrimDigitsOf(base, digits[..|digits| - 1]);
    }
  }

  lemma IsDigit(c: char)
    requires '0' <= c <= '9'
    ensures c in "0123456789"
  {
    var digits := "0123456789";
    assert digits[c as int - '0' as int] == c;
  }

  /** `slice::join`. */
  function Join(parts: seq<string>, sep: string): string {
    if parts == [] then ""
    else if |parts| == 1 then parts[0]
    else parts[0] + sep + Join(parts[1..], sep)
  }

  function Chomp(line: string): string {
    if line != "" && line[|line| - 1] == '\r' then line[..|line| - 1] else line
  }

  /** `str::lines`. */
  function Lines(text: string): seq<string>
    decreases |text|
  {
    if text == "" then []
    else
      var (head, tail) := SplitOnce(text, '\n');
      if tail.None? then [head] else [Chomp(head)] + Lines(tail.value)
  }

  function Unlines(lines: seq<string>): string {
    if lines == [] then "" else lines[0] + "\n" + Unlines(lines[1..])
  }

  /** `str::find`. */
  function FindText(t: string, m: string): (i: Option<nat>)
    ensures i.Some? ==> i.value + |m| <= |t| && m <= t[i.value..]
  {
    if m <= t then Some(0)
    else if t == "" then None
    else
      match FindText(t[1..], m)
      case None => None
      case Some(i) => Some(i + 1)
  }

  /** The first occurrence depends on the text up to its end only. */
  lemma {:induction false} FindTextPrefix(a: string, b: string, k: nat, m: string)
    requires k <= |a| && k <= |b| && a[..k] == b[..k] && FindText(a, m).Some? && FindText(a, m).value + |m| <= k
    ensures FindText(b, m) == FindText(a, m)
    decreases |a|
  {
    assert m <= a ==> m == a[..k][..|m|] && m <= b;
    assert |m| <= k && m <= b ==> m == b[..k][..|m|] && m <= a;
    if !(m <= a) {
      assert a[1..][..k - 1] == a[..k][1..] && b[1..][..k - 1] == b[..k][1..];
      FindTextPrefix(a[1..], b[1..], k - 1, m);
    }
  }

  /** What stands in a text is found in it. */
  lemma {:induction false} FindTextInside(a: string, m: string, z: string)
    ensures FindText(a + m + z, m).Some?
    decreases |a|
  {
    if a == "" {
      assert a + m + z == m + z;
    } else if !(m <= a + m + z) {
      assert (a + m + z)[1..] == a[1..] + m + z;
      FindTextInside(a[1..], m, z);
    }
  }

  lemma {:induction false} FindTextAbsent(t: string, m: string)
    requires m != "" && m[0] !in t
    ensures FindText(t, m) == None
    decreases |t|
  {
    if t != "" {
      FindTextAbsent(t[1..], m);
    }
  }

  lemma {:induction false} FindTextAfter(p: string, m: string, z: string)
    requires m != "" && m[0] !in p
    ensures FindText(p + m + z, m) == Some(|p|)
    decreases |p|
  {
    if p == "" {
      assert p + m + z == m + z;
    } else {
      assert (p + m + z)[0] == p[0] && p[0] in p;
      assert (p + m + z)[1..] == p[1..] + m + z;
      FindTextAfter(p[1..], m, z);
    }
  }

  lemma PrefixInLine(h: string, rest: string, m: string)
    requires m != "" && '\n' !in m
    ensures m <= h + "\n" + rest <==> m <= h
  {
    var t := h + "\n" + rest;
    assert t[|h|] == '\n' && t[..|h|] == h;
    assert m <= t && |m| > |h| ==> '\n' in m;
    assert m <= t ==> m == t[..|m|];
  }

  /** A text without newlines is found in a line or behind it. */
  function FoundInLines(h: Option<nat>, length: nat, rest: Option<nat>): Option<nat> {
    if h.Some? then h else if rest.Some? then Some(length + 1 + rest.value) else None
  }

  lemma FindTextStep(t: string, u: string, m: string)
    requires t != "" && u == t[1..] && !(m <= t)
    ensures FindText(t, m) == if FindText(u, m).Some? then Some(FindText(u, m).value + 1) else None
  {
  }

  lemma {:induction false} FindTextInLines(h: string, rest: string, m: string, t: string)
    requires m != "" && '\n' !in m && t == h + "\n" + rest
    ensures FindText(t, m) == FoundInLines(FindText(h, m), |h|, FindText(rest, m))
    decreases |h|
  {
    PrefixInLine(h, rest, m);
    if h == "" {
      FindTextStep(t, rest, m);
    } else if !(m <= h) {
      FindTextStep(h, h[1..], m);
      FindTextStep(t, h[1..] + "\n" + rest, m);
      FindTextInLines(h[1..], rest, m, h[1..] + "\n" + rest);
    }
  }
}
