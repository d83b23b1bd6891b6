/** String values in `.config` files: quoting by `sym_escape_string_value`, unquoting in place
    by `conf_set_sym_val`, and the two replacements that Kconfiglib uses for each. */
module ConfigStrings {

  const QUOTE: char := '\"'
  const BACKSLASH: char := '\\'
  const NUL: char := '\0'

  predicate Special(c: char) {
    c == QUOTE || c == BACKSLASH
  }

  /** Every quote and backslash preceded by a backslash. */
  function Escape(s: string): string {
    if s == "" then ""
    else (if Special(s[0]) then [BACKSLASH, s[0]] else [s[0]]) + Escape(s[1..])
  }

  datatype Outcome = Invalid | Value(text: string) {
    function Prepend(c: char): Outcome {
      if Invalid? then Invalid else Value([c] + text)
    }
  }

  /** The text up to the first quote that is not escaped, each escape replaced by the character
      after it; invalid if there is no such quote. */
  function Unescape(s: string): Outcome {
    if s == "" then Invalid
    else if s[0] == QUOTE then Value("")
    else if s[0] != BACKSLASH then Unescape(s[1..]).Prepend(s[0])
    else if |s| == 1 then Invalid
    else Unescape(s[2..]).Prepend(s[1])
  }

  /** Unquoting inverts quoting, whatever follows the closing quote. */
  lemma {:induction false} UnescapeEscape(s: string, rest: string)
    ensures Unescape(Escape(s) + [QUOTE] + rest) == Value(s)
  {
    var t := Escape(s) + [QUOTE] + rest;
    if s == "" {
      assert t == [QUOTE] + rest;
    } else {
      UnescapeEscape(s[1..], rest);
      var tail := Escape(s[1..]) + [QUOTE] + rest;
      if Special(s[0]) {
        assert t == [BACKSLASH, s[0]] + tail;
        assert t[2..] == tail;
      } else {
        assert t == [s[0]] + tail;
        assert t[1..] == tail;
      }
    }
  }

  /* ----- sym_escape_string_value ----- */

  /** `strcspn(p, "\"\\")` from position `i`: the first special character, or the end. */
  method NextSpecial(s: string, i: nat) returns (j: nat)
    requires i <= |s|
    ensures i <= j <= |s|
    ensures forall k :: i <= k < j ==> !Special(s[k])
    ensures j < |s| ==> Special(s[j])
  {
    j := i;
    while j < |s| && !Special(s[j])
      invariant i <= j <= |s|
      invariant forall k :: i <= k < j ==> !Special(s[k])
    {
      j := j + 1;
    }
  }

  lemma {:induction false} EscapePlain(s: string, i: nat, j: nat)
    requires i <= j <= |s| && forall k :: i <= k < j ==> !Special(s[k])
    ensures Escape(s[i..]) == s[i..j] + Escape(s[j..])
    decreases j - i
  {
    if i < j {
      EscapePlain(s, i + 1, j);
      var tail := s[i + 1..];
      EscapeOne(s[i..], tail);
      assert s[i..j] == [s[i]] + s[i + 1..j];
      assert [s[i]] + (s[i + 1..j] + Escape(s[j..])) == s[i..j] + Escape(s[j..]) by { hide Escape; }
    } else {
      assert s[i..j] == "";
    }
  }

  lemma EscapeOne(s: string, tail: string)
    requires s != "" && !Special(s[0]) && s[1..] == tail
    ensures Escape(s) == [s[0]] + Escape(tail)
  {
  }

  lemma EscapeSpecial(s: string, j: nat)
    requires j < |s| && Special(s[j])
    ensures Escape(s[j..]) == [BACKSLASH, s[j]] + Escape(s[j + 1..])
  {
    assert s[j..][1..] == s[j + 1..];
  }

  /** Copies a string into a buffer. */
  method Append(buf: array<char>, at: nat, s: string)
    requires at + |s| <= buf.Length
    modifies buf
    ensures buf[..at + |s|] == old(buf[..at]) + s
  {
    forall k | 0 <= k < |s| {
      buf[at + k] := s[k];
    }
  }

  /** The first pass of `sym_escape_string_value`: the size of the buffer. */
  method EscapedSize(s: string) returns (reslen: nat)
    ensures reslen == |Escape(s)| + 3
  {
    reslen := |s| + 3;
    var p := 0;
    assert s[0..] == s;
    while true
      invariant 0 <= p <= |s|
      invariant reslen + p + |Escape(s[p..])| == |Escape(s)| + |s| + 3
      decreases |s| - p
    {
      var j := NextSpecial(s, p);
      EscapePlain(s, p, j);
      p := j;
      if p == |s| {
        break;
      }
      EscapeSpecial(s, p);
      reslen := reslen + 1;
      p := p + 1;
    }
  }

  lemma Assoc(all: string, done: string, piece: string, tail: string)
    requires done + (piece + tail) == all
    ensures (done + piece) + tail == all
  {
  }

  /** `sym_escape_string_value`: the first pass counts, the second one fills a buffer of exactly
      that size, the terminating NUL included. */
  method EscapeStringValue(s: string) returns (buf: array<char>)
    ensures fresh(buf)
    ensures buf[..] == [QUOTE] + Escape(s) + [QUOTE, NUL]
  {
    hide Escape;
    var reslen := EscapedSize(s);
    buf := new char[reslen];
    Append(buf, 0, [QUOTE]);
    var n, p := 1, 0;
    assert s[0..] == s;
    ghost var all := [QUOTE] + Escape(s);
    while true
      invariant 0 <= p <= |s| && 1 <= n && n <= buf.Length
      invariant buf[..n] + Escape(s[p..]) == all
      decreases |s| - p
    {
      var j := NextSpecial(s, p);
      EscapePlain(s, p, j);
      Assoc(all, buf[..n], s[p..j], Escape(s[j..]));
      assert n + (j - p) <= |all|;
      Append(buf, n, s[p..j]);
      n, p := n + (j - p), j;
      if p == |s| {
        break;
      }
      EscapeSpecial(s, p);
      Assoc(all, buf[..n], [BACKSLASH, s[p]], Escape(s[p + 1..]));
      assert n + 2 <= |all|;
      Append(buf, n, [BACKSLASH, s[p]]);
      n, p := n + 2, p + 1;
    }
    assert s[p..] == "";
    EscapeNothing();
    Append(buf, n, [QUOTE, NUL]);
    assert buf[..] == buf[..n + 2];
  }

  lemma EscapeNothing()
    ensures Escape("") == ""
  {
  }

  /* ----- the string case of conf_set_sym_val ----- */

  /** The buffer holds `s` from position `i` on, followed by a NUL. */
  ghost predicate Holds(buf: array<char>, i: nat, s: string)
    reads buf
  {
    HoldsAt(buf[..], i, s)
  }

  ghost predicate HoldsAt(all: seq<char>, i: nat, s: string) {
    i + |s| < |all| && all[i..i + |s|] == s && all[i + |s|] == NUL && NUL !in s
  }

  /** Up to `p` the text is done, from there on it holds the rest. */
  ghost predicate Halfway(all: seq<char>, start: nat, p: nat, done: string, rest: string) {
    start <= p == start + |done| && HoldsAt(all, p, rest) && all[start..p] == done
  }

  lemma TextEnd(all: seq<char>, i: nat, s: string, n: nat)
    requires HoldsAt(all, i, s) && n <= |s|
    ensures i + |s| < |all| && (all[i + n] == NUL <==> n == |s|)
  {
    if n < |s| {
      assert s[n] == all[i..i + |s|][n];
    }
  }

  method Strlen(buf: array<char>, i: nat, ghost s: string) returns (n: nat)
    requires Holds(buf, i, s)
    ensures n == |s|
  {
    n := 0;
    TextEnd(buf[..], i, s, 0);
    while buf[i + n] != NUL
      invariant n <= |s| && i + |s| < buf.Length && (buf[i + n] == NUL <==> n == |s|)
      decreases |s| - n
    {
      n := n + 1;
      TextEnd(buf[..], i, s, n);
    }
  }

  /** `memmove(p, p + 1, n)` at position `p`. */
  method MoveDown(buf: array<char>, p: nat, n: nat)
    requires p + 1 + n <= buf.Length
    modifies buf
    ensures buf[..] == old(buf[..p] + buf[p + 1..p + 1 + n] + buf[p + n..])
  {
    forall k | p <= k < p + n {
      buf[k] := buf[k + 1];
    }
  }

  /** The in-place loop of `conf_set_sym_val` over a NUL-terminated buffer, starting after the
      opening quote: each backslash is removed by moving the rest of the string down, and the
      closing quote is overwritten by a NUL. */
  method UnescapeInPlace(buf: array<char>, start: nat, ghost s: string) returns (ok: bool)
    requires Holds(buf, start, s)
    modifies buf
    ensures ok <==> Unescape(s).Value?
    ensures ok ==> Holds(buf, start, Unescape(s).text)
    ensures buf[..start] == old(buf[..start])
  {
    hide HoldsAt, Halfway, Unescape, Prefixed;
    var p2: nat := start;
    ghost var done, rest := "", s;
    Beginning(buf[..], start, s);
    while true
      invariant Halfway(buf[..], start, p2, done, rest)
      invariant Unescape(s) == Prefixed(done, Unescape(rest))
      invariant Unescape(rest).Value? ==> NUL !in done
      invariant buf[..start] == old(buf[..start]) && start <= buf.Length
      decreases |rest|
    {
      ghost var all := buf[..];
      HeadOf(all, start, p2, done, rest);
      if buf[p2] == NUL {
        Ends(done, rest);
        return false;
      }
      if buf[p2] == QUOTE {
        buf[p2] := NUL;
        assert buf[..] == all[p2 := NUL];
        Ends(done, rest);
        Closing(all, start, p2, done, rest);
        return true;
      }
      Steps(done, rest);
      if buf[p2] == BACKSLASH {
        DropBackslash(buf, start, p2, done, rest);
        done, rest := done + [if |rest| == 1 then NUL else rest[1]], if |rest| == 1 then "" else rest[2..];
      } else {
        Passed(all, start, p2, done, rest);
        done, rest := done + [rest[0]], rest[1..];
      }
      p2 := p2 + 1;
    }
  }

  /** One `memmove` of the loop. If nothing follows the backslash, the old terminator is what
      the next character is taken to be. */
  method DropBackslash(buf: array<char>, start: nat, p: nat, ghost done: string, ghost rest: string)
    requires Halfway(buf[..], start, p, done, rest) && rest != ""
    modifies buf
    ensures start <= buf.Length && buf[..start] == old(buf[..start])
    ensures Halfway(buf[..], start, p + 1, done + [if |rest| == 1 then NUL else rest[1]],
                    if |rest| == 1 then "" else rest[2..])
  {
    ghost var all := buf[..];
    var len := Strlen(buf, p, rest);
    MoveDown(buf, p, len);
    Moved(all, buf[..], start, p, done, rest);
    assert buf[..start] == buf[..][..start];
  }

  lemma Beginning(all: seq<char>, start: nat, s: string)
    requires HoldsAt(all, start, s)
    ensures Halfway(all, start, start, "", s) && Unescape(s) == Prefixed("", Unescape(s)) && start <= |all|
  {
    assert Unescape(s).Value? ==> "" + Unescape(s).text == Unescape(s).text;
  }

  lemma Closing(all: seq<char>, start: nat, p: nat, done: string, rest: string)
    requires Halfway(all, start, p, done, rest) && rest != "" && NUL !in done
    ensures p < |all| && HoldsAt(all[p := NUL], start, done) && all[p := NUL][..start] == all[..start]
  {
    assert all[p := NUL][start..p] == all[start..p];
  }

  lemma HeadOf(all: seq<char>, start: nat, p: nat, done: string, rest: string)
    requires Halfway(all, start, p, done, rest)
    ensures p < |all| && (all[p] == NUL <==> rest == "") && (rest != "" ==> all[p] == rest[0]) && NUL !in rest
  {
    if rest != "" {
      assert rest[0] == all[p..p + |rest|][0];
    }
  }

  lemma Ends(done: string, rest: string)
    ensures rest == "" ==> Unescape(rest).Invalid? && Prefixed(done, Unescape(rest)).Invalid?
    ensures rest != "" && rest[0] == QUOTE ==> Unescape(rest).Value? && Prefixed(done, Unescape(rest)) == Value(done)
  {
    assert done + "" == done;
  }

  lemma Steps(done: string, rest: string)
    requires rest != "" && rest[0] != QUOTE && NUL !in rest
    ensures var c, tail := if rest[0] != BACKSLASH then rest[0] else if |rest| == 1 then NUL else rest[1],
                           if rest[0] != BACKSLASH then rest[1..] else if |rest| == 1 then "" else rest[2..];
            && Prefixed(done, Unescape(rest)) == Prefixed(done + [c], Unescape(tail))
            && (Unescape(tail).Value? ==> Unescape(rest).Value? && c != NUL)
            && NUL !in tail
  {
    var c, tail := if rest[0] != BACKSLASH then rest[0] else if |rest| == 1 then NUL else rest[1],
                   if rest[0] != BACKSLASH then rest[1..] else if |rest| == 1 then "" else rest[2..];
    if Unescape(tail).Value? {
      assert (done + [c]) + Unescape(tail).text == done + ([c] + Unescape(tail).text);
    }
  }

  lemma Passed(all: seq<char>, start: nat, p: nat, done: string, rest: string)
    requires Halfway(all, start, p, done, rest) && rest != ""
    ensures Halfway(all, start, p + 1, done + [rest[0]], rest[1..])
  {
    assert rest[0] == all[p..p + |rest|][0];
    assert all[p + 1..p + |rest|] == all[p..p + |rest|][1..];
  }

  function Prefixed(done: string, o: Outcome): Outcome {
    if o.Invalid? then Invalid else Value(done + o.text)
  }

  /** The buffer after a backslash was removed: the next character is done, or, if there was
      none, the old terminator is. */
  lemma Moved(all: seq<char>, now: seq<char>, start: nat, p: nat, done: string, rest: string)
    requires Halfway(all, start, p, done, rest) && rest != ""
    requires now == all[..p] + all[p + 1..p + 1 + |rest|] + all[p + |rest|..]
    ensures |now| == |all| && now[..start] == all[..start]
    ensures Halfway(now, start, p + 1, done + [if |rest| == 1 then NUL else rest[1]],
                    if |rest| == 1 then "" else rest[2..])
  {
    assert forall k :: 0 <= k < |rest| ==> rest[k] == all[p + k];
    assert all[p + 1..p + 1 + |rest|] == rest[1..] + [NUL];
  }

  /** What `sym_escape_string_value` writes, `conf_set_sym_val` reads back: the opening quote is
      skipped and the value recovered in place. */
  method WriteThenRead(s: string) returns (buf: array<char>, ok: bool)
    requires NUL !in s
    ensures ok && Holds(buf, 1, s)
  {
    buf := EscapeStringValue(s);
    ghost var body := Escape(s) + [QUOTE];
    NoNul(s);
    assert buf[..] == [QUOTE] + body + [NUL];
    UnescapeEscape(s, "");
    assert body + "" == body;
    ok := UnescapeInPlace(buf, 1, body);
  }

  lemma {:induction false} NoNul(s: string)
    requires NUL !in s
    ensures NUL !in Escape(s)
  {
    if s != "" {
      NoNul(s[1..]);
    }
  }

  /* ----- Kconfiglib ----- */

  /** `val.replace(c, r)` for a single character `c`. */
  function ReplaceChar(s: string, c: char, r: string): string {
    if s == "" then "" else (if s[0] == c then r else [s[0]]) + ReplaceChar(s[1..], c, r)
  }

  /** `val.replace(ab, r)` for a pair of characters: left to right, without overlaps. */
  function ReplacePair(s: string, a: char, b: char, r: char): string {
    if |s| >= 2 && s[0] == a && s[1] == b then [r] + ReplacePair(s[2..], a, b, r)
    else if s == "" then ""
    else [s[0]] + ReplacePair(s[1..], a, b, r)
  }

  /** `Symbol._make_conf`: backslashes are doubled, then quotes are escaped. */
  function KconfiglibEscape(s: string): string {
    ReplaceChar(ReplaceChar(s, BACKSLASH, [BACKSLASH, BACKSLASH]), QUOTE, [BACKSLASH, QUOTE])
  }

  /** `Config.load_config` on the text between the quotes. */
  function KconfiglibUnescape(s: string): string {
    ReplacePair(ReplacePair(s, BACKSLASH, QUOTE, QUOTE), BACKSLASH, BACKSLASH, BACKSLASH)
  }

  lemma {:induction false} ReplaceAppend(s: string, t: string, c: char, r: string)
    ensures ReplaceChar(s + t, c, r) == ReplaceChar(s, c, r) + ReplaceChar(t, c, r)
  {
    if s == "" {
      assert s + t == t;
    } else {
      ReplaceAppend(s[1..], t, c, r);
      assert (s + t)[0] == s[0] && (s + t)[1..] == s[1..] + t;
      var first := if s[0] == c then r else [s[0]];
      assert first + (ReplaceChar(s[1..], c, r) + ReplaceChar(t, c, r))
          == (first + ReplaceChar(s[1..], c, r)) + ReplaceChar(t, c, r);
    }
  }

  /** Both implementations write the same text. */
  lemma {:induction false} SameEscape(s: string)
    ensures KconfiglibEscape(s) == Escape(s)
  {
    if s != "" {
      SameEscape(s[1..]);
      var first := if s[0] == BACKSLASH then [BACKSLASH, BACKSLASH] else [s[0]];
      ReplaceAppend(first, ReplaceChar(s[1..], BACKSLASH, [BACKSLASH, BACKSLASH]), QUOTE, [BACKSLASH, QUOTE]);
      assert ReplaceChar(first, QUOTE, [BACKSLASH, QUOTE]) == if Special(s[0]) then [BACKSLASH, s[0]] else [s[0]] by {
        assert first[1..] == if s[0] == BACKSLASH then [BACKSLASH] else "";
        assert [BACKSLASH][1..] == "";
      }
    }
  }

  /** Escaped text never starts with a quote. */
  lemma EscapeHead(s: string)
    ensures Escape(s) != "" ==> Escape(s)[0] != QUOTE
  {
  }

  lemma {:induction false} UnescapeQuotes(s: string)
    ensures ReplacePair(Escape(s), BACKSLASH, QUOTE, QUOTE) == ReplaceChar(s, BACKSLASH, [BACKSLASH, BACKSLASH])
  {
    if s != "" {
      UnescapeQuotes(s[1..]);
      var e, rest := Escape(s), Escape(s[1..]);
      EscapeHead(s[1..]);
      if s[0] == BACKSLASH {
        assert e == [BACKSLASH, BACKSLASH] + rest && e[1..] == [BACKSLASH] + rest && e[1..][1..] == rest;
      } else if s[0] == QUOTE {
        assert e == [BACKSLASH, QUOTE] + rest && e[2..] == rest;
      } else {
        assert e == [s[0]] + rest && e[1..] == rest;
      }
    }
  }

  lemma {:induction false} UnescapeBackslashes(s: string)
    ensures ReplacePair(ReplaceChar(s, BACKSLASH, [BACKSLASH, BACKSLASH]), BACKSLASH, BACKSLASH, BACKSLASH) == s
  {
    if s != "" {
      UnescapeBackslashes(s[1..]);
      var d := ReplaceChar(s, BACKSLASH, [BACKSLASH, BACKSLASH]);
      var rest := ReplaceChar(s[1..], BACKSLASH, [BACKSLASH, BACKSLASH]);
      if s[0] == BACKSLASH {
        assert d == [BACKSLASH, BACKSLASH] + rest && d[2..] == rest;
      } else {
        assert d == [s[0]] + rest && d[1..] == rest;
      }
    }
  }

  /** The two replacements of `load_config` undo those of `_make_conf`, for every string. */
  lemma KconfiglibRoundTrip(s: string)
    ensures KconfiglibUnescape(KconfiglibEscape(s)) == s
  {
    SameEscape(s);
    UnescapeQuotes(s);
    UnescapeBackslashes(s);
  }
}
