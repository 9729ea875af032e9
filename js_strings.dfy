/**
 * The three JavaScript string built-ins the core relies on, as pure functions:
 * `s.replace(/\s/g, "")`, `s.includes(sub)` and `s.split(sep)` with a one-character separator.
 */
module JsStrings {

  import opened Wrappers

  /** The characters matched by `\s` in a JavaScript regular expression
      (WhiteSpace and LineTerminator of ECMAScript, section 22.2.2.9). */
  predicate IsJsWhitespace(c: char)
    // No visible ASCII character is whitespace.
    ensures '!' <= c <= '~' ==> !IsJsWhitespace(c)
  {
    || ('\U{0009}' <= c <= '\U{000D}')
    || c == '\U{0020}' || c == '\U{00A0}' || c == '\U{1680}'
    || ('\U{2000}' <= c <= '\U{200A}')
    || c == '\U{2028}' || c == '\U{2029}' || c == '\U{202F}'
    || c == '\U{205F}' || c == '\U{3000}' || c == '\U{FEFF}'
  }

  predicate NoWhitespace(s: string)
  {
    forall i :: 0 <= i < |s| ==> !IsJsWhitespace(s[i])
  }

  /** `s.replace(/\s/g, "")`: every whitespace character removed, the others kept in order. */
  function StripWhitespace(s: string): (r: string)
    ensures |r| <= |s|
    ensures NoWhitespace(r)
  {
    if s == [] then []
    else if IsJsWhitespace(s[0]) then StripWhitespace(s[1..])
    else [s[0]] + StripWhitespace(s[1..])
  }

  /** Stripping distributes over concatenation. */
  lemma {:induction false} StripConcat(a: string, b: string)
    ensures StripWhitespace(a + b) == StripWhitespace(a) + StripWhitespace(b)
  {
    if a != [] {
      assert (a + b)[0] == a[0] && (a + b)[1..] == a[1..] + b;
      StripConcat(a[1..], b);
    } else {
      assert a + b == b;
    }
  }

  /** A string without whitespace is left exactly as it is. */
  lemma {:induction false} StripClean(s: string)
    requires NoWhitespace(s)
    ensures StripWhitespace(s) == s
  {
    if s != [] {
      StripClean(s[1..]);
    }
  }

  /** Stripping twice removes nothing more than stripping once. */
  lemma {:induction false} StripIdempotent(s: string)
    ensures StripWhitespace(StripWhitespace(s)) == StripWhitespace(s)
  {
    StripClean(StripWhitespace(s));
  }

  /** A character survives stripping exactly when it occurs in the input and is not whitespace. */
  lemma {:induction false} StripKeeps(s: string, c: char)
    ensures c in StripWhitespace(s) <==> c in s && !IsJsWhitespace(c)
  {
    if s != [] {
      StripKeeps(s[1..], c);
      assert s == [s[0]] + s[1..];
    }
  }

  /** `s.includes(sub)`: `sub` occurs somewhere in `s` as a contiguous piece. */
  predicate Contains(s: string, sub: string)
    ensures Contains(s, sub) ==> |sub| <= |s|
    decreases |s|
  {
    sub <= s || (|s| > 0 && Contains(s[1..], sub))
  }

  /** `Contains` reports only pieces that are really there. */
  lemma {:induction false} ContainsWitness(s: string, sub: string)
    requires Contains(s, sub)
    ensures exists a, b :: s == a + sub + b
    decreases |s|
  {
    if sub <= s {
      assert s == [] + sub + s[|sub|..];
    } else {
      ContainsWitness(s[1..], sub);
      var a, b :| s[1..] == a + sub + b;
      assert s == ([s[0]] + a) + sub + b;
    }
  }

  /** A piece placed anywhere in a string is found by `Contains`. */
  lemma {:induction false} ContainsInfix(a: string, sub: string, b: string)
    ensures Contains(a + sub + b, sub)
  {
    if a == [] {
      assert a + sub + b == sub + b;
    } else {
      assert (a + sub + b)[1..] == a[1..] + sub + b;
      ContainsInfix(a[1..], sub, b);
    }
  }

  /** `s.split(sep)`: the pieces between occurrences of `sep`, always at least one. */
  function Split(s: string, sep: char): (r: seq<string>)
    ensures |r| >= 1
    ensures forall i :: 0 <= i < |r| ==> sep !in r[i]
  {
    if s == [] then [[]]
    else
      var rest := Split(s[1..], sep);
      if s[0] == sep then [[]] + rest
      else [[s[0]] + rest[0]] + rest[1..]
  }

  /** `parts.join(sep)`, the inverse of `Split`. */
  function Join(parts: seq<string>, sep: char): string
    requires |parts| >= 1
  {
    if |parts| == 1 then parts[0] else parts[0] + [sep] + Join(parts[1..], sep)
  }

  /** Joining the pieces of a split gives back the original string. */
  lemma {:induction false} JoinSplit(s: string, sep: char)
    ensures Join(Split(s, sep), sep) == s
  {
    if s != [] {
      var rest := Split(s[1..], sep);
      JoinSplit(s[1..], sep);
      if s[0] == sep {
        assert Split(s, sep)[1..] == rest;
      } else {
        var r := Split(s, sep);
        if |rest| == 1 {
          assert r == [[s[0]] + rest[0]];
        } else {
          assert r[1..] == rest[1..];
          assert Join(rest, sep) == rest[0] + [sep] + Join(rest[1..], sep);
        }
      }
    }
  }

  /** A string splits into exactly one piece iff the separator does not occur in it. */
  lemma {:induction false} SplitSingle(s: string, sep: char)
    ensures |Split(s, sep)| == 1 <==> sep !in s
  {
    if s != [] {
      SplitSingle(s[1..], sep);
      assert s == [s[0]] + s[1..];
    }
  }

  /** Splitting a piece free of the separator, then the separator, then the rest. */
  lemma {:induction false} SplitAfterFirst(a: string, sep: char, b: string)
    requires sep !in a
    ensures Split(a + [sep] + b, sep) == [a] + Split(b, sep)
  {
    if a != [] {
      var s := a + [sep] + b;
      assert s[0] == a[0] && s[0] != sep;
      assert s[1..] == a[1..] + [sep] + b;
      SplitAfterFirst(a[1..], sep, b);
      assert [a[0]] + a[1..] == a;
    } else {
      assert a + [sep] + b == [sep] + b;
    }
  }

  /** The second piece of `s.split(sep)`, or `None` (JavaScript `undefined`) when there is none. */
  function SecondField(s: string, sep: char): (r: Option<string>)
    ensures r.None? <==> sep !in s
    ensures r.Some? ==> sep !in r.value
  {
    SplitSingle(s, sep);
    var parts := Split(s, sep);
    if |parts| >= 2 then Some(parts[1]) else None
  }

  /** The second field of `a|f|...` or `a|f` is `f`, whatever `a` and the tail hold. */
  lemma SecondFieldOf(a: string, sep: char, f: string, tail: string)
    requires sep !in a && sep !in f
    requires tail == [] || tail[0] == sep
    ensures SecondField(a + [sep] + f + tail, sep) == Some(f)
  {
    assert a + [sep] + f + tail == a + [sep] + (f + tail);
    SplitAfterFirst(a, sep, f + tail);
    if tail == [] {
      assert f + tail == f;
      SplitSingle(f, sep);
      JoinSplit(f, sep);
    } else {
      assert f + tail == f + [sep] + tail[1..];
      SplitAfterFirst(f, sep, tail[1..]);
    }
  }
}
