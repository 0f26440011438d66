/** The string operations the path code relies on, with the inversion laws it needs. */
module Strings {
  import opened Prelude

  /** strings.Split on a one-character separator. */
  function Split(s: string, sep: char): (parts: seq<string>)
    ensures |parts| >= 1
    ensures forall i :: 0 <= i < |parts| ==> sep !in parts[i]
  {
    if s == "" then [""]
    else
      var rest := Split(s[1..], sep);
      if s[0] == sep then [""] + rest else [[s[0]] + rest[0]] + rest[1..]
  }

  /** strings.Join with a one-character separator. */
  function Join(parts: seq<string>, sep: char): string {
    if |parts| == 0 then ""
    else if |parts| == 1 then parts[0]
    else parts[0] + [sep] + Join(parts[1..], sep)
  }

  lemma {:induction false} JoinSplit(s: string, sep: char)
    ensures Join(Split(s, sep), sep) == s
  {
    if s != "" {
      JoinSplit(s[1..], sep);
      var rest := Split(s[1..], sep);
      var parts := Split(s, sep);
      assert s == [s[0]] + s[1..];
      if s[0] == sep {
        assert parts[1..] == rest;
      } else if |rest| == 1 {
      } else {
        assert parts[1..] == rest[1..];
        assert [s[0]] + (rest[0] + [sep] + Join(rest[1..], sep)) == [s[0]] + rest[0] + [sep] + Join(rest[1..], sep);
      }
    }
  }

  lemma {:induction false} SplitPrefix(p: string, rest: string, sep: char)
    requires sep !in p
    ensures Split(p + [sep] + rest, sep) == [p] + Split(rest, sep)
  {
    var s := p + [sep] + rest;
    if p == "" {
      assert s == [sep] + rest;
      assert s[1..] == rest;
    } else {
      SplitPrefix(p[1..], rest, sep);
      assert s[1..] == p[1..] + [sep] + rest;
      assert s[0] == p[0] && p[0] in p;
      assert p == [p[0]] + p[1..];
      assert ([p[1..]] + Split(rest, sep))[1..] == Split(rest, sep);
    }
  }

  lemma SplitCons(c: char, t: string, sep: char)
    ensures var rest := Split(t, sep);
      Split([c] + t, sep) == if c == sep then [""] + rest else [[c] + rest[0]] + rest[1..]
  {
    assert ([c] + t)[1..] == t;
  }

  /** Splitting around any one separator. */
  lemma {:induction false} SplitAround(p: string, rest: string, sep: char)
    ensures Split(p + [sep] + rest, sep) == Split(p, sep) + Split(rest, sep)
  {
    hide Split;
    if p == "" {
      assert p + [sep] + rest == [sep] + rest;
      SplitCons(sep, rest, sep);
      SplitAtom("", sep);
    } else {
      var c, q := p[0], p[1..];
      SplitAround(q, rest, sep);
      assert p == [c] + q && p + [sep] + rest == [c] + (q + [sep] + rest);
      SplitCons(c, q, sep);
      SplitCons(c, q + [sep] + rest, sep);
      var a, b := Split(q, sep), Split(rest, sep);
      assert (a + b)[1..] == a[1..] + b && (a + b)[0] == a[0];
    }
  }

  /** A text that contains t is something, then t, then something. */
  lemma {:induction false} ContainsAt(s: string, t: string) returns (p: string, rest: string)
    requires Contains(s, t)
    ensures s == p + t + rest
  {
    if t <= s {
      p, rest := "", s[|t|..];
      assert s == "" + t + s[|t|..];
    } else {
      var q;
      q, rest := ContainsAt(s[1..], t);
      p := [s[0]] + q;
      assert s == [s[0]] + s[1..];
      assert [s[0]] + (q + t + rest) == [s[0]] + q + t + rest;
    }
  }

  lemma {:induction false} SplitAtom(p: string, sep: char)
    requires sep !in p
    ensures Split(p, sep) == [p]
  {
    if p != "" {
      SplitAtom(p[1..], sep);
      assert p[0] in p;
      assert p == [p[0]] + p[1..];
    }
  }

  lemma {:induction false} SplitJoin(parts: seq<string>, sep: char)
    requires |parts| >= 1
    requires forall i :: 0 <= i < |parts| ==> sep !in parts[i]
    ensures Split(Join(parts, sep), sep) == parts
  {
    if |parts| == 1 {
      SplitAtom(parts[0], sep);
    } else {
      SplitJoin(parts[1..], sep);
      SplitPrefix(parts[0], Join(parts[1..], sep), sep);
      assert parts == [parts[0]] + parts[1..];
    }
  }

  lemma {:induction false} JoinAvoids(parts: seq<string>, sep: char, c: char)
    requires c != sep
    requires forall i :: 0 <= i < |parts| ==> c !in parts[i]
    ensures c !in Join(parts, sep)
  {
    if |parts| > 1 {
      JoinAvoids(parts[1..], sep, c);
    }
  }

  lemma {:induction false} JoinSnoc(parts: seq<string>, last: string, sep: char)
    requires |parts| >= 1
    ensures Join(parts + [last], sep) == Join(parts, sep) + [sep] + last
  {
    var all := parts + [last];
    if |parts| == 1 {
      assert all[1..] == [last];
      assert Join(all[1..], sep) == last;
    } else {
      JoinSnoc(parts[1..], last, sep);
      assert all[1..] == parts[1..] + [last];
      var j := Join(parts[1..], sep);
      assert parts[0] + [sep] + (j + [sep] + last) == (parts[0] + [sep] + j) + [sep] + last;
    }
  }

  /** Text appended after the last part joins that part. */
  lemma JoinAppend(parts: seq<string>, suffix: string, sep: char)
    requires |parts| >= 1
    ensures var n := |parts| - 1;
      Join(parts[..n] + [parts[n] + suffix], sep) == Join(parts, sep) + suffix
  {
    var n := |parts| - 1;
    if n == 0 {
      assert parts[..n] + [parts[n] + suffix] == [parts[0] + suffix];
    } else {
      JoinSnoc(parts[..n], parts[n] + suffix, sep);
      JoinSnoc(parts[..n], parts[n], sep);
      assert parts == parts[..n] + [parts[n]];
      var j := Join(parts[..n], sep);
      assert j + [sep] + (parts[n] + suffix) == (j + [sep] + parts[n]) + suffix;
    }
  }

  /** strings.LastIndex of one character; -1 when absent. */
  function LastIndex(s: string, c: char): (r: int)
    ensures -1 <= r < |s|
    ensures r >= 0 ==> s[r] == c && c !in s[r + 1..]
    ensures r < 0 ==> c !in s
  {
    if s == "" then -1
    else if s[|s| - 1] == c then |s| - 1
    else
      var r := LastIndex(s[..|s| - 1], c);
      assert r >= 0 ==> s[r + 1..] == s[..|s| - 1][r + 1..] + [s[|s| - 1]];
      assert s == s[..|s| - 1] + [s[|s| - 1]];
      r
  }

  lemma LastIndexOf(a: string, b: string, c: char)
    requires c !in b
    ensures LastIndex(a + [c] + b, c) == |a|
  {
    var s := a + [c] + b;
    assert s[|a|] == c;
  }

  /** strings.Cut at the first occurrence of one character. */
  function Cut(s: string, c: char): (r: (string, string))
    ensures c !in r.0
    ensures c in s ==> s == r.0 + [c] + r.1
    ensures c !in s ==> r == (s, "")
  {
    if s == "" then ("", "")
    else if s[0] == c then
      assert s == "" + [c] + s[1..];
      ("", s[1..])
    else
      var (before, after) := Cut(s[1..], c);
      assert s == [s[0]] + s[1..];
      ([s[0]] + before, after)
  }

  lemma {:induction false} CutAt(a: string, b: string, c: char)
    requires c !in a
    ensures Cut(a + [c] + b, c) == (a, b)
  {
    var s := a + [c] + b;
    if a == "" {
      assert s[1..] == b;
    } else {
      assert a[0] in a;
      assert s[1..] == a[1..] + [c] + b;
      CutAt(a[1..], b, c);
      assert a == [a[0]] + a[1..];
    }
  }

  /** strings.Contains */
  predicate Contains(s: string, t: string) {
    t <= s || (s != "" && Contains(s[1..], t))
  }

  /** A text containing t has t's characters i and i + 1 next to each other. */
  lemma {:induction false} ContainsPair(s: string, t: string, i: nat)
    requires i + 1 < |t|
    ensures Contains(s, t) ==> exists k :: 0 <= k < |s| - 1 && s[k] == t[i] && s[k + 1] == t[i + 1]
  {
    if s != "" {
      ContainsPair(s[1..], t, i);
      if Contains(s[1..], t) {
        var k :| 0 <= k < |s[1..]| - 1 && s[1..][k] == t[i] && s[1..][k + 1] == t[i + 1];
        assert s[k + 1] == t[i] && s[k + 1 + 1] == t[i + 1];
      } else if t <= s {
        assert s[i] == t[i] && s[i + 1] == t[i + 1];
      }
    }
  }

  lemma PrefixChar(t: string, s: string, i: nat)
    requires i < |t|
    ensures t <= s ==> i < |s| && s[i] == t[i]
  {
  }

  predicate HasSuffix(s: string, t: string) {
    |t| <= |s| && s[|s| - |t|..] == t
  }

  function TrimSuffix(s: string, t: string): string {
    if HasSuffix(s, t) then s[..|s| - |t|] else s
  }

  lemma TrimSuffixOf(s: string, t: string)
    ensures TrimSuffix(s + t, t) == s
  {
    assert (s + t)[|s|..] == t;
  }

  /** unicode.IsSpace */
  predicate IsSpace(c: char) {
    || c in {'\t', '\n', '\U{0B}', '\U{0C}', '\r', ' ', '\U{85}', '\U{A0}', '\U{1680}'}
    || '\U{2000}' <= c <= '\U{200A}'
    || c in {'\U{2028}', '\U{2029}', '\U{202F}', '\U{205F}', '\U{3000}'}
  }

  /** strings.TrimSpace */
  function TrimSpace(s: string): string {
    if s == "" then ""
    else if IsSpace(s[0]) then TrimSpace(s[1..])
    else if IsSpace(s[|s| - 1]) then TrimSpace(s[..|s| - 1])
    else s
  }
}
