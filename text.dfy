/**
 * String operations of Python's `str` that the recruitment code relies on:
 * `lower`, the `in` substring test, `split`, `join`, `strip`, `replace` and
 * slicing. Case mapping is restricted to the ASCII letters.
 */
module Text {
  import opened Seqs

  function LowerChar(c: char): char {
    if 'A' <= c <= 'Z' then (c as int + 32) as char else c
  }

  /** `s.lower()` */
  function Lower(s: string): (r: string)
    ensures |r| == |s|
  {
    seq(|s|, i requires 0 <= i < |s| => LowerChar(s[i]))
  }

  lemma LowerIdempotent(s: string)
    ensures Lower(Lower(s)) == Lower(s)
  {
  }

  /** Python's `k in t` for strings: `k` occurs in `t` as a contiguous block. */
  predicate Contains(t: string, k: string)
    decreases |t|
  {
    k <= t || (t != [] && Contains(t[1..], k))
  }

  /** `Contains` agrees with the positional definition of a substring occurrence. */
  lemma {:induction false} ContainsAt(t: string, k: string, i: nat)
    requires i + |k| <= |t| && t[i..i + |k|] == k
    ensures Contains(t, k)
    decreases i
  {
    if i == 0 {
      assert k <= t;
    } else {
      assert t[1..][i - 1..i - 1 + |k|] == t[i..i + |k|];
      ContainsAt(t[1..], k, i - 1);
    }
  }

  lemma {:induction false} ContainsWitness(t: string, k: string) returns (i: nat)
    requires Contains(t, k)
    ensures i + |k| <= |t| && t[i..i + |k|] == k
    decreases |t|
  {
    if k <= t {
      i := 0;
    } else {
      var j := ContainsWitness(t[1..], k);
      i := j + 1;
      assert t[i..i + |k|] == t[1..][j..j + |k|];
    }
  }

  /** A block of `t` still occurs once more text is put around `t`. */
  lemma ContainsWithin(a: string, t: string, b: string, k: string)
    requires Contains(t, k)
    ensures Contains(a + t + b, k)
  {
    var i := ContainsWitness(t, k);
    var u := a + t + b;
    assert u[|a| + i..|a| + i + |k|] == t[i..i + |k|];
    ContainsAt(u, k, |a| + i);
  }

  /** Every prefix of a block that occurs in `t` also occurs in `t`. */
  lemma ContainsPrefix(t: string, k: string, k': string)
    requires Contains(t, k) && k' <= k
    ensures Contains(t, k')
  {
    var i := ContainsWitness(t, k);
    assert t[i..i + |k'|] == k[..|k'|] == k';
    ContainsAt(t, k', i);
  }

  /** A block of a block of `t` is a block of `t`. */
  lemma ContainsTransitive(t: string, u: string, k: string)
    requires Contains(t, u) && Contains(u, k)
    ensures Contains(t, k)
  {
    var i := ContainsWitness(t, u);
    var j := ContainsWitness(u, k);
    forall n | 0 <= n < |k| ensures t[i + j + n] == k[n] {
      assert t[i + j + n] == t[i..i + |u|][j + n] == u[j + n] == u[j..j + |k|][n];
    }
    assert t[i + j..i + j + |k|] == k;
    ContainsAt(t, k, i + j);
  }

  /** `sep.join(parts)` */
  function Join(parts: seq<string>, sep: string): string
    decreases |parts|
  {
    if |parts| == 0 then ""
    else if |parts| == 1 then parts[0]
    else parts[0] + sep + Join(parts[1..], sep)
  }

  /** Every part occurs in the joined text. */
  lemma {:induction false} JoinContainsParts(parts: seq<string>, sep: string, i: nat)
    requires i < |parts|
    ensures Contains(Join(parts, sep), parts[i])
    decreases |parts|
  {
    if |parts| == 1 {
      ContainsAt(parts[0], parts[0], 0);
    } else if i == 0 {
      ContainsAt(parts[0], parts[0], 0);
      ContainsWithin("", parts[0], sep + Join(parts[1..], sep), parts[0]);
      assert "" + parts[0] + (sep + Join(parts[1..], sep)) == Join(parts, sep);
    } else {
      JoinContainsParts(parts[1..], sep, i - 1);
      ContainsWithin(parts[0] + sep, Join(parts[1..], sep), "", parts[i]);
      assert (parts[0] + sep) + Join(parts[1..], sep) + "" == Join(parts, sep);
    }
  }

  /** `s.split(c)` for a one-character separator: the maximal pieces between occurrences of `c`. */
  function Split(s: string, c: char): (r: seq<string>)
    ensures |r| >= 1
    ensures c in s ==> |r| >= 2
    ensures forall i | 0 <= i < |r| :: c !in r[i]
    decreases |s|
  {
    if s == [] then [""]
    else
      var rest := Split(s[1..], c);
      if s[0] == c then [""] + rest else [[s[0]] + rest[0]] + rest[1..]
  }

  lemma JoinConsFirst(x: char, p: string, ps: seq<string>, sep: string)
    ensures Join([[x] + p] + ps, sep) == [x] + Join([p] + ps, sep)
  {
    if ps != [] {
      assert ([[x] + p] + ps)[1..] == ps == ([p] + ps)[1..];
    }
  }

  /** Splitting and joining back with the same separator restores the text. */
  lemma {:induction false} JoinSplit(s: string, c: char)
    ensures Join(Split(s, c), [c]) == s
    decreases |s|
  {
    if s != [] {
      var rest := Split(s[1..], c);
      JoinSplit(s[1..], c);
      if s[0] == c {
        assert ([""] + rest)[1..] == rest;
      } else {
        JoinConsFirst(s[0], rest[0], rest[1..], [c]);
        assert [rest[0]] + rest[1..] == rest;
      }
    }
  }

  lemma {:induction false} SplitPieceThenSeparator(p: string, c: char, rest: string)
    requires c !in p
    ensures Split(p + [c] + rest, c) == [p] + Split(rest, c)
    decreases |p|
  {
    if p == [] {
      assert (p + [c] + rest)[1..] == rest;
    } else {
      var s := p + [c] + rest;
      assert s[1..] == p[1..] + [c] + rest;
      SplitPieceThenSeparator(p[1..], c, rest);
      assert [p[0]] + p[1..] == p;
    }
  }

  lemma {:induction false} SplitPiece(p: string, c: char)
    requires c !in p
    ensures Split(p, c) == [p]
    decreases |p|
  {
    if p != [] {
      SplitPiece(p[1..], c);
      assert [p[0]] + p[1..] == p;
    }
  }

  /** Joining pieces free of the separator and splitting again restores the pieces. */
  lemma {:induction false} SplitJoin(parts: seq<string>, c: char)
    requires |parts| >= 1
    requires forall i | 0 <= i < |parts| :: c !in parts[i]
    ensures Split(Join(parts, [c]), c) == parts
    decreases |parts|
  {
    if |parts| == 1 {
      SplitPiece(parts[0], c);
    } else {
      SplitJoin(parts[1..], c);
      SplitPieceThenSeparator(parts[0], c, Join(parts[1..], [c]));
      assert [parts[0]] + parts[1..] == parts;
    }
  }

  /** A text holding `c` is the part before its first `c`, then `c`, then the rest; so it splits into at least two pieces. */
  lemma {:induction false} SplitAtFirst(s: string, c: char) returns (first: string, rest: string)
    requires c in s
    ensures s == first + [c] + rest && c !in first
    ensures Split(s, c) == [first] + Split(rest, c)
    decreases |s|
  {
    if s[0] == c {
      first, rest := "", s[1..];
      assert s == first + [c] + rest;
    } else {
      var f, r := SplitAtFirst(s[1..], c);
      first, rest := [s[0]] + f, r;
      assert s == [s[0]] + s[1..];
    }
    SplitPieceThenSeparator(first, c, rest);
  }

  /** Python's `str.isspace` for one character: the characters `str.strip()` removes. */
  predicate IsSpace(c: char) {
    || c == ' ' || c == '\t' || c == '\n' || c == '\r' || c == '\U{000B}' || c == '\U{000C}'
    || '\U{001C}' <= c <= '\U{001F}' || c == '\U{0085}' || c == '\U{00A0}' || c == '\U{1680}'
    || '\U{2000}' <= c <= '\U{200A}' || c == '\U{2028}' || c == '\U{2029}' || c == '\U{202F}'
    || c == '\U{205F}' || c == '\U{3000}'
  }

  function StripLeft(s: string): (r: string)
    ensures r != [] ==> !IsSpace(r[0])
    decreases |s|
  {
    if s != [] && IsSpace(s[0]) then StripLeft(s[1..]) else s
  }

  function StripRight(s: string): (r: string)
    ensures r <= s
    ensures r != [] ==> !IsSpace(r[|r| - 1])
    decreases |s|
  {
    if s != [] && IsSpace(s[|s| - 1]) then StripRight(s[..|s| - 1]) else s
  }

  /** `s.strip()`: no white space left at either end. */
  function Strip(s: string): (r: string)
    ensures r != [] ==> !IsSpace(r[0]) && !IsSpace(r[|r| - 1])
  {
    StripRight(StripLeft(s))
  }

  /** A no-break space counts as white space, as in Python: `"\xa0aws".strip()` is `"aws"`. */
  lemma StripNoBreakSpace()
    ensures Strip("\U{00A0}aws") == "aws"
  {
    var t := "\U{00A0}aws";
    assert IsSpace(t[0]) && t[1..] == "aws";
    assert StripLeft("aws") == "aws";
  }

  /** `s.replace(a, b)` for one-character `a` and `b`. */
  function ReplaceChar(s: string, a: char, b: char): string {
    seq(|s|, i requires 0 <= i < |s| => if s[i] == a then b else s[i])
  }

  /** `'*' * n` */
  function Stars(n: nat): string {
    seq(n, _ => '*')
  }

  /** `[k for k in keywords if k in text]`, the loop shared by both skill extractors. */
  function Matching(keywords: seq<string>, text: string): (r: seq<string>)
    decreases |keywords|
  {
    if keywords == [] then []
    else
      var m := Matching(keywords[..|keywords| - 1], text);
      var k := keywords[|keywords| - 1];
      if Contains(text, k) then m + [k] else m
  }

  /** One more keyword of the list: the loop body of the matching loop. */
  lemma MatchingStep(keywords: seq<string>, text: string, i: nat)
    requires i < |keywords|
    ensures Matching(keywords[..i + 1], text) ==
      Matching(keywords[..i], text) + (if Contains(text, keywords[i]) then [keywords[i]] else [])
  {
    assert keywords[..i + 1][..i] == keywords[..i];
  }

  /** A keyword is reported exactly when it occurs in the text. */
  lemma {:induction false} MatchingMembers(keywords: seq<string>, text: string, k: string)
    ensures k in Matching(keywords, text) <==> k in keywords && Contains(text, k)
    decreases |keywords|
  {
    if keywords != [] {
      MatchingMembers(keywords[..|keywords| - 1], text, k);
      assert keywords == keywords[..|keywords| - 1] + [keywords[|keywords| - 1]];
    }
  }

  /** The reported keywords keep the order of the keyword list. */
  lemma {:induction false} MatchingOrder(keywords: seq<string>, text: string)
    ensures Subsequence(Matching(keywords, text), keywords)
    decreases |keywords|
  {
    if keywords != [] {
      var init := keywords[..|keywords| - 1];
      var k := keywords[|keywords| - 1];
      var m := Matching(init, text);
      MatchingOrder(init, text);
      if Contains(text, k) {
        assert (m + [k])[..|m|] == m;
        assert keywords[..|keywords| - 1] == init;
      } else {
        SubsequenceSnoc(m, init, k);
        assert init + [k] == keywords;
      }
    }
  }

  /** A keyword list without repeats gives a report without repeats. */
  lemma {:induction false} MatchingDistinct(keywords: seq<string>, text: string)
    requires Distinct(keywords)
    ensures Distinct(Matching(keywords, text))
    decreases |keywords|
  {
    if keywords != [] {
      var init := keywords[..|keywords| - 1];
      var k := keywords[|keywords| - 1];
      assert Distinct(init) by {
        forall i, j | 0 <= i < j < |init| ensures init[i] != init[j] {
          assert init[i] == keywords[i] && init[j] == keywords[j];
        }
      }
      MatchingDistinct(init, text);
      if Contains(text, k) {
        MatchingMembers(init, text, k);
        assert k !in init by {
          forall i | 0 <= i < |init| ensures init[i] != k {
            assert init[i] == keywords[i];
          }
        }
        DistinctSnoc(Matching(init, text), k);
      }
    }
  }
}
