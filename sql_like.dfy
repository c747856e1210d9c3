/** SQLite's default `LIKE` operator, as used by the stock query
    `WHERE name LIKE '%<query>%'`: `%` matches any run of characters, `_`
    exactly one character, every other character matches itself up to ASCII
    case (SQLite folds only 'A'..'Z'); there is no ESCAPE clause. A pattern
    longer than the LIKE pattern-length limit makes the query fail. */
module SqlLike {

  predicate IsAsciiUpper(c: char) {
    'A' <= c <= 'Z'
  }

  /** ASCII-only case folding: upper-case ASCII letters go to lower case,
      every other character is left alone. */
  function Fold(c: char): (r: char)
    ensures IsAsciiUpper(c) ==> r as int == c as int + 32
    ensures !IsAsciiUpper(c) ==> r == c
    ensures !IsAsciiUpper(r)
  {
    if IsAsciiUpper(c) then (c as int + 32) as char else c
  }

  function FoldStr(s: string): (r: string)
    ensures |r| == |s|
    ensures forall i :: 0 <= i < |s| ==> r[i] == Fold(s[i])
  {
    if s == [] then [] else [Fold(s[0])] + FoldStr(s[1..])
  }

  /** Does the text `s` match the LIKE pattern `p`? */
  predicate Like(p: string, s: string)
    decreases |p|, |s|
  {
    if p == [] then s == []
    else if p[0] == '%' then Like(p[1..], s) || (s != [] && Like(p, s[1..]))
    else if p[0] == '_' then s != [] && Like(p[1..], s[1..])
    else s != [] && Fold(p[0]) == Fold(s[0]) && Like(p[1..], s[1..])
  }

  /** A pattern with no wildcard characters in it. */
  predicate IsLiteral(q: string) {
    forall i :: 0 <= i < |q| ==> q[i] != '%' && q[i] != '_'
  }

  /** `w` occurs in `t` starting at offset `k`. */
  predicate OccursAt(t: string, w: string, k: int) {
    0 <= k && k + |w| <= |t| && t[k..k + |w|] == w
  }

  predicate Contains(t: string, w: string) {
    exists k :: 0 <= k <= |t| && OccursAt(t, w, k)
  }

  /** Bytes of the UTF-8 encoding of one character. */
  function CharBytes(c: char): (n: nat)
    ensures 1 <= n <= 4
    ensures c as int < 0x80 <==> n == 1
  {
    if c as int < 0x80 then 1
    else if c as int < 0x800 then 2
    else if c as int < 0x10000 then 3
    else 4
  }

  /** Bytes of the UTF-8 encoding of a text: at least one and at most four
      per character. */
  function Utf8Length(s: string): (n: nat)
    ensures |s| <= n <= 4 * |s|
  {
    if s == [] then 0 else CharBytes(s[0]) + Utf8Length(s[1..])
  }

  /** SQLite's default SQLITE_LIMIT_LIKE_PATTERN_LENGTH, in bytes. */
  const LikePatternLimit: nat := 50000

  /** `LIKE` fails with "LIKE or GLOB pattern too complex" on a pattern whose
      UTF-8 encoding is longer than the limit; the query then reports an error. */
  predicate PatternTooComplex(p: string) {
    Utf8Length(p) > LikePatternLimit
  }

  /** A literal pattern matches exactly the texts equal to it up to ASCII case. */
  lemma {:induction false} LikeLiteral(q: string, s: string)
    requires IsLiteral(q)
    ensures Like(q, s) <==> FoldStr(s) == FoldStr(q)
  {
    if q == [] {
    } else if s == [] {
    } else {
      assert IsLiteral(q[1..]) by {
        forall i | 0 <= i < |q[1..]| ensures q[1..][i] != '%' && q[1..][i] != '_' {
          assert q[1..][i] == q[i + 1];
        }
      }
      LikeLiteral(q[1..], s[1..]);
      assert FoldStr(s) == [Fold(s[0])] + FoldStr(s[1..]);
      assert FoldStr(q) == [Fold(q[0])] + FoldStr(q[1..]);
    }
  }

  /** A lone `%` matches every text. */
  lemma {:induction false} LikePercentAll(s: string)
    ensures Like("%", s)
  {
    if s != [] {
      LikePercentAll(s[1..]);
    }
  }

  /** A leading `%` lets the rest of the pattern match any suffix. */
  lemma {:induction false} LikeLeadingPercent(r: string, s: string)
    ensures Like("%" + r, s) <==> exists k :: 0 <= k <= |s| && Like(r, s[k..])
  {
    var p := "%" + r;
    assert p[1..] == r;
    if s == [] {
      assert s[0..] == s;
    } else {
      LikeLeadingPercent(r, s[1..]);
      assert s[0..] == s;
      if Like(p, s) {
        if !Like(r, s) {
          var k :| 0 <= k <= |s[1..]| && Like(r, s[1..][k..]);
          assert s[1..][k..] == s[k + 1..];
        }
      }
      if exists k :: 0 <= k <= |s| && Like(r, s[k..]) {
        var k :| 0 <= k <= |s| && Like(r, s[k..]);
        if k > 0 {
          assert s[1..][k - 1..] == s[k..];
        }
      }
    }
  }

  /** A literal followed by `%` matches the texts that begin with it, up to
      ASCII case. */
  lemma {:induction false} LikeLiteralPrefix(q: string, t: string)
    requires IsLiteral(q)
    ensures Like(q + "%", t) <==> |q| <= |t| && FoldStr(t[..|q|]) == FoldStr(q)
  {
    var p := q + "%";
    if q == [] {
      assert p == "%";
      LikePercentAll(t);
    } else {
      assert p[0] == q[0] && p[1..] == q[1..] + "%";
      assert IsLiteral(q[1..]) by {
        forall i | 0 <= i < |q[1..]| ensures q[1..][i] != '%' && q[1..][i] != '_' {
          assert q[1..][i] == q[i + 1];
        }
      }
      assert FoldStr(q) == [Fold(q[0])] + FoldStr(q[1..]);
      if t != [] {
        LikeLiteralPrefix(q[1..], t[1..]);
        if |q| <= |t| {
          assert t[..|q|] == [t[0]] + t[1..][..|q| - 1];
          assert FoldStr(t[..|q|]) == [Fold(t[0])] + FoldStr(t[1..][..|q| - 1]);
        }
      }
    }
  }

  /** Folding commutes with slicing. */
  lemma FoldStrSlice(s: string, i: int, j: int)
    requires 0 <= i <= j <= |s|
    ensures FoldStr(s)[i..j] == FoldStr(s[i..j])
  {
    var a, b := FoldStr(s)[i..j], FoldStr(s[i..j]);
    assert |a| == |b|;
    forall k | 0 <= k < |a| ensures a[k] == b[k] {
      assert a[k] == Fold(s[i + k]) && s[i..j][k] == s[i + k];
    }
  }

  /** The stock query's pattern `%q%`, for a query without wildcards, is plain
      substring containment after ASCII case folding. */
  lemma LikeContains(q: string, s: string)
    requires IsLiteral(q)
    ensures Like("%" + q + "%", s) <==> Contains(FoldStr(s), FoldStr(q))
  {
    assert "%" + q + "%" == "%" + (q + "%");
    LikeLeadingPercent(q + "%", s);
    if Like("%" + q + "%", s) {
      var k :| 0 <= k <= |s| && Like(q + "%", s[k..]);
      LikeContainsAt(q, s, k);
    }
    if Contains(FoldStr(s), FoldStr(q)) {
      var k :| 0 <= k <= |FoldStr(s)| && OccursAt(FoldStr(s), FoldStr(q), k);
      LikeContainsAt(q, s, k);
    }
  }

  /** `q%` matches the suffix of `s` from `k` exactly when folded `q` occurs
      in folded `s` at `k`. */
  lemma LikeContainsAt(q: string, s: string, k: int)
    requires IsLiteral(q) && 0 <= k <= |s|
    ensures Like(q + "%", s[k..]) <==> OccursAt(FoldStr(s), FoldStr(q), k)
  {
    LikeLiteralPrefix(q, s[k..]);
    if k + |q| <= |s| {
      assert s[k..][..|q|] == s[k..k + |q|];
      FoldStrSlice(s, k, k + |q|);
    }
  }

  /** A word holding a character the text lacks does not occur in the text. */
  lemma CharNotContained(t: string, w: string, i: int)
    requires 0 <= i < |w| && w[i] !in t
    ensures !Contains(t, w)
  {
    forall k | 0 <= k <= |t| ensures !OccursAt(t, w, k) {
      if k + |w| <= |t| {
        assert t[k..k + |w|][i] == t[k + i];
      }
    }
  }
}
