// The chat page's bold rendering (server.js:152): every match of the regular
// expression  \*\*(.*?)\*\*  (flag g) is replaced by <strong>$1</strong>.
// The scan is leftmost and non-overlapping; `.*?` is lazy, so a match closes
// at the first `**` after the opening one, and `.` does not cross a line
// terminator.
module Markup {
  import opened Wrappers
  import Inventory

  /** The characters JavaScript's `.` refuses to match. */
  predicate IsLineTerminator(c: char) {
    c == '\n' || c == '\r' || c == '\U{2028}' || c == '\U{2029}'
  }

  /** `**` starts at index `i` of `s`. */
  predicate MarkerAt(s: string, i: int) {
    0 <= i && i + 1 < |s| && s[i] == '*' && s[i + 1] == '*'
  }

  /** `(.*?)\*\*`, tried from index `j`, can stop with the closing `**` at `q`:
      the captured text `s[j..q]` stays on one line. */
  predicate ClosesAt(s: string, j: int, q: int) {
    0 <= j <= q && MarkerAt(s, q) && forall k :: j <= k < q ==> !IsLineTerminator(s[k])
  }

  /** Where the lazy group opened at `j` closes: the least `q` it can stop at. */
  function CloseFrom(s: string, j: nat): (r: Option<nat>)
    requires j <= |s|
    ensures r.Some? ==> ClosesAt(s, j, r.value)
    ensures r.Some? ==> forall q :: j <= q < r.value ==> !ClosesAt(s, j, q)
    ensures r.None? ==> forall q :: !ClosesAt(s, j, q)
    decreases |s| - j
  {
    if j + 2 > |s| then None
    else if MarkerAt(s, j) then Some(j)
    else if IsLineTerminator(s[j]) then None
    else
      var r := CloseFrom(s, j + 1);
      assert forall q :: ClosesAt(s, j, q) && q != j ==> ClosesAt(s, j + 1, q);
      r
  }

  /** The regular expression matches at the very start of `t`. */
  predicate StartsMatch(t: string) {
    MarkerAt(t, 0) && CloseFrom(t, 2).Some?
  }

  /** The replacement `<strong>$1</strong>` for a captured text. */
  function Strong(x: string): string {
    "<strong>" + x + "</strong>"
  }

  /** The rewritten text. */
  function Bold(s: string): (r: string)
    decreases |s|
  {
    if s == [] then []
    else if StartsMatch(s) then
      var q := CloseFrom(s, 2).value;
      Strong(s[2..q]) + Bold(s[q + 2..])
    else [s[0]] + Bold(s[1..])
  }

  // ---------------------------------------------------------------------------
  // What the rewrite does
  // ---------------------------------------------------------------------------

  /** Text in which no match starts anywhere is left unchanged. */
  lemma {:induction false} BoldNoMatch(s: string)
    requires forall p :: 0 <= p < |s| ==> !StartsMatch(s[p..])
    ensures Bold(s) == s
  {
    if s != [] {
      assert s[0..] == s;
      forall p | 0 <= p < |s[1..]| ensures !StartsMatch(s[1..][p..]) {
        assert s[1..][p..] == s[p + 1..];
      }
      BoldNoMatch(s[1..]);
    }
  }

  /** Positions before the first match are copied through verbatim. */
  lemma {:induction false} BoldSkip(s: string, p: nat)
    requires p <= |s|
    requires forall i {:trigger StartsMatch(s[i..])} :: 0 <= i < p ==> !StartsMatch(s[i..])
    ensures Bold(s) == s[..p] + Bold(s[p..])
  {
    if p > 0 {
      assert s[0..] == s;
      forall i | 0 <= i < p - 1 ensures !StartsMatch(s[1..][i..]) {
        assert s[1..][i..] == s[i + 1..];
      }
      BoldSkip(s[1..], p - 1);
      assert s[1..][..p - 1] == s[1..p];
      assert s[1..][p - 1..] == s[p..];
      assert s[..p] == [s[0]] + s[1..p];
    }
  }

  /** One step of the rewrite at a match. */
  lemma BoldAtMatch(t: string)
    requires StartsMatch(t)
    ensures var q := CloseFrom(t, 2).value;
      2 <= q && q + 2 <= |t| &&
      Bold(t) == Strong(t[2..q]) + Bold(t[q + 2..])
  {
    assert t != [];
  }

  /** The leftmost match, opening at `p` and closing at the first `**` after
      it on the same line, is replaced by `<strong>…</strong>`; everything
      before it is kept and the scan resumes after the closing `**`. */
  lemma BoldLeftmost(s: string, p: nat)
    requires p < |s| && StartsMatch(s[p..])
    requires forall i {:trigger StartsMatch(s[i..])} :: 0 <= i < p ==> !StartsMatch(s[i..])
    ensures Bold(s) == s[..p] + Bold(s[p..])
    ensures var t := s[p..];
      var q := CloseFrom(t, 2).value;
      Bold(t) == Strong(t[2..q]) + Bold(t[q + 2..])
  {
    BoldSkip(s, p);
    BoldAtMatch(s[p..]);
  }

  /** Undoes the rewrite: every `<strong>` and `</strong>` back to `**`. */
  function Unbold(t: string): string
    decreases |t|
  {
    if t == [] then []
    else if t[0] == '<' && |t| >= 8 && t[..8] == "<strong>" then "**" + Unbold(t[8..])
    else if t[0] == '<' && |t| >= 9 && t[..9] == "</strong>" then "**" + Unbold(t[9..])
    else [t[0]] + Unbold(t[1..])
  }

  lemma {:induction false} UnboldPlain(p: string, t: string)
    requires '<' !in p
    ensures Unbold(p + t) == p + Unbold(t)
  {
    if p == [] {
      assert p + t == t;
    } else {
      assert p[0] in p;
      assert (p + t)[0] == p[0] && (p + t)[1..] == p[1..] + t;
      assert forall c :: c in p[1..] ==> c in p;
      UnboldPlain(p[1..], t);
      assert Unbold(p + t) == [p[0]] + Unbold(p[1..] + t);
      assert p == [p[0]] + p[1..];
    }
  }

  lemma UnboldTags(t: string)
    ensures Unbold("<strong>" + t) == "**" + Unbold(t)
    ensures Unbold("</strong>" + t) == "**" + Unbold(t)
  {
    assert ("<strong>" + t)[..8] == "<strong>" && ("<strong>" + t)[8..] == t;
    assert ("</strong>" + t)[1] != "<strong>"[1];
    assert ("</strong>" + t)[..9] == "</strong>" && ("</strong>" + t)[9..] == t;
  }

  /** Undoing one replaced pair gives back `**mid**`. */
  lemma UnboldPair(mid: string, rest: string)
    requires '<' !in mid
    ensures Unbold(Strong(mid) + rest) == "**" + mid + "**" + Unbold(rest)
  {
    var closing := "</strong>" + rest;
    var u1 := Unbold(closing);
    assert u1 == "**" + Unbold(rest) by {
      UnboldTags(rest);
    }
    var u2 := Unbold(mid + closing);
    assert u2 == mid + u1 by {
      UnboldPlain(mid, closing);
    }
    assert Unbold("<strong>" + (mid + closing)) == "**" + u2 by {
      UnboldTags(mid + closing);
    }
    assert Strong(mid) + rest == "<strong>" + (mid + closing);
  }

  /** A text that opens with `**` and has `**` again at `q`. */
  lemma SplitAtMarkers(s: string, q: nat)
    requires MarkerAt(s, 0) && 2 <= q && MarkerAt(s, q)
    ensures s == "**" + s[2..q] + "**" + s[q + 2..]
  {
    var r := "**" + s[2..q] + "**" + s[q + 2..];
    assert |r| == |s|;
    forall k | 0 <= k < |s| ensures r[k] == s[k] {
      if k < 2 {
      } else if k < q {
        assert r[k] == s[2..q][k - 2];
      } else if k < q + 2 {
      } else {
        assert r[k] == s[q + 2..][k - q - 2];
      }
    }
  }

  /** The rewrite loses no text: on input without `<`, undoing it gives the
      input back. */
  lemma {:induction false} BoldRoundTrip(s: string)
    requires '<' !in s
    ensures Unbold(Bold(s)) == s
  {
    if s == [] {
    } else if StartsMatch(s) {
      var q := CloseFrom(s, 2).value;
      var mid, rest := s[2..q], s[q + 2..];
      assert '<' !in mid && '<' !in rest by {
        assert forall c :: c in mid ==> c in s;
        assert forall c :: c in rest ==> c in s;
      }
      var b := Bold(rest);
      assert Bold(s) == Strong(mid) + b by {
        BoldAtMatch(s);
      }
      assert Unbold(b) == rest by {
        BoldRoundTrip(rest);
      }
      assert Unbold(Strong(mid) + b) == "**" + mid + "**" + rest by {
        UnboldPair(mid, b);
      }
      SplitAtMarkers(s, q);
    } else {
      assert '<' !in s[1..] by {
        assert forall c :: c in s[1..] ==> c in s;
      }
      var b := Bold(s[1..]);
      assert Bold(s) == [s[0]] + b;
      assert Unbold(b) == s[1..] by {
        BoldRoundTrip(s[1..]);
      }
      assert Unbold([s[0]] + b) == [s[0]] + s[1..] by {
        assert s[0] in s;
        UnboldPlain([s[0]], b);
      }
      assert s == [s[0]] + s[1..];
    }
  }

  // ---------------------------------------------------------------------------
  // The rewrite applied to the stock tool's reply
  // ---------------------------------------------------------------------------

  /** Text without `*` passes through the rewrite unchanged, whatever follows. */
  lemma {:induction false} BoldPlain(p: string, t: string)
    requires '*' !in p
    ensures Bold(p + t) == p + Bold(t)
  {
    if p == [] {
      assert p + t == t;
    } else {
      assert p[0] in p;
      assert (p + t)[0] == p[0] && (p + t)[1..] == p[1..] + t;
      assert !MarkerAt(p + t, 0);
      assert forall c :: c in p[1..] ==> c in p;
      BoldPlain(p[1..], t);
      assert Bold(p + t) == [p[0]] + Bold(p[1..] + t);
      assert p == [p[0]] + p[1..];
    }
  }

  /** `**x**` with no `*` and no line break in `x` becomes `<strong>x</strong>`. */
  lemma BoldPair(x: string, t: string)
    requires '*' !in x
    requires forall i :: 0 <= i < |x| ==> !IsLineTerminator(x[i])
    ensures Bold("**" + x + "**" + t) == Strong(x) + Bold(t)
  {
    var s := "**" + x + "**" + t;
    var q := 2 + |x|;
    assert ClosesAt(s, 2, q);
    forall q' | 2 <= q' < q ensures !MarkerAt(s, q') {
      assert s[q'] == x[q' - 2];
    }
    assert CloseFrom(s, 2) == Some(q);
    assert s[2..q] == x && s[q + 2..] == t;
  }

  predicate PlainName(name: string) {
    '*' !in name && forall i :: 0 <= i < |name| ==> !IsLineTerminator(name[i])
  }

  lemma Regroup(lead: string, marker: string, bar: string, unit: string, name: string, digits: string)
    ensures (lead + marker) + name + (marker + bar + marker) + digits + (unit + marker) ==
      lead + (marker + name + marker + (bar + (marker + (digits + unit) + marker)))
  {
  }

  /** The reply template, cut at its four `**` markers. */
  lemma FormatSplit(row: Inventory.Row)
    ensures Inventory.Format(row) ==
      Inventory.Lead + ("**" + row.name + "**" + (Inventory.Bar + ("**" + (Inventory.Decimal(row.stock) + Inventory.Unit) + "**")))
  {
    Regroup(Inventory.Lead, "**", Inventory.Bar, Inventory.Unit, row.name, Inventory.Decimal(row.stock));
  }

  /** The stock count `<digits> وحدة` holds no `*` and no line break. */
  lemma CountPlain(n: nat)
    ensures PlainName(Inventory.Decimal(n) + Inventory.Unit)
  {
    var d := Inventory.Decimal(n);
    assert Inventory.IsDigits(d);
    var c := d + Inventory.Unit;
    forall i | 0 <= i < |c| ensures c[i] != '*' && !IsLineTerminator(c[i]) {
      if i < |d| {
        assert c[i] == d[i];
      } else {
        assert c[i] == Inventory.Unit[i - |d|];
      }
    }
  }

  /** A found reply renders with the product name and the stock in bold:
      `المنتج: <strong>name</strong> | المخزون: <strong>stock وحدة</strong>`. */
  lemma BoldFormat(row: Inventory.Row)
    requires PlainName(row.name)
    ensures Bold(Inventory.Format(row)) ==
      Inventory.Lead + Strong(row.name) + Inventory.Bar + Strong(Inventory.Decimal(row.stock) + Inventory.Unit)
  {
    var name, count := row.name, Inventory.Decimal(row.stock) + Inventory.Unit;
    var tail := "**" + count + "**";
    var rest := Inventory.Bar + tail;
    CountPlain(row.stock);
    assert Inventory.Format(row) == Inventory.Lead + ("**" + name + "**" + rest) by {
      FormatSplit(row);
    }
    var b1 := Bold(tail);
    assert b1 == Strong(count) by {
      assert tail == "**" + count + "**" + [];
      BoldPair(count, []);
    }
    var b2 := Bold(rest);
    assert b2 == Inventory.Bar + b1 by {
      BoldPlain(Inventory.Bar, tail);
    }
    var b3 := Bold("**" + name + "**" + rest);
    assert b3 == Strong(name) + b2 by {
      BoldPair(name, rest);
    }
    assert Bold(Inventory.Lead + ("**" + name + "**" + rest)) == Inventory.Lead + b3 by {
      BoldPlain(Inventory.Lead, "**" + name + "**" + rest);
    }
  }
}
