/**
 * The byte-string helpers of Go's `strings` and `strconv` packages that the
 * scraper relies on, restricted to ASCII text: `TrimSpace`, `ToLower`,
 * `Contains`, `HasPrefix`, `ReplaceAll`, `Split`/`Join` on one separator
 * character and `Atoi`.
 */
module Text {
  import opened Wrappers

  /** ASCII white space as Go's `unicode.IsSpace` sees it: space, \t, \n, \v, \f, \r. */
  predicate IsSpace(c: char) {
    c == ' ' || c == '\t' || c == '\n' || c == '\r' || c as int == 11 || c as int == 12
  }

  predicate AllSpace(s: string) {
    forall k :: 0 <= k < |s| ==> IsSpace(s[k])
  }

  /** `r` is `s` with a white-space prefix of length `i` and a white-space suffix removed. */
  predicate TrimmedAt(s: string, r: string, i: int) {
    0 <= i <= |s| - |r| && r == s[i..i + |r|] && AllSpace(s[..i]) && AllSpace(s[i + |r|..])
  }

  /**
   * `strings.TrimSpace`: white space is removed one character at a time from
   * the front, then from the back, until neither end is white space.
   */
  function TrimSpace(s: string): (r: string)
    ensures |r| <= |s|
    ensures r != [] ==> !IsSpace(r[0]) && !IsSpace(r[|r| - 1])
    decreases |s|
  {
    if |s| > 0 && IsSpace(s[0]) then TrimSpace(s[1..])
    else if |s| > 0 && IsSpace(s[|s| - 1]) then TrimSpace(s[..|s| - 1])
    else s
  }

  lemma TrimmedAtFront(s: string, r: string, i: int)
    requires |s| > 0 && IsSpace(s[0]) && TrimmedAt(s[1..], r, i)
    ensures TrimmedAt(s, r, i + 1)
  {
    assert s[1..][i..i + |r|] == s[i + 1..i + 1 + |r|];
    assert s[1..][i + |r|..] == s[i + 1 + |r|..];
    var pre := s[..i + 1];
    forall k | 0 <= k < i + 1 ensures IsSpace(pre[k]) {
      if k > 0 { assert pre[k] == s[1..][..i][k - 1]; }
    }
  }

  lemma TrimmedAtBack(s: string, r: string, i: int)
    requires |s| > 0 && IsSpace(s[|s| - 1]) && TrimmedAt(s[..|s| - 1], r, i)
    ensures TrimmedAt(s, r, i)
  {
    var t := s[..|s| - 1];
    assert t[i..i + |r|] == s[i..i + |r|];
    assert t[..i] == s[..i];
    var suf := s[i + |r|..];
    forall k | 0 <= k < |suf| ensures IsSpace(suf[k]) {
      if k < |t| - (i + |r|) { assert suf[k] == t[i + |r|..][k]; }
    }
  }

  /** The result is a slice of `s` framed by white space only. */
  lemma {:induction false} TrimSpaceTrims(s: string)
    ensures exists i :: TrimmedAt(s, TrimSpace(s), i)
    decreases |s|
  {
    var r := TrimSpace(s);
    if |s| > 0 && IsSpace(s[0]) {
      TrimSpaceTrims(s[1..]);
      var i :| TrimmedAt(s[1..], r, i);
      TrimmedAtFront(s, r, i);
    } else if |s| > 0 && IsSpace(s[|s| - 1]) {
      TrimSpaceTrims(s[..|s| - 1]);
      var i :| TrimmedAt(s[..|s| - 1], r, i);
      TrimmedAtBack(s, r, i);
    } else {
      assert TrimmedAt(s, r, 0);
    }
  }

  lemma TrimSpaceEmptyIffBlank(s: string)
    ensures TrimSpace(s) == [] <==> AllSpace(s)
  {
    var r := TrimSpace(s);
    TrimSpaceTrims(s);
    var i :| TrimmedAt(s, r, i);
    assert TrimmedAt(s, r, i);
    if r == [] {
      forall k | 0 <= k < |s| ensures IsSpace(s[k]) {
        if k < i { assert s[k] == s[..i][k]; } else { assert s[k] == s[i..][k - i]; }
      }
    } else {
      assert s[i] == r[0];
    }
  }

  lemma {:induction false} TrimSpaceIdempotent(s: string)
    ensures TrimSpace(TrimSpace(s)) == TrimSpace(s)
  {
  }

  function LowerChar(c: char): char {
    if 'A' <= c <= 'Z' then (c as int + 32) as char else c
  }

  /** `strings.ToLower` on ASCII text. */
  function Lower(s: string): (r: string)
    ensures |r| == |s|
    ensures forall k :: 0 <= k < |s| ==> r[k] == LowerChar(s[k])
  {
    if s == [] then [] else [LowerChar(s[0])] + Lower(s[1..])
  }

  lemma LowerAppend(a: string, b: string)
    ensures Lower(a + b) == Lower(a) + Lower(b)
  {
    assert forall k :: 0 <= k < |a + b| ==> Lower(a + b)[k] == (Lower(a) + Lower(b))[k];
  }

  /** `p` occurs in `s` starting at offset `i`. */
  predicate OccursAt(s: string, p: string, i: int) {
    0 <= i <= |s| - |p| && s[i..i + |p|] == p
  }

  /** `strings.Contains`: `p` occurs in `s` at some offset. */
  predicate Contains(s: string, p: string) {
    exists i :: 0 <= i <= |s| - |p| && OccursAt(s, p, i)
  }

  /** Some pattern of `ps` occurs in `s`: a loop over `ps` that returns on the first hit. */
  predicate ContainsAny(s: string, ps: seq<string>) {
    exists k :: 0 <= k < |ps| && Contains(s, ps[k])
  }

  lemma {:induction false} ContainsInConcat(a: string, b: string, c: string, p: string)
    requires Contains(b, p)
    ensures Contains(a + b + c, p)
  {
    var i :| OccursAt(b, p, i);
    assert OccursAt(b, p, i);
    var s := a + b + c;
    assert s[|a| + i..|a| + i + |p|] == p by {
      forall k | 0 <= k < |p| ensures s[|a| + i + k] == p[k] {
        assert s[|a| + i + k] == b[i + k];
        assert b[i..i + |p|][k] == b[i + k];
      }
    }
    assert OccursAt(s, p, |a| + i);
  }

  lemma {:induction false} ContainsOfInner(s: string, q: string, p: string)
    requires Contains(s, q) && Contains(q, p)
    ensures Contains(s, p)
  {
    var i :| OccursAt(s, q, i);
    assert OccursAt(s, q, i);
    var j :| OccursAt(q, p, j);
    assert OccursAt(q, p, j);
    assert s[i + j..i + j + |p|] == p by {
      forall k | 0 <= k < |p| ensures s[i + j + k] == p[k] {
        assert q[j..j + |p|][k] == q[j + k];
        assert s[i..i + |q|][j + k] == s[i + j + k];
      }
    }
    assert OccursAt(s, p, i + j);
  }

  lemma {:induction false} ContainsPrefixOf(s: string, q: string, p: string)
    requires Contains(s, q) && p <= q
    ensures Contains(s, p)
  {
    assert q[0..|p|] == p;
    assert OccursAt(q, p, 0);
    ContainsOfInner(s, q, p);
  }

  lemma {:induction false} ContainsLower(s: string, p: string)
    requires Contains(s, p)
    ensures Contains(Lower(s), Lower(p))
  {
    var i :| OccursAt(s, p, i);
    assert OccursAt(s, p, i);
    var ls := Lower(s);
    assert ls[i..i + |p|] == Lower(p) by {
      forall k | 0 <= k < |p| ensures ls[i + k] == Lower(p)[k] {
        assert s[i..i + |p|][k] == s[i + k];
      }
    }
    assert OccursAt(ls, Lower(p), i);
  }

  /**
   * `strings.ReplaceAll`: one left-to-right pass replacing non-overlapping
   * occurrences of `target` by `repl`; an empty `target` inserts `repl` around every byte.
   */
  function ReplaceAll(s: string, target: string, repl: string): string
    decreases |s|
  {
    if target == [] then
      (if s == [] then repl else repl + [s[0]] + ReplaceAll(s[1..], target, repl))
    else if s == [] then []
    else if target <= s then repl + ReplaceAll(s[|target|..], target, repl)
    else [s[0]] + ReplaceAll(s[1..], target, repl)
  }

  lemma {:induction false} ReplaceAllAbsent(s: string, target: string, repl: string)
    requires target != [] && !Contains(s, target)
    ensures ReplaceAll(s, target, repl) == s
    decreases |s|
  {
    if s != [] {
      if target <= s {
        assert s[0..|target|] == target;
        assert OccursAt(s, target, 0);
      }
      if Contains(s[1..], target) {
        var i :| OccursAt(s[1..], target, i);
        assert OccursAt(s[1..], target, i);
        assert s[1..][i..i + |target|] == s[i + 1..i + 1 + |target|];
        assert OccursAt(s, target, i + 1);
      }
      ReplaceAllAbsent(s[1..], target, repl);
    }
  }

  /** `strings.Split(s, string(sep))`: the pieces between separators; never empty. */
  function Split(s: string, sep: char): (r: seq<string>)
    ensures |r| >= 1
    ensures forall k :: 0 <= k < |r| ==> sep !in r[k]
    decreases |s|
  {
    if s == [] then [""]
    else
      var rest := Split(s[1..], sep);
      if s[0] == sep then [""] + rest else [[s[0]] + rest[0]] + rest[1..]
  }

  /** `strings.Join(ps, string(sep))`. */
  function Join(ps: seq<string>, sep: char): string
    decreases |ps|
  {
    if ps == [] then ""
    else if |ps| == 1 then ps[0]
    else ps[0] + [sep] + Join(ps[1..], sep)
  }

  lemma {:induction false} JoinSplit(s: string, sep: char)
    ensures Join(Split(s, sep), sep) == s
    decreases |s|
  {
    if s != [] {
      JoinSplit(s[1..], sep);
      var rest := Split(s[1..], sep);
      if s[0] == sep {
        assert Split(s, sep) == [""] + rest;
        assert Join([""] + rest, sep) == "" + [sep] + Join(rest, sep);
      } else {
        var r := [[s[0]] + rest[0]] + rest[1..];
        assert Split(s, sep) == r;
        if |rest| == 1 {
          assert Join(r, sep) == [s[0]] + rest[0];
        } else {
          assert r[1..] == rest[1..];
          assert Join(r, sep) == [s[0]] + rest[0] + [sep] + Join(rest[1..], sep);
          assert Join(rest, sep) == rest[0] + [sep] + Join(rest[1..], sep);
        }
        assert s == [s[0]] + s[1..];
      }
    }
  }

  lemma {:induction false} SplitJoin(ps: seq<string>, sep: char)
    requires |ps| >= 1
    requires forall k :: 0 <= k < |ps| ==> sep !in ps[k]
    ensures Split(Join(ps, sep), sep) == ps
    decreases |ps|, |ps[0]|
  {
    if ps[0] == [] {
      if |ps| > 1 {
        SplitJoin(ps[1..], sep);
        assert Join(ps, sep) == [sep] + Join(ps[1..], sep);
        assert ([sep] + Join(ps[1..], sep))[1..] == Join(ps[1..], sep);
        assert ps == [""] + ps[1..];
      }
    } else {
      var c := ps[0][0];
      assert c in ps[0];
      var qs := [ps[0][1..]] + ps[1..];
      forall k | 0 <= k < |qs| ensures sep !in qs[k] {
        if k == 0 { assert forall x :: x in ps[0][1..] ==> x in ps[0]; }
        else { assert qs[k] == ps[k]; }
      }
      SplitJoin(qs, sep);
      var j := Join(ps, sep);
      if |ps| == 1 {
        assert j == [c] + Join(qs, sep);
      } else {
        assert qs[1..] == ps[1..];
        assert j == [c] + (ps[0][1..] + [sep] + Join(ps[1..], sep));
        assert Join(qs, sep) == ps[0][1..] + [sep] + Join(qs[1..], sep);
      }
      assert j == [c] + Join(qs, sep);
      assert j[1..] == Join(qs, sep);
      assert ps[0] == [c] + qs[0];
      assert ps == [[c] + qs[0]] + qs[1..];
    }
  }

  // ---------------------------------------------------------------------------
  // strconv.Atoi

  predicate IsDigit(c: char) { '0' <= c <= '9' }

  predicate AllDigits(s: string) { forall k :: 0 <= k < |s| ==> IsDigit(s[k]) }

  function DigitValue(c: char): int requires IsDigit(c) { c as int - '0' as int }

  /** The value of a run of decimal digits, most significant first. */
  function DigitsValue(s: string): (v: nat)
    requires AllDigits(s)
    decreases |s|
  {
    if s == [] then 0 else DigitsValue(s[..|s| - 1]) * 10 + DigitValue(s[|s| - 1])
  }

  const MinInt64: int := -0x8000_0000_0000_0000
  const MaxInt64: int := 0x7FFF_FFFF_FFFF_FFFF

  /**
   * `strconv.Atoi` on a 64-bit platform: an optional sign, then one or more
   * decimal digits, whose value must lie in the int64 range; anything else is an error.
   */
  function Atoi(s: string): (r: Option<int>)
    ensures r.Some? ==> MinInt64 <= r.value <= MaxInt64
  {
    var neg := |s| > 0 && s[0] == '-';
    var digits := if |s| > 0 && (s[0] == '-' || s[0] == '+') then s[1..] else s;
    if digits == [] || !AllDigits(digits) then None
    else
      var n: int := DigitsValue(digits);
      var v := if neg then -n else n;
      if MinInt64 <= v <= MaxInt64 then Some(v) else None
  }

  function DigitChar(d: int): char requires 0 <= d < 10 { ('0' as int + d) as char }

  /** Decimal digits of a natural number, as `strconv.Itoa` writes them. */
  function FormatNat(n: nat): (s: string)
    ensures s != [] && AllDigits(s)
    decreases n
  {
    if n < 10 then [DigitChar(n)] else FormatNat(n / 10) + [DigitChar(n % 10)]
  }

  /** `strconv.Itoa`. */
  function FormatInt(n: int): string {
    if n < 0 then "-" + FormatNat(-n) else FormatNat(n)
  }

  lemma {:induction false} DigitsValueFormat(n: nat)
    ensures DigitsValue(FormatNat(n)) == n
    decreases n
  {
    if n >= 10 {
      DigitsValueFormat(n / 10);
      var s := FormatNat(n);
      assert s[..|s| - 1] == FormatNat(n / 10);
    }
  }

  /** Formatting then parsing an int64 gives it back. */
  lemma AtoiFormatInt(n: int)
    requires MinInt64 <= n <= MaxInt64
    ensures Atoi(FormatInt(n)) == Some(n)
  {
    DigitsValueFormat(if n < 0 then -n else n);
    if n < 0 {
      assert FormatInt(n)[1..] == FormatNat(-n);
    } else {
      assert FormatNat(n)[0] != '-' && FormatNat(n)[0] != '+';
    }
  }
}
