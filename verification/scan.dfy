/**
 * The loop behind `String.prototype.replace` with a global regular
 * expression, independent of the expression: scan left to right; where a
 * match starts, emit the replacement and resume after the match; elsewhere
 * copy one character. The expression is abstracted as an anchored matcher,
 * which gives the length of the match at the start of a string (0 for none).
 */
module Scanning {
  import opened Text

  type Matcher = string -> nat

  /** Global replace of every match of `m` in `s` by `r`, taken literally. */
  function Scan(s: string, m: Matcher, r: string): string
    decreases |s|
  {
    if s == [] then []
    else
      var e := m(s);
      if 0 < e <= |s| then r + Scan(s[e..], m, r)
      else [s[0]] + Scan(s[1..], m, r)
  }

  /** No match of `m` starts anywhere in `s`. */
  predicate Silent(m: Matcher, s: string) {
    forall i | 0 <= i < |s| :: m(s[i..]) == 0
  }

  /** Every occurrence of `t` is the start of a match of `m` (as for the literal regex `t`). */
  ghost predicate Catches(m: Matcher, t: string) {
    forall x :: StartsWith(x, t) ==> 0 < m(x) <= |x|
  }

  /** A scan that finds no match returns its input unchanged. */
  lemma {:induction false} ScanSilent(s: string, m: Matcher, r: string)
    requires Silent(m, s)
    ensures Scan(s, m, r) == s
    decreases |s|
  {
    if s != [] {
      assert s[0..] == s;
      assert Silent(m, s[1..]) by {
        forall i | 0 <= i < |s[1..]| ensures m(s[1..][i..]) == 0 {
          assert s[1..][i..] == s[i + 1..];
        }
      }
      ScanSilent(s[1..], m, r);
    }
  }

  /** Where no match starts, the scan copies one character and moves on. */
  lemma ScanStep(s: string, m: Matcher, r: string)
    requires s != [] && m(s) == 0
    ensures Scan(s, m, r) == [s[0]] + Scan(s[1..], m, r)
  {
  }

  /** Where a match starts, the scan emits the replacement and resumes after the match. */
  lemma ScanMatch(s: string, m: Matcher, r: string)
    requires 0 < m(s) <= |s|
    ensures Scan(s, m, r) == r + Scan(s[m(s)..], m, r)
  {
  }

  /** The scan copies a prefix of length `n` in which no match starts. */
  lemma {:induction false} ScanPrefix(s: string, m: Matcher, r: string, n: nat)
    requires n <= |s|
    requires forall i | 0 <= i < n :: m(s[i..]) == 0
    ensures Scan(s, m, r) == s[..n] + Scan(s[n..], m, r)
  {
    if n == 0 {
      assert s[0..] == s;
    } else {
      var t := s[n - 1..];
      ScanPrefix(s, m, r, n - 1);
      ScanStep(t, m, r);
      assert t[1..] == s[n..] && t[0] == s[n - 1];
      assert s[..n] == s[..n - 1] + [s[n - 1]];
    }
  }

  /** The scan copies a prefix `x` in which no match starts. */
  lemma ScanSkip(x: string, y: string, m: Matcher, r: string)
    requires forall i | 0 <= i < |x| :: m((x + y)[i..]) == 0
    ensures Scan(x + y, m, r) == x + Scan(y, m, r)
  {
    ScanPrefix(x + y, m, r, |x|);
    assert (x + y)[..|x|] == x && (x + y)[|x|..] == y;
  }

  /*
   * When can a scan not re-create a forbidden text `t`? When its replacement
   * `r` is at least as long as `t`, does not contain `t`, and cannot combine
   * with neighbouring text into `t`: no tail of `r` starts `t` and no proper
   * tail of `t` starts `r`.
   */
  predicate Unbordered(r: string, t: string) {
    && 0 < |t| <= |r|
    && !Occurs(t, r)
    && (forall j | |r| - |t| < j < |r| :: !StartsWith(t, r[j..]))
    && (forall k | 0 < k < |t| :: !StartsWith(r, t[k..]))
  }

  /**
   * A sufficient condition for `Unbordered(a + b, t)` that can be checked
   * character by character: `t` can only start at the first character of
   * `b`, and does not start there; and `t` never contains the first character
   * of `a`.
   */
  lemma UnborderedBySplit(a: string, b: string, t: string)
    requires 0 < |t| <= |b| && a != []
    requires a[0] !in t && t[0] !in a && t[0] !in b[1..]
    requires !StartsWith(b, t)
    ensures Unbordered(a + b, t)
  {
    var r := a + b;
    forall i | 0 <= i <= |r| ensures !StartsWith(r[i..], t) {
      if i < |a| {
        assert r[i..][0] == a[i] && a[i] in a;
      } else if i == |a| {
        assert r[i..] == b;
      } else if i < |r| {
        assert r[i..][0] == b[1..][i - |a| - 1] && b[1..][i - |a| - 1] in b[1..];
      }
    }
    forall j | |r| - |t| < j < |r| ensures !StartsWith(t, r[j..]) {
      assert r[j..][0] == b[1..][j - |a| - 1] && b[1..][j - |a| - 1] in b[1..];
    }
    forall k | 0 < k < |t| ensures !StartsWith(r, t[k..]) {
      assert r[0] == a[0] && t[k..][0] == t[k] && t[k] in t;
    }
  }

  /** Two texts free of `t` stay free of it when joined, if no tail of the first starts `t`. */
  lemma ConcatFree(x: string, y: string, t: string)
    requires 0 < |t| && !Occurs(t, x) && !Occurs(t, y)
    requires forall j | |x| - |t| < j < |x| && 0 <= j :: !StartsWith(t, x[j..])
    ensures !Occurs(t, x + y)
  {
    var xy := x + y;
    forall i | 0 <= i <= |xy| ensures !StartsWith(xy[i..], t) {
      if i + |t| <= |x| {
        NotAt(t, x, i);
        assert xy[i..][..|t|] == x[i..][..|t|];
      } else if i >= |x| {
        assert xy[i..] == y[i - |x|..];
        NotAt(t, y, i - |x|);
      } else {
        assert xy[i..][..|x| - i] == x[i..];
        assert !StartsWith(t, x[i..]);
      }
    }
  }

  /** A text free of `t` has no occurrence of `t` at any position. */
  lemma NotAt(t: string, s: string, i: nat)
    requires i <= |s| && !Occurs(t, s)
    ensures !StartsWith(s[i..], t)
  {
  }

  /** A tail of a text free of `t` is free of `t`. */
  lemma SuffixFree(s: string, e: nat, t: string)
    requires e <= |s| && !Occurs(t, s)
    ensures !Occurs(t, s[e..])
  {
    forall i | 0 <= i <= |s[e..]| ensures !StartsWith(s[e..][i..], t) {
      assert s[e..][i..] == s[e + i..];
      NotAt(t, s, e + i);
    }
  }

  /**
   * If the output of a scan starts with a proper tail of `t`, so did its
   * input: the replacement never supplies the start of such a tail.
   */
  lemma {:induction false} TailSurvives(s: string, m: Matcher, r: string, t: string, k: nat)
    requires Unbordered(r, t) && 0 < k < |t|
    requires StartsWith(Scan(s, m, r), t[k..])
    ensures StartsWith(s, t[k..])
    decreases |s|
  {
    var u := t[k..];
    if s == [] {
    } else if 0 < m(s) <= |s| {
      assert false;
    } else {
      var rest := Scan(s[1..], m, r);
      var out := [s[0]] + rest;
      assert Scan(s, m, r) == out;
      assert u[0] == s[0];
      if k + 1 < |t| {
        assert rest[..|u| - 1] == out[1..|u|];
        assert t[k + 1..] == u[1..];
        TailSurvives(s[1..], m, r, t, k + 1);
        assert s[..|u|] == [s[0]] + s[1..][..|u| - 1];
      }
    }
  }

  /**
   * A scan keeps `t` out of its output when its replacement is unbordered
   * with respect to `t`, and either the input is already free of `t` or the
   * matcher catches every occurrence of `t`.
   */
  lemma {:induction false} ScanFree(s: string, m: Matcher, r: string, t: string)
    requires Unbordered(r, t)
    requires !Occurs(t, s) || Catches(m, t)
    ensures !Occurs(t, Scan(s, m, r))
    decreases |s|
  {
    if s == [] {
      assert forall i | 0 <= i <= 0 :: !StartsWith([][i..], t);
    } else {
      var e := m(s);
      if 0 < e <= |s| {
        var rest := Scan(s[e..], m, r);
        if !Occurs(t, s) {
          SuffixFree(s, e, t);
        }
        ScanFree(s[e..], m, r, t);
        ConcatFree(r, rest, t);
      } else {
        var rest := Scan(s[1..], m, r);
        var out := [s[0]] + rest;
        assert Scan(s, m, r) == out;
        if !Occurs(t, s) {
          SuffixFree(s, 1, t);
        }
        ScanFree(s[1..], m, r, t);
        forall i | 0 <= i <= |out| ensures !StartsWith(out[i..], t) {
          if i == 0 {
            assert !StartsWith(s, t) by {
              if !Catches(m, t) {
                NotAt(t, s, 0);
                assert s[0..] == s;
              }
            }
            if |t| > 1 && StartsWith(rest, t[1..]) {
              TailSurvives(s[1..], m, r, t, 1);
              assert s[..|t|] == [s[0]] + s[1..][..|t| - 1];
            }
            assert out[0..] == out;
          } else {
            assert out[i..] == rest[i - 1..];
            NotAt(t, rest, i - 1);
          }
        }
      }
    }
  }
}
