/** The handful of Python string and os.path operations the core relies on.
    Only ASCII letters change case: str.lower()/str.upper() on other Unicode
    letters are outside this model. */
module Text {

  function LowerChar(c: char): char
  {
    if 'A' <= c <= 'Z' then (c as int + 32) as char else c
  }

  function UpperChar(c: char): char
  {
    if 'a' <= c <= 'z' then (c as int - 32) as char else c
  }

  /** str.lower() */
  function Lower(s: string): string
  {
    seq(|s|, i requires 0 <= i < |s| => LowerChar(s[i]))
  }

  /** str.upper() */
  function Upper(s: string): string
  {
    seq(|s|, i requires 0 <= i < |s| => UpperChar(s[i]))
  }

  /** Upper-casing forgets whatever case a string had before: two names that
      differ only in the case of their letters upper-case to the same string. */
  lemma UpperForgetsCase(s: string)
    ensures Upper(Lower(s)) == Upper(s)
    ensures Upper(Upper(s)) == Upper(s)
  {
    assert forall i | 0 <= i < |s| :: UpperChar(LowerChar(s[i])) == UpperChar(s[i]);
    assert forall i | 0 <= i < |s| :: UpperChar(UpperChar(s[i])) == UpperChar(s[i]);
  }

  /** str.endswith(suffix) */
  predicate EndsWith(s: string, suffix: string)
  {
    |suffix| <= |s| && s[|s| - |suffix|..] == suffix
  }

  /** str.endswith(tuple): true when any of the suffixes ends the string. */
  predicate EndsWithAny(s: string, suffixes: seq<string>)
  {
    exists k :: 0 <= k < |suffixes| && EndsWith(s, suffixes[k])
  }

  lemma EndsWithAnyConcat(s: string, xs: seq<string>, ys: seq<string>)
    ensures EndsWithAny(s, xs + ys) <==> EndsWithAny(s, xs) || EndsWithAny(s, ys)
  {
    if EndsWithAny(s, xs + ys) {
      var k :| 0 <= k < |xs + ys| && EndsWith(s, (xs + ys)[k]);
      if k >= |xs| {
        assert EndsWith(s, ys[k - |xs|]);
      }
    }
    if EndsWithAny(s, xs) {
      var k :| 0 <= k < |xs| && EndsWith(s, xs[k]);
      assert (xs + ys)[k] == xs[k];
    }
    if EndsWithAny(s, ys) {
      var k :| 0 <= k < |ys| && EndsWith(s, ys[k]);
      assert (xs + ys)[|xs| + k] == ys[k];
    }
  }

  /** os.path.join(a, b) with POSIX rules: an absolute b replaces a; otherwise
      a separator is inserted unless a is empty or already ends in one. */
  function PathJoin(a: string, b: string): (r: string)
    ensures EndsWith(r, b)
  {
    if |b| > 0 && b[0] == '/' then b
    else if a == [] || a[|a| - 1] == '/' then a + b
    else a + "/" + b
  }

  /** str.startswith(prefix) */
  predicate StartsWith(s: string, prefix: string)
  {
    |prefix| <= |s| && s[..|prefix|] == prefix
  }

  lemma StartsWithTransitive(a: string, b: string, c: string)
    requires StartsWith(a, b) && StartsWith(b, c)
    ensures StartsWith(a, c)
  {
    assert a[..|c|] == a[..|b|][..|c|];
  }

  /** Joining a relative, non-empty name always yields a strictly longer path
      that starts with the directory: a walk never revisits its own path. */
  lemma PathJoinExtends(a: string, b: string)
    requires |b| > 0 && b[0] != '/'
    ensures |PathJoin(a, b)| > |a|
    ensures StartsWith(PathJoin(a, b), a)
  {
  }

  /** os.path.basename(p): what follows the last '/'. */
  function Basename(p: string): (r: string)
    ensures '/' !in r
    ensures EndsWith(p, r)
    ensures |r| < |p| ==> p[|p| - |r| - 1] == '/'
    decreases |p|
  {
    if p == [] then []
    else if p[|p| - 1] == '/' then []
    else Basename(p[..|p| - 1]) + [p[|p| - 1]]
  }

  function DigitChar(d: nat): char
    requires d < 10
  {
    "0123456789"[d]
  }

  function DigitValue(c: char): nat
  {
    if '0' <= c <= '9' then c as nat - '0' as nat else 0
  }

  /** str(n) for a non-negative integer. */
  function NatToString(n: nat): (r: string)
    ensures |r| > 0
  {
    if n < 10 then [DigitChar(n)] else NatToString(n / 10) + [DigitChar(n % 10)]
  }

  /** int(s) for a string of decimal digits. */
  function ParseDecimal(s: string): nat
  {
    if s == [] then 0 else ParseDecimal(s[..|s| - 1]) * 10 + DigitValue(s[|s| - 1])
  }

  lemma {:induction false} ParseNatToString(n: nat)
    ensures ParseDecimal(NatToString(n)) == n
  {
    if n < 10 {
      assert NatToString(n)[..0] == [];
    } else {
      var s := NatToString(n);
      assert s[..|s| - 1] == NatToString(n / 10);
      ParseNatToString(n / 10);
    }
  }

  /** Distinct numbers print differently, so the labels "fs0", "fs1", ... never clash. */
  lemma NatToStringInjective(a: nat, b: nat)
    requires NatToString(a) == NatToString(b)
    ensures a == b
  {
    ParseNatToString(a);
    ParseNatToString(b);
  }
}
