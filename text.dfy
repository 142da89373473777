/** The Python string builtins the pipeline relies on: lower(), split(), split(sep),
    strip(), the `in` substring test, re.findall(r'\b\w+\b') and str() of an integer. */
module Text {

  /** str.isspace() for one character */
  predicate IsSpace(c: char) {
    || c == ' ' || c == '\t' || c == '\n' || c == '\r' || c == '\U{0B}' || c == '\U{0C}'
    || ('\U{1C}' <= c <= '\U{1F}') || c == '\U{85}' || c == '\U{A0}' || c == '\U{1680}'
    || ('\U{2000}' <= c <= '\U{200A}') || c == '\U{2028}' || c == '\U{2029}'
    || c == '\U{202F}' || c == '\U{205F}' || c == '\U{3000}'
  }

  predicate NotSpace(c: char) { !IsSpace(c) }

  /** A character the regular expression class \w matches */
  predicate IsWordChar(c: char) {
    ('a' <= c <= 'z') || ('A' <= c <= 'Z') || ('0' <= c <= '9') || c == '_'
  }

  predicate Blank(s: string) {
    forall i :: 0 <= i < |s| ==> IsSpace(s[i])
  }

  function LowerChar(c: char): char {
    if 'A' <= c <= 'Z' then (c as int + 32) as char else c
  }

  /** str.lower() */
  function Lower(s: string): string {
    seq(|s|, i requires 0 <= i < |s| => LowerChar(s[i]))
  }

  lemma LowerIdempotent(s: string)
    ensures Lower(Lower(s)) == Lower(s)
  {
  }

  // ---------------------------------------------------------------- substrings

  /** t occurs in s starting at index i */
  predicate OccursAt(s: string, t: string, i: int) {
    0 <= i && i + |t| <= |s| && s[i..i + |t|] == t
  }

  /** Python's `t in s` */
  predicate Contains(s: string, t: string)
    decreases |s|
  {
    |t| <= |s| && (s[..|t|] == t || Contains(s[1..], t))
  }

  lemma {:induction false} OccursContains(s: string, t: string, i: int)
    requires OccursAt(s, t, i)
    ensures Contains(s, t)
    decreases i
  {
    if i > 0 {
      assert s[1..][i - 1..i - 1 + |t|] == s[i..i + |t|];
      OccursContains(s[1..], t, i - 1);
    }
  }

  lemma {:induction false} ContainsOccurs(s: string, t: string)
    requires Contains(s, t)
    ensures exists i :: OccursAt(s, t, i)
    decreases |s|
  {
    if s[..|t|] == t {
      assert OccursAt(s, t, 0);
    } else {
      ContainsOccurs(s[1..], t);
      var i :| OccursAt(s[1..], t, i);
      assert s[i + 1..i + 1 + |t|] == s[1..][i..i + |t|];
      assert OccursAt(s, t, i + 1);
    }
  }

  /** The `in` test holds exactly when t is a slice of s somewhere. */
  lemma ContainsIffOccurs(s: string, t: string)
    ensures Contains(s, t) <==> exists i :: OccursAt(s, t, i)
  {
    if Contains(s, t) {
      ContainsOccurs(s, t);
    }
    if exists i :: OccursAt(s, t, i) {
      var i :| OccursAt(s, t, i);
      OccursContains(s, t, i);
    }
  }

  lemma ContainsInfix(a: string, b: string, c: string)
    ensures Contains(a + b + c, b)
  {
    var s := a + b + c;
    assert s[|a|..|a| + |b|] == b;
    assert OccursAt(s, b, |a|);
    ContainsIffOccurs(s, b);
  }

  /** Containment is transitive: a text holding "hallmarks" also holds "hallmark". */
  lemma ContainsTransitive(s: string, u: string, t: string)
    requires Contains(s, u) && Contains(u, t)
    ensures Contains(s, t)
  {
    ContainsIffOccurs(s, u);
    ContainsIffOccurs(u, t);
    var i :| OccursAt(s, u, i);
    var j :| OccursAt(u, t, j);
    assert u == s[i..i + |u|] && t == u[j..j + |t|];
    forall k | 0 <= k < |t| ensures t[k] == s[i + j + k] {
      assert t[k] == u[j + k] == s[i + j + k];
    }
    assert t == s[i + j..i + j + |t|];
    assert OccursAt(s, t, i + j);
    ContainsIffOccurs(s, t);
  }

  lemma ContainsLeft(a: string, b: string, t: string)
    requires Contains(a, t)
    ensures Contains(a + b, t)
  {
    ContainsInfix("", a, b);
    assert "" + a + b == a + b;
    ContainsTransitive(a + b, a, t);
  }

  lemma ContainsEnd(a: string, b: string)
    ensures Contains(a + b, b)
  {
    ContainsInfix(a, b, "");
    assert a + b + "" == a + b;
  }

  lemma ContainsRight(a: string, b: string, t: string)
    requires Contains(b, t)
    ensures Contains(a + b, t)
  {
    ContainsInfix(a, b, "");
    assert a + b + "" == a + b;
    ContainsTransitive(a + b, b, t);
  }

  // ---------------------------------------------------------------- runs (split() and \w+)

  /** Length of the longest prefix of s made of characters satisfying keep */
  function RunLength(s: string, keep: char -> bool): (n: nat)
    ensures n <= |s|
    ensures forall i :: 0 <= i < n ==> keep(s[i])
    ensures n < |s| ==> !keep(s[n])
  {
    if s == [] || !keep(s[0]) then 0 else 1 + RunLength(s[1..], keep)
  }

  /** The maximal stretches of s made of characters satisfying keep, left to right */
  function Runs(s: string, keep: char -> bool): (r: seq<string>)
    ensures forall k :: 0 <= k < |r| ==> r[k] != []
    ensures forall k, i :: 0 <= k < |r| && 0 <= i < |r[k]| ==> keep(r[k][i]) && r[k][i] in s
    decreases |s|
  {
    if s == [] then []
    else if !keep(s[0]) then Runs(s[1..], keep)
    else
      var n := RunLength(s, keep);
      [s[..n]] + Runs(s[n..], keep)
  }

  function Concat(parts: seq<string>): string {
    if parts == [] then "" else parts[0] + Concat(parts[1..])
  }

  lemma {:induction false} ConcatSnoc(parts: seq<string>, x: string)
    ensures Concat(parts + [x]) == Concat(parts) + x
  {
    if parts != [] {
      assert (parts + [x])[1..] == parts[1..] + [x];
      ConcatSnoc(parts[1..], x);
    }
  }

  /** Each part occurs in the concatenation. */
  lemma {:induction false} ConcatContains(parts: seq<string>, k: nat)
    requires k < |parts|
    ensures Contains(Concat(parts), parts[k])
  {
    if k == 0 {
      ContainsInfix("", parts[0], Concat(parts[1..]));
      assert "" + parts[0] + Concat(parts[1..]) == Concat(parts);
    } else {
      ConcatContains(parts[1..], k - 1);
      ContainsInfix(parts[0], Concat(parts[1..]), "");
      assert parts[0] + Concat(parts[1..]) + "" == Concat(parts);
      assert parts[1..][k - 1] == parts[k];
      ContainsTransitive(Concat(parts), Concat(parts[1..]), parts[k]);
    }
  }

  /** The characters of s that satisfy keep, in order */
  function Kept(s: string, keep: char -> bool): string {
    if s == [] then "" else (if keep(s[0]) then [s[0]] else "") + Kept(s[1..], keep)
  }

  lemma {:induction false} KeptPrefix(s: string, keep: char -> bool, n: nat)
    requires n <= |s|
    requires forall i :: 0 <= i < n ==> keep(s[i])
    ensures Kept(s, keep) == s[..n] + Kept(s[n..], keep)
  {
    if n > 0 {
      KeptPrefix(s[1..], keep, n - 1);
      assert s[1..][n - 1..] == s[n..];
      assert s[..n] == [s[0]] + s[1..][..n - 1];
    }
  }

  /** Splitting loses exactly the separator characters: the runs put together are the kept characters. */
  lemma {:induction false} RunsCover(s: string, keep: char -> bool)
    ensures Concat(Runs(s, keep)) == Kept(s, keep)
    decreases |s|
  {
    if s == [] {
    } else if !keep(s[0]) {
      RunsCover(s[1..], keep);
    } else {
      var n := RunLength(s, keep);
      RunsCover(s[n..], keep);
      KeptPrefix(s, keep, n);
      var r := [s[..n]] + Runs(s[n..], keep);
      assert r[0] == s[..n] && r[1..] == Runs(s[n..], keep);
    }
  }

  /** str.split() with no argument: the maximal runs of non-whitespace */
  function Words(s: string): seq<string> {
    Runs(s, NotSpace)
  }

  /** re.findall(r'\b\w+\b', s): the maximal runs of word characters */
  function WordRuns(s: string): seq<string> {
    Runs(s, IsWordChar)
  }

  // ---------------------------------------------------------------- strip()

  /** str.lstrip() */
  function StripStart(s: string): string {
    if s != [] && IsSpace(s[0]) then StripStart(s[1..]) else s
  }

  /** str.rstrip() */
  function StripEnd(s: string): string {
    if s != [] && IsSpace(s[|s| - 1]) then StripEnd(s[..|s| - 1]) else s
  }

  /** lstrip() leaves a suffix of the text, drops only whitespace and stops at a
      non-whitespace character. */
  lemma {:induction false} StripStartShape(s: string)
    ensures var r := StripStart(s);
      |r| <= |s| && r == s[|s| - |r|..] && Blank(s[..|s| - |r|]) && (r != [] ==> !IsSpace(r[0]))
  {
    if s != [] && IsSpace(s[0]) {
      StripStartShape(s[1..]);
      var r := StripStart(s[1..]);
      assert s[..|s| - |r|] == [s[0]] + s[1..][..|s| - 1 - |r|];
    }
  }

  /** rstrip() leaves a prefix of the text, drops only whitespace and stops at a
      non-whitespace character. */
  lemma {:induction false} StripEndShape(s: string)
    ensures var r := StripEnd(s);
      |r| <= |s| && r == s[..|r|] && Blank(s[|r|..]) && (r != [] ==> !IsSpace(r[|r| - 1]))
  {
    if s != [] && IsSpace(s[|s| - 1]) {
      StripEndShape(s[..|s| - 1]);
      var r := StripEnd(s[..|s| - 1]);
      assert s[|r|..] == s[..|s| - 1][|r|..] + [s[|s| - 1]];
    }
  }

  /** str.strip() */
  function Strip(s: string): string {
    StripEnd(StripStart(s))
  }

  /** strip() leaves nothing exactly when the text is all whitespace; otherwise it leaves a
      slice of the text that starts and ends with a non-whitespace character. */
  lemma StripSpec(s: string)
    ensures Strip(s) == "" <==> Blank(s)
    ensures Strip(s) != "" ==> !IsSpace(Strip(s)[0]) && !IsSpace(Strip(s)[|Strip(s)| - 1])
    ensures exists i :: OccursAt(s, Strip(s), i)
  {
    var a := StripStart(s);
    var i := |s| - |a|;
    StripStartShape(s);
    StripEndShape(a);
    StripEndSpec(a);
    StripBlank(s);
    assert OccursAt(s, Strip(s), i) by {
      assert a == s[i..];
      assert Strip(s) == a[..|Strip(s)|];
    }
  }

  /** Stripping the end: nothing is left exactly when all is whitespace, and what is left
      starts where the text starts. */
  lemma StripEndSpec(a: string)
    ensures StripEnd(a) == "" <==> Blank(a)
    ensures StripEnd(a) != "" ==> StripEnd(a)[0] == a[0]
  {
    var r := StripEnd(a);
    StripEndShape(a);
    if r == "" {
      assert a[|r|..] == a;
    }
  }

  lemma StripBlank(s: string)
    ensures Strip(s) == "" <==> Blank(s)
  {
    var a := StripStart(s);
    var i := |s| - |a|;
    StripStartShape(s);
    StripEndSpec(a);
    if a == "" {
      assert s[..i] == s;
    }
  }

  // ---------------------------------------------------------------- split(sep) and join

  /** sep.join(parts) */
  function Join(parts: seq<string>, sep: string): string {
    if parts == [] then ""
    else if |parts| == 1 then parts[0]
    else Join(parts[..|parts| - 1], sep) + sep + parts[|parts| - 1]
  }

  lemma {:induction false} JoinCons(x: string, xs: seq<string>, sep: string)
    requires xs != []
    ensures Join([x] + xs, sep) == x + sep + Join(xs, sep)
    decreases |xs|
  {
    var l := [x] + xs;
    if |xs| > 1 {
      assert l[..|l| - 1] == [x] + xs[..|xs| - 1];
      JoinCons(x, xs[..|xs| - 1], sep);
    } else {
      assert l[..|l| - 1] == [x];
    }
  }

  /** s.split(sep), scanning for the first occurrence at or after index i */
  function SplitFrom(s: string, sep: string, i: nat): (r: seq<string>)
    requires sep != [] && i <= |s|
    ensures r != []
    decreases |s|, |s| - i
  {
    if i + |sep| > |s| then [s]
    else if s[i..i + |sep|] == sep then [s[..i]] + SplitFrom(s[i + |sep|..], sep, 0)
    else SplitFrom(s, sep, i + 1)
  }

  /** s.split(sep) for a non-empty separator */
  function SplitOn(s: string, sep: string): (r: seq<string>)
    requires sep != []
    ensures r != []
  {
    SplitFrom(s, sep, 0)
  }

  lemma {:induction false} JoinSplitFrom(s: string, sep: string, i: nat)
    requires sep != [] && i <= |s|
    ensures Join(SplitFrom(s, sep, i), sep) == s
    decreases |s|, |s| - i
  {
    if i + |sep| > |s| {
    } else if s[i..i + |sep|] == sep {
      var rest := s[i + |sep|..];
      JoinSplitFrom(rest, sep, 0);
      JoinCons(s[..i], SplitFrom(rest, sep, 0), sep);
      assert s == s[..i] + sep + rest;
    } else {
      JoinSplitFrom(s, sep, i + 1);
    }
  }

  /** Splitting on a separator and joining the pieces back with it gives the text back. */
  lemma SplitJoinRoundTrip(s: string, sep: string)
    requires sep != []
    ensures Join(SplitOn(s, sep), sep) == s
  {
    JoinSplitFrom(s, sep, 0);
  }

  lemma {:induction false} SplitFromAbsent(s: string, sep: string, i: nat)
    requires sep != [] && i <= |s|
    requires forall j :: i <= j ==> !OccursAt(s, sep, j)
    ensures SplitFrom(s, sep, i) == [s]
    decreases |s| - i
  {
    if i + |sep| <= |s| {
      assert !OccursAt(s, sep, i);
      SplitFromAbsent(s, sep, i + 1);
    }
  }

  /** A text without the separator splits into itself alone. */
  lemma SplitAbsent(s: string, sep: string)
    requires sep != [] && !Contains(s, sep)
    ensures SplitOn(s, sep) == [s]
  {
    ContainsIffOccurs(s, sep);
    SplitFromAbsent(s, sep, 0);
  }

  lemma {:induction false} SplitFromPresent(s: string, sep: string, i: nat, j: nat)
    requires sep != [] && i <= j && OccursAt(s, sep, j)
    ensures |SplitFrom(s, sep, i)| >= 2
    decreases j - i
  {
    if s[i..i + |sep|] != sep {
      assert i != j;
      SplitFromPresent(s, sep, i + 1, j);
    }
  }

  /** A text holding the separator splits into at least two pieces. */
  lemma SplitPresent(s: string, sep: string)
    requires sep != [] && Contains(s, sep)
    ensures |SplitOn(s, sep)| >= 2
  {
    ContainsIffOccurs(s, sep);
    var j :| OccursAt(s, sep, j);
    SplitFromPresent(s, sep, 0, j);
  }

  /** Joining leaves nothing only for no parts or one empty part. */
  lemma JoinEmpty(parts: seq<string>, sep: string)
    requires sep != [] && Join(parts, sep) == ""
    ensures |parts| <= 1 && forall k :: 0 <= k < |parts| ==> parts[k] == ""
  {
  }

  // ---------------------------------------------------------------- str() of integers

  function Digit(d: nat): char
    requires d < 10
  {
    ('0' as int + d) as char
  }

  /** str(n) for n >= 0 */
  function NatToString(n: nat): (r: string)
    ensures r != []
    ensures forall i :: 0 <= i < |r| ==> '0' <= r[i] <= '9'
  {
    if n < 10 then [Digit(n)] else NatToString(n / 10) + [Digit(n % 10)]
  }

  /** str(n) for any integer */
  function IntToString(n: int): string {
    if n < 0 then "-" + NatToString(-n) else NatToString(n)
  }

  /** int(s) for a string of decimal digits */
  function ParseNat(s: string): nat {
    if s == [] then 0 else ParseNat(s[..|s| - 1]) * 10 + (s[|s| - 1] as int - '0' as int) % 10
  }

  lemma {:induction false} ParseNatToString(n: nat)
    ensures ParseNat(NatToString(n)) == n
  {
    if n >= 10 {
      ParseNatToString(n / 10);
      var r := NatToString(n);
      assert r[..|r| - 1] == NatToString(n / 10);
    }
  }

  /** Distinct numbers print differently. */
  lemma NatToStringInjective(m: nat, n: nat)
    requires NatToString(m) == NatToString(n)
    ensures m == n
  {
    ParseNatToString(m);
    ParseNatToString(n);
  }

  /** prefix + str(m) and prefix + str(n) differ when m and n do */
  lemma NumberedNamesDistinct(prefix: string, m: nat, n: nat)
    requires m != n
    ensures prefix + NatToString(m) != prefix + NatToString(n)
  {
    if prefix + NatToString(m) == prefix + NatToString(n) {
      assert NatToString(m) == (prefix + NatToString(m))[|prefix|..];
      assert NatToString(n) == (prefix + NatToString(n))[|prefix|..];
      NatToStringInjective(m, n);
    }
  }
}
