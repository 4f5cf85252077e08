/**
 * The parts of Go's `strings` and `unicode` packages that workgen.go relies on,
 * stated over code points: strings.TrimSpace, strings.Index and the position of
 * the last match, strings.Split and strings.Join with a "," separator, and
 * strings.ToUpper as far as it decides equality with an ASCII word.
 */
module GoStrings {

  /** unicode.IsSpace: the Latin-1 spaces and the rest of Unicode's White_Space. */
  predicate IsSpace(c: char) {
    || c == '\t' || c == '\n' || c == '\U{000B}' || c == '\U{000C}' || c == '\r' || c == ' '
    || c == '\U{0085}' || c == '\U{00A0}' || c == '\U{1680}'
    || ('\U{2000}' <= c <= '\U{200A}')
    || c == '\U{2028}' || c == '\U{2029}' || c == '\U{202F}' || c == '\U{205F}' || c == '\U{3000}'
  }

  predicate AllSpace(s: string) {
    forall i :: 0 <= i < |s| ==> IsSpace(s[i])
  }

  /** Neither the first nor the last character is white space. */
  predicate Trimmed(s: string) {
    s == [] || (!IsSpace(s[0]) && !IsSpace(s[|s| - 1]))
  }

  /** The suffix of `s` left after its leading white space. */
  function TrimLeft(s: string): (r: string)
    ensures |r| <= |s| && r == s[|s| - |r|..]
    ensures AllSpace(s[..|s| - |r|])
    ensures r == [] || !IsSpace(r[0])
  {
    if |s| > 0 && IsSpace(s[0]) then TrimLeft(s[1..]) else s
  }

  /** The prefix of `s` left after its trailing white space. */
  function TrimRight(s: string): (r: string)
    ensures |r| <= |s| && r == s[..|r|]
    ensures AllSpace(s[|r|..])
    ensures r == [] || !IsSpace(r[|r| - 1])
  {
    if |s| > 0 && IsSpace(s[|s| - 1]) then
      var r := TrimRight(s[..|s| - 1]);
      assert s[|r|..] == s[..|s| - 1][|r|..] + [s[|s| - 1]];
      r
    else s
  }

  /** How many white-space characters strings.TrimSpace cuts from the front of `s`. */
  function LeadingSpace(s: string): (n: nat)
    ensures n <= |s| && AllSpace(s[..n])
  {
    |s| - |TrimLeft(s)|
  }

  /** strings.TrimSpace: `s` without its leading and trailing white space (see TrimSpaceCuts). */
  function TrimSpace(s: string): (r: string)
    ensures Trimmed(r)
  {
    TrimRight(TrimLeft(s))
  }

  /**
   * TrimSpace returns a slice of `s`, and everything it cuts off on either
   * side is white space.
   */
  lemma TrimSpaceCuts(s: string)
    ensures var r, lo := TrimSpace(s), LeadingSpace(s);
      lo + |r| <= |s| && r == s[lo..lo + |r|] && AllSpace(s[..lo]) && AllSpace(s[lo + |r|..])
  {
    var l := TrimLeft(s);
    var r := TrimRight(l);
    var lo := |s| - |l|;
    assert s[lo + |r|..] == l[|r|..];
  }

  lemma TrimSpaceOfTrimmed(s: string)
    requires Trimmed(s)
    ensures TrimSpace(s) == s
  {
  }

  lemma TrimSpaceIdempotent(s: string)
    ensures TrimSpace(TrimSpace(s)) == TrimSpace(s)
  {
    TrimSpaceOfTrimmed(TrimSpace(s));
  }

  /** Trimming never brings in a character that was not there. */
  lemma TrimSpaceKeepsOut(s: string, c: char)
    requires c !in s
    ensures c !in TrimSpace(s)
  {
    var r, lo := TrimSpace(s), LeadingSpace(s);
    TrimSpaceCuts(s);
    forall k | 0 <= k < |r|
      ensures r[k] != c
    {
      assert r[k] == s[lo + k];
    }
  }

  /** strings.Index with a one-character needle: a position of `c`, or -1 (see IndexSpec). */
  function Index(s: string, c: char): (i: int)
    ensures -1 <= i < |s|
    ensures 0 <= i ==> s[i] == c
  {
    if |s| == 0 then -1
    else if s[0] == c then 0
    else
      var j := Index(s[1..], c);
      if j < 0 then -1 else j + 1
  }

  /** Index finds the first occurrence, and -1 means there is none. */
  lemma {:induction false} IndexSpec(s: string, c: char)
    ensures Index(s, c) == -1 <==> c !in s
    ensures 0 <= Index(s, c) ==> c !in s[..Index(s, c)]
  {
    if |s| > 0 && s[0] != c {
      IndexSpec(s[1..], c);
      var j := Index(s[1..], c);
      assert s == [s[0]] + s[1..];
      if j >= 0 {
        assert s[..j + 1] == [s[0]] + s[1..][..j];
      }
    }
  }

  /** No occurrence of `c` comes before the one Index finds. */
  lemma {:induction false} IndexIsFirst(s: string, c: char, i: int)
    requires 0 <= i < |s| && s[i] == c
    ensures 0 <= Index(s, c) <= i
  {
    if s[0] != c {
      IndexIsFirst(s[1..], c, i - 1);
    }
  }

  /** The position of the last `c` in `s`, or -1 (see LastIndexSpec). */
  function LastIndex(s: string, c: char): (i: int)
    ensures -1 <= i < |s|
    ensures 0 <= i ==> s[i] == c
  {
    if |s| == 0 then -1
    else if s[|s| - 1] == c then |s| - 1
    else LastIndex(s[..|s| - 1], c)
  }

  /** LastIndex returns -1 exactly when `c` does not occur. */
  lemma {:induction false} LastIndexAbsent(s: string, c: char)
    ensures LastIndex(s, c) == -1 <==> c !in s
  {
    if |s| > 0 && s[|s| - 1] != c {
      var t := s[..|s| - 1];
      LastIndexAbsent(t, c);
      assert s == t + [s[|s| - 1]];
    }
  }

  /** LastIndex finds the last occurrence, and -1 means there is none. */
  lemma {:induction false} LastIndexSpec(s: string, c: char)
    ensures LastIndex(s, c) == -1 <==> c !in s
    ensures 0 <= LastIndex(s, c) ==> c !in s[LastIndex(s, c) + 1..]
  {
    LastIndexAbsent(s, c);
    if |s| > 0 && s[|s| - 1] != c {
      var t := s[..|s| - 1];
      LastIndexSpec(t, c);
      var j := LastIndex(t, c);
      if j >= 0 {
        assert s[j + 1..] == t[j + 1..] + [s[|s| - 1]];
      }
    }
  }

  /** No occurrence of `c` comes after the one LastIndex finds. */
  lemma {:induction false} LastIndexIsLast(s: string, c: char, j: int)
    requires 0 <= j < |s| && s[j] == c
    ensures j <= LastIndex(s, c)
  {
    if s[|s| - 1] != c {
      LastIndexIsLast(s[..|s| - 1], c, j);
    }
  }

  /** strings.Join(elems, ","). */
  function Join(ts: seq<string>): (r: string)
    ensures |ts| >= 1 ==> ts[0] <= r
    ensures |ts| >= 2 ==> |ts[0]| < |r| && r[|ts[0]|] == ','
  {
    if |ts| == 0 then "" else if |ts| == 1 then ts[0] else ts[0] + "," + Join(ts[1..])
  }

  /**
   * strings.Split(s, ","): the pieces between the commas, empty ones kept;
   * there is always at least one and none holds a comma.
   */
  function Split(s: string): (r: seq<string>)
    ensures |r| >= 1
    ensures forall i :: 0 <= i < |r| ==> ',' !in r[i]
    decreases |s|
  {
    var i := Index(s, ',');
    IndexSpec(s, ',');
    if i < 0 then [s] else [s[..i]] + Split(s[i + 1..])
  }

  /** Joining the pieces gives the string back. */
  lemma {:induction false} JoinSplit(s: string)
    ensures Join(Split(s)) == s
    decreases |s|
  {
    var i := Index(s, ',');
    if i >= 0 {
      var rest := s[i + 1..];
      JoinSplit(rest);
      JoinCons(s[..i], Split(rest));
      assert s == s[..i] + [s[i]] + rest;
    }
  }

  /** Joining one more piece in front puts it and a comma before the rest. */
  lemma JoinCons(t: string, ts: seq<string>)
    requires |ts| >= 1
    ensures Join([t] + ts) == t + "," + Join(ts)
  {
    assert ([t] + ts)[1..] == ts;
  }

  /** Splitting undoes joining comma-free pieces. */
  lemma {:induction false} SplitJoin(ts: seq<string>)
    requires |ts| >= 1
    requires forall i :: 0 <= i < |ts| ==> ',' !in ts[i]
    ensures Split(Join(ts)) == ts
  {
    if |ts| == 1 {
      IndexSpec(ts[0], ',');
    } else {
      var s := Join(ts);
      var n := |ts[0]|;
      assert s == ts[0] + "," + Join(ts[1..]);
      assert s[n] == ',' && s[..n] == ts[0];
      assert forall k :: 0 <= k < n ==> s[k] == ts[0][k];
      IndexIsFirst(s, ',', n);
      assert Index(s, ',') == n;
      assert s[n + 1..] == Join(ts[1..]);
      SplitJoin(ts[1..]);
    }
  }

  /**
   * Joining pieces that are each trimmed, the first of them non-empty, gives
   * a non-empty trimmed string.
   */
  lemma {:induction false} JoinTrimmed(ts: seq<string>)
    requires |ts| >= 1 && ts[0] != []
    requires forall i :: 0 <= i < |ts| ==> Trimmed(ts[i])
    ensures Join(ts) != [] && Trimmed(Join(ts))
  {
    if |ts| > 1 {
      var rest := ts[1..];
      var j := Join(rest);
      assert Join(ts) == ts[0] + "," + j;
      if j != [] {
        if rest[0] != [] {
          JoinTrimmed(rest);
        } else {
          JoinLast(rest);
        }
      }
    }
  }

  /** The last piece ends the joined string, after a comma when there are two or more. */
  lemma {:induction false} JoinLast(ts: seq<string>)
    requires |ts| >= 1
    ensures var j, t := Join(ts), ts[|ts| - 1];
      |t| <= |j| && j[|j| - |t|..] == t && (|ts| >= 2 ==> |t| < |j| && j[|j| - |t| - 1] == ',')
  {
    if |ts| > 1 {
      JoinLast(ts[1..]);
      assert ts[1..][|ts[1..]| - 1] == ts[|ts| - 1];
    }
  }

  /** Joining brings in no character but the separator. */
  lemma {:induction false} JoinKeepsOut(ts: seq<string>, c: char)
    requires c != ','
    requires forall i :: 0 <= i < |ts| ==> c !in ts[i]
    ensures c !in Join(ts)
  {
    if |ts| > 1 {
      JoinKeepsOut(ts[1..], c);
    }
  }

  /** unicode.ToUpper, as far as deciding equality with an ASCII word goes (see ToUpper). */
  function ToUpperRune(c: char): char {
    if 'a' <= c <= 'z' then (c as int - 32) as char
    else if c == '\U{0131}' then 'I'  // dotless i
    else if c == '\U{017F}' then 'S'  // long s
    else c
  }

  /**
   * strings.ToUpper, rune by rune. Besides a-z only U+0131 and U+017F have an
   * ASCII upper case in Go; every other rune is kept as it is, which may differ
   * from Go's result but never decides whether the result equals an ASCII word.
   */
  function ToUpper(s: string): (r: string)
    ensures |r| == |s|
  {
    seq(|s|, i requires 0 <= i < |s| => ToUpperRune(s[i]))
  }

  /**
   * The upper case holds no ASCII lower-case letter, and a rune is changed
   * exactly when it is a-z, U+0131 or U+017F.
   */
  lemma ToUpperChanges(s: string)
    ensures var r := ToUpper(s);
      && (forall i :: 0 <= i < |r| ==> !('a' <= r[i] <= 'z'))
      && forall i :: 0 <= i < |s| ==>
           (r[i] == s[i] <==> !('a' <= s[i] <= 'z' || s[i] == '\U{0131}' || s[i] == '\U{017F}'))
  {
  }
}
