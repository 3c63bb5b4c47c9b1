/** String helpers shared by the serialisers, the archive and the orchestrator:
    ASCII lower-casing, Python's string ordering, and the small parsing steps
    (match a literal, cut at a character, drop a suffix) the template parsers
    are built from. */
module Text {
  import opened Wrappers

  // ---------------------------------------------------------------------------
  // Lower-casing
  // ---------------------------------------------------------------------------

  predicate IsUpper(c: char) {
    'A' <= c <= 'Z'
  }

  function LowerChar(c: char): char {
    if IsUpper(c) then (c as int + 32) as char else c
  }

  /** `str.lower()` restricted to ASCII letters. */
  function ToLower(s: string): (r: string)
    ensures |r| == |s|
    ensures forall i :: 0 <= i < |s| ==> r[i] == LowerChar(s[i])
  {
    seq(|s|, i requires 0 <= i < |s| => LowerChar(s[i]))
  }

  predicate IsLower(s: string) {
    forall i :: 0 <= i < |s| ==> !IsUpper(s[i])
  }

  /** Lower-casing leaves no upper-case letter behind, touches nothing that is
      not an upper-case letter, and is idempotent. */
  lemma ToLowerSpec(s: string)
    ensures IsLower(ToLower(s))
    ensures forall i :: 0 <= i < |s| && !IsUpper(s[i]) ==> ToLower(s)[i] == s[i]
    ensures forall i :: 0 <= i < |s| && IsUpper(s[i]) ==> ToLower(s)[i] as int == s[i] as int + 32
    ensures ToLower(ToLower(s)) == ToLower(s)
    ensures IsLower(s) ==> ToLower(s) == s
  {
  }

  // ---------------------------------------------------------------------------
  // Python's ordering of `str` values: code point by code point, and a proper
  // prefix sorts first.
  // ---------------------------------------------------------------------------

  predicate Less(a: string, b: string)
    decreases |a|
  {
    if |a| == 0 then |b| > 0
    else if |b| == 0 then false
    else if a[0] != b[0] then a[0] < b[0]
    else Less(a[1..], b[1..])
  }

  lemma {:induction false} LessIrreflexive(a: string)
    ensures !Less(a, a)
    decreases |a|
  {
    if |a| > 0 {
      LessIrreflexive(a[1..]);
    }
  }

  lemma {:induction false} LessAsymmetric(a: string, b: string)
    requires Less(a, b)
    ensures !Less(b, a)
    decreases |a|
  {
    if |a| > 0 && a[0] == b[0] {
      LessAsymmetric(a[1..], b[1..]);
    }
  }

  lemma {:induction false} LessTransitive(a: string, b: string, c: string)
    requires Less(a, b) && Less(b, c)
    ensures Less(a, c)
    decreases |a|
  {
    if |a| > 0 && a[0] == b[0] && b[0] == c[0] {
      LessTransitive(a[1..], b[1..], c[1..]);
    }
  }

  /** Two different strings are always ordered one way or the other. */
  lemma {:induction false} LessTotal(a: string, b: string)
    requires a != b
    ensures Less(a, b) || Less(b, a)
    decreases |a|
  {
    if |a| > 0 && |b| > 0 && a[0] == b[0] {
      assert a == [a[0]] + a[1..] && b == [b[0]] + b[1..];
      LessTotal(a[1..], b[1..]);
    }
  }

  /** Non-strict order, the comparison `sorted(..., reverse=True)` needs. */
  predicate AtLeast(a: string, b: string) {
    !Less(a, b)
  }

  // ---------------------------------------------------------------------------
  // Parsing steps
  // ---------------------------------------------------------------------------

  function EndsWith(s: string, suffix: string): bool {
    |suffix| <= |s| && s[|s| - |suffix|..] == suffix
  }

  /** Consumes the literal `lit` at the front of `s`. */
  function ExpectLit(s: string, lit: string): (r: Option<string>)
    ensures r.Some? ==> |r.value| == |s| - |lit|
  {
    if lit <= s then Some(s[|lit|..]) else None
  }

  /** Splits `s` just before the first occurrence of `c` (or at its end). */
  function Until(s: string, c: char): (r: (string, string))
    ensures |r.1| <= |s|
  {
    if |s| == 0 then ("", "")
    else if s[0] == c then ("", s)
    else
      var rest := Until(s[1..], c);
      ([s[0]] + rest.0, rest.1)
  }

  /** Removes `suffix` from the end of `s`. */
  function StripSuffix(s: string, suffix: string): Option<string> {
    if EndsWith(s, suffix) then Some(s[..|s| - |suffix|]) else None
  }

  // Each step inverts the concatenation the writers build.

  lemma ExpectLitConcat(lit: string, rest: string)
    ensures ExpectLit(lit + rest, lit) == Some(rest)
  {
    assert lit <= lit + rest;
    assert (lit + rest)[|lit|..] == rest;
  }

  /** A field free of `c`, followed by text that starts with `c` (or by
      nothing), is cut back out exactly. */
  lemma {:induction false} UntilConcat(x: string, c: char, rest: string)
    requires c !in x
    requires rest == [] || rest[0] == c
    ensures Until(x + rest, c) == (x, rest)
    decreases |x|
  {
    if |x| > 0 {
      assert x[0] in x;
      assert (x + rest)[1..] == x[1..] + rest;
      UntilConcat(x[1..], c, rest);
      assert x == [x[0]] + x[1..];
    } else {
      assert x + rest == rest;
    }
  }

  lemma StripSuffixConcat(x: string, suffix: string)
    ensures StripSuffix(x + suffix, suffix) == Some(x)
  {
    assert (x + suffix)[|x|..] == suffix;
    assert (x + suffix)[..|x|] == x;
  }
}
