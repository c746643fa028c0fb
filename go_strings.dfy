/** The part of Go's `strings` package that the configuration loader calls,
    `TrimSpace` (with `unicode.IsSpace`) and `Split`, together with `Join` and
    `Count`, which serve here only to state what `Split` computes.
    Strings are sequences of Unicode scalar values. */
module GoStrings {

  /** unicode.IsSpace: the characters with the Unicode White_Space property. */
  predicate IsSpace(c: char)
  {
    ('\U{0009}' <= c <= '\U{000D}') || c == ' ' || c == '\U{0085}' || c == '\U{00A0}'
    || c == '\U{1680}' || ('\U{2000}' <= c <= '\U{200A}') || c == '\U{2028}' || c == '\U{2029}'
    || c == '\U{202F}' || c == '\U{205F}' || c == '\U{3000}'
  }

  /** Within Latin-1 the white space is exactly '\t', '\n', '\v', '\f', '\r',
      ' ', U+0085 and U+00A0 (the explicit list Go checks there); beyond
      Latin-1 none lies above U+3000. */
  lemma IsSpaceLatin1(c: char)
    ensures (c as int) <= 0xFF ==>
      (IsSpace(c) <==> c in {'\t', '\n', '\U{000B}', '\U{000C}', '\r', ' ', '\U{0085}', '\U{00A0}'})
    ensures IsSpace(c) ==> (c as int) <= 0x3000
  {
  }

  /** Every character of `s` is white space (the empty string included). */
  predicate IsBlank(s: string)
  {
    forall i :: 0 <= i < |s| ==> IsSpace(s[i])
  }

  /** `s` neither starts nor ends with white space. */
  predicate IsTrimmed(s: string)
  {
    s == [] || (!IsSpace(s[0]) && !IsSpace(s[|s| - 1]))
  }

  /** Drops the leading white space of `s`. */
  function TrimLeftSpace(s: string): (r: string)
    ensures |r| <= |s|
    ensures r == [] || !IsSpace(r[0])
  {
    if s != [] && IsSpace(s[0]) then TrimLeftSpace(s[1..]) else s
  }

  /** Drops the trailing white space of `s`. */
  function TrimRightSpace(s: string): (r: string)
    ensures |r| <= |s|
    ensures r == [] || !IsSpace(r[|r| - 1])
  {
    if s != [] && IsSpace(s[|s| - 1]) then TrimRightSpace(s[..|s| - 1]) else s
  }

  /** TrimLeftSpace removes a blank prefix and stops at the first
      character that is not white space. */
  lemma {:induction false} TrimLeftSpaceSpec(s: string)
    ensures var r := TrimLeftSpace(s);
      |r| <= |s| && r == s[|s| - |r|..] && (r == [] || !IsSpace(r[0])) && IsBlank(s[..|s| - |r|])
    decreases |s|
  {
    if s != [] && IsSpace(s[0]) {
      TrimLeftSpaceSpec(s[1..]);
      var r := TrimLeftSpace(s);
      assert s[..|s| - |r|] == [s[0]] + s[1..][..|s| - 1 - |r|];
    }
  }

  /** TrimRightSpace removes a blank suffix and stops at the last
      character that is not white space. */
  lemma {:induction false} TrimRightSpaceSpec(s: string)
    ensures var r := TrimRightSpace(s);
      |r| <= |s| && r == s[..|r|] && (r == [] || !IsSpace(r[|r| - 1])) && IsBlank(s[|r|..])
    decreases |s|
  {
    if s != [] && IsSpace(s[|s| - 1]) {
      TrimRightSpaceSpec(s[..|s| - 1]);
      var r := TrimRightSpace(s);
      assert s[|r|..] == s[..|s| - 1][|r|..] + [s[|s| - 1]];
    }
  }

  /** strings.TrimSpace: `s` with leading and trailing white space removed. */
  function TrimSpace(s: string): (r: string)
    ensures IsTrimmed(r)
    ensures |r| <= |s|
  {
    TrimLeftSpaceSpec(s);
    var l := TrimLeftSpace(s);
    TrimRightSpaceSpec(l);
    var r := TrimRightSpace(l);
    assert r != [] ==> r[0] == l[0];
    r
  }

  /** TrimSpace(s) is the slice s[i..j] left when the white-space prefix
      s[..i] and the white-space suffix s[j..] are cut off. */
  lemma TrimSpaceIsSlice(s: string) returns (i: nat, j: nat)
    ensures i <= j <= |s|
    ensures TrimSpace(s) == s[i..j]
    ensures IsBlank(s[..i]) && IsBlank(s[j..])
  {
    var l := TrimLeftSpace(s);
    var r := TrimRightSpace(l);
    TrimLeftSpaceSpec(s);
    TrimRightSpaceSpec(l);
    i := |s| - |l|;
    j := i + |r|;
    assert l == s[i..];
    assert s[i..j] == l[..|r|];
    assert s[j..] == l[|r|..];
  }

  /** TrimSpace leaves a string alone exactly when it is already trimmed;
      in particular TrimSpace is idempotent. */
  lemma TrimSpaceFixpoint(s: string)
    ensures TrimSpace(s) == s <==> IsTrimmed(s)
    ensures TrimSpace(TrimSpace(s)) == TrimSpace(s)
  {
  }

  /** One space on each side of a trimmed string is removed by TrimSpace. */
  lemma TrimSpacePadded(x: string)
    requires x != [] && IsTrimmed(x)
    ensures TrimSpace(" " + x + " ") == x
  {
    var s := " " + x + " ";
    assert s[1..] == x + " ";
    assert TrimLeftSpace(s) == x + " ";
    assert (x + " ")[..|x|] == x;
    assert TrimRightSpace(x + " ") == x;
  }

  /** TrimSpace yields the empty string exactly for blank strings. */
  lemma TrimSpaceEmptyIffBlank(s: string)
    ensures TrimSpace(s) == [] <==> IsBlank(s)
  {
    var i, j := TrimSpaceIsSlice(s);
    if TrimSpace(s) == [] {
      assert i == j;
      forall k | 0 <= k < |s| ensures IsSpace(s[k]) {
        if k < i { assert s[k] == s[..i][k]; } else { assert s[k] == s[j..][k - j]; }
      }
    } else {
      assert !IsSpace(s[i]) by { assert s[i] == TrimSpace(s)[0]; }
    }
  }

  /** Splits `s` around each non-overlapping occurrence of the non-empty
      separator `sep`, searching from the left. */
  function SplitOn(s: string, sep: string): (parts: seq<string>)
    requires sep != []
    ensures |parts| >= 1
    decreases |s|
  {
    if |s| < |sep| then [s]
    else if s[..|sep|] == sep then [[]] + SplitOn(s[|sep|..], sep)
    else
      var rest := SplitOn(s[1..], sep);
      [[s[0]] + rest[0]] + rest[1..]
  }

  /** Splits `s` into its characters, one string each. */
  function Explode(s: string): (parts: seq<string>)
    ensures |parts| == |s|
    ensures forall i :: 0 <= i < |s| ==> parts[i] == [s[i]]
  {
    seq(|s|, i requires 0 <= i < |s| => [s[i]])
  }

  /** strings.Split: with an empty separator the string is split into its
      characters (so "" gives no part at all); otherwise into the pieces
      between occurrences of `sep` (so "" gives one empty part). */
  function Split(s: string, sep: string): (parts: seq<string>)
    ensures sep != [] ==> |parts| >= 1
    ensures sep == [] ==> |parts| == |s| && forall i :: 0 <= i < |s| ==> parts[i] == [s[i]]
  {
    if sep == [] then Explode(s) else SplitOn(s, sep)
  }

  /** strings.Join: the parts with `sep` between consecutive ones. */
  function Join(parts: seq<string>, sep: string): (s: string)
  {
    if parts == [] then []
    else if |parts| == 1 then parts[0]
    else parts[0] + sep + Join(parts[1..], sep)
  }

  /** Number of non-overlapping occurrences of the non-empty `sep` in `s`. */
  function CountOn(s: string, sep: string): (n: nat)
    requires sep != []
    ensures n * |sep| <= |s|
    decreases |s|
  {
    if |s| < |sep| then 0
    else if s[..|sep|] == sep then 1 + CountOn(s[|sep|..], sep)
    else CountOn(s[1..], sep)
  }

  /** strings.Count: an empty separator counts one more than the characters. */
  function Count(s: string, sep: string): (n: nat)
    ensures sep == [] ==> n == |s| + 1
    ensures sep != [] ==> n * |sep| <= |s|
  {
    if sep == [] then |s| + 1 else CountOn(s, sep)
  }

  /** Split yields one part more than there are separators, and never more
      parts than Count(s, sep) + 1. */
  lemma {:induction false} SplitLength(s: string, sep: string)
    ensures sep != [] ==> |Split(s, sep)| == Count(s, sep) + 1
    ensures sep == [] ==> |Split(s, sep)| == |s|
    ensures |Split(s, sep)| <= Count(s, sep) + 1
    decreases |s|
  {
    if sep != [] && |s| >= |sep| {
      if s[..|sep|] == sep {
        SplitLength(s[|sep|..], sep);
      } else {
        SplitLength(s[1..], sep);
      }
    }
  }

  /** Prepending `x` to the first part prepends it to the joined string. */
  lemma JoinPrepend(x: string, parts: seq<string>, sep: string)
    requires |parts| >= 1
    ensures Join([x + parts[0]] + parts[1..], sep) == x + Join(parts, sep)
  {
  }

  /** Joining the parts of a split with the same separator gives back the
      original string. */
  lemma {:induction false} JoinSplit(s: string, sep: string)
    requires sep != []
    ensures Join(Split(s, sep), sep) == s
    decreases |s|
  {
    if |s| < |sep| {
    } else if s[..|sep|] == sep {
      JoinSplit(s[|sep|..], sep);
      JoinPrepend([], SplitOn(s[|sep|..], sep), sep);
      assert [] + SplitOn(s[|sep|..], sep)[0] == SplitOn(s[|sep|..], sep)[0];
      assert s == s[..|sep|] + s[|sep|..];
    } else {
      JoinSplit(s[1..], sep);
      JoinPrepend([s[0]], SplitOn(s[1..], sep), sep);
      assert s == [s[0]] + s[1..];
    }
  }

  /** A string without the separator character `c` is a single part. */
  lemma {:induction false} SplitWithoutSeparator(a: string, c: char)
    requires c !in a
    ensures SplitOn(a, [c]) == [a]
    decreases |a|
  {
    if a != [] {
      SplitWithoutSeparator(a[1..], c);
      assert a == [a[0]] + a[1..];
    }
  }

  /** Splitting on `c` after a first part without `c` cuts at the first `c`. */
  lemma {:induction false} SplitAfterPart(a: string, c: char, t: string)
    requires c !in a
    ensures SplitOn(a + [c] + t, [c]) == [a] + SplitOn(t, [c])
    decreases |a|
  {
    var s := a + [c] + t;
    if a == [] {
      assert s[..1] == [c] && s[1..] == t;
    } else {
      assert s[..1] != [c] by { assert s[0] == a[0]; }
      assert s[1..] == a[1..] + [c] + t;
      SplitAfterPart(a[1..], c, t);
      assert [s[0]] + a[1..] == a;
    }
  }

  /** Splitting on a one-character separator undoes Join, provided no part
      contains that character. */
  lemma {:induction false} SplitJoin(parts: seq<string>, c: char)
    requires |parts| >= 1
    requires forall k :: 0 <= k < |parts| ==> c !in parts[k]
    ensures Split(Join(parts, [c]), [c]) == parts
    decreases |parts|
  {
    if |parts| == 1 {
      SplitWithoutSeparator(parts[0], c);
    } else {
      SplitJoin(parts[1..], c);
      SplitAfterPart(parts[0], c, Join(parts[1..], [c]));
    }
  }
}
