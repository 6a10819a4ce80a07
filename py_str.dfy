/**
 * The parts of Python's `str` type that the core relies on: `isspace`,
 * `strip`, `startswith`, `endswith`, `find`, `split` and `replace`, each
 * written out over `seq<char>`, together with the subsequence relation
 * ("obtained by deleting characters") that the cleaning functions keep.
 */
module PyStr {
  import opened Wrappers

  /**
   * Python's `str.isspace()` on one character. The `\s` class of a `re`
   * pattern over `str` accepts exactly the same characters.
   */
  predicate IsSpace(c: char) {
    || c == ' '
    || ('\t' <= c <= '\r')
    || ('\U{1C}' <= c <= '\U{1F}')
    || c == '\U{85}' || c == '\U{A0}' || c == '\U{1680}'
    || ('\U{2000}' <= c <= '\U{200A}')
    || c == '\U{2028}' || c == '\U{2029}' || c == '\U{202F}' || c == '\U{205F}'
    || c == '\U{3000}'
  }

  /** Neither the first nor the last character is whitespace. */
  predicate NoSurroundingSpace(s: string) {
    s == [] || (!IsSpace(s[0]) && !IsSpace(s[|s| - 1]))
  }

  predicate StartsWith(s: string, prefix: string) {
    |prefix| <= |s| && s[..|prefix|] == prefix
  }

  predicate EndsWith(s: string, suffix: string) {
    |suffix| <= |s| && s[|s| - |suffix|..] == suffix
  }

  /** Python's `str.lstrip()`: the suffix left after dropping leading whitespace. */
  function TrimStart(s: string): (r: string)
    ensures |r| <= |s| && r == s[|s| - |r|..]
    ensures r == [] || !IsSpace(r[0])
    ensures forall i :: 0 <= i < |s| - |r| ==> IsSpace(s[i])
  {
    if |s| > 0 && IsSpace(s[0]) then TrimStart(s[1..]) else s
  }

  /** Python's `str.rstrip()`: the prefix left after dropping trailing whitespace. */
  function TrimEnd(s: string): (r: string)
    ensures |r| <= |s| && r == s[..|r|]
    ensures r == [] || !IsSpace(r[|r| - 1])
    ensures forall i :: |r| <= i < |s| ==> IsSpace(s[i])
  {
    if |s| > 0 && IsSpace(s[|s| - 1]) then TrimEnd(s[..|s| - 1]) else s
  }

  /**
   * Python's `str.strip()`: the slice of `s` between its leading and its
   * trailing whitespace, which is all that is dropped.
   */
  function Strip(s: string): (r: string)
    ensures NoSurroundingSpace(r)
    ensures |r| <= |s|
  {
    TrimEnd(TrimStart(s))
  }

  /** What `strip()` drops is the whitespace before and after the slice it keeps. */
  lemma StripSlice(s: string) returns (i: nat)
    ensures i + |Strip(s)| <= |s| && Strip(s) == s[i..i + |Strip(s)|]
    ensures forall k :: 0 <= k < i ==> IsSpace(s[k])
    ensures forall k :: i + |Strip(s)| <= k < |s| ==> IsSpace(s[k])
  {
    i := |s| - |TrimStart(s)|;
  }

  /** Every character of `w` is whitespace. */
  predicate AllSpace(w: string) {
    forall i :: 0 <= i < |w| ==> IsSpace(w[i])
  }

  lemma {:induction false} TrimStartPadded(w: string, y: string)
    requires AllSpace(w) && (y == [] || !IsSpace(y[0]))
    ensures TrimStart(w + y) == y
    decreases |w|
  {
    if |w| > 0 {
      assert (w + y)[1..] == w[1..] + y;
      TrimStartPadded(w[1..], y);
    } else {
      assert w + y == y;
    }
  }

  lemma {:induction false} TrimEndPadded(y: string, w: string)
    requires AllSpace(w) && (y == [] || !IsSpace(y[|y| - 1]))
    ensures TrimEnd(y + w) == y
    decreases |w|
  {
    if |w| > 0 {
      assert (y + w)[..|y + w| - 1] == y + w[..|w| - 1];
      TrimEndPadded(y, w[..|w| - 1]);
    } else {
      assert y + w == y;
    }
  }

  /** `strip()` removes exactly the whitespace padding around a string that has none of its own. */
  lemma StripPadded(w1: string, x: string, w2: string)
    requires AllSpace(w1) && AllSpace(w2) && NoSurroundingSpace(x)
    ensures Strip(w1 + x + w2) == x
  {
    if x == [] {
      assert w1 + x + w2 == (w1 + w2) + [];
      assert AllSpace(w1 + w2);
      TrimStartPadded(w1 + w2, []);
    } else {
      assert w1 + x + w2 == w1 + (x + w2);
      TrimStartPadded(w1, x + w2);
      TrimEndPadded(x, w2);
    }
  }

  /** A string with no surrounding whitespace is its own `strip()`. */
  lemma StripUnchanged(s: string)
    requires NoSurroundingSpace(s)
    ensures Strip(s) == s
  {
    StripPadded([], s, []);
    assert [] + s + [] == s;
  }

  /** `strip()` is a slice of its argument, hence a subsequence of it. */
  lemma StripIsSubseq(s: string)
    ensures IsSubseq(Strip(s), s)
  {
    var i := StripSlice(s);
    SliceIsSubseq(s, i, i + |Strip(s)|);
  }

  /**
   * Python's `str.find(sub)` read as an option: the index of the first
   * occurrence of `sub` in `s`, or `None` when there is none.
   */
  function IndexOf(s: string, sub: string): (r: Option<nat>)
    ensures r.Some? ==> r.value + |sub| <= |s| && StartsWith(s[r.value..], sub)
    ensures r.Some? ==> forall j :: 0 <= j < r.value ==> !StartsWith(s[j..], sub)
    ensures r.None? ==> forall j :: 0 <= j <= |s| ==> !StartsWith(s[j..], sub)
    decreases |s|
  {
    if StartsWith(s, sub) then Some(0)
    else if |s| == 0 then None
    else
      match IndexOf(s[1..], sub)
      case None =>
        assert forall j :: 1 <= j <= |s| ==> s[j..] == s[1..][j - 1..];
        None
      case Some(k) =>
        assert forall j :: 1 <= j <= k ==> s[j..] == s[1..][j - 1..];
        assert s[k + 1..] == s[1..][k..];
        Some(k + 1)
  }

  /** The first occurrence is at `k` when `sub` starts there and nowhere before. */
  lemma IndexOfAt(s: string, sub: string, k: nat)
    requires k <= |s| && StartsWith(s[k..], sub)
    requires forall j :: 0 <= j < k ==> !StartsWith(s[j..], sub)
    ensures IndexOf(s, sub) == Some(k)
  {
  }

  /** A string that `sub` does not occur in has no suffix that `sub` occurs in. */
  lemma IndexOfNoneSuffix(s: string, sub: string, k: nat)
    requires k <= |s| && IndexOf(s, sub).None?
    ensures IndexOf(s[k..], sub).None?
  {
    var t := s[k..];
    forall j | 0 <= j <= |t| ensures !StartsWith(t[j..], sub) {
      assert t[j..] == s[k + j..];
    }
  }

  /** A string whose first character does not occur in `s` does not occur in `s`. */
  lemma {:induction false} IndexOfAbsentHead(s: string, sub: string)
    requires |sub| > 0 && sub[0] !in s
    ensures IndexOf(s, sub).None?
    decreases |s|
  {
    if |s| > 0 {
      IndexOfAbsentHead(s[1..], sub);
      assert s[0] != sub[0];
    }
  }

  /** Python's `s.split(sep)` for a one-character separator. */
  function Split(s: string, sep: char): (parts: seq<string>)
    ensures |parts| > 0
    ensures forall i :: 0 <= i < |parts| ==> sep !in parts[i]
    decreases |s|
  {
    if |s| == 0 then [""]
    else
      var rest := Split(s[1..], sep);
      if s[0] == sep then [""] + rest
      else [[s[0]] + rest[0]] + rest[1..]
  }

  /** There is one more part than there are separators. */
  lemma {:induction false} SplitCount(s: string, sep: char)
    ensures |Split(s, sep)| == multiset(s)[sep] + 1
    decreases |s|
  {
    if |s| > 0 {
      SplitCount(s[1..], sep);
      assert s == [s[0]] + s[1..];
      assert multiset(s) == multiset([s[0]]) + multiset(s[1..]);
    }
  }

  /** Python's `sep.join(parts)`, the inverse of `Split`. */
  function Join(parts: seq<string>, sep: char): string
    requires |parts| > 0
  {
    if |parts| == 1 then parts[0] else parts[0] + [sep] + Join(parts[1..], sep)
  }

  /** Joining the parts again gives back the split string. */
  lemma {:induction false} JoinSplit(s: string, sep: char)
    ensures Join(Split(s, sep), sep) == s
    decreases |s|
  {
    if |s| > 0 {
      var rest := Split(s[1..], sep);
      JoinSplit(s[1..], sep);
      if s[0] == sep {
        assert ([""] + rest)[1..] == rest;
      } else {
        var parts := [[s[0]] + rest[0]] + rest[1..];
        assert parts[1..] == rest[1..];
        assert Join(parts, sep) == [s[0]] + Join(rest, sep);
      }
      assert s == [s[0]] + s[1..];
    }
  }

  /** Splitting a string that starts with a separator-free part `a` extends the first part by `a`. */
  lemma {:induction false} SplitPrefix(a: string, t: string, sep: char)
    requires sep !in a
    ensures Split(a + t, sep) == [a + Split(t, sep)[0]] + Split(t, sep)[1..]
    decreases |a|
  {
    if |a| > 0 {
      assert (a + t)[1..] == a[1..] + t;
      SplitPrefix(a[1..], t, sep);
      var parts, rest := Split(t, sep), Split(a[1..] + t, sep);
      assert rest[0] == a[1..] + parts[0] && rest[1..] == parts[1..];
      assert (a + t)[0] == a[0] != sep;
      assert [a[0]] + rest[0] == a + parts[0];
    } else {
      assert a + t == t;
      var parts := Split(t, sep);
      assert a + parts[0] == parts[0];
      assert parts == [parts[0]] + parts[1..];
    }
  }

  /** Splitting a join of separator-free parts gives the parts back. */
  lemma {:induction false} SplitJoin(parts: seq<string>, sep: char)
    requires |parts| > 0
    requires forall i :: 0 <= i < |parts| ==> sep !in parts[i]
    ensures Split(Join(parts, sep), sep) == parts
    decreases |parts|
  {
    if |parts| == 1 {
      SplitPrefix(parts[0], "", sep);
      assert parts[0] + "" == parts[0];
    } else {
      var t := Join(parts[1..], sep);
      SplitJoin(parts[1..], sep);
      assert Split([sep] + t, sep) == [""] + Split(t, sep);
      assert parts[0] + [sep] + t == parts[0] + ([sep] + t);
      SplitPrefix(parts[0], [sep] + t, sep);
      assert parts[0] + "" == parts[0];
    }
  }

  /**
   * Python's `s.replace(target, repl)`: every occurrence of `target`, found left
   * to right without overlap, is replaced by `repl`.
   */
  function Replace(s: string, target: string, repl: string): string
    requires |target| > 0
    decreases |s|
  {
    if |s| == 0 then ""
    else if StartsWith(s, target) then repl + Replace(s[|target|..], target, repl)
    else [s[0]] + Replace(s[1..], target, repl)
  }

  /** `replace` is the identity when `target` does not occur. */
  lemma {:induction false} ReplaceAbsent(s: string, target: string, repl: string)
    requires |target| > 0
    requires IndexOf(s, target).None?
    ensures Replace(s, target, repl) == s
    decreases |s|
  {
    if |s| > 0 {
      assert !StartsWith(s[0..], target);
      assert s[0..] == s;
      assert forall j :: 1 <= j <= |s| ==> s[j..] == s[1..][j - 1..];
      ReplaceAbsent(s[1..], target, repl);
      assert s == [s[0]] + s[1..];
    }
  }

  /** A prefix that cannot start an occurrence of `target` is copied as it is. */
  lemma {:induction false} ReplaceFreePrefix(a: string, b: string, target: string, repl: string)
    requires |target| > 0 && target[0] !in a
    ensures Replace(a + b, target, repl) == a + Replace(b, target, repl)
    decreases |a|
  {
    if |a| > 0 {
      assert (a + b)[1..] == a[1..] + b;
      ReplaceFreePrefix(a[1..], b, target, repl);
    } else {
      assert a + b == b;
    }
  }

  /** An occurrence at the front is replaced, and the search resumes after it. */
  lemma ReplaceHit(target: string, b: string, repl: string)
    requires |target| > 0
    ensures Replace(target + b, target, repl) == repl + Replace(b, target, repl)
  {
    assert (target + b)[|target|..] == b;
  }

  /** Deleting `target` from text that holds its first character only where `target` stands. */
  lemma RemoveOnce(a: string, target: string, b: string)
    requires |target| > 0 && target[0] !in a && target[0] !in b
    ensures Replace(a + target + b, target, "") == a + b
  {
    assert a + target + b == a + (target + b);
    ReplaceFreePrefix(a, target + b, target, "");
    ReplaceHit(target, b, "");
    RemoveNone(b, target);
  }

  /** Deleting `target` from text without its first character changes nothing. */
  lemma RemoveNone(a: string, target: string)
    requires |target| > 0 && target[0] !in a
    ensures Replace(a, target, "") == a
  {
    ReplaceFreePrefix(a, "", target, "");
    assert a + "" == a;
  }

  /** Replacing by the empty string only deletes characters. */
  lemma {:induction false} RemoveIsSubseq(s: string, target: string)
    requires |target| > 0
    ensures IsSubseq(Replace(s, target, ""), s)
    decreases |s|
  {
    if |s| > 0 {
      if StartsWith(s, target) {
        var rest := s[|target|..];
        RemoveIsSubseq(rest, target);
        assert Replace(s, target, "") == Replace(rest, target, "");
        SuffixIsSubseq(s, |target|);
        SubseqTrans(Replace(rest, target, ""), rest, s);
      } else {
        RemoveIsSubseq(s[1..], target);
        SubseqPrependBoth(Replace(s[1..], target, ""), s[1..], s[0]);
        assert [s[0]] + s[1..] == s;
      }
    }
  }

  /** Removing a one-character string leaves no occurrence of that character. */
  lemma {:induction false} RemoveCharGone(s: string, c: char)
    ensures c !in Replace(s, [c], "")
    decreases |s|
  {
    if |s| > 0 {
      RemoveCharGone(s[1..], c);
      if StartsWith(s, [c]) {
        assert s[|[c]|..] == s[1..];
      }
    }
  }

  // ---------------------------------------------------------------------
  // Subsequences

  /** `a` is obtained from `b` by deleting zero or more elements. */
  ghost predicate IsSubseq<T>(a: seq<T>, b: seq<T>)
    decreases |b|
  {
    if |a| == 0 then true
    else if |b| == 0 then false
    else if a[0] == b[0] then IsSubseq(a[1..], b[1..])
    else IsSubseq(a, b[1..])
  }

  lemma {:induction false} SubseqLength<T>(a: seq<T>, b: seq<T>)
    requires IsSubseq(a, b)
    ensures |a| <= |b|
    decreases |b|
  {
    if |a| > 0 {
      if a[0] == b[0] { SubseqLength(a[1..], b[1..]); } else { SubseqLength(a, b[1..]); }
    }
  }

  /** An element absent from `b` is absent from every subsequence of `b`. */
  lemma {:induction false} SubseqAbsent<T>(a: seq<T>, b: seq<T>, x: T)
    requires IsSubseq(a, b) && x !in b
    ensures x !in a
    decreases |b|
  {
    if |a| > 0 {
      if a[0] == b[0] {
        SubseqAbsent(a[1..], b[1..], x);
        assert a == [a[0]] + a[1..];
      } else {
        SubseqAbsent(a, b[1..], x);
      }
    }
  }

  lemma {:induction false} SubseqDropHead<T>(a: seq<T>, b: seq<T>)
    requires |a| > 0 && IsSubseq(a, b)
    ensures IsSubseq(a[1..], b)
    decreases |b|
  {
    var c := a[1..];
    if |c| > 0 {
      if a[0] == b[0] {
        if c[0] != b[0] {
          assert IsSubseq(c, b[1..]);
        } else {
          SubseqDropHead(c, b[1..]);
        }
      } else {
        SubseqDropHead(a, b[1..]);
        if c[0] == b[0] { SubseqDropHead(c, b[1..]); }
      }
    }
  }

  lemma SubseqPrepend<T>(a: seq<T>, b: seq<T>, x: T)
    requires IsSubseq(a, b)
    ensures IsSubseq(a, [x] + b)
  {
    assert ([x] + b)[1..] == b;
    if |a| > 0 && a[0] == x { SubseqDropHead(a, b); }
  }

  lemma SubseqPrependBoth<T>(a: seq<T>, b: seq<T>, x: T)
    requires IsSubseq(a, b)
    ensures IsSubseq([x] + a, [x] + b)
  {
    assert ([x] + a)[1..] == a;
    assert ([x] + b)[1..] == b;
  }

  lemma {:induction false} SubseqTrans<T>(a: seq<T>, b: seq<T>, c: seq<T>)
    requires IsSubseq(a, b) && IsSubseq(b, c)
    ensures IsSubseq(a, c)
    decreases |c|
  {
    if |a| > 0 {
      if b[0] == c[0] {
        if a[0] == b[0] {
          SubseqTrans(a[1..], b[1..], c[1..]);
        } else {
          SubseqTrans(a, b[1..], c[1..]);
        }
      } else {
        SubseqTrans(a, b, c[1..]);
        if a[0] == c[0] { SubseqDropHead(a, c[1..]); }
      }
    }
  }

  lemma {:induction false} SubseqRefl<T>(a: seq<T>)
    ensures IsSubseq(a, a)
    decreases |a|
  {
    if |a| > 0 { SubseqRefl(a[1..]); }
  }

  lemma {:induction false} SuffixIsSubseq<T>(s: seq<T>, i: nat)
    requires i <= |s|
    ensures IsSubseq(s[i..], s)
    decreases i
  {
    if i == 0 {
      SubseqRefl(s);
      assert s[0..] == s;
    } else {
      SuffixIsSubseq(s[1..], i - 1);
      assert s[1..][i - 1..] == s[i..];
      SubseqPrepend(s[i..], s[1..], s[0]);
      assert [s[0]] + s[1..] == s;
    }
  }

  lemma {:induction false} PrefixIsSubseq<T>(s: seq<T>, j: nat)
    requires j <= |s|
    ensures IsSubseq(s[..j], s)
    decreases j
  {
    if j > 0 {
      PrefixIsSubseq(s[1..], j - 1);
      assert s[..j][1..] == s[1..][..j - 1];
    }
  }

  lemma SliceIsSubseq<T>(s: seq<T>, i: nat, j: nat)
    requires i <= j <= |s|
    ensures IsSubseq(s[i..j], s)
  {
    PrefixIsSubseq(s[i..], j - i);
    assert s[i..][..j - i] == s[i..j];
    SuffixIsSubseq(s, i);
    SubseqTrans(s[i..j], s[i..], s);
  }

  /** Putting the head back in front of the tail and a suffix rebuilds the sequence and the suffix. */
  lemma ConsAppend<T>(a: seq<T>, x: seq<T>)
    requires |a| > 0
    ensures [a[0]] + (a[1..] + x) == a + x
  {
    assert a == [a[0]] + a[1..];
  }
}
