/**
 * The JavaScript string built-ins the importer relies on, as total functions
 * on `seq<char>`: `String.prototype.trim`, `includes`, `split` with a
 * non-empty string separator, and `Array.prototype.join`.
 */
module JsText {

  datatype Option<T> = None | Some(value: T)

  /** ECMAScript WhiteSpace and LineTerminator code points (the set `trim` strips). */
  predicate IsWhiteSpace(c: char) {
    || c == '\t' || c == '\n' || c == '\U{000B}' || c == '\U{000C}' || c == '\r'
    || c == ' ' || c == '\U{00A0}' || c == '\U{1680}'
    || ('\U{2000}' <= c <= '\U{200A}')
    || c == '\U{2028}' || c == '\U{2029}' || c == '\U{202F}' || c == '\U{205F}'
    || c == '\U{3000}' || c == '\U{FEFF}'
  }

  /** Number of leading white-space characters of `s`. */
  function LeadingSpace(s: string): (n: nat)
    ensures n <= |s|
  {
    if s == [] || !IsWhiteSpace(s[0]) then 0 else 1 + LeadingSpace(s[1..])
  }

  /** LeadingSpace counts the white space before the first other character. */
  lemma {:induction false} LeadingSpaceSpec(s: string)
    ensures forall k :: 0 <= k < LeadingSpace(s) ==> IsWhiteSpace(s[k])
    ensures LeadingSpace(s) < |s| ==> !IsWhiteSpace(s[LeadingSpace(s)])
    decreases |s|
  {
    if s != [] && IsWhiteSpace(s[0]) {
      LeadingSpaceSpec(s[1..]);
    }
  }

  /** Number of trailing white-space characters of `s`. */
  function TrailingSpace(s: string): (n: nat)
    ensures n <= |s|
  {
    if s == [] || !IsWhiteSpace(s[|s| - 1]) then 0 else 1 + TrailingSpace(s[..|s| - 1])
  }

  /** TrailingSpace counts the white space after the last other character. */
  lemma {:induction false} TrailingSpaceSpec(s: string)
    ensures forall k :: |s| - TrailingSpace(s) <= k < |s| ==> IsWhiteSpace(s[k])
    ensures TrailingSpace(s) < |s| ==> !IsWhiteSpace(s[|s| - 1 - TrailingSpace(s)])
    decreases |s|
  {
    if s != [] && IsWhiteSpace(s[|s| - 1]) {
      TrailingSpaceSpec(s[..|s| - 1]);
    }
  }

  function TrimStart(s: string): string {
    s[LeadingSpace(s)..]
  }

  /**
   * `s.trim()`: the slice of `s` left once the white space at both ends is
   * removed; it neither starts nor ends with white space, and what was cut off
   * is white space only.
   */
  function Trim(s: string): string {
    var t := TrimStart(s);
    t[..|t| - TrailingSpace(t)]
  }

  /**
   * `s.trim()` is a slice of `s` that neither starts nor ends with white space,
   * and what it cuts off at either end is white space only.
   */
  lemma TrimSpec(s: string)
    ensures Trim(s) == [] || (!IsWhiteSpace(Trim(s)[0]) && !IsWhiteSpace(Trim(s)[|Trim(s)| - 1]))
    ensures exists a, b :: (0 <= a <= b <= |s| && Trim(s) == s[a..b]
      && (forall k :: 0 <= k < a ==> IsWhiteSpace(s[k]))
      && (forall k :: b <= k < |s| ==> IsWhiteSpace(s[k])))
  {
    var a := LeadingSpace(s);
    var t := s[a..];
    var b := a + |t| - TrailingSpace(t);
    LeadingSpaceSpec(s);
    TrailingSpaceSpec(t);
    assert Trim(s) == t[..b - a] == s[a..b];
    assert Trim(s) != [] ==> Trim(s)[0] == s[a] && Trim(s)[|Trim(s)| - 1] == t[|t| - 1 - TrailingSpace(t)];
    assert forall k :: b <= k < |s| ==> s[k] == t[k - a];
    assert forall k :: b <= k < |s| ==> IsWhiteSpace(s[k]);
  }

  /** `s.startsWith(sep, i)`: `sep` occurs in `s` at index `i`. */
  predicate OccursAt(s: string, sep: string, i: nat) {
    i + |sep| <= |s| && s[i..i + |sep|] == sep
  }

  /** The leftmost occurrence of `sep` in `s` at or after `from`. */
  function FindFrom(s: string, sep: string, from: nat): (r: Option<nat>)
    ensures r.Some? ==> from <= r.value && r.value + |sep| <= |s|
    decreases |s| - from
  {
    if from + |sep| > |s| then None
    else if OccursAt(s, sep, from) then Some(from)
    else FindFrom(s, sep, from + 1)
  }

  /** FindFrom finds an occurrence, and no occurrence before it; None means there is none. */
  lemma {:induction false} FindFromSpec(s: string, sep: string, from: nat)
    ensures FindFrom(s, sep, from).Some? ==> OccursAt(s, sep, FindFrom(s, sep, from).value)
    ensures FindFrom(s, sep, from).Some? ==>
      forall k :: from <= k < FindFrom(s, sep, from).value ==> !OccursAt(s, sep, k)
    ensures FindFrom(s, sep, from).None? ==> forall k :: from <= k ==> !OccursAt(s, sep, k)
    decreases |s| - from
  {
    if from + |sep| <= |s| && !OccursAt(s, sep, from) {
      FindFromSpec(s, sep, from + 1);
    }
  }

  /** `s.indexOf(sep)`, with -1 rendered as None. */
  function IndexOf(s: string, sep: string): Option<nat> {
    FindFrom(s, sep, 0)
  }

  /** `s.includes(sep)`. */
  predicate Includes(s: string, sep: string) {
    IndexOf(s, sep).Some?
  }

  /**
   * `s.split(sep)` for a non-empty separator: the pieces between the
   * successive leftmost, non-overlapping occurrences of `sep`; a string without
   * `sep` (the empty string included) splits into itself alone.
   */
  function Split(s: string, sep: string): (parts: seq<string>)
    requires |sep| > 0
    ensures |parts| >= 1
    decreases |s|
  {
    match IndexOf(s, sep)
    case None => [s]
    case Some(i) => [s[..i]] + Split(s[i + |sep|..], sep)
  }

  /** `parts.join(sep)`. */
  function Join(parts: seq<string>, sep: string): string {
    if parts == [] then []
    else if |parts| == 1 then parts[0]
    else parts[0] + sep + Join(parts[1..], sep)
  }

  /** Joining the pieces of a split with the same separator gives back the string. */
  lemma {:induction false} JoinSplit(s: string, sep: string)
    requires |sep| > 0
    ensures Join(Split(s, sep), sep) == s
    decreases |s|
  {
    FindFromSpec(s, sep, 0);
    match IndexOf(s, sep)
    case None =>
    case Some(i) =>
      var rest := s[i + |sep|..];
      JoinSplit(rest, sep);
      var parts := Split(s, sep);
      assert parts == [s[..i]] + Split(rest, sep);
      assert parts[1..] == Split(rest, sep);
      assert s[i..i + |sep|] == sep;
      assert s == s[..i] + s[i..i + |sep|] + rest;
  }

  /**
   * What `split(sep)` does around the first separator: the first piece is the
   * text before it and the other pieces, re-joined, are the text after it.
   */
  lemma JoinTail(s: string, sep: string)
    requires |sep| > 0 && Includes(s, sep)
    ensures |Split(s, sep)| >= 2
    ensures Split(s, sep)[0] == s[..IndexOf(s, sep).value]
    ensures Join(Split(s, sep)[1..], sep) == s[IndexOf(s, sep).value + |sep|..]
  {
    var i := IndexOf(s, sep).value;
    var rest := s[i + |sep|..];
    assert Split(s, sep) == [s[..i]] + Split(rest, sep);
    assert Split(s, sep)[1..] == Split(rest, sep);
    JoinSplit(rest, sep);
  }

  function CountChar(s: string, c: char): nat {
    if s == [] then 0 else (if s[0] == c then 1 else 0) + CountChar(s[1..], c)
  }

  /** A one-character separator cuts a string into one more piece than it has separators. */
  lemma {:induction false} SplitCount(s: string, c: char)
    ensures |Split(s, [c])| == CountChar(s, c) + 1
    decreases |s|
  {
    FindFromSpec(s, [c], 0);
    match IndexOf(s, [c])
    case None =>
      NoOccurrenceNoCount(s, c);
    case Some(i) =>
      var rest := s[i + 1..];
      SplitCount(rest, c);
      CountSplitAt(s, c, i);
  }

  lemma {:induction false} NoOccurrenceNoCount(s: string, c: char)
    requires forall k :: 0 <= k ==> !OccursAt(s, [c], k)
    ensures CountChar(s, c) == 0
    decreases |s|
  {
    if s != [] {
      assert !OccursAt(s, [c], 0);
      assert s[0..1] == [s[0]];
      forall k | 0 <= k ensures !OccursAt(s[1..], [c], k) {
        assert !OccursAt(s, [c], k + 1);
        if k + 1 <= |s[1..]| {
          assert s[1..][k..k + 1] == s[k + 1..k + 2];
        }
      }
      NoOccurrenceNoCount(s[1..], c);
    }
  }

  lemma {:induction false} CountSplitAt(s: string, c: char, i: nat)
    requires IndexOf(s, [c]) == Some(i)
    ensures CountChar(s, c) == 1 + CountChar(s[i + 1..], c)
  {
    FindFromSpec(s, [c], 0);
    forall k | 0 <= k < i ensures s[..i][k] != c {
      assert !OccursAt(s, [c], k);
      assert s[k..k + 1] == [s[k]];
    }
    WithoutCount(s[..i], c);
    CountConcat(s[..i], s[i..], c);
    assert s == s[..i] + s[i..];
    assert s[i..i + 1] == [c];
    assert s[i..] == [c] + s[i + 1..];
    CountConcat([c], s[i + 1..], c);
  }

  lemma {:induction false} WithoutCount(t: string, c: char)
    requires forall k :: 0 <= k < |t| ==> t[k] != c
    ensures CountChar(t, c) == 0
    decreases |t|
  {
    if t != [] { WithoutCount(t[1..], c); }
  }

  lemma {:induction false} CountConcat(a: string, b: string, c: char)
    ensures CountChar(a + b, c) == CountChar(a, c) + CountChar(b, c)
    decreases |a|
  {
    if a != [] {
      assert (a + b)[1..] == a[1..] + b;
      assert (a + b)[0] == a[0];
      CountConcat(a[1..], b, c);
    } else {
      assert a + b == b;
    }
  }

  /** The first occurrence of `sep` is the one no earlier occurrence precedes. */
  lemma FirstOccurrence(s: string, sep: string, n: nat)
    requires OccursAt(s, sep, n)
    requires forall k :: 0 <= k < n ==> !OccursAt(s, sep, k)
    ensures IndexOf(s, sep) == Some(n)
  {
    FindFromSpec(s, sep, 0);
  }

  predicate Excludes(t: string, c: char) {
    forall j :: 0 <= j < |t| ==> t[j] != c
  }

  /**
   * Splitting on a one-character separator undoes a join with it, as long as
   * no piece contains the separator.
   */
  lemma {:induction false} SplitJoin(parts: seq<string>, c: char)
    requires |parts| >= 1
    requires forall k :: 0 <= k < |parts| ==> Excludes(parts[k], c)
    ensures Split(Join(parts, [c]), [c]) == parts
    decreases |parts|
  {
    var s := Join(parts, [c]);
    if |parts| == 1 {
      forall k | 0 <= k ensures !OccursAt(s, [c], k) {
        if k + 1 <= |s| { assert s[k..k + 1] == [s[k]]; }
      }
      FindFromSpec(s, [c], 0);
    } else {
      var n := |parts[0]|;
      var rest := Join(parts[1..], [c]);
      assert s == parts[0] + [c] + rest;
      assert s[n..n + 1] == [c];
      forall k | 0 <= k < n ensures !OccursAt(s, [c], k) {
        assert s[k..k + 1] == [parts[0][k]];
      }
      FirstOccurrence(s, [c], n);
      assert s[..n] == parts[0];
      assert s[n + 1..] == rest;
      SplitJoin(parts[1..], c);
      assert parts == [parts[0]] + parts[1..];
    }
  }
}
