/** The JavaScript string built-ins the source relies on, restricted to ASCII:
    character classes of regular expressions, `toLowerCase`, `includes`,
    `trim`, `indexOf`, `split`, `join` and `replace` with a string pattern,
    and the truthiness of an optional string. */
module Text {
  import opened Wrappers

  /** `\s` restricted to ASCII: space, tab, line feed, vertical tab, form feed, carriage return. */
  predicate IsSpace(c: char) {
    c == ' ' || c == '\t' || c == '\n' || c == '\r' || c as int == 11 || c as int == 12
  }

  predicate IsDigit(c: char) { '0' <= c <= '9' }
  predicate IsUpper(c: char) { 'A' <= c <= 'Z' }
  predicate IsLowerLetter(c: char) { 'a' <= c <= 'z' }
  predicate IsLetter(c: char) { IsUpper(c) || IsLowerLetter(c) }
  predicate IsAlnum(c: char) { IsLetter(c) || IsDigit(c) }
  /** `[a-zA-Z0-9_-]` */
  predicate IsIdChar(c: char) { IsAlnum(c) || c == '_' || c == '-' }

  lemma LetterNotSpace(c: char)
    requires IsLetter(c)
    ensures !IsSpace(c)
  {
  }

  predicate AllChars(s: string, p: char -> bool) {
    forall i :: 0 <= i < |s| ==> p(s[i])
  }

  /** The length of the longest prefix of `s` whose characters satisfy `ok`:
      how far a greedy `[...]*` goes. */
  function Span(s: string, ok: char -> bool): (n: nat)
    ensures n <= |s|
    ensures forall i :: 0 <= i < n ==> ok(s[i])
    ensures n < |s| ==> !ok(s[n])
  {
    if s == [] || !ok(s[0]) then 0 else 1 + Span(s[1..], ok)
  }

  /** The characters at `lo` up to `hi` all satisfy `ok`. */
  predicate CharsIn(s: string, lo: int, hi: int, ok: char -> bool) {
    0 <= lo <= hi <= |s| && forall k :: lo <= k < hi ==> ok(s[k])
  }

  /** A range of characters seen through the window `s[p..e]`. */
  lemma CharsInWindow(s: string, p: int, e: int, lo: int, hi: int, ok: char -> bool)
    requires 0 <= p <= lo && hi <= e <= |s| && CharsIn(s, lo, hi, ok)
    ensures CharsIn(s[p..e], lo - p, hi - p, ok)
  {
    forall k | lo - p <= k < hi - p
      ensures ok(s[p..e][k])
    {
      assert s[p..e][k] == s[p + k];
    }
  }

  /** Two adjacent ranges make one. */
  lemma CharsInJoin(s: string, lo: int, mid: int, hi: int, ok: char -> bool)
    requires CharsIn(s, lo, mid, ok) && CharsIn(s, mid, hi, ok)
    ensures CharsIn(s, lo, hi, ok)
  {
  }

  /** A range from the start is the prefix up to its end. */
  lemma CharsInPrefix(s: string, hi: int, ok: char -> bool)
    requires CharsIn(s, 0, hi, ok)
    ensures AllChars(s[..hi], ok)
  {
    forall k | 0 <= k < hi
      ensures ok(s[..hi][k])
    {
      assert s[..hi][k] == s[k];
    }
  }

  /** Where the run of `ok` characters starting at `p` ends: how far a greedy
      `[...]*` goes from `p`. */
  function RunEnd(s: string, p: nat, ok: char -> bool): (q: nat)
    requires p <= |s|
    ensures p <= q <= |s| && CharsIn(s, p, q, ok)
    ensures q < |s| ==> !ok(s[q])
    decreases |s| - p
  {
    if p == |s| || !ok(s[p]) then p else RunEnd(s, p + 1, ok)
  }

  /** A run ends at the first character that fails `ok`. */
  lemma {:induction false} RunEndStops(s: string, p: nat, ok: char -> bool, q: nat)
    requires p <= q < |s| && CharsIn(s, p, q, ok) && !ok(s[q])
    ensures RunEnd(s, p, ok) == q
    decreases q - p
  {
    if p < q {
      RunEndStops(s, p + 1, ok, q);
    }
  }

  /** A run reaches at least as far as `ok` holds. */
  lemma {:induction false} RunEndCovers(s: string, p: nat, ok: char -> bool, q: nat)
    requires p <= q <= |s| && CharsIn(s, p, q, ok)
    ensures RunEnd(s, p, ok) >= q
    decreases q - p
  {
    if p < q {
      RunEndCovers(s, p + 1, ok, q);
    }
  }

  /** A run reaches at least as far as any prefix whose characters all satisfy `ok`. */
  lemma SpanCovers(s: string, ok: char -> bool, k: int)
    requires 0 <= k <= |s| && forall i :: 0 <= i < k ==> ok(s[i])
    ensures Span(s, ok) >= k
  {
  }

  /** A run stops exactly at the first character that fails `ok`. */
  lemma SpanStopsAt(s: string, ok: char -> bool, k: int)
    requires 0 <= k < |s| && !ok(s[k]) && forall i :: 0 <= i < k ==> ok(s[i])
    ensures Span(s, ok) == k
  {
  }

  /** `toLowerCase` on one character, ASCII letters only. */
  function LowerChar(c: char): (r: char)
    ensures IsUpper(c) ==> IsLowerLetter(r) && r as int == c as int + 32
    ensures !IsUpper(c) ==> r == c
  {
    if IsUpper(c) then (c as int + 32) as char else c
  }

  function Lower(s: string): (r: string)
    ensures |r| == |s|
    ensures forall i :: 0 <= i < |s| ==> r[i] == LowerChar(s[i])
  {
    seq(|s|, i requires 0 <= i < |s| => LowerChar(s[i]))
  }

  lemma LowerIdempotent(s: string)
    ensures Lower(Lower(s)) == Lower(s)
  {
  }

  /** Text with no upper-case letter is already lower case. */
  lemma LowerNoUpper(s: string)
    requires forall i :: 0 <= i < |s| ==> !IsUpper(s[i])
    ensures Lower(s) == s
  {
  }

  lemma LowerSlice(s: string, i: int, j: int)
    requires 0 <= i <= j <= |s|
    ensures Lower(s)[i..j] == Lower(s[i..j])
  {
  }

  lemma LowerConcat(a: string, b: string)
    ensures Lower(a + b) == Lower(a) + Lower(b)
  {
  }

  /** `t` occurs in `s` at index `i`. */
  predicate OccursAt(s: string, t: string, i: int) {
    0 <= i && i + |t| <= |s| && s[i..i + |t|] == t
  }

  /** An occurrence, character by character. */
  lemma OccursAtChars(s: string, t: string, i: int)
    requires OccursAt(s, t, i)
    ensures forall k :: 0 <= k < |t| ==> s[i + k] == t[k]
  {
    forall k | 0 <= k < |t|
      ensures s[i + k] == t[k]
    {
      assert s[i..i + |t|][k] == s[i + k];
    }
  }

  /** `s.includes(t)` */
  predicate Contains(s: string, t: string) {
    exists i :: 0 <= i <= |s| - |t| && OccursAt(s, t, i)
  }

  lemma ContainsLength(s: string, t: string)
    requires Contains(s, t)
    ensures |t| <= |s|
  {
  }

  lemma ContainsWitness(s: string, t: string, i: int)
    requires OccursAt(s, t, i)
    ensures Contains(s, t)
  {
  }

  lemma ContainsTransitive(a: string, b: string, c: string)
    requires Contains(a, b) && Contains(b, c)
    ensures Contains(a, c)
  {
    var i :| 0 <= i <= |a| - |b| && OccursAt(a, b, i);
    var j :| 0 <= j <= |b| - |c| && OccursAt(b, c, j);
    forall k | 0 <= k < |c|
      ensures a[i + j + k] == c[k]
    {
      assert c[k] == b[j + k];
      assert b[j + k] == a[i + j + k];
    }
    assert a[i + j..i + j + |c|] == c;
    assert OccursAt(a, c, i + j);
  }

  /** Lower-casing keeps every occurrence. */
  lemma ContainsLower(a: string, b: string)
    requires Contains(a, b)
    ensures Contains(Lower(a), Lower(b))
  {
    var i :| 0 <= i <= |a| - |b| && OccursAt(a, b, i);
    LowerSlice(a, i, i + |b|);
    assert OccursAt(Lower(a), Lower(b), i);
  }

  lemma ContainsMiddle(a: string, b: string, c: string)
    ensures Contains(a + b + c, b)
  {
    assert (a + b + c)[|a|..|a| + |b|] == b;
    assert OccursAt(a + b + c, b, |a|);
  }

  /** JavaScript's `o || d` for a string that may be undefined: the empty string is falsy. */
  predicate Truthy(o: Option<string>) {
    o.Some? && o.value != ""
  }

  function OrElse(o: Option<string>, d: string): (r: string)
    ensures Truthy(o) ==> r == o.value
    ensures !Truthy(o) ==> r == d
  {
    if Truthy(o) then o.value else d
  }

  /** `s.indexOf(c)`: the first index of `c`, if any. */
  function IndexOf(s: string, c: char): (r: Option<nat>)
    ensures r.Some? ==> r.value < |s| && s[r.value] == c && c !in s[..r.value]
    ensures r.None? ==> c !in s
  {
    if |s| == 0 then None
    else if s[0] == c then Some(0)
    else match IndexOf(s[1..], c)
      case None => None
      case Some(i) => assert s[..i + 1] == [s[0]] + s[1..][..i]; Some(i + 1)
  }

  /** The first index at or after `from` where `t` occurs in `s`. */
  function FindFrom(s: string, t: string, from: nat): (r: Option<nat>)
    requires from <= |s|
    ensures r.Some? ==> from <= r.value && OccursAt(s, t, r.value)
    ensures r.Some? ==> forall k :: from <= k < r.value ==> !OccursAt(s, t, k)
    ensures r.None? ==> forall k :: from <= k <= |s| ==> !OccursAt(s, t, k)
    decreases |s| - from
  {
    if OccursAt(s, t, from) then Some(from)
    else if from == |s| then None
    else FindFrom(s, t, from + 1)
  }

  /** `s.replace(t, "")` with a string pattern: only the first occurrence is removed. */
  function RemoveFirst(s: string, t: string): (r: string)
    ensures FindFrom(s, t, 0).None? ==> !Contains(s, t) && r == s
    ensures FindFrom(s, t, 0).Some? ==>
      var i := FindFrom(s, t, 0).value;
      Contains(s, t) && |r| == |s| - |t| && r == s[..i] + s[i + |t|..]
  {
    match FindFrom(s, t, 0)
    case None => s
    case Some(i) => s[..i] + s[i + |t|..]
  }

  /** The first occurrence is the one with none before it. */
  lemma IndexOfFirst(s: string, c: char, i: nat)
    requires i < |s| && s[i] == c && c !in s[..i]
    ensures IndexOf(s, c) == Some(i)
  {
    assert s[i] == c;
  }

  /** Removing a prefix that is there gives the rest back. */
  lemma RemoveFirstPrefix(t: string, rest: string)
    ensures RemoveFirst(t + rest, t) == rest
  {
    assert OccursAt(t + rest, t, 0);
    assert FindFrom(t + rest, t, 0) == Some(0);
  }

  /** `s.trimStart()`: drops the leading run of `\s`. */
  function TrimStart(s: string): (r: string)
    ensures |r| <= |s| && r == s[|s| - |r|..]
    ensures r == [] || !IsSpace(r[0])
  {
    s[Span(s, IsSpace)..]
  }

  /** The length of the trailing run of `\s`. */
  function TrailingSpace(s: string): (n: nat)
    ensures n <= |s|
    ensures forall k :: |s| - n <= k < |s| ==> IsSpace(s[k])
    ensures n < |s| ==> !IsSpace(s[|s| - n - 1])
  {
    if s == [] || !IsSpace(s[|s| - 1]) then 0 else 1 + TrailingSpace(s[..|s| - 1])
  }

  /** `s.trim()`: the longest middle part with no leading or trailing space. */
  function Trim(s: string): (r: string)
    ensures r == [] || (!IsSpace(r[0]) && !IsSpace(r[|r| - 1]))
    ensures var i := Span(s, IsSpace); i + |r| <= |s| && r == s[i..i + |r|]
  {
    var i := Span(s, IsSpace);
    if i == |s| then []
    else
      var j := |s| - TrailingSpace(s);
      assert i < j by {
        assert !IsSpace(s[i]);
      }
      s[i..j]
  }

  /** Trimming keeps only characters of the original. */
  lemma TrimKeepsChars(s: string, ok: char -> bool)
    requires AllChars(s, ok)
    ensures AllChars(Trim(s), ok)
  {
    var r := Trim(s);
    var i := Span(s, IsSpace);
    forall k | 0 <= k < |r|
      ensures ok(r[k])
    {
      assert r[k] == s[i + k];
    }
  }

  /** A string that begins and ends with a non-space is its own trim. */
  lemma TrimNoOuterSpace(s: string)
    requires s == [] || (!IsSpace(s[0]) && !IsSpace(s[|s| - 1]))
    ensures Trim(s) == s
  {
  }

  /** `s.split(sep)` with a one-character separator. */
  function Split(s: string, sep: char): (r: seq<string>)
    ensures |r| >= 1
    decreases |s|
  {
    match IndexOf(s, sep)
    case None => [s]
    case Some(i) => [s[..i]] + Split(s[i + 1..], sep)
  }

  /** `parts.join(sep)` */
  function Join(parts: seq<string>, sep: string): string {
    if |parts| == 0 then ""
    else if |parts| == 1 then parts[0]
    else parts[0] + sep + Join(parts[1..], sep)
  }

  /** A string is the text before index `i`, the character at `i`, and the text after it. */
  lemma AroundIndex(s: string, i: int)
    requires 0 <= i < |s|
    ensures s == s[..i] + [s[i]] + s[i + 1..]
  {
  }

  /** The pieces after the first are the split of the text after the first separator. */
  lemma SplitStep(s: string, sep: char, i: nat)
    requires IndexOf(s, sep) == Some(i)
    ensures Split(s, sep)[0] == s[..i] && Split(s, sep)[1..] == Split(s[i + 1..], sep)
  {
    var rest := Split(s[i + 1..], sep);
    assert Split(s, sep) == [s[..i]] + rest;
    assert ([s[..i]] + rest)[1..] == rest;
  }

  /** Joining a first piece onto the others. */
  lemma JoinStep(parts: seq<string>, sep: string)
    requires |parts| >= 2
    ensures Join(parts, sep) == parts[0] + sep + Join(parts[1..], sep)
  {
  }

  /** Splitting and joining with the same separator gives the string back. */
  lemma {:induction false} JoinSplit(s: string, sep: char)
    ensures Join(Split(s, sep), [sep]) == s
    decreases |s|
  {
    match IndexOf(s, sep)
    case None =>
    case Some(i) =>
      var parts := Split(s, sep);
      SplitStep(s, sep, i);
      JoinSplit(s[i + 1..], sep);
      JoinStep(parts, [sep]);
      AroundIndex(s, i);
  }

  /** The first piece of a split is the text before the first separator,
      and the other pieces joined back are the text after it. */
  lemma SplitFirstAndRest(s: string, sep: char)
    ensures IndexOf(s, sep).None? ==> Split(s, sep)[0] == s && Join(Split(s, sep)[1..], [sep]) == ""
    ensures IndexOf(s, sep).Some? ==>
      var i := IndexOf(s, sep).value;
      Split(s, sep)[0] == s[..i] && Join(Split(s, sep)[1..], [sep]) == s[i + 1..]
  {
    match IndexOf(s, sep)
    case None =>
    case Some(i) =>
      SplitStep(s, sep, i);
      JoinSplit(s[i + 1..], sep);
  }
}
