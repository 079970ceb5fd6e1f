/** Lead extraction and replies of the WhatsApp relay
    (whatsapp-integration/src/services/whatsapp.ts). `parseLeadMessage` fills
    a lead record step by step: the sender's name, the first email-shaped
    substring, a name taken from the first name pattern that matches, and the
    interest tags whose keywords occur. The clock (`toISOString`) is the
    parameter `timestamp`; the Twilio and Meta calls are outcomes given as
    parameters. */
module WhatsAppService {
  import opened Wrappers
  import opened Text

  // ---------------------------------------------------------------- email

  /** `[a-zA-Z0-9._-]` */
  predicate IsLocalChar(c: char) {
    IsIdChar(c) || c == '.'
  }

  /** A string shaped `[a-zA-Z0-9._-]+@[a-zA-Z0-9._-]+\.[a-zA-Z0-9_-]+`, split
      at the '@' (index `i`) and at the last dot (index `j`). */
  predicate EmailSplit(t: string, i: int, j: int) {
    0 < i && i + 1 < j && j + 1 < |t|
    && t[i] == '@' && t[j] == '.'
    && CharsIn(t, 0, i, IsLocalChar) && CharsIn(t, i + 1, j, IsLocalChar) && CharsIn(t, j + 1, |t|, IsIdChar)
  }

  predicate EmailShaped(t: string) {
    exists i, j :: 0 <= i < j < |t| && EmailSplit(t, i, j)
  }

  /** A dot followed by a top-level-domain character at `d`. */
  predicate DotAt(s: string, d: int) {
    0 <= d && d + 1 < |s| && s[d] == '.' && IsIdChar(s[d + 1])
  }

  /** The last `d` in `[lo, hi - 1)` with `DotAt(s, d)`: where the greedy
      domain part gives back characters to let `\.` match. */
  function LastDot(s: string, lo: nat, hi: nat): (r: Option<nat>)
    requires hi <= |s|
    ensures r.Some? ==> lo <= r.value && r.value + 1 < hi && DotAt(s, r.value)
    ensures r.Some? ==> forall d :: r.value < d && d + 1 < hi ==> !DotAt(s, d)
    ensures r.None? ==> forall d :: lo <= d && d + 1 < hi ==> !DotAt(s, d)
    decreases hi
  {
    if hi < lo + 2 then None
    else if DotAt(s, hi - 2) then Some(hi - 2)
    else LastDot(s, lo, hi - 1)
  }

  /** Where the email pattern's match starting at `p` ends, if it matches there. */
  function EmailEndAt(s: string, p: nat): (r: Option<nat>)
    requires p <= |s|
    ensures r.Some? ==> p < r.value <= |s|
  {
    var q := RunEnd(s, p, IsLocalChar);
    if q == p || q == |s| || s[q] != '@' then None
    else
      match LastDot(s, q + 2, RunEnd(s, q + 1, IsLocalChar))
      case None => None
      case Some(d) => Some(RunEnd(s, d + 1, IsIdChar))
  }

  /** What the pattern matches at `p` is email-shaped. */
  lemma EmailEndAtShaped(s: string, p: nat)
    requires p <= |s| && EmailEndAt(s, p).Some?
    ensures EmailShaped(s[p..EmailEndAt(s, p).value])
  {
    var q, d, e := EmailEndAtParts(s, p);
    CharsInWindow(s, p, e, p, q, IsLocalChar);
    CharsInWindow(s, p, e, q + 1, d, IsLocalChar);
    CharsInWindow(s, p, e, d + 1, e, IsIdChar);
    var t := s[p..e];
    assert t[q - p] == s[q] && t[d - p] == s[d];
    assert EmailSplit(t, q - p, d - p);
  }

  /** A match at `p` has its '@' at `q`, its last dot at `d` and its end at `e`. */
  lemma EmailEndAtParts(s: string, p: nat) returns (q: nat, d: nat, e: nat)
    requires p <= |s| && EmailEndAt(s, p).Some?
    ensures p < q && q + 1 < d && d + 1 < e <= |s| && e == EmailEndAt(s, p).value
    ensures s[q] == '@' && s[d] == '.'
    ensures CharsIn(s, p, q, IsLocalChar) && CharsIn(s, q + 1, d, IsLocalChar) && CharsIn(s, d + 1, e, IsIdChar)
  {
    q := RunEnd(s, p, IsLocalChar);
    var r := RunEnd(s, q + 1, IsLocalChar);
    d := LastDot(s, q + 2, r).value;
    e := RunEnd(s, d + 1, IsIdChar);
  }

  /** Wherever an email-shaped string occurs, the pattern matches at its start. */
  lemma ShapedMatchesAt(s: string, t: string, p: nat)
    requires OccursAt(s, t, p) && EmailShaped(t)
    ensures EmailEndAt(s, p).Some?
  {
    var i, j :| 0 <= i < j < |t| && EmailSplit(t, i, j);
    OccursAtChars(s, t, p);
    forall k | p <= k < p + |t|
      ensures s[k] == t[k - p]
    {
      assert s[p + (k - p)] == t[k - p];
    }
    assert CharsIn(s, p, p + i, IsLocalChar) by {
      forall k | p <= k < p + i
        ensures IsLocalChar(s[k])
      {
        assert IsLocalChar(t[k - p]);
      }
    }
    assert CharsIn(s, p + i + 1, p + j + 2, IsLocalChar) by {
      forall k | p + i + 1 <= k < p + j + 2
        ensures IsLocalChar(s[k])
      {
        if k - p != j {
          assert IsLocalChar(t[k - p]);
        }
      }
    }
    assert DotAt(s, p + j) by {
      assert s[p + j] == t[j] && s[p + j + 1] == t[j + 1];
    }
    MatchesWith(s, p, p + i, p + j);
  }

  /** The pattern matches at `p` given an '@' at `q` after local characters,
      and a dot at `d` followed by a domain character, with local characters
      in between. */
  lemma MatchesWith(s: string, p: nat, q: nat, d: nat)
    requires p < q < |s| && s[q] == '@' && CharsIn(s, p, q, IsLocalChar)
    requires q + 2 <= d && DotAt(s, d) && CharsIn(s, q + 1, d + 2, IsLocalChar)
    ensures EmailEndAt(s, p).Some?
  {
    RunEndStops(s, p, IsLocalChar, q);
    RunEndCovers(s, q + 1, IsLocalChar, d + 2);
  }

  /** The leftmost position at or after `from` where the email pattern matches. */
  function FirstEmail(s: string, from: nat): (r: Option<nat>)
    requires from <= |s|
    ensures r.Some? ==> from <= r.value <= |s| && EmailEndAt(s, r.value).Some?
    ensures r.Some? ==> forall k :: from <= k < r.value ==> EmailEndAt(s, k).None?
    ensures r.None? ==> forall k :: from <= k <= |s| ==> EmailEndAt(s, k).None?
    decreases |s| - from
  {
    if EmailEndAt(s, from).Some? then Some(from)
    else if from == |s| then None
    else FirstEmail(s, from + 1)
  }

  /** `message.match(/([a-zA-Z0-9._-]+@[a-zA-Z0-9._-]+\.[a-zA-Z0-9_-]+)/)?.[0]` */
  function ExtractEmail(s: string): (r: Option<string>)
    ensures r.Some? ==> Contains(s, r.value)
    ensures r.Some? <==> FirstEmail(s, 0).Some?
    ensures r.Some? ==> OccursAt(s, r.value, FirstEmail(s, 0).value)
  {
    match FirstEmail(s, 0)
    case None => None
    case Some(p) =>
      var e := EmailEndAt(s, p).value;
      assert OccursAt(s, s[p..e], p);
      Some(s[p..e])
  }

  /** The extracted email is email-shaped. */
  lemma ExtractedEmailShaped(s: string)
    requires ExtractEmail(s).Some?
    ensures EmailShaped(ExtractEmail(s).value)
  {
    EmailEndAtShaped(s, FirstEmail(s, 0).value);
  }

  /** Whenever an email-shaped substring occurs, an email is extracted, and it
      starts no later than that substring: the leftmost one wins. */
  lemma EmailFoundWhenPresent(s: string, t: string, k: nat)
    requires OccursAt(s, t, k) && EmailShaped(t)
    ensures ExtractEmail(s).Some?
    ensures FirstEmail(s, 0).value <= k
  {
    ShapedMatchesAt(s, t, k);
  }

  /** The match at `p` is the longest email-shaped string starting there: the
      greedy quantifiers give back only what the final `\.` needs. */
  lemma EmailMatchLongest(s: string, p: nat)
    requires p <= |s| && EmailEndAt(s, p).Some?
    ensures forall e :: EmailEndAt(s, p).value < e <= |s| ==> !EmailShaped(s[p..e])
  {
    forall e | EmailEndAt(s, p).value < e <= |s|
      ensures !EmailShaped(s[p..e])
    {
      ShapedEndsWithin(s, p, e);
    }
  }

  /** The extracted email is the longest email-shaped string at its start. */
  lemma ExtractedEmailLongest(s: string)
    requires ExtractEmail(s).Some?
    ensures forall e :: FirstEmail(s, 0).value + |ExtractEmail(s).value| < e <= |s| ==>
      !EmailShaped(s[FirstEmail(s, 0).value..e])
  {
    EmailMatchLongest(s, FirstEmail(s, 0).value);
  }

  lemma ShapedEndsWithin(s: string, p: nat, e: nat)
    requires p <= e <= |s| && EmailEndAt(s, p).Some?
    ensures EmailShaped(s[p..e]) ==> e <= EmailEndAt(s, p).value
  {
    if EmailShaped(s[p..e]) {
      var a, dd := ShapedParts(s, p, e);
      RunEndStops(s, p, IsLocalChar, a);
      RunEndCovers(s, a + 1, IsLocalChar, e);
      var r := RunEnd(s, a + 1, IsLocalChar);
      var d := LastDot(s, a + 2, r).value;
      assert dd <= d;
      if d == dd {
        RunEndCovers(s, dd + 1, IsIdChar, e);
      } else {
        assert !IsIdChar(s[d]);
        assert e <= d;
      }
    }
  }

  /** An email-shaped `s[p..e]` read in `s`: its '@' at `a`, its last dot at `dd`. */
  lemma ShapedParts(s: string, p: nat, e: nat) returns (a: nat, dd: nat)
    requires p <= e <= |s| && EmailShaped(s[p..e])
    ensures p < a && a + 2 <= dd && DotAt(s, dd) && dd + 1 < e
    ensures s[a] == '@' && CharsIn(s, p, a, IsLocalChar)
    ensures CharsIn(s, a + 1, e, IsLocalChar) && CharsIn(s, dd + 1, e, IsIdChar)
  {
    var t := s[p..e];
    var i, j :| 0 <= i < j < |t| && EmailSplit(t, i, j);
    a, dd := p + i, p + j;
    assert t[i] == s[a] && t[j] == s[dd] && t[j + 1] == s[dd + 1];
    forall k | p <= k < a
      ensures IsLocalChar(s[k])
    {
      assert s[k] == t[k - p];
    }
    forall k | dd + 1 <= k < e
      ensures IsIdChar(s[k])
    {
      assert s[k] == t[k - p];
    }
    forall k | a + 1 <= k < e
      ensures IsLocalChar(s[k])
    {
      assert s[k] == t[k - p];
      if k < dd {
        assert IsLocalChar(t[k - p]);
      } else if dd < k {
        assert IsIdChar(t[k - p]);
      }
    }
  }

  // ---------------------------------------------------------------- names

  /** `[a-zA-Z\s]` */
  predicate IsNameChar(c: char) {
    IsLetter(c) || IsSpace(c)
  }

  const Phrases: seq<string> := ["my name is", "i am", "this is"]

  /** The capture of `\s+([a-zA-Z\s]+)` right after a phrase ending at `e`:
      the letters-and-spaces run after the spaces when a letter follows them;
      otherwise, if there are two spaces or more, the greedy `\s+` gives the
      last one back and the capture is that one space. There is a capture
      exactly when some whitespace after `e` is followed by a letter or
      whitespace character. */
  function CaptureAfterPhrase(s: string, e: nat): (r: Option<string>)
    requires e <= |s|
    ensures r.Some? ==> |r.value| >= 1 && AllChars(r.value, IsNameChar)
  {
    var w := RunEnd(s, e, IsSpace);
    if w == e then None
    else if w < |s| && IsLetter(s[w]) then
      var c := RunEnd(s, w, IsNameChar);
      CharsInWindow(s, w, c, w, c, IsNameChar);
      Some(s[w..c])
    else if w >= e + 2 then Some(s[w - 1..w])
    else None
  }

  /** There is a capture exactly when some whitespace after `e` is followed
      by a letter or whitespace character. */
  lemma CaptureWhenSpaced(s: string, e: nat)
    requires e <= |s|
    ensures CaptureAfterPhrase(s, e).Some? <==>
      exists b :: e < b < |s| && CharsIn(s, e, b, IsSpace) && IsNameChar(s[b])
  {
    var w := RunEnd(s, e, IsSpace);
    if w > e && w < |s| && IsLetter(s[w]) {
      assert CharsIn(s, e, w, IsSpace) && IsNameChar(s[w]);
    } else if w >= e + 2 {
      assert CharsIn(s, e, w - 1, IsSpace) && IsNameChar(s[w - 1]);
    }
  }

  /** The capture is the run of letters and whitespace from `b` to `c`, after
      whitespace from `e`: the run is maximal, and it starts at the first
      character after the whitespace unless the greedy `\s+` gave its last
      character back to a capture of that one whitespace character. */
  lemma CaptureBounds(s: string, e: nat) returns (b: nat, c: nat)
    requires e <= |s| && CaptureAfterPhrase(s, e).Some?
    ensures e < b < c <= |s| && CaptureAfterPhrase(s, e).value == s[b..c]
    ensures CharsIn(s, e, b, IsSpace) && CharsIn(s, b, c, IsNameChar) && (c == |s| || !IsNameChar(s[c]))
    ensures b + 1 == c || !IsSpace(s[b])
  {
    var w := RunEnd(s, e, IsSpace);
    if w < |s| && IsLetter(s[w]) {
      b, c := w, RunEnd(s, w, IsNameChar);
    } else {
      b, c := w - 1, w;
    }
  }

  /** The phrase occurs at `p`, ignoring case. */
  predicate PhraseAt(s: string, p: int, phrase: string) {
    0 <= p && p + |phrase| <= |s| && Lower(s[p..p + |phrase|]) == phrase
  }

  /** At most one phrase occurs at a position: they start with different letters. */
  lemma OnePhraseAt(s: string, p: int, a: nat, a': nat)
    requires a < |Phrases| && a' < |Phrases|
    requires PhraseAt(s, p, Phrases[a]) && PhraseAt(s, p, Phrases[a'])
    ensures a == a'
  {
    assert s[p..p + |Phrases[a]|][0] == s[p] && s[p..p + |Phrases[a']|][0] == s[p];
    assert Phrases[a][0] == LowerChar(s[p]) == Phrases[a'][0];
  }

  /** The phrase pattern at `p`, trying the alternatives in order, ignoring case. */
  function PhraseCaptureAt(s: string, p: nat, alt: nat): (r: Option<string>)
    requires p <= |s|
    ensures r.Some? ==> |r.value| >= 1 && AllChars(r.value, IsNameChar)
    decreases |Phrases| - alt
  {
    if alt >= |Phrases| then None
    else
      var phrase := Phrases[alt];
      var here := if PhraseAt(s, p, phrase) then CaptureAfterPhrase(s, p + |phrase|) else None;
      if here.Some? then here else PhraseCaptureAt(s, p, alt + 1)
  }

  /** The leftmost position at or after `from` where the phrase pattern matches. */
  function FirstPhrase(s: string, from: nat): (r: Option<nat>)
    requires from <= |s|
    ensures r.Some? ==> from <= r.value <= |s| && PhraseCaptureAt(s, r.value, 0).Some?
    ensures r.Some? ==> forall k :: from <= k < r.value ==> PhraseCaptureAt(s, k, 0).None?
    ensures r.None? ==> forall k :: from <= k <= |s| ==> PhraseCaptureAt(s, k, 0).None?
    decreases |s| - from
  {
    var here := PhraseCaptureAt(s, from, 0);
    if here.Some? then Some(from)
    else if from == |s| then None
    else
      var r := FirstPhrase(s, from + 1);
      assert forall k :: from < k <= |s| && (r.None? || k < r.value) ==> PhraseCaptureAt(s, k, 0).None?;
      r
  }

  /** `message.match(/(?:my name is|i am|this is)\s+([a-zA-Z\s]+)/i)?.[1]` */
  function PhraseCapture(s: string): (r: Option<string>)
    ensures r.Some? ==> |r.value| >= 1 && AllChars(r.value, IsNameChar)
  {
    match FirstPhrase(s, 0)
    case None => None
    case Some(p) =>
      assert PhraseCaptureAt(s, p, 0).Some?;
      PhraseCaptureAt(s, p, 0)
  }

  /** The alternative that `PhraseCaptureAt` settles on occurs at `p`, and
      the capture is the one after it. */
  lemma {:induction false} PhraseCaptureAtFound(s: string, p: nat, alt: nat) returns (a: nat)
    requires p <= |s| && PhraseCaptureAt(s, p, alt).Some?
    ensures alt <= a < |Phrases| && PhraseAt(s, p, Phrases[a])
    ensures PhraseCaptureAt(s, p, alt) == CaptureAfterPhrase(s, p + |Phrases[a]|)
    decreases |Phrases| - alt
  {
    if PhraseAt(s, p, Phrases[alt]) && CaptureAfterPhrase(s, p + |Phrases[alt]|).Some? {
      a := alt;
      PhraseCaptureAtHere(s, p, alt);
    } else {
      PhraseCaptureAtNext(s, p, alt);
      a := PhraseCaptureAtFound(s, p, alt + 1);
    }
  }

  lemma PhraseCaptureAtHere(s: string, p: nat, alt: nat)
    requires p <= |s| && alt < |Phrases|
    requires PhraseAt(s, p, Phrases[alt]) && CaptureAfterPhrase(s, p + |Phrases[alt]|).Some?
    ensures PhraseCaptureAt(s, p, alt) == CaptureAfterPhrase(s, p + |Phrases[alt]|)
  {
  }

  lemma PhraseCaptureAtNext(s: string, p: nat, alt: nat)
    requires p <= |s| && alt < |Phrases|
    requires !(PhraseAt(s, p, Phrases[alt]) && CaptureAfterPhrase(s, p + |Phrases[alt]|).Some?)
    ensures PhraseCaptureAt(s, p, alt) == PhraseCaptureAt(s, p, alt + 1)
  {
  }

  /** An alternative that occurs at `p` and is followed by a capture is found. */
  lemma {:induction false} PhraseCaptureAtFinds(s: string, p: nat, alt: nat, a: nat)
    requires p <= |s| && alt <= a < |Phrases|
    ensures PhraseAt(s, p, Phrases[a]) && CaptureAfterPhrase(s, p + |Phrases[a]|).Some? ==>
      PhraseCaptureAt(s, p, alt).Some?
    decreases a - alt
  {
    if alt < a {
      PhraseCaptureAtFinds(s, p, alt + 1, a);
    }
  }

  /** A phrase capture comes from the leftmost position where a phrase,
      ignoring case, is followed by a capture; it is the capture after that
      phrase. */
  lemma PhraseCaptureFound(s: string) returns (p: nat, a: nat)
    requires PhraseCapture(s).Some?
    ensures a < |Phrases| && PhraseAt(s, p, Phrases[a])
    ensures PhraseCapture(s) == CaptureAfterPhrase(s, p + |Phrases[a]|)
    ensures forall k, a' :: 0 <= k < p && 0 <= a' < |Phrases| && PhraseAt(s, k, Phrases[a']) ==>
      CaptureAfterPhrase(s, k + |Phrases[a']|).None?
  {
    p := FirstPhrase(s, 0).value;
    a := PhraseCaptureAtFound(s, p, 0);
    forall k, a' | 0 <= k < p && 0 <= a' < |Phrases| && PhraseAt(s, k, Phrases[a'])
      ensures CaptureAfterPhrase(s, k + |Phrases[a']|).None?
    {
      PhraseCaptureAtFinds(s, k, 0, a');
    }
  }

  /** Conversely, a phrase followed by whitespace and then a letter or
      whitespace character anywhere in the message gives a capture. */
  lemma PhraseCaptureWhenPresent(s: string, p: nat, a: nat, b: nat)
    requires a < |Phrases| && PhraseAt(s, p, Phrases[a])
    requires p + |Phrases[a]| < b < |s| && CharsIn(s, p + |Phrases[a]|, b, IsSpace) && IsNameChar(s[b])
    ensures PhraseCapture(s).Some?
  {
    CaptureWhenSpaced(s, p + |Phrases[a]|);
    PhraseCaptureAtFinds(s, p, 0, a);
  }

  /** The phrase capture is text of the message. */
  lemma PhraseCaptureOccurs(s: string)
    ensures PhraseCapture(s).Some? ==> Contains(s, PhraseCapture(s).value)
  {
    if PhraseCapture(s).Some? {
      var p, a := PhraseCaptureFound(s);
      CaptureOccurs(s, p + |Phrases[a]|);
    }
  }

  lemma CaptureOccurs(s: string, e: nat)
    requires e <= |s| && CaptureAfterPhrase(s, e).Some?
    ensures Contains(s, CaptureAfterPhrase(s, e).value)
  {
    var b, c := CaptureBounds(s, e);
    assert OccursAt(s, s[b..c], b);
  }

  /** The end of a word `[A-Z][a-z]+` starting at `i`. */
  function WordEnd(s: string, i: nat): (r: Option<nat>)
    requires i <= |s|
    ensures r.Some? ==> i + 2 <= r.value <= |s| && IsUpper(s[i]) && IsLowerLetter(s[r.value - 1])
    ensures r.Some? ==> CharsIn(s, i + 1, r.value, IsLowerLetter)
    ensures r.Some? ==> r.value == |s| || !IsLowerLetter(s[r.value])
    ensures r.Some? <==> i + 1 < |s| && IsUpper(s[i]) && IsLowerLetter(s[i + 1])
  {
    if i < |s| && IsUpper(s[i]) then
      var e := RunEnd(s, i + 1, IsLowerLetter);
      if e > i + 1 then Some(e) else None
    else None
  }

  /** The end of `\s+[A-Z][a-z]+` starting at `i`, if it matches there. */
  function NextWordEnd(s: string, i: nat): (r: Option<nat>)
    requires i <= |s|
    ensures r.Some? ==> i + 3 <= r.value <= |s| && IsLowerLetter(s[r.value - 1])
    ensures r.Some? ==> r.value == |s| || !IsLowerLetter(s[r.value])
    ensures r.Some? ==> CharsIn(s, i, r.value, IsNameChar)
  {
    var w := RunEnd(s, i, IsSpace);
    if w > i && WordEnd(s, w).Some? then
      var e := WordEnd(s, w).value;
      SpacedWordChars(s, i, w, e);
      Some(e)
    else None
  }

  /** Spaces, a capital and lower-case letters are all name characters. */
  lemma SpacedWordChars(s: string, i: nat, w: nat, e: nat)
    requires i <= w < e <= |s| && CharsIn(s, i, w, IsSpace) && IsUpper(s[w])
    requires CharsIn(s, w + 1, e, IsLowerLetter)
    ensures CharsIn(s, i, e, IsNameChar)
  {
  }

  /** Extends a run of capitalised words ending at `i` by `(?:\s+[A-Z][a-z]+)*`, greedily. */
  function WordsEnd(s: string, i: nat): (r: nat)
    requires 2 <= i <= |s| && IsLowerLetter(s[i - 1]) && (i == |s| || !IsLowerLetter(s[i]))
    ensures i <= r <= |s| && IsLowerLetter(s[r - 1])
    decreases |s| - i
  {
    match NextWordEnd(s, i)
    case Some(e) => WordsEnd(s, e)
    case None => i
  }

  /** What the extension adds is spaces and letters. */
  lemma {:induction false} WordsEndChars(s: string, i: nat)
    requires 2 <= i <= |s| && IsLowerLetter(s[i - 1]) && (i == |s| || !IsLowerLetter(s[i]))
    ensures CharsIn(s, i, WordsEnd(s, i), IsNameChar)
    decreases |s| - i
  {
    match NextWordEnd(s, i)
    case Some(e) =>
      WordsEndChars(s, e);
      CharsInJoin(s, i, e, WordsEnd(s, e), IsNameChar);
    case None =>
  }

  /** The first `n` characters of `s` read as `[A-Z][a-z]+(?:\s+[A-Z][a-z]+)*`
      in full: letters and whitespace only, a capital first and no whitespace
      last; a letter is a capital exactly when whitespace comes before it, and
      a capital is followed by a lower-case letter. */
  predicate CapitalisedRun(s: string, n: int) {
    && 2 <= n <= |s| && IsUpper(s[0]) && !IsSpace(s[n - 1])
    && (forall k :: 0 <= k < n ==> IsNameChar(s[k]))
    && (forall k :: 0 <= k < n && IsUpper(s[k]) ==> k + 1 < n && IsLowerLetter(s[k + 1]))
    && (forall k :: 0 < k < n && IsLetter(s[k]) ==> (IsUpper(s[k]) <==> IsSpace(s[k - 1])))
  }

  /** `t` matches `[A-Z][a-z]+(?:\s+[A-Z][a-z]+)*` as a whole. */
  predicate CapitalisedWords(t: string) {
    CapitalisedRun(t, |t|)
  }

  lemma CapitalisedRunPrefixes(s: string)
    ensures forall m :: 0 <= m <= |s| ==> (CapitalisedWords(s[..m]) <==> CapitalisedRun(s, m))
  {
    forall m | 0 <= m <= |s|
      ensures CapitalisedWords(s[..m]) <==> CapitalisedRun(s, m)
    {
      var t := s[..m];
      assert forall k :: 0 <= k < m ==> t[k] == s[k];
    }
  }

  /** The first word is a run of its own. */
  lemma FirstWordRun(s: string)
    requires WordEnd(s, 0).Some?
    ensures CapitalisedRun(s, WordEnd(s, 0).value)
  {
  }

  /** A further word extends a run. */
  lemma NextWordRun(s: string, i: nat)
    requires i <= |s| && CapitalisedRun(s, i) && NextWordEnd(s, i).Some?
    ensures CapitalisedRun(s, NextWordEnd(s, i).value)
  {
    var w := RunEnd(s, i, IsSpace);
    var e := WordEnd(s, w).value;
    assert NextWordEnd(s, i).value == e;
    ExtendRun(s, i, w, e);
  }

  lemma ExtendRun(s: string, i: nat, w: nat, e: nat)
    requires i < w && w + 1 < e <= |s| && CapitalisedRun(s, i)
    requires CharsIn(s, i, w, IsSpace) && IsUpper(s[w]) && CharsIn(s, w + 1, e, IsLowerLetter)
    ensures CapitalisedRun(s, e)
  {
    forall k | 0 <= k < e
      ensures IsNameChar(s[k])
    {
      if k >= i && k < w { assert IsSpace(s[k]); }
      else if k > w { assert IsLowerLetter(s[k]); }
    }
    forall k | 0 <= k < e && IsUpper(s[k])
      ensures k + 1 < e && IsLowerLetter(s[k + 1])
    {
    }
    forall k | 0 < k < e && IsLetter(s[k])
      ensures IsUpper(s[k]) <==> IsSpace(s[k - 1])
    {
      if k == w {
        assert IsSpace(s[k - 1]);
      } else if k > w {
        assert IsLowerLetter(s[k]);
        assert IsLetter(s[k - 1]);
      }
    }
    assert IsLowerLetter(s[e - 1]);
  }

  lemma {:induction false} WordsEndRun(s: string, i: nat)
    requires 2 <= i <= |s| && IsLowerLetter(s[i - 1]) && (i == |s| || !IsLowerLetter(s[i]))
    requires CapitalisedRun(s, i)
    ensures CapitalisedRun(s, WordsEnd(s, i))
    decreases |s| - i
  {
    match NextWordEnd(s, i)
    case Some(e) =>
      NextWordRun(s, i);
      WordsEndRun(s, e);
    case None =>
  }

  /** The extension stops where neither a lower-case letter nor a further word follows. */
  lemma {:induction false} WordsEndStops(s: string, i: nat)
    requires 2 <= i <= |s| && IsLowerLetter(s[i - 1]) && (i == |s| || !IsLowerLetter(s[i]))
    ensures var w := WordsEnd(s, i); NextWordEnd(s, w).None? && (w == |s| || !IsLowerLetter(s[w]))
    decreases |s| - i
  {
    match NextWordEnd(s, i)
    case Some(e) => WordsEndStops(s, e);
    case None =>
  }

  /** A run reaching past `w`, where a word ends, continues it with a
      lower-case letter or a further word. */
  lemma RunPastWordEnd(s: string, w: nat, m: int)
    requires 2 <= w < m <= |s| && IsLowerLetter(s[w - 1])
    ensures CapitalisedRun(s, m) ==> IsLowerLetter(s[w]) || NextWordEnd(s, w).Some?
  {
    if CapitalisedRun(s, m) && !IsLowerLetter(s[w]) {
      assert IsNameChar(s[w]);
      assert !IsUpper(s[w]) by {
        LetterNotSpace(s[w - 1]);
      }
      var x := RunEnd(s, w, IsSpace);
      assert !IsSpace(s[m - 1]);
      assert x < m;
      assert IsNameChar(s[x]) && !IsSpace(s[x]) && IsSpace(s[x - 1]);
      assert IsUpper(s[x]);
      assert WordEnd(s, x).Some?;
    }
  }

  /** The capitalised words in front of `s` are the longest prefix that the
      pattern matches in full; no prefix matches when there are none. */
  lemma CapturedRun(s: string)
    ensures WordEnd(s, 0).Some? ==>
      var w := WordsEnd(s, WordEnd(s, 0).value);
      CapitalisedRun(s, w) && forall m :: w < m <= |s| ==> !CapitalisedRun(s, m)
    ensures WordEnd(s, 0).None? ==> forall m :: 0 <= m <= |s| ==> !CapitalisedRun(s, m)
  {
    if WordEnd(s, 0).Some? {
      var e := WordEnd(s, 0).value;
      FirstWordRun(s);
      WordsEndRun(s, e);
      WordsEndStops(s, e);
      var w := WordsEnd(s, e);
      forall m | w < m <= |s|
        ensures !CapitalisedRun(s, m)
      {
        RunPastWordEnd(s, w, m);
      }
    }
  }

  /** `message.match(/^([A-Z][a-z]+(?:\s+[A-Z][a-z]+)*)/)?.[1]` */
  function CapitalisedCapture(s: string): (r: Option<string>)
    ensures r.Some? <==> |s| >= 2 && IsUpper(s[0]) && IsLowerLetter(s[1])
    ensures r.Some? ==> 2 <= |r.value| <= |s| && r.value == s[..|r.value|]
    ensures r.Some? ==> AllChars(r.value, IsNameChar) && IsUpper(r.value[0]) && IsLowerLetter(r.value[|r.value| - 1])
    ensures r.Some? ==> !IsSpace(r.value[0]) && !IsSpace(r.value[|r.value| - 1])
    ensures r.Some? ==> CapitalisedWords(r.value)
    ensures r.Some? ==> forall m :: |r.value| < m <= |s| ==> !CapitalisedWords(s[..m])
    ensures r.None? ==> forall m :: 0 <= m <= |s| ==> !CapitalisedWords(s[..m])
  {
    CapturedRun(s);
    CapitalisedRunPrefixes(s);
    match WordEnd(s, 0)
    case None => None
    case Some(e) =>
      CapitalisedWordsShape(s[..WordsEnd(s, e)]);
      Some(s[..WordsEnd(s, e)])
  }

  /** A run of capitalised words starts with a capital and ends with a lower-case letter. */
  lemma CapitalisedWordsShape(t: string)
    ensures CapitalisedWords(t) ==>
      && AllChars(t, IsNameChar) && IsUpper(t[0]) && IsLowerLetter(t[|t| - 1])
      && !IsSpace(t[0]) && !IsSpace(t[|t| - 1])
  {
    if CapitalisedWords(t) {
      var n := |t|;
      assert IsNameChar(t[n - 1]) && !IsSpace(t[n - 1]);
      assert !IsUpper(t[n - 1]);
      LetterNotSpace(t[0]);
    }
  }

  lemma CapitalisedOccurs(s: string)
    ensures CapitalisedCapture(s).Some? ==> Contains(s, CapitalisedCapture(s).value)
  {
    if CapitalisedCapture(s).Some? {
      assert OccursAt(s, CapitalisedCapture(s).value, 0);
    }
  }

  /** A capitalised-words capture has no outer spaces, so trimming keeps it. */
  lemma CapitalisedCaptureTrimmed(s: string)
    requires CapitalisedCapture(s).Some?
    ensures Trim(CapitalisedCapture(s).value) == CapitalisedCapture(s).value
  {
    TrimNoOuterSpace(CapitalisedCapture(s).value);
  }

  datatype NamePattern = PhrasePattern | CapitalisedWordsPattern

  /** The name patterns, in the order they are tried. */
  const NamePatterns: seq<NamePattern> := [PhrasePattern, CapitalisedWordsPattern]

  /** The capture of one name pattern: text of the message made of letters
      and whitespace; for the capitalised-words pattern, a prefix of the
      message that the pattern matches in full. */
  function NameCapture(pattern: NamePattern, message: string): (r: Option<string>)
    ensures r.Some? ==> |r.value| >= 1 && AllChars(r.value, IsNameChar)
    ensures r.Some? ==> Contains(message, r.value)
    ensures pattern == CapitalisedWordsPattern && r.Some? ==>
      CapitalisedWords(r.value) && r.value == message[..|r.value|]
  {
    PhraseCaptureOccurs(message);
    CapitalisedOccurs(message);
    match pattern
    case PhrasePattern => PhraseCapture(message)
    case CapitalisedWordsPattern => CapitalisedCapture(message)
  }

  /** The name `parseLeadMessage` settles on: the first pattern's capture,
      trimmed, else the sender's name, else "Unknown". */
  function NameOf(message: string, senderName: Option<string>): (r: string)
    ensures PhraseCapture(message).Some? ==> r == Trim(PhraseCapture(message).value)
    ensures PhraseCapture(message).None? && CapitalisedCapture(message).Some? ==>
      r == CapitalisedCapture(message).value && |r| >= 2
    ensures PhraseCapture(message).None? && CapitalisedCapture(message).None? ==>
      r == OrElse(senderName, "Unknown")
    ensures r == "" ==> PhraseCapture(message).Some?
  {
    ChooseName(PhraseCapture(message), CapitalisedCapture(message), senderName)
  }

  /** The phrase capture trimmed, else the capitalised capture, else the
      sender's name, else "Unknown". */
  function ChooseName(phrase: Option<string>, capitalised: Option<string>, senderName: Option<string>): string {
    match phrase
    case Some(c) => Trim(c)
    case None =>
      match capitalised
      case Some(c) => c
      case None => OrElse(senderName, "Unknown")
  }

  /** A name taken from a pattern is made of ASCII letters and spaces and has
      no outer space; a phrase name can be empty, a capitalised name cannot. */
  lemma NameFromPatternShape(message: string, senderName: Option<string>)
    requires PhraseCapture(message).Some? || CapitalisedCapture(message).Some?
    ensures AllChars(NameOf(message, senderName), IsNameChar)
    ensures var n := NameOf(message, senderName); n == [] || (!IsSpace(n[0]) && !IsSpace(n[|n| - 1]))
    ensures PhraseCapture(message).None? ==> |NameOf(message, senderName)| >= 2
  {
    var phrase, capitalised := PhraseCapture(message), CapitalisedCapture(message);
    ChosenNameShape(phrase, capitalised, senderName);
    assert NameOf(message, senderName) == ChooseName(phrase, capitalised, senderName);
  }

  lemma ChosenNameShape(phrase: Option<string>, capitalised: Option<string>, senderName: Option<string>)
    requires phrase.Some? ==> AllChars(phrase.value, IsNameChar)
    requires phrase.None? ==> capitalised.Some?
    requires capitalised.Some? ==> var c := capitalised.value;
      AllChars(c, IsNameChar) && |c| >= 2 && !IsSpace(c[0]) && !IsSpace(c[|c| - 1])
    ensures var n := ChooseName(phrase, capitalised, senderName);
      AllChars(n, IsNameChar) && (n == [] || (!IsSpace(n[0]) && !IsSpace(n[|n| - 1])))
    ensures phrase.None? ==> |ChooseName(phrase, capitalised, senderName)| >= 2
  {
    if phrase.Some? {
      TrimKeepsChars(phrase.value, IsNameChar);
    }
  }

  /** A message starting with capitalised words yields them, even a greeting. */
  lemma GreetingIsCapitalised()
    ensures CapitalisedCapture("Hi, call me") == Some("Hi")
  {
    var s := "Hi, call me";
    assert s[1] == 'i' && s[2] == ',';
    RunEndStops(s, 1, IsLowerLetter, 2);
    assert WordEnd(s, 0) == Some(2);
    RunEndStops(s, 2, IsSpace, 2);
    assert NextWordEnd(s, 2).None?;
    assert WordsEnd(s, 2) == 2;
    assert s[..2] == "Hi";
  }

  /** The phrase pattern can leave an empty name: two spaces and no letter
      after "i am" capture one space, which trims to nothing, and the sender's
      name is not used. */
  lemma PhraseNameCanBeEmpty()
    ensures NameOf("i am  !", Some("Ann")) == ""
  {
    var s := "i am  !";
    assert s[0..4] == "i am";
    LowerNoUpper("i am");
    assert s[4] == ' ' && s[5] == ' ' && s[6] == '!';
    RunEndStops(s, 4, IsSpace, 6);
    assert s[5..6] == " ";
    assert CaptureAfterPhrase(s, 4) == Some(" ");
    assert PhraseCaptureAt(s, 0, 0) == Some(" ");
    assert FirstPhrase(s, 0) == Some(0);
    assert Trim(" ") == "";
  }

  // ------------------------------------------------------------ interests

  const Categories: seq<string> := ["pricing", "demo", "support", "purchase", "information"]

  /** The keywords of each category's case-insensitive pattern, in category order. */
  const Keywords: seq<seq<string>> := [
    ["price", "cost", "fee", "charge", "payment"],
    ["demo", "trial", "try", "test"],
    ["help", "support", "issue", "problem"],
    ["buy", "purchase", "order", "interested"],
    ["info", "information", "details", "know more"]
  ]

  /** The category's pattern `.test(message)`. */
  predicate Mentions(message: string, k: nat)
    requires k < |Keywords|
  {
    exists w :: 0 <= w < |Keywords[k]| && Contains(Lower(message), Keywords[k][w])
  }

  /** The rank of a category tag in `Categories`. */
  function Rank(tag: string): nat {
    if tag == "pricing" then 0 else if tag == "demo" then 1 else if tag == "support" then 2
    else if tag == "purchase" then 3 else 4
  }

  lemma RankOfCategory(k: nat)
    requires k < |Categories|
    ensures Rank(Categories[k]) == k
  {
  }

  /** The tags of the first `n` categories that the message mentions, in category order. */
  function InterestsUpTo(message: string, n: nat): (r: seq<string>)
    requires n <= |Categories|
    ensures forall a, b :: 0 <= a < b < |r| ==> Rank(r[a]) < Rank(r[b])
    ensures forall x :: x in r ==> x in Categories[..n] && Rank(x) < n
    ensures forall k :: 0 <= k < n ==> (Categories[k] in r <==> Mentions(message, k))
  {
    if n == 0 then []
    else
      var prev := InterestsUpTo(message, n - 1);
      RankOfCategory(n - 1);
      forall k | 0 <= k < n - 1
        ensures Categories[k] != Categories[n - 1]
      {
        RankOfCategory(k);
      }
      prev + (if Mentions(message, n - 1) then [Categories[n - 1]] else [])
  }

  /** The interest tags are distinct categories, in category order, and each
      category is present exactly when its pattern matches. */
  lemma InterestsAreFilteredCategories(message: string)
    ensures var r := InterestsUpTo(message, |Categories|);
      && |r| <= |Categories|
      && (forall a, b :: 0 <= a < b < |r| ==> r[a] != r[b])
      && (forall x :: x in r ==> x in Categories)
      && (forall k :: 0 <= k < |Categories| ==> (Categories[k] in r <==> Mentions(message, k)))
  {
    var r := InterestsUpTo(message, |Categories|);
    InterestsLength(message, |Categories|);
  }

  lemma {:induction false} InterestsLength(message: string, n: nat)
    requires n <= |Categories|
    ensures |InterestsUpTo(message, n)| <= n
  {
    if n > 0 { InterestsLength(message, n - 1); }
  }

  /** A message mentioning every category gets every tag, in category order. */
  lemma {:induction false} AllMentioned(message: string, n: nat)
    requires n <= |Categories|
    requires forall k :: 0 <= k < n ==> Mentions(message, k)
    ensures InterestsUpTo(message, n) == Categories[..n]
  {
    if n > 0 {
      AllMentioned(message, n - 1);
      InterestsStep(message, n);
      CategoriesPrefixStep(n);
    }
  }

  lemma InterestsStep(message: string, n: nat)
    requires 0 < n <= |Categories| && Mentions(message, n - 1)
    ensures InterestsUpTo(message, n) == InterestsUpTo(message, n - 1) + [Categories[n - 1]]
  {
  }

  lemma CategoriesPrefixStep(n: nat)
    requires 0 < n <= |Categories|
    ensures Categories[..n] == Categories[..n - 1] + [Categories[n - 1]]
  {
  }

  // ---------------------------------------------------------------- leads

  datatype LeadData = LeadData(name: string, message: string, timestamp: string,
                               email: Option<string>, interests: seq<string>)

  /** The lead `parseLeadMessage(message, senderName)` returns. */
  function LeadOf(message: string, senderName: Option<string>, timestamp: string): (r: LeadData)
    ensures r.message == message && r.timestamp == timestamp
    ensures r.name == NameOf(message, senderName) && r.email == ExtractEmail(message)
    ensures r.interests == InterestsUpTo(message, |Categories|)
    ensures r.name == "" ==> PhraseCapture(message).Some?
    ensures r.email.Some? ==> Contains(message, r.email.value)
    ensures forall x :: x in r.interests ==> x in Categories
    ensures forall a, b :: 0 <= a < b < |r.interests| ==> r.interests[a] != r.interests[b]
  {
    LeadData(NameOf(message, senderName), message, timestamp, ExtractEmail(message),
             InterestsUpTo(message, |Categories|))
  }

  /** The name step of `parseLeadMessage`: tries the name patterns in order
      and stops at the first whose capture is non-empty. */
  method ApplyNamePatterns(message: string, senderName: Option<string>, lead: LeadData) returns (updated: LeadData)
    requires lead.name == OrElse(senderName, "Unknown")
    ensures updated == lead.(name := NameOf(message, senderName))
  {
    updated := lead;
    var i := 0;
    while i < |NamePatterns|
      invariant 0 <= i <= |NamePatterns|
      invariant forall k :: 0 <= k < i ==> NameCapture(NamePatterns[k], message).None?
      invariant updated == lead
    {
      var m := NameCapture(NamePatterns[i], message);
      if m.Some? && m.value != "" {
        updated := updated.(name := Trim(m.value));
        if i == 1 {
          assert NameCapture(NamePatterns[0], message).None?;
          CapitalisedCaptureTrimmed(message);
        }
        return;
      }
      i := i + 1;
    }
    assert NameCapture(NamePatterns[0], message).None? && NameCapture(NamePatterns[1], message).None?;
  }

  /** The interest step of `parseLeadMessage`: pushes each category's tag
      whose pattern matches, in category order. */
  method CollectInterests(message: string) returns (interests: seq<string>)
    ensures interests == InterestsUpTo(message, |Categories|)
  {
    interests := [];
    var k := 0;
    while k < |Categories|
      invariant 0 <= k <= |Categories|
      invariant interests == InterestsUpTo(message, k)
    {
      if Mentions(message, k) {
        interests := interests + [Categories[k]];
      }
      k := k + 1;
    }
  }

  /** `parseLeadMessage(message, senderName)`: fills the lead record in place,
      field by field. */
  method ParseLeadMessage(message: string, senderName: Option<string>, timestamp: string) returns (lead: LeadData)
    ensures lead == LeadOf(message, senderName, timestamp)
    ensures lead.message == message && lead.timestamp == timestamp
  {
    lead := LeadData(OrElse(senderName, "Unknown"), message, timestamp, None, []);
    var emailMatch := ExtractEmail(message);
    if emailMatch.Some? {
      lead := lead.(email := emailMatch);
    }
    lead := ApplyNamePatterns(message, senderName, lead);
    var interests := CollectInterests(message);
    lead := lead.(interests := interests);
  }

  // --------------------------------------------------------------- replies

  /** The relay's credentials from the environment. */
  datatype Credentials = Credentials(
    twilioAccountSid: Option<string>, twilioAuthToken: Option<string>, twilioWhatsAppNumber: Option<string>,
    metaAccessToken: Option<string>, metaPhoneNumberId: Option<string>)

  /** The Twilio client exists only when both the account SID and the auth token are set. */
  predicate TwilioConfigured(c: Credentials) {
    Truthy(c.twilioAccountSid) && Truthy(c.twilioAuthToken)
  }

  predicate MetaConfigured(c: Credentials) {
    Truthy(c.metaAccessToken) && Truthy(c.metaPhoneNumberId)
  }

  datatype OutgoingReply =
    | TwilioMessage(body: string, from: Option<string>, to: string)
    | MetaMessage(url: string, authorization: string, to: string, text: string)

  /** A reply is skipped, sent, or attempted and failed (the failure is rethrown). */
  datatype ReplyOutcome = Skipped | Sent(reply: OutgoingReply) | SendFailed(reply: OutgoingReply)

  /** `sendReply(to, message)` through Twilio; `delivered` is the API's answer. */
  function SendReply(c: Credentials, to: string, message: string, delivered: bool): (r: ReplyOutcome)
    ensures r.Skipped? <==> !TwilioConfigured(c)
    ensures r.Sent? <==> TwilioConfigured(c) && delivered
    ensures !r.Skipped? ==> r.reply == TwilioMessage(message, c.twilioWhatsAppNumber, to)
  {
    if !TwilioConfigured(c) then Skipped
    else
      var reply := TwilioMessage(message, c.twilioWhatsAppNumber, to);
      if delivered then Sent(reply) else SendFailed(reply)
  }

  /** `sendMetaReply(to, message)` through the Graph API; `delivered` is its answer. */
  function SendMetaReply(c: Credentials, to: string, message: string, delivered: bool): (r: ReplyOutcome)
    ensures r.Skipped? <==> !MetaConfigured(c)
    ensures r.Sent? <==> MetaConfigured(c) && delivered
    ensures !r.Skipped? ==> r.reply.MetaMessage? && r.reply.to == to && r.reply.text == message
    ensures !r.Skipped? ==>
      r.reply.url == "https://graph.facebook.com/v17.0/" + c.metaPhoneNumberId.value + "/messages"
      && r.reply.authorization == "Bearer " + c.metaAccessToken.value
  {
    if !MetaConfigured(c) then Skipped
    else
      var reply := MetaMessage("https://graph.facebook.com/v17.0/" + c.metaPhoneNumberId.value + "/messages",
                               "Bearer " + c.metaAccessToken.value, to, message);
      if delivered then Sent(reply) else SendFailed(reply)
  }
}
