/**
 * The when.js rejection header that `report` deletes from a title:
 * the regular expression  Potentially\sunhandled\srejection\s*\[\d\]\s*
 * applied by String.prototype.replace without the g flag, so only the
 * leftmost match is removed. The matcher below is written by hand and proved
 * against the language of the expression, stated independently by `Spelled`.
 */
module Header {
  import opened Wrappers

  /** The ECMAScript `\s` class: WhiteSpace and LineTerminator characters. */
  predicate IsSpace(c: char)
  {
    || c == '\t' || c == '\n' || c == '\U{B}' || c == '\U{C}' || c == '\r' || c == ' '
    || c == '\U{A0}' || c == '\U{1680}' || ('\U{2000}' <= c <= '\U{200A}')
    || c == '\U{2028}' || c == '\U{2029}' || c == '\U{202F}' || c == '\U{205F}'
    || c == '\U{3000}' || c == '\U{FEFF}'
  }

  /** The ECMAScript `\d` class. */
  predicate IsDigit(c: char)
  {
    '0' <= c <= '9'
  }

  /** The ASCII members of `\s`: tab, line feed, vertical tab, form feed, carriage return, space. */
  lemma AsciiSpaces(c: char)
    ensures c in "\t\n\U{B}\U{C}\r " ==> IsSpace(c)
    ensures c < '\U{80}' && IsSpace(c) ==> c in "\t\n\U{B}\U{C}\r "
  {
  }

  /** `\d` is exactly the ten ASCII decimal digits. */
  lemma DecimalDigits(c: char)
    ensures IsDigit(c) <==> c in "0123456789"
  {
  }

  /** No whitespace character is a digit or a bracket, so each `\s*` run stops where the expression needs it to. */
  lemma ClassesDisjoint(c: char)
    ensures IsSpace(c) ==> !IsDigit(c) && c != '[' && c != ']'
  {
  }

  ghost predicate AllSpace(t: string)
  {
    forall k :: 0 <= k < |t| ==> IsSpace(t[k])
  }

  /** One word of the expression, the two single whitespace characters aside. */
  const Potentially: string := "Potentially"
  const Unhandled: string := "unhandled"
  const Rejection: string := "rejection"

  /** Length of "Potentially" \s "unhandled" \s "rejection". */
  const WordsLength: nat := 31

  /**
   * The string the expression matches for given choices of its variable parts:
   * the two `\s`, the two `\s*` runs and the `\d`.
   */
  function Spelled(gap1: char, gap2: char, pad: string, digit: char, trail: string): (t: string)
  {
    Potentially + [gap1] + Unhandled + [gap2] + Rejection + pad + ['[', digit, ']'] + trail
  }

  /** `t` is in the language of the expression. */
  ghost predicate InLanguage(t: string)
  {
    exists gap1, gap2, pad, digit, trail ::
      && t == Spelled(gap1, gap2, pad, digit, trail)
      && IsSpace(gap1) && IsSpace(gap2) && AllSpace(pad) && IsDigit(digit) && AllSpace(trail)
  }

  /** Some substring of `s` is in the language. */
  ghost predicate HasMatch(s: string)
  {
    exists i, j :: 0 <= i <= j <= |s| && InLanguage(s[i..j])
  }

  /**
   * What replace removes: the match starting leftmost, and of the matches
   * starting there the longest, since every `\s*` is greedy.
   */
  ghost predicate IsLeftmostLongest(s: string, i: nat, j: nat)
  {
    && i <= j <= |s|
    && InLanguage(s[i..j])
    && (forall j' :: j < j' <= |s| ==> !InLanguage(s[i..j']))
    && (forall i', j' :: 0 <= i' < i && i' <= j' <= |s| ==> !InLanguage(s[i'..j']))
  }

  /** The end of the run of `\s` characters that starts at `i`. */
  function SkipSpaces(s: string, i: nat): (j: nat)
    requires i <= |s|
    ensures i <= j <= |s|
    ensures forall k :: i <= k < j ==> IsSpace(s[k])
    ensures j == |s| || !IsSpace(s[j])
    decreases |s| - i
  {
    if i < |s| && IsSpace(s[i]) then SkipSpaces(s, i + 1) else i
  }

  /** "Potentially" \s "unhandled" \s "rejection" occurs at position `i`. */
  predicate WordsAt(s: string, i: nat)
  {
    && i + WordsLength <= |s|
    && s[i..i + 11] == Potentially && IsSpace(s[i + 11])
    && s[i + 12..i + 21] == Unhandled && IsSpace(s[i + 21])
    && s[i + 22..i + 31] == Rejection
  }

  /** The end of the greedy match that starts at `i`, if the expression matches there. */
  function MatchAt(s: string, i: nat): (r: Option<nat>)
    requires i <= |s|
    ensures r.Some? ==> i + WordsLength + 3 <= r.value <= |s|
  {
    if WordsAt(s, i) then
      var open := SkipSpaces(s, i + WordsLength);
      if open + 3 <= |s| && s[open] == '[' && IsDigit(s[open + 1]) && s[open + 2] == ']'
      then Some(SkipSpaces(s, open + 3))
      else None
    else None
  }

  /** The first match at or after position `i`, as its start and end. */
  function FindFrom(s: string, i: nat): (r: Option<(nat, nat)>)
    requires i <= |s|
    ensures r.Some? ==> i <= r.value.0 <= r.value.1 <= |s|
    ensures r.Some? ==> MatchAt(s, r.value.0) == Some(r.value.1)
    decreases |s| - i
  {
    match MatchAt(s, i)
    case Some(j) => Some((i, j))
    case None => if i == |s| then None else FindFrom(s, i + 1)
  }

  /** `title.replace(header, '')`: the title with the leftmost match, if any, deleted. */
  function Strip(title: string): (r: string)
    ensures r == title || |r| + WordsLength + 3 <= |title|
    ensures (forall k :: 0 <= k <= |title| ==> MatchAt(title, k).None?) ==> r == title
  {
    match FindFrom(title, 0)
    case Some((i, j)) => title[..i] + title[j..]
    case None => title
  }

  /** Where each part of a spelled-out match sits. */
  lemma SpelledLayout(gap1: char, gap2: char, pad: string, digit: char, trail: string)
    ensures var t, p := Spelled(gap1, gap2, pad, digit, trail), WordsLength + |pad|;
      && |t| == p + 3 + |trail|
      && t[..11] == Potentially && t[11] == gap1
      && t[12..21] == Unhandled && t[21] == gap2
      && t[22..31] == Rejection
      && t[31..p] == pad
      && t[p] == '[' && t[p + 1] == digit && t[p + 2] == ']'
      && t[p + 3..] == trail
  {
    var t, p := Spelled(gap1, gap2, pad, digit, trail), WordsLength + |pad|;
    var words := Potentially + [gap1] + Unhandled + [gap2] + Rejection;
    assert |words| == WordsLength;
    assert t == words + pad + ['[', digit, ']'] + trail;
    assert t[..WordsLength] == words;
    assert words[..11] == Potentially;
    assert words[12..21] == Unhandled;
    assert words[22..31] == Rejection;
  }

  /** Every match is at least 34 characters long. */
  lemma MatchLength(t: string)
    requires InLanguage(t)
    ensures |t| >= WordsLength + 3
  {
    var gap1, gap2, pad, digit, trail :| t == Spelled(gap1, gap2, pad, digit, trail);
    SpelledLayout(gap1, gap2, pad, digit, trail);
  }

  /** `SkipSpaces` stops exactly at the first non-space character. */
  lemma SkipSpacesTo(s: string, i: nat, j: nat)
    requires i <= j <= |s|
    requires forall k :: i <= k < j ==> IsSpace(s[k])
    requires j == |s| || !IsSpace(s[j])
    ensures SkipSpaces(s, i) == j
  {
  }

  /** A slice of a slice is a slice of the original. */
  lemma SliceOfSlice(s: string, i: nat, j: nat, a: nat, b: nat)
    requires i <= j <= |s| && a <= b <= j - i
    ensures s[i..j][a..b] == s[i + a..i + b]
  {
    assert forall k :: 0 <= k < b - a ==> s[i..j][a..b][k] == s[i + a..i + b][k];
  }

  /** What `MatchAt` finds is a match, and it cannot be extended. */
  lemma {:induction false} MatchAtSound(s: string, i: nat)
    requires i <= |s| && MatchAt(s, i).Some?
    ensures var j := MatchAt(s, i).value;
      && i <= j <= |s|
      && InLanguage(s[i..j])
      && (j == |s| || !IsSpace(s[j]))
  {
    var j := MatchAt(s, i).value;
    var open := SkipSpaces(s, i + WordsLength);
    var gap1, gap2, pad, digit, trail := s[i + 11], s[i + 21], s[i + WordsLength..open], s[open + 1], s[open + 3..j];
    var t := Spelled(gap1, gap2, pad, digit, trail);
    SpelledLayout(gap1, gap2, pad, digit, trail);
    assert |t| == j - i;
    forall k | 0 <= k < |t|
      ensures s[i..j][k] == t[k]
    {
      var p := WordsLength + |pad|;
      if k < 11 {
        assert t[k] == t[..11][k] == s[i..i + 11][k];
      } else if 12 <= k < 21 {
        assert t[k] == t[12..21][k - 12] == s[i + 12..i + 21][k - 12];
      } else if 22 <= k < 31 {
        assert t[k] == t[22..31][k - 22] == s[i + 22..i + 31][k - 22];
      } else if 31 <= k < p {
        assert t[k] == t[31..p][k - 31];
      } else if p + 3 <= k {
        assert t[k] == t[p + 3..][k - p - 3];
      }
    }
    assert s[i..j] == t;
    assert AllSpace(pad);
    assert AllSpace(trail);
  }

  /** A match in `s` from `i` to `j`, read off position by position. */
  lemma {:induction false} Decompose(s: string, i: nat, j: nat) returns (open: nat)
    requires i <= j <= |s| && InLanguage(s[i..j])
    ensures WordsAt(s, i)
    ensures i + WordsLength <= open && open + 3 <= j
    ensures forall k :: i + WordsLength <= k < open ==> IsSpace(s[k])
    ensures s[open] == '[' && IsDigit(s[open + 1]) && s[open + 2] == ']'
    ensures forall k :: open + 3 <= k < j ==> IsSpace(s[k])
  {
    var gap1, gap2, pad, digit, trail :|
      && s[i..j] == Spelled(gap1, gap2, pad, digit, trail)
      && IsSpace(gap1) && IsSpace(gap2) && AllSpace(pad) && IsDigit(digit) && AllSpace(trail);
    SpelledLayout(gap1, gap2, pad, digit, trail);
    DecomposeWords(s, i, j, gap1, gap2);
    open := i + WordsLength + |pad|;
    DecomposeIndex(s, i, j, open, pad, digit, trail);
  }

  lemma {:induction false} DecomposeWords(s: string, i: nat, j: nat, gap1: char, gap2: char)
    requires i + WordsLength <= j <= |s|
    requires var t := s[i..j];
      && t[..11] == Potentially && t[11] == gap1 && IsSpace(gap1)
      && t[12..21] == Unhandled && t[21] == gap2 && IsSpace(gap2)
      && t[22..31] == Rejection
    ensures WordsAt(s, i)
  {
    SliceOfSlice(s, i, j, 0, 11);
    SliceOfSlice(s, i, j, 12, 21);
    SliceOfSlice(s, i, j, 22, 31);
    assert s[i + 11] == s[i..j][11] && s[i + 21] == s[i..j][21];
  }

  lemma {:induction false} DecomposeIndex(s: string, i: nat, j: nat, open: nat, pad: string, digit: char, trail: string)
    requires i + WordsLength + |pad| == open && open + 3 + |trail| == j <= |s|
    requires AllSpace(pad) && IsDigit(digit) && AllSpace(trail)
    requires var t, p := s[i..j], WordsLength + |pad|;
      && t[31..p] == pad
      && t[p] == '[' && t[p + 1] == digit && t[p + 2] == ']'
      && t[p + 3..] == trail
    ensures forall k :: i + WordsLength <= k < open ==> IsSpace(s[k])
    ensures s[open] == '[' && IsDigit(s[open + 1]) && s[open + 2] == ']'
    ensures forall k :: open + 3 <= k < j ==> IsSpace(s[k])
  {
    var p := WordsLength + |pad|;
    SliceOfSlice(s, i, j, 31, p);
    SliceOfSlice(s, i, j, p + 3, j - i);
    assert s[open] == s[i..j][p] && s[open + 1] == s[i..j][p + 1] && s[open + 2] == s[i..j][p + 2];
    AllSpaceRun(s, i + WordsLength, open);
    AllSpaceRun(s, open + 3, j);
  }

  lemma AllSpaceRun(s: string, a: nat, b: nat)
    requires a <= b <= |s| && AllSpace(s[a..b])
    ensures forall k :: a <= k < b ==> IsSpace(s[k])
  {
    forall k | a <= k < b
      ensures IsSpace(s[k])
    {
      assert s[k] == s[a..b][k - a];
    }
  }

  /**
   * Any match that starts at `i` makes `MatchAt` succeed there, with an end no
   * earlier than that match's.
   */
  lemma {:induction false} MatchAtComplete(s: string, i: nat, j: nat)
    requires i <= j <= |s| && InLanguage(s[i..j])
    ensures MatchAt(s, i).Some? && j <= MatchAt(s, i).value
  {
    var open := Decompose(s, i, j);
    SkipSpacesTo(s, i + WordsLength, open);
  }

  /** No match starts at a position in `[lo, hi)`. */
  ghost predicate NoMatchFrom(s: string, lo: nat, hi: nat)
  {
    forall a, b :: lo <= a < hi && a <= b <= |s| ==> !InLanguage(s[a..b])
  }

  /** No match starting at `i` is longer than the one `MatchAt` reports. */
  lemma {:induction false} MatchAtLongest(s: string, i: nat)
    requires i <= |s| && MatchAt(s, i).Some?
    ensures forall b :: MatchAt(s, i).value < b <= |s| ==> !InLanguage(s[i..b])
  {
    forall b | MatchAt(s, i).value < b <= |s|
      ensures !InLanguage(s[i..b])
    {
      if InLanguage(s[i..b]) {
        MatchAtComplete(s, i, b);
      }
    }
  }

  /** When `MatchAt` reports nothing, no match starts at `i`. */
  lemma {:induction false} NoMatchAt(s: string, i: nat)
    requires i <= |s| && MatchAt(s, i).None?
    ensures forall b :: i <= b <= |s| ==> !InLanguage(s[i..b])
  {
    forall b | i <= b <= |s|
      ensures !InLanguage(s[i..b])
    {
      if InLanguage(s[i..b]) {
        MatchAtComplete(s, i, b);
      }
    }
  }

  /** A position without a match extends a match-free range down by one. */
  lemma NoMatchExtend(s: string, i: nat, hi: nat)
    requires i < hi && NoMatchFrom(s, i + 1, hi)
    requires forall b :: i <= b <= |s| ==> !InLanguage(s[i..b])
    ensures NoMatchFrom(s, i, hi)
  {
  }

  /**
   * `FindFrom` returns the first position at or after `i` where a match starts,
   * with the longest match there, and returns None only when no match starts
   * at or after `i`.
   */
  lemma {:induction false} FindFromCorrect(s: string, i: nat)
    requires i <= |s|
    ensures FindFrom(s, i).None? ==> NoMatchFrom(s, i, |s| + 1)
    ensures FindFrom(s, i).Some? ==>
      var (a, b) := FindFrom(s, i).value;
      && InLanguage(s[a..b])
      && NoMatchFrom(s, i, a)
      && (forall b' :: b < b' <= |s| ==> !InLanguage(s[a..b']))
    decreases |s| - i
  {
    if MatchAt(s, i).Some? {
      assert FindFrom(s, i) == Some((i, MatchAt(s, i).value));
      MatchAtSound(s, i);
      MatchAtLongest(s, i);
    } else if i == |s| {
      assert FindFrom(s, i).None?;
      NoMatchAt(s, i);
    } else {
      var r := FindFrom(s, i + 1);
      assert FindFrom(s, i) == r;
      FindFromCorrect(s, i + 1);
      NoMatchAt(s, i);
      NoMatchExtend(s, i, if r.None? then |s| + 1 else r.value.0);
    }
  }

  /** The search from the start finds exactly the match that replace removes. */
  lemma {:induction false} FindLeftmostLongest(s: string)
    ensures FindFrom(s, 0).None? <==> !HasMatch(s)
    ensures FindFrom(s, 0).Some? ==> IsLeftmostLongest(s, FindFrom(s, 0).value.0, FindFrom(s, 0).value.1)
  {
    FindFromCorrect(s, 0);
  }

  /** A title shorter than the shortest match is never changed. */
  lemma {:induction false} ShortTitleUnchanged(s: string)
    requires |s| < WordsLength + 3
    ensures Strip(s) == s
  {
    StripUnchangedIff(s);
  }

  /** There is at most one leftmost-longest match. */
  lemma LeftmostLongestUnique(s: string, i: nat, j: nat, a: nat, b: nat)
    requires IsLeftmostLongest(s, i, j) && IsLeftmostLongest(s, a, b)
    ensures i == a && j == b
  {
  }

  /**
   * The title loses exactly its leftmost-longest match; a title with no match
   * is returned unchanged.
   */
  lemma {:induction false} StripRemovesLeftmostLongest(s: string, i: nat, j: nat)
    requires IsLeftmostLongest(s, i, j)
    ensures Strip(s) == s[..i] + s[j..]
  {
    FindLeftmostLongest(s);
    var (a, b) := FindFrom(s, 0).value;
    LeftmostLongestUnique(s, i, j, a, b);
  }

  /** A title is left unchanged exactly when it holds no match; otherwise it gets shorter. */
  lemma {:induction false} StripUnchangedIff(s: string)
    ensures Strip(s) == s <==> !HasMatch(s)
    ensures HasMatch(s) ==> |Strip(s)| + WordsLength + 3 <= |s|
  {
    FindLeftmostLongest(s);
    if HasMatch(s) {
      var (a, b) := FindFrom(s, 0).value;
      MatchLength(s[a..b]);
    }
  }

  /**
   * An index of two or more digits is not matched: after "[" and one digit the
   * expression needs "]".
   */
  lemma {:induction false} MultiDigitIndexNotMatched(s: string, i: nat, gap1: char, gap2: char, pad: string, d1: char, d2: char, rest: string)
    requires i <= |s|
    requires IsSpace(gap1) && IsSpace(gap2) && AllSpace(pad) && IsDigit(d1) && IsDigit(d2)
    requires s[i..] == Potentially + [gap1] + Unhandled + [gap2] + Rejection + pad + ['[', d1, d2] + rest
    ensures forall j :: i <= j <= |s| ==> !InLanguage(s[i..j])
  {
    var t := Potentially + [gap1] + Unhandled + [gap2] + Rejection + pad + ['[', d1, d2];
    var p := i + WordsLength + |pad|;
    assert s[i..] == t + rest;
    assert s[p] == s[i..][p - i] == t[p - i] == '[';
    assert s[p + 2] == s[i..][p + 2 - i] == t[p + 2 - i] == d2;
    forall k | i + WordsLength <= k < p
      ensures IsSpace(s[k])
    {
      assert s[k] == s[i..][k - i] == t[k - i] == pad[k - i - WordsLength];
    }
    SkipSpacesTo(s, i + WordsLength, p);
    assert MatchAt(s, i).None?;
    forall j | i <= j <= |s|
      ensures !InLanguage(s[i..j])
    {
      if InLanguage(s[i..j]) {
        MatchAtComplete(s, i, j);
      }
    }
  }

  /**
   * A title that begins with the header loses the header and the whitespace
   * after it, and keeps the rest.
   */
  lemma {:induction false} StripLeadingHeader(gap1: char, gap2: char, pad: string, digit: char, trail: string, msg: string)
    requires IsSpace(gap1) && IsSpace(gap2) && AllSpace(pad) && IsDigit(digit) && AllSpace(trail)
    requires msg == [] || !IsSpace(msg[0])
    ensures Strip(Spelled(gap1, gap2, pad, digit, trail) + msg) == msg
  {
    var h := Spelled(gap1, gap2, pad, digit, trail);
    var s := h + msg;
    assert s[0..|h|] == h;
    assert InLanguage(s[0..|h|]);
    var open := Decompose(s, 0, |h|);
    SkipSpacesTo(s, WordsLength, open);
    assert |h| == |s| || s[|h|] == msg[0];
    SkipSpacesTo(s, open + 3, |h|);
    assert MatchAt(s, 0) == Some(|h|);
    assert s[|h|..] == msg;
  }

  /** The header on a line of its own is removed entirely. */
  lemma {:induction false} StripBareHeader(title: string)
    requires title == "Potentially unhandled rejection [0]"
    ensures Strip(title) == ""
  {
    assert title == Spelled(' ', ' ', " ", '0', "") + "";
    StripLeadingHeader(' ', ' ', " ", '0', "", "");
  }

  /** The header and the space after it are removed, the message is kept. */
  lemma {:induction false} StripHeaderBeforeMessage(title: string)
    requires title == "Potentially unhandled rejection [1] Error: boom"
    ensures Strip(title) == "Error: boom"
  {
    assert title == Spelled(' ', ' ', " ", '1', " ") + "Error: boom";
    StripLeadingHeader(' ', ' ', " ", '1', " ", "Error: boom");
  }
}
