/**
 * String.prototype.split('\n') and Array.prototype.join('\n') on strings, the
 * two halves of the line handling in `report`.
 */
module Lines {

  const NewLine: char := '\n'

  /** The position of the first `c` in `s`, or `|s|` when there is none. */
  function IndexOf(s: string, c: char): (k: nat)
    ensures k <= |s|
    ensures forall i :: 0 <= i < k ==> s[i] != c
    ensures k < |s| ==> s[k] == c
    ensures k == |s| <==> c !in s
  {
    if |s| == 0 then 0
    else if s[0] == c then 0
    else 1 + IndexOf(s[1..], c)
  }

  /**
   * `s.split('\n')`: the pieces between newlines, in order. Like JavaScript it
   * never returns an empty array: "" splits to [""], and "a\n" to ["a", ""].
   */
  function Split(s: string): (parts: seq<string>)
    ensures |parts| >= 1
    decreases |s|
  {
    var k := IndexOf(s, NewLine);
    if k == |s| then [s] else [s[..k]] + Split(s[k + 1..])
  }

  /** `parts.join('\n')`: [] joins to "", a single part to itself. */
  function Join(parts: seq<string>): (s: string)
    ensures |parts| > 0 ==> parts[0] <= s
    ensures |parts| > 1 ==> |s| > |parts[0]| && s[|parts[0]|] == NewLine
    ensures |parts| == 0 ==> s == ""
  {
    if |parts| == 0 then ""
    else if |parts| == 1 then parts[0]
    else parts[0] + [NewLine] + Join(parts[1..])
  }

  /** No part of a split contains the separator. */
  lemma {:induction false} SplitPartsClean(s: string)
    ensures forall i :: 0 <= i < |Split(s)| ==> NewLine !in Split(s)[i]
    decreases |s|
  {
    var k := IndexOf(s, NewLine);
    if k < |s| {
      var rest := s[k + 1..];
      SplitPartsClean(rest);
      assert NewLine !in s[..k] by {
        assert forall i :: 0 <= i < k ==> s[..k][i] == s[i];
      }
      assert Split(s) == [s[..k]] + Split(rest);
    }
  }

  /** A string splits into one part exactly when it holds no newline. */
  lemma SplitSingle(s: string)
    ensures |Split(s)| == 1 <==> NewLine !in s
  {
  }

  /** A string is what comes before position `k`, the character at `k`, and what follows. */
  lemma Reassemble(s: string, k: nat)
    requires k < |s|
    ensures s == s[..k] + [s[k]] + s[k + 1..]
  {
  }

  /** Joining what was split gives back the original string. */
  lemma {:induction false} JoinSplit(s: string)
    ensures Join(Split(s)) == s
    decreases |s|
  {
    var k := IndexOf(s, NewLine);
    if k < |s| {
      var rest := s[k + 1..];
      JoinSplit(rest);
      Reassemble(s, k);
      var parts := [s[..k]] + Split(rest);
      assert Split(s) == parts;
      assert parts[1..] == Split(rest);
    }
  }

  /** Splitting what was joined gives back the parts, when no part holds a newline. */
  lemma {:induction false} SplitJoin(parts: seq<string>)
    requires |parts| >= 1
    requires forall i :: 0 <= i < |parts| ==> NewLine !in parts[i]
    ensures Split(Join(parts)) == parts
  {
    if |parts| == 1 {
      SplitSingle(parts[0]);
    } else {
      var head, s := parts[0], Join(parts);
      assert s == head + [NewLine] + Join(parts[1..]);
      var k := IndexOf(s, NewLine);
      assert s[|head|] == NewLine;
      assert k == |head| by {
        assert forall i :: 0 <= i < |head| ==> s[i] == head[i];
      }
      assert s[..k] == head;
      assert s[k + 1..] == Join(parts[1..]);
      SplitJoin(parts[1..]);
    }
  }

  /**
   * Splitting at the first newline: the rest of the split is the split of
   * everything after it, so joining the rest gives that text back.
   */
  lemma {:induction false} SplitTail(s: string)
    requires NewLine in s
    ensures Join(Split(s)[1..]) == s[IndexOf(s, NewLine) + 1..]
  {
    var k := IndexOf(s, NewLine);
    var rest := s[k + 1..];
    assert Split(s) == [s[..k]] + Split(rest);
    assert Split(s)[1..] == Split(rest);
    JoinSplit(rest);
  }
}
