/** The greedy loop of `show_my_words` that packs the dictionary's display lines
    into messages: a line is appended to the current message unless that would
    bring the message's size past the limit, in which case the current message is
    sent first. */
module Chunking {

  /** The size `show_my_words` accounts for a group of lines: `len(line) + 1`
      per line. */
  function Weight(lines: seq<string>): nat {
    if lines == [] then 0 else Weight(lines[..|lines| - 1]) + |lines[|lines| - 1]| + 1
  }

  /** The lines of all messages, in order. */
  function Flatten(parts: seq<seq<string>>): seq<string> {
    if parts == [] then [] else Flatten(parts[..|parts| - 1]) + parts[|parts| - 1]
  }

  /** `"\n".join(lines)`: the text of one message. */
  function JoinLines(lines: seq<string>): string {
    if lines == [] then ""
    else if |lines| == 1 then lines[0]
    else JoinLines(lines[..|lines| - 1]) + "\n" + lines[|lines| - 1]
  }

  /** A message's text is one character shorter than its weight: the weight
      counts a newline after every line, the text only between lines. */
  lemma {:induction false} JoinLength(lines: seq<string>)
    requires lines != []
    ensures |JoinLines(lines)| + 1 == Weight(lines)
    decreases |lines|
  {
    if |lines| > 1 {
      JoinLength(lines[..|lines| - 1]);
    } else {
      assert lines[..0] == [];
    }
  }

  /** Every line of a message is a line of the flattened output. */
  lemma {:induction false} InFlatten(parts: seq<seq<string>>, k: nat, j: nat)
    requires k < |parts| && j < |parts[k]|
    ensures parts[k][j] in Flatten(parts)
    decreases |parts|
  {
    var last := |parts| - 1;
    if k < last {
      assert parts[..last][k] == parts[k];
      InFlatten(parts[..last], k, j);
    } else {
      assert Flatten(parts) == Flatten(parts[..last]) + parts[last];
      assert Flatten(parts)[|Flatten(parts[..last])| + j] == parts[k][j];
    }
  }

  /** A message is within the limit unless it is a single oversized line; an
      empty message is sent only first, and only when the very first line is
      oversized. */
  ghost predicate PartOk(parts: seq<seq<string>>, k: nat, lines: seq<string>, maxLength: nat)
    requires k < |parts|
  {
    && (Weight(parts[k]) <= maxLength || |parts[k]| == 1)
    && (parts[k] == [] ==> k == 0 && lines != [] && |lines[0]| + 1 > maxLength)
  }

  /** What the loop promises of its output: sending the messages in order sends
      every line exactly once and in order, and every message is `PartOk`. */
  ghost predicate IsChunking(parts: seq<seq<string>>, lines: seq<string>, maxLength: nat) {
    && Flatten(parts) == lines
    && forall k :: 0 <= k < |parts| ==> PartOk(parts, k, lines, maxLength)
  }

  /** The first line of message `k` would not have fit into message `k - 1`. */
  ghost predicate StartsOverflow(parts: seq<seq<string>>, k: nat, maxLength: nat)
    requires 0 < k < |parts|
  {
    parts[k] != [] && Weight(parts[k - 1]) + |parts[k][0]| + 1 > maxLength
  }

  /** The messages are greedy: no message could have taken the first line of the
      next one. */
  ghost predicate IsGreedy(parts: seq<seq<string>>, maxLength: nat) {
    forall k :: 0 < k < |parts| ==> StartsOverflow(parts, k, maxLength)
  }

  /** Sending one more message keeps the promises about all messages sent. */
  lemma AppendPart(parts: seq<seq<string>>, p: seq<string>, lines: seq<string>, maxLength: nat)
    requires forall k :: 0 <= k < |parts| ==> PartOk(parts, k, lines, maxLength)
    requires IsGreedy(parts, maxLength)
    requires Weight(p) <= maxLength || |p| == 1
    requires p == [] ==> parts == [] && lines != [] && |lines[0]| + 1 > maxLength
    requires parts != [] ==> p != [] && Weight(parts[|parts| - 1]) + |p[0]| + 1 > maxLength
    ensures forall k :: 0 <= k < |parts + [p]| ==> PartOk(parts + [p], k, lines, maxLength)
    ensures IsGreedy(parts + [p], maxLength)
    ensures Flatten(parts + [p]) == Flatten(parts) + p
  {
    var q := parts + [p];
    assert q[..|parts|] == parts;
    forall k | 0 <= k < |q| ensures PartOk(q, k, lines, maxLength) {
      if k < |parts| { assert q[k] == parts[k] && PartOk(parts, k, lines, maxLength); }
    }
    forall k | 0 < k < |q| ensures StartsOverflow(q, k, maxLength) {
      if k < |parts| { assert StartsOverflow(parts, k, maxLength); }
    }
  }

  /** The loop invariant of `ChunkLines` after `i` lines: the messages sent
      and the message being built hold those lines in order, and every promise
      of `IsChunking` and `IsGreedy` holds of what was sent so far. */
  ghost predicate ChunkInv(parts: seq<seq<string>>, current: seq<string>, lines: seq<string>, i: nat, maxLength: nat) {
    && i <= |lines|
    && Flatten(parts) + current == lines[..i]
    && (i > 0 ==> current != [])
    && (i == 0 ==> parts == [] && current == [])
    && (Weight(current) <= maxLength || |current| == 1)
    && (forall k :: 0 <= k < |parts| ==> PartOk(parts, k, lines, maxLength))
    && IsGreedy(parts, maxLength)
    && (parts != [] ==> current != [] && Weight(parts[|parts| - 1]) + |current[0]| + 1 > maxLength)
  }

  /** The next line does not fit: the current message is sent and the line
      starts a new one. */
  lemma OverflowStep(parts: seq<seq<string>>, current: seq<string>, lines: seq<string>, i: nat, maxLength: nat)
    requires ChunkInv(parts, current, lines, i, maxLength) && i < |lines|
    requires Weight(current) + |lines[i]| + 1 > maxLength
    ensures ChunkInv(parts + [current], [lines[i]], lines, i + 1, maxLength)
  {
    AppendPart(parts, current, lines, maxLength);
    assert [lines[i]][..0] == [];
    assert lines[..i + 1] == lines[..i] + [lines[i]];
  }

  /** The next line fits: it is appended to the current message. */
  lemma FitStep(parts: seq<seq<string>>, current: seq<string>, lines: seq<string>, i: nat, maxLength: nat)
    requires ChunkInv(parts, current, lines, i, maxLength) && i < |lines|
    requires Weight(current) + |lines[i]| + 1 <= maxLength
    ensures ChunkInv(parts, current + [lines[i]], lines, i + 1, maxLength)
  {
    var next := current + [lines[i]];
    assert next[..|current|] == current;
    assert Weight(next) == Weight(current) + |lines[i]| + 1;
    assert current != [] ==> next[0] == current[0];
    assert lines[..i + 1] == lines[..i] + [lines[i]];
  }

  /** The loop of `show_my_words`: each element of the result is one message's
      lines. */
  method ChunkLines(lines: seq<string>, maxLength: nat) returns (parts: seq<seq<string>>)
    ensures IsChunking(parts, lines, maxLength)
    ensures IsGreedy(parts, maxLength)
    ensures parts != [] ==> parts[|parts| - 1] != []
  {
    parts := [];
    var current: seq<string> := [];
    var currentLength := 0;
    var i := 0;
    while i < |lines|
      invariant ChunkInv(parts, current, lines, i, maxLength)
      invariant currentLength == Weight(current)
    {
      var wordLength := |lines[i]| + 1;
      if currentLength + wordLength > maxLength {
        OverflowStep(parts, current, lines, i, maxLength);
        parts := parts + [current];
        current := [lines[i]];
        currentLength := wordLength;
      } else {
        FitStep(parts, current, lines, i, maxLength);
        current := current + [lines[i]];
        currentLength := currentLength + wordLength;
      }
      i := i + 1;
    }
    assert lines[..i] == lines;
    if current != [] {
      AppendPart(parts, current, lines, maxLength);
      parts := parts + [current];
    }
  }

  /** When no line is oversized, no message is empty and every message's text
      is shorter than the limit. */
  lemma ShortLinesFit(parts: seq<seq<string>>, lines: seq<string>, maxLength: nat)
    requires IsChunking(parts, lines, maxLength)
    requires forall j :: 0 <= j < |lines| ==> |lines[j]| + 1 <= maxLength
    ensures forall k :: 0 <= k < |parts| ==> parts[k] != [] && Weight(parts[k]) <= maxLength
    ensures forall k :: 0 <= k < |parts| ==> |JoinLines(parts[k])| < maxLength
  {
    forall k | 0 <= k < |parts|
      ensures parts[k] != [] && Weight(parts[k]) <= maxLength && |JoinLines(parts[k])| < maxLength
    {
      assert PartOk(parts, k, lines, maxLength);
      if parts[k] != [] {
        if |parts[k]| == 1 {
          InFlatten(parts, k, 0);
          assert parts[k][..0] == [];
        }
        JoinLength(parts[k]);
      }
    }
  }
}
