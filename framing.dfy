/** The newline framer at the top of `processBuffer` (packages/proxy/src/proxy.ts):
    `buffer.split("\n")`, then `pop()` keeps the trailing fragment as the carry-over. */
module Framing {

  predicate NoNewline(s: string) {
    forall k :: 0 <= k < |s| ==> s[k] != '\n'
  }

  predicate NoNewlines(lines: seq<string>) {
    forall k :: 0 <= k < |lines| ==> NoNewline(lines[k])
  }

  /** Position of the first line feed, or |s| when there is none. */
  function FirstNewline(s: string): (i: nat)
    ensures i <= |s|
    ensures forall k :: 0 <= k < i ==> s[k] != '\n'
    ensures i < |s| ==> s[i] == '\n'
  {
    if s == [] || s[0] == '\n' then 0 else 1 + FirstNewline(s[1..])
  }

  /** The complete lines of `s`: every fragment of `s.split("\n")` but the last. */
  function Frames(s: string): (lines: seq<string>)
    ensures NoNewlines(lines)
    ensures NoNewline(s) ==> lines == []
    decreases |s|
  {
    var i := FirstNewline(s);
    if i == |s| then []
    else [s[..i]] + Frames(s[i + 1..])
  }

  /** The last fragment of `s.split("\n")`, which `processBuffer` returns. */
  function Remainder(s: string): (rest: string)
    ensures NoNewline(rest)
    decreases |s|
  {
    var i := FirstNewline(s);
    if i == |s| then s else Remainder(s[i + 1..])
  }

  /** The carry-over is a suffix of the input. */
  lemma {:induction false} RemainderIsSuffix(s: string)
    ensures |Remainder(s)| <= |s| && Remainder(s) == s[|s| - |Remainder(s)|..]
    decreases |s|
  {
    var i := FirstNewline(s);
    if i < |s| {
      var tail := s[i + 1..];
      RemainderIsSuffix(tail);
      SuffixOfSuffix(s, i + 1, |Remainder(tail)|);
    }
  }

  /** The carry-over is the whole input when it holds no line feed, and otherwise starts
      right after a line feed: it is the text after the last line feed. */
  lemma {:induction false} RemainderFollowsNewline(s: string)
    ensures NoNewline(s) ==> Remainder(s) == s
    ensures !NoNewline(s) ==> |Remainder(s)| < |s| && s[|s| - |Remainder(s)| - 1] == '\n'
    decreases |s|
  {
    var i := FirstNewline(s);
    if i == |s| {
      assert NoNewline(s);
    } else {
      var tail := s[i + 1..];
      RemainderFollowsNewline(tail);
      var n := |Remainder(tail)|;
      assert n <= |tail| by { RemainderIsSuffix(tail); }
      if n < |tail| {
        assert s[|s| - n - 1] == tail[|tail| - n - 1];
      }
      assert s[i] == '\n';
    }
  }

  lemma SuffixOfSuffix(s: string, i: nat, n: nat)
    requires i <= |s| && n <= |s| - i
    ensures s[i..][|s[i..]| - n..] == s[|s| - n..]
  {
  }

  /** Each line followed by its line feed: the text the frames were cut from. */
  function Terminated(lines: seq<string>): string {
    if lines == [] then "" else lines[0] + "\n" + Terminated(lines[1..])
  }

  /** Splitting loses nothing: the frames with their line feeds, then the remainder,
      give back the input. */
  lemma {:induction false} SplitRoundTrip(s: string)
    ensures Terminated(Frames(s)) + Remainder(s) == s
    decreases |s|
  {
    var i := FirstNewline(s);
    if i < |s| {
      var head, tail := s[..i], s[i + 1..];
      assert s == head + "\n" + tail;
      SplitRoundTrip(tail);
      TerminatedCons([head] + Frames(tail), Remainder(tail));
      assert ([head] + Frames(tail))[1..] == Frames(tail);
    }
  }

  /** Unfolding `Terminated` once, with text after it. */
  lemma TerminatedCons(lines: seq<string>, t: string)
    requires lines != []
    ensures Terminated(lines) + t == lines[0] + "\n" + (Terminated(lines[1..]) + t)
  {
  }

  /** A line with no line feed, then a line feed: the first line feed ends that line. */
  lemma FirstNewlineEndsLine(line: string, rest: string)
    requires NoNewline(line)
    ensures FirstNewline(line + "\n" + rest) == |line|
  {
    var s := line + "\n" + rest;
    var i := FirstNewline(s);
    assert s[|line|] == '\n';
    assert forall k :: 0 <= k < |line| ==> s[k] == line[k];
  }

  /** Splitting a text that starts with a complete line. */
  lemma SplitCons(line: string, rest: string)
    requires NoNewline(line)
    ensures Frames(line + "\n" + rest) == [line] + Frames(rest)
    ensures Remainder(line + "\n" + rest) == Remainder(rest)
  {
    var s := line + "\n" + rest;
    FirstNewlineEndsLine(line, rest);
    assert s[..|line|] == line;
    assert s[|line| + 1..] == rest;
  }

  /** Splitting undoes `Terminated`: complete lines in front of `t` come out unchanged. */
  lemma {:induction false} FramesOfTerminated(lines: seq<string>, t: string)
    requires NoNewlines(lines)
    ensures Frames(Terminated(lines) + t) == lines + Frames(t)
    ensures Remainder(Terminated(lines) + t) == Remainder(t)
  {
    if lines == [] {
      assert Terminated(lines) + t == t;
      assert lines + Frames(t) == Frames(t);
    } else {
      assert NoNewlines(lines[1..]) by {
        forall k | 0 <= k < |lines[1..]| ensures NoNewline(lines[1..][k]) {
          assert lines[1..][k] == lines[k + 1];
        }
      }
      FramesOfTerminatedCons(lines, t);
      FramesOfTerminated(lines[1..], t);
      ConsAppend(lines, Frames(t));
    }
  }

  /** One more line in front of the terminated lines. */
  lemma FramesOfTerminatedCons(lines: seq<string>, t: string)
    requires lines != [] && NoNewline(lines[0])
    ensures Frames(Terminated(lines) + t) == [lines[0]] + Frames(Terminated(lines[1..]) + t)
    ensures Remainder(Terminated(lines) + t) == Remainder(Terminated(lines[1..]) + t)
  {
    TerminatedCons(lines, t);
    SplitCons(lines[0], Terminated(lines[1..]) + t);
  }

  lemma ConsAppend<T>(xs: seq<T>, ys: seq<T>)
    requires xs != []
    ensures xs + ys == [xs[0]] + (xs[1..] + ys)
  {
  }

  /** Appending a chunk: the lines of the longer text are the lines already complete,
      then the lines completed by the carry-over plus the chunk. */
  lemma FramesAppend(s: string, chunk: string)
    ensures Frames(s + chunk) == Frames(s) + Frames(Remainder(s) + chunk)
    ensures Remainder(s + chunk) == Remainder(Remainder(s) + chunk)
  {
    SplitRoundTrip(s);
    assert s + chunk == Terminated(Frames(s)) + (Remainder(s) + chunk);
    FramesOfTerminated(Frames(s), Remainder(s) + chunk);
  }

  function Concat(chunks: seq<string>): string {
    if chunks == [] then "" else chunks[0] + Concat(chunks[1..])
  }

  /** Lines handed to the classifier when `chunks` arrive one `data` event at a time,
      each handled as `buf += chunk; buf = processBuffer(buf)`. */
  function FeedFrames(buf: string, chunks: seq<string>): seq<string>
    decreases |chunks|
  {
    if chunks == [] then []
    else Frames(buf + chunks[0]) + FeedFrames(Remainder(buf + chunks[0]), chunks[1..])
  }

  /** The carry-over buffer after those events. */
  function FeedBuffer(buf: string, chunks: seq<string>): string
    decreases |chunks|
  {
    if chunks == [] then buf else FeedBuffer(Remainder(buf + chunks[0]), chunks[1..])
  }

  /** Framing does not depend on chunk boundaries: starting from a carry-over (which never
      holds a line feed), feeding chunks one by one yields the same ordered lines, and the
      same carry-over, as one pass over their concatenation. */
  lemma {:induction false} ChunkingIndependent(buf: string, chunks: seq<string>)
    requires NoNewline(buf)
    ensures FeedFrames(buf, chunks) == Frames(buf + Concat(chunks))
    ensures FeedBuffer(buf, chunks) == Remainder(buf + Concat(chunks))
    decreases |chunks|
  {
    if chunks == [] {
      assert buf + Concat(chunks) == buf;
    } else {
      var c := chunks[0];
      ChunkingIndependent(Remainder(buf + c), chunks[1..]);
      FramesAppend(buf + c, Concat(chunks[1..]));
      ConcatCons(buf, chunks);
    }
  }

  lemma ConcatCons(buf: string, chunks: seq<string>)
    requires chunks != []
    ensures buf + Concat(chunks) == (buf + chunks[0]) + Concat(chunks[1..])
  {
  }
}
