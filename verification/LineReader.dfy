/** The request-line reader: it assembles one line from whatever chunks the transport hands over. */
module LineReader {

  newtype byte = x: int | 0 <= x < 256

  const LIMIT: nat := 65537
  const NEWLINE: byte := 10

  /** The number of bytes up to and with the first newline, or all of them. */
  function Through(s: seq<byte>): (n: nat)
    ensures n <= |s| && (s != [] ==> n > 0)
    ensures forall i :: 0 <= i < n - 1 ==> s[i] != NEWLINE
    ensures n < |s| ==> n > 0 && s[n - 1] == NEWLINE
  {
    if s == [] then 0 else if s[0] == NEWLINE then 1 else 1 + Through(s[1..])
  }

  /** The line a stream starts with, whatever its chunks: through the first newline, cut at the limit. */
  function LineOf(s: seq<byte>): (line: seq<byte>)
    ensures line <= s && |line| <= LIMIT
  {
    s[..if Through(s) < LIMIT then Through(s) else LIMIT]
  }

  /** A line ends at its first newline, at the limit, or where the stream ends; nothing else ends it. */
  lemma LineEnds(s: seq<byte>)
    ensures var line := LineOf(s);
      && (forall i :: 0 <= i < |line| - 1 ==> line[i] != NEWLINE)
      && (line == s || |line| == LIMIT || (line != [] && line[|line| - 1] == NEWLINE))
      && (line == [] <==> s == [])
  {
  }

  /** If a prefix has no newline, the first one lies beyond it. */
  lemma {:induction false} ThroughSkips(s: seq<byte>, k: nat)
    requires k <= |s| && forall i :: 0 <= i < k ==> s[i] != NEWLINE
    ensures Through(s) == k + Through(s[k..])
  {
    if k > 0 {
      ThroughSkips(s[1..], k - 1);
      assert s[1..][k - 1..] == s[k..];
    }
  }

  /** The first newline of a prefix that has one is the first newline. */
  lemma ThroughPrefix(s: seq<byte>, k: nat)
    requires k <= |s| && Through(s[..k]) > 0 && s[Through(s[..k]) - 1] == NEWLINE
    ensures Through(s) == Through(s[..k])
  {
    var n := Through(s[..k]);
    assert forall i :: 0 <= i < n - 1 ==> s[..k][i] == s[i];
  }

  lemma Completes(buffer: seq<byte>, count: nat)
    requires 0 < count <= Through(buffer) && buffer[count - 1] == NEWLINE
    ensures count == Through(buffer)
  {
  }

  /** No newline yet, and short of the limit. */
  ghost predicate Partial(all: seq<byte>, line: seq<byte>)
  {
    line <= all && |line| < LIMIT && forall i :: 0 <= i < |line| ==> line[i] != NEWLINE
  }

  lemma PartialIsPrefix(all: seq<byte>, line: seq<byte>)
    requires Partial(all, line)
    ensures line <= LineOf(all) && (|line| == |all| ==> line == LineOf(all))
    ensures Through(all) == |line| + Through(all[|line|..])
  {
    ThroughSkips(all, |line|);
  }

  /** How much of a chunk the loop takes. */
  function Take(line: seq<byte>, buffer: seq<byte>): nat
    requires |line| < LIMIT
  {
    if Through(buffer) < LIMIT - |line| then Through(buffer) else LIMIT - |line|
  }

  /** The stream is the line so far and what is left. */
  ghost predicate Cut(all: seq<byte>, line: seq<byte>, rest: seq<byte>)
  {
    line <= all && rest == all[|line|..]
  }

  lemma CutMoves(all: seq<byte>, line: seq<byte>, rest: seq<byte>, buffer: seq<byte>)
    requires Cut(all, line, rest) && buffer <= rest
    ensures line + buffer <= all
    ensures forall n :: 0 <= n <= |buffer| ==> Cut(all, line + buffer[..n], rest[n..])
  {
    forall n | 0 <= n <= |buffer|
      ensures Cut(all, line + buffer[..n], rest[n..])
    {
      assert buffer[..n] == rest[..n];
    }
    assert buffer[..|buffer|] == buffer;
  }

  /** One turn of the loop: the line is finished just when the chunk's part ends it. */
  lemma TurnCorrect(all: seq<byte>, line: seq<byte>, buffer: seq<byte>)
    requires Partial(all, line) && buffer != [] && line + buffer <= all
    ensures var n := Take(line, buffer); var grown := line + buffer[..n];
      if buffer[n - 1] == NEWLINE || |grown| == LIMIT then grown == LineOf(all) else n == |buffer| && Partial(all, grown)
  {
    var n := Take(line, buffer);
    var grown := line + buffer[..n];
    assert Through(all) == |line| + Through(all[|line|..]) by {
      PartialIsPrefix(all, line);
    }
    GrownIsPrefix(all, line, buffer, n);
    if buffer[n - 1] == NEWLINE {
      assert Through(all) == |grown| by {
        Completes(buffer, n);
        ThroughPrefix(all[|line|..], |buffer|);
      }
    } else if |grown| == LIMIT {
      assert Through(all) >= LIMIT by {
        ThroughAtLeast(all[|line|..], buffer);
      }
    } else {
      GrowsPartial(all, line, buffer);
    }
  }

  lemma GrowsPartial(all: seq<byte>, line: seq<byte>, buffer: seq<byte>)
    requires Partial(all, line) && buffer != [] && line + buffer <= all
    requires buffer[Take(line, buffer) - 1] != NEWLINE && |line| + Take(line, buffer) < LIMIT
    ensures Take(line, buffer) == |buffer| && Partial(all, line + buffer)
  {
  }

  lemma GrownIsPrefix(all: seq<byte>, line: seq<byte>, buffer: seq<byte>, n: nat)
    requires line + buffer <= all && n <= |buffer|
    ensures line + buffer[..n] == all[..|line| + n] && all[|line|..][..|buffer|] == buffer
  {
    var both := line + buffer;
    assert both == all[..|both|];
    assert line + buffer[..n] == both[..|line| + n];
    assert all[|line|..][..|buffer|] == both[|line|..];
  }

  lemma {:induction false} ThroughAtLeast(s: seq<byte>, prefix: seq<byte>)
    requires prefix <= s
    ensures Through(s) >= Through(prefix)
  {
    if prefix != [] {
      ThroughAtLeast(s[1..], prefix[1..]);
    }
  }

  /** A byte stream read in arbitrary chunks. */
  class Stream {
    var rest: seq<byte>

    constructor (bytes: seq<byte>)
      ensures rest == bytes
    {
      rest := bytes;
    }

    /** Some of what is left, at least one byte of it unless nothing is left; or an I/O error. */
    method FillBuffer() returns (failed: bool, buffer: seq<byte>)
      ensures !failed ==> buffer <= rest && (buffer == [] ==> rest == [])
    {
      failed, buffer := false, [];
      if * {
        failed := true;
      } else if rest != [] {
        var n :| 1 <= n <= |rest|;
        buffer := rest[..n];
      }
    }

    method Consume(n: nat)
      requires n <= |rest|
      modifies this
      ensures rest == old(rest)[n..]
    {
      rest := rest[n..];
    }

    /**
     * The line is the stream's own, independent of the chunks, and the stream is left just after it. An
     * I/O error loses what had been taken, which was a proper part of that line.
     */
    method ReadLine() returns (failed: bool, line: seq<byte>)
      modifies this
      ensures !failed ==> line == LineOf(old(rest)) && rest == old(rest)[|line|..]
      ensures failed ==> line <= LineOf(old(rest)) && rest == old(rest)[|line|..]
    {
      failed, line := false, [];
      ghost var all := rest;
      while true
        invariant !failed && Cut(all, line, rest) && Partial(all, line)
        decreases |rest|
      {
        var buffer;
        failed, buffer := FillBuffer();
        if failed {
          PartialIsPrefix(all, line);
          return;
        }
        if buffer == [] {
          PartialIsPrefix(all, line);
          return;
        }
        CutMoves(all, line, rest, buffer);
        TurnCorrect(all, line, buffer);
        var count := Take(line, buffer);
        var complete := buffer[count - 1] == NEWLINE;
        line := line + buffer[..count];
        Consume(count);
        if complete || |line| == LIMIT {
          return;
        }
      }
    }
  }

  // --- the lines of a whole stream -----------------------------------------------------------------

  function Lines(s: seq<byte>): (lines: seq<seq<byte>>)
    decreases |s|
  {
    if s == [] then [] else [LineOf(s)] + Lines(s[|LineOf(s)|..])
  }

  function Join(lines: seq<seq<byte>>): seq<byte>
  {
    if lines == [] then [] else lines[0] + Join(lines[1..])
  }

  /** Reading line after line loses and repeats nothing. */
  lemma {:induction false} LinesJoin(s: seq<byte>)
    ensures Join(Lines(s)) == s
    decreases |s|
  {
    if s != [] {
      LinesJoin(s[|LineOf(s)|..]);
    }
  }
}
