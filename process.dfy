/**
 * The process runner of ImDL's main program (RunCommandAndCaptureOutput):
 * spawn a command with standard output and error on one pipe, read the
 * pipe in chunks until a read fails or returns nothing, then strip every
 * line feed and carriage return. The operating system is a stub: the
 * outcome of running a command is a ProcessOutcome chosen by the caller.
 */
module Process {
  import Logging

  /** One ReadFile call on the pipe: the bytes it delivered, or a failed call. */
  datatype ReadResult = Chunk(bytes: string) | ReadFailed

  /** What the operating system does with one command. */
  datatype ProcessOutcome =
    | PipeFailed(pipeError: nat)        // CreatePipe failed with this error code
    | SpawnFailed(spawnError: nat)      // CreateProcessA failed with this error code
    | Spawned(results: seq<ReadResult>)   // the successive ReadFile results; running out means end of stream

  /** A read that lets the loop go on: it succeeded and delivered at least one byte. */
  predicate Continues(r: ReadResult)
  {
    r.Chunk? && r.bytes != ""
  }

  /** The bytes accumulated before the first failed or empty read. */
  function ReadUntilStop(results: seq<ReadResult>): (r: string)
    ensures r == "" <==> results == [] || !Continues(results[0])
    ensures results != [] && Continues(results[0]) ==>
      |results[0].bytes| <= |r| && r[..|results[0].bytes|] == results[0].bytes
  {
    if results == [] || !Continues(results[0]) then ""
    else results[0].bytes + ReadUntilStop(results[1..])
  }

  /** All bytes of a run of results, in order. */
  function Concat(results: seq<ReadResult>): string
  {
    if results == [] then "" else (if results[0].Chunk? then results[0].bytes else "") + Concat(results[1..])
  }

  /** The captured text is the concatenation of the chunks in front of the first stop. */
  lemma {:induction false} ReadUntilStopIsPrefixConcat(results: seq<ReadResult>, stop: nat)
    requires stop <= |results|
    requires forall j :: 0 <= j < stop ==> Continues(results[j])
    requires stop < |results| ==> !Continues(results[stop])
    ensures ReadUntilStop(results) == Concat(results[..stop])
  {
    if stop > 0 {
      ReadUntilStopIsPrefixConcat(results[1..], stop - 1);
      assert results[..stop][1..] == results[1..][..stop - 1];
    } else {
      assert results[..stop] == [];
    }
  }

  /** `s` with every occurrence of `c` taken out (the effect of one erase-remove pass). */
  function Removed(s: string, c: char): (r: string)
    ensures c !in r
    ensures |r| <= |s|
  {
    if s == [] then []
    else Removed(s[..|s| - 1], c) + (if s[|s| - 1] == c then [] else [s[|s| - 1]])
  }

  /** One pass adds nothing and keeps every other character as often as it occurred. */
  lemma {:induction false} RemovedKeepsCounts(s: string, c: char)
    ensures forall x :: x in Removed(s, c) ==> x in s
    ensures forall x :: x != c ==> multiset(Removed(s, c))[x] == multiset(s)[x]
    decreases |s|
  {
    if s != [] {
      var init := s[..|s| - 1];
      var last := s[|s| - 1];
      RemovedKeepsCounts(init, c);
      assert s == init + [last];
      assert multiset(s) == multiset(init) + multiset([last]);
      var kept := if last == c then [] else [last];
      assert Removed(s, c) == Removed(init, c) + kept;
      assert multiset(Removed(s, c)) == multiset(Removed(init, c)) + multiset(kept);
    }
  }

  predicate IsLineBreak(c: char)
  {
    c == '\n' || c == '\r'
  }

  /** The normalisation applied to captured output: line feeds out, then carriage returns out. */
  function StripLineBreaks(s: string): (r: string)
    ensures '\n' !in r && '\r' !in r
    ensures forall k :: 0 <= k < |r| ==> !IsLineBreak(r[k])
  {
    RemovedKeepsCounts(Removed(s, '\n'), '\r');
    Removed(Removed(s, '\n'), '\r')
  }

  /** A single filter that keeps exactly the characters that are not line breaks, in order. */
  function KeepNonBreaks(s: string): string
  {
    if s == [] then [] else (if IsLineBreak(s[0]) then [] else [s[0]]) + KeepNonBreaks(s[1..])
  }

  lemma {:induction false} RemovedAppend(a: string, b: string, c: char)
    ensures Removed(a + b, c) == Removed(a, c) + Removed(b, c)
    decreases |b|
  {
    if b == [] {
      assert a + b == a;
    } else {
      var b' := b[..|b| - 1];
      assert (a + b)[..|a + b| - 1] == a + b';
      RemovedAppend(a, b', c);
    }
  }

  lemma {:induction false} KeepNonBreaksAppend(a: string, b: string)
    ensures KeepNonBreaks(a + b) == KeepNonBreaks(a) + KeepNonBreaks(b)
  {
    if a == [] {
      assert a + b == b;
    } else {
      assert (a + b)[1..] == a[1..] + b;
      KeepNonBreaksAppend(a[1..], b);
    }
  }

  /** The two erase-remove passes together keep every other character, in its original order. */
  lemma {:induction false} StripLineBreaksKeepsTheRest(s: string)
    ensures StripLineBreaks(s) == KeepNonBreaks(s)
  {
    if s != [] {
      var head := [s[0]];
      var tail := s[1..];
      StripLineBreaksKeepsTheRest(tail);
      assert s == head + tail;
      RemovedAppend(head, tail, '\n');
      RemovedAppend(Removed(head, '\n'), Removed(tail, '\n'), '\r');
      StripOne(s[0]);
      KeepNonBreaksAppend(head, tail);
    }
  }

  lemma StripOne(c: char)
    ensures StripLineBreaks([c]) == KeepNonBreaks([c])
  {
    RemovedSingle(c, '\n');
    if c != '\n' {
      RemovedSingle(c, '\r');
    }
    assert [c][1..] == [];
    assert KeepNonBreaks([c]) == (if IsLineBreak(c) then [] else [c]) + KeepNonBreaks([]);
  }

  lemma RemovedSingle(c: char, x: char)
    ensures Removed([c], x) == (if c == x then [] else [c])
  {
    assert [c][..0] == [];
  }

  /** Removing a character that does not occur changes nothing. */
  lemma {:induction false} RemovedAbsent(s: string, c: char)
    requires c !in s
    ensures Removed(s, c) == s
    decreases |s|
  {
    if s != [] {
      assert s == s[..|s| - 1] + [s[|s| - 1]];
      RemovedAbsent(s[..|s| - 1], c);
    }
  }

  /** Normalising twice is normalising once. */
  lemma StripLineBreaksIdempotent(s: string)
    ensures StripLineBreaks(StripLineBreaks(s)) == StripLineBreaks(s)
  {
    var r := StripLineBreaks(s);
    RemovedAbsent(r, '\n');
    RemovedAbsent(r, '\r');
  }

  /** The text the runner returns for an outcome: empty on either failure. */
  function Captured(o: ProcessOutcome): (r: string)
    ensures '\n' !in r && '\r' !in r
    ensures !o.Spawned? ==> r == ""
  {
    match o
    case PipeFailed(_) => ""
    case SpawnFailed(_) => ""
    case Spawned(results) => StripLineBreaks(ReadUntilStop(results))
  }

  /** A single chunk holding a line and its line feed is captured as the line alone. */
  lemma CapturedDropsLineFeed(line: string)
    requires line != "" && '\n' !in line && '\r' !in line
    ensures Captured(Spawned([Chunk(line + "\n")])) == line
  {
    var chunk := line + "\n";
    var results := [Chunk(chunk)];
    assert results[1..] == [];
    assert ReadUntilStop(results) == chunk + "";
    assert chunk + "" == chunk;
    TrailingRemoved(line, '\n');
    RemovedAbsent(line, '\r');
  }

  /** Removing `c` from `s` followed by `c` gives `s` back when `s` holds no `c`. */
  lemma TrailingRemoved(s: string, c: char)
    requires c !in s
    ensures Removed(s + [c], c) == s
  {
    assert (s + [c])[..|s|] == s;
    RemovedAbsent(s, c);
  }

  /** The error records the runner logs for an outcome. */
  function FailureLog(o: ProcessOutcome): seq<Logging.LogRecord>
  {
    match o
    case PipeFailed(e) => [Logging.LogRecord(Logging.Err, "CreatePipe failed, err=" + Logging.NatToString(e))]
    case SpawnFailed(e) => [Logging.LogRecord(Logging.Err, "CreateProcess failed, err=" + Logging.NatToString(e))]
    case Spawned(_) => []
  }

  /**
   * std::remove followed by erase, in place on the first `len` characters
   * of a buffer: the kept characters slide to the front in order and the
   * new length is returned.
   */
  method EraseRemove(buf: array<char>, len: nat, c: char) returns (newLen: nat)
    requires len <= buf.Length
    modifies buf
    ensures newLen <= len
    ensures buf[..newLen] == Removed(old(buf[..len]), c)
  {
    ghost var orig := buf[..len];
    var write := 0;
    var read := 0;
    while read < len
      invariant 0 <= write <= read <= len
      invariant buf[..write] == Removed(orig[..read], c)
      invariant forall k :: read <= k < len ==> buf[k] == orig[k]
    {
      var x := buf[read];
      assert orig[..read + 1] == orig[..read] + [x];
      if x != c {
        buf[write] := x;
        assert buf[..write + 1] == buf[..write] + [x];
        write := write + 1;
      }
      read := read + 1;
    }
    assert orig[..len] == orig;
    newLen := write;
  }

  /**
   * Runs `command` through the stub `runner`, collects the pipe's output
   * and strips its line breaks. Either failure returns the empty string,
   * exactly what an empty successful run returns; the failure itself only
   * shows in the error records, returned beside the text.
   */
  method RunCommandAndCaptureOutput(command: string, runner: string -> ProcessOutcome)
    returns (output: string, errors: seq<Logging.LogRecord>)
    ensures output == Captured(runner(command))
    ensures errors == FailureLog(runner(command))
    ensures runner(command).Spawned? ==> output == KeepNonBreaks(ReadUntilStop(runner(command).results))
  {
    var outcome := runner(command);
    errors := [];
    if outcome.PipeFailed? {
      errors := [Logging.LogRecord(Logging.Err, "CreatePipe failed, err=" + Logging.NatToString(outcome.pipeError))];
      return "", errors;
    }
    if outcome.SpawnFailed? {
      errors := [Logging.LogRecord(Logging.Err, "CreateProcess failed, err=" + Logging.NatToString(outcome.spawnError))];
      return "", errors;
    }
    var results := outcome.results;
    output := "";
    var i := 0;
    while i < |results| && Continues(results[i])
      invariant 0 <= i <= |results|
      invariant output + ReadUntilStop(results[i..]) == ReadUntilStop(results)
    {
      assert results[i..][1..] == results[i + 1..];
      output := output + results[i].bytes;
      i := i + 1;
    }
    assert ReadUntilStop(results[i..]) == "";
    assert output + "" == output;
    output := StripInPlace(output);
    StripLineBreaksKeepsTheRest(ReadUntilStop(results));
  }

  /** The two erase-remove passes over the string's buffer. */
  method StripInPlace(s: string) returns (r: string)
    ensures r == StripLineBreaks(s)
  {
    var buf := new char[|s|](k => if 0 <= k < |s| then s[k] else ' ');
    assert buf[..|s|] == s;
    var len := EraseRemove(buf, |s|, '\n');
    len := EraseRemove(buf, len, '\r');
    r := buf[..len];
  }
}
