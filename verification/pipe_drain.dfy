/** The bounded drain of one long-lived helper pipe: a tail, a partial line and a short queue of lines. */
module PipeDrain {
  import opened ByteTail
  import opened SessionState

  const NEWLINE: Byte := 10
  const QUEUE := 8

  /** The complete lines of an unbounded stream, without their newlines. */
  function Lines(s: Bytes): seq<Bytes> {
    if s == [] then []
    else if s[|s| - 1] == NEWLINE then Lines(s[..|s| - 1]) + [Rest(s[..|s| - 1])]
    else Lines(s[..|s| - 1])
  }

  /** What follows the last newline. */
  function Rest(s: Bytes): (r: Bytes)
    ensures |r| <= |s| && NEWLINE !in r
  {
    if s == [] || s[|s| - 1] == NEWLINE then [] else Rest(s[..|s| - 1]) + [s[|s| - 1]]
  }

  function Join(lines: seq<Bytes>): Bytes {
    if lines == [] then [] else Join(lines[..|lines| - 1]) + lines[|lines| - 1] + [NEWLINE]
  }

  function Newlines(s: Bytes): nat {
    if s == [] then 0 else Newlines(s[..|s| - 1]) + if s[|s| - 1] == NEWLINE then 1 else 0
  }

  /** Splitting loses nothing: the lines and the rest rejoin to the stream. */
  lemma {:induction false} SplitRejoins(s: Bytes)
    ensures Join(Lines(s)) + Rest(s) == s
  {
    if s != [] {
      var t := s[..|s| - 1];
      SplitRejoins(t);
      assert s == t + [s[|s| - 1]];
      if s[|s| - 1] == NEWLINE { assert Lines(s)[..|Lines(s)| - 1] == Lines(t); }
    }
  }

  lemma {:induction false} LinesCountNewlines(s: Bytes)
    ensures |Lines(s)| == Newlines(s)
  {
    if s != [] { LinesCountNewlines(s[..|s| - 1]); }
  }

  /** Only the rest of what came before matters for the lines still to come. */
  lemma {:induction false} SplitOfAppend(s: Bytes, t: Bytes)
    ensures Lines(s + t) == Lines(s) + Lines(Rest(s) + t)
    ensures Rest(s + t) == Rest(Rest(s) + t)
    decreases |t|
  {
    if t == [] {
      Unfinished(Rest(s));
      assert s + t == s && Rest(s) + t == Rest(s);
    } else {
      var u := t[..|t| - 1];
      SplitOfAppend(s, u);
      assert (s + t)[..|s + t| - 1] == s + u;
      assert (Rest(s) + t)[..|Rest(s) + t| - 1] == Rest(s) + u;
    }
  }

  lemma {:induction false} Unfinished(p: Bytes)
    requires NEWLINE !in p
    ensures Lines(p) == [] && Rest(p) == p
  {
    if p != [] { Unfinished(p[..|p| - 1]); }
  }

  /** Every line of `a` is the end of the same line of `b`. */
  predicate Shortened(a: seq<Bytes>, b: seq<Bytes>) {
    |a| == |b| && forall k :: 0 <= k < |a| ==> IsSuffix(a[k], b[k])
  }

  /** Dropping bytes from the front of an unfinished line shortens that line and no other. */
  lemma {:induction false} SplitOfShortened(p: Bytes, q: Bytes, t: Bytes)
    requires NEWLINE !in q && IsSuffix(p, q)
    ensures Shortened(Lines(p + t), Lines(q + t)) && IsSuffix(Rest(p + t), Rest(q + t))
    decreases |t|
  {
    if t == [] {
      Unfinished(p);
      Unfinished(q);
      assert p + t == p && q + t == q;
    } else {
      var u := t[..|t| - 1];
      SplitOfShortened(p, q, u);
      assert (p + t)[..|p + t| - 1] == p + u;
      assert (q + t)[..|q + t| - 1] == q + u;
    }
  }

  /** The bytes before and after the first newline. */
  method Partition(s: Bytes) returns (line: Bytes, remainder: Bytes)
    requires NEWLINE in s
    ensures NEWLINE !in line && s == line + [NEWLINE] + remainder
  {
    var end := 0;
    while s[end] != NEWLINE
      invariant end < |s| && NEWLINE !in s[..end] && NEWLINE in s[end..]
      decreases |s| - end
    {
      end := end + 1;
    }
    return s[..end], s[end + 1..];
  }

  lemma FirstLine(line: Bytes, more: Bytes)
    requires NEWLINE !in line
    ensures Lines(line + [NEWLINE] + more) == [line] + Lines(more)
    ensures Rest(line + [NEWLINE] + more) == Rest(more)
  {
    var first := line + [NEWLINE];
    Unfinished(line);
    assert first[..|first| - 1] == line;
    assert Lines(first) == [line] && Rest(first) == [];
    SplitOfAppend(first, more);
    assert [] + more == more;
  }

  /** A queued line left either with the reader or pushed out by a newer one. */
  datatype Departure = Delivered(line: Bytes) | Evicted(line: Bytes)

  function Left(gone: seq<Departure>): (r: seq<Bytes>)
    ensures |r| == |gone|
    ensures forall k :: 0 <= k < |r| ==> r[k] == gone[k].line
  {
    seq(|gone|, k requires 0 <= k < |gone| => gone[k].line)
  }

  function Handed(gone: seq<Departure>): seq<Bytes> {
    if gone == [] then []
    else Handed(gone[..|gone| - 1]) + if gone[|gone| - 1].Delivered? then [gone[|gone| - 1].line] else []
  }

  predicate NoneEvicted(gone: seq<Departure>) {
    forall k :: 0 <= k < |gone| ==> gone[k].Delivered?
  }

  lemma {:induction false} AllHanded(gone: seq<Departure>)
    requires NoneEvicted(gone)
    ensures Handed(gone) == Left(gone)
  {
    if gone != [] {
      AllHanded(gone[..|gone| - 1]);
      assert Left(gone) == Left(gone[..|gone| - 1]) + [gone[|gone| - 1].line];
    }
  }

  lemma LeavesTheQueue(gone: seq<Departure>, d: Departure)
    ensures Left(gone + [d]) == Left(gone) + [d.line]
    ensures Handed(gone + [d]) == Handed(gone) + if d.Delivered? then [d.line] else []
    ensures NoneEvicted(gone + [d]) <==> NoneEvicted(gone) && d.Delivered?
  {
    var g := gone + [d];
    assert g[..|g| - 1] == gone && g[|gone|] == d;
    if NoneEvicted(g) {
      assert forall k :: 0 <= k < |gone| ==> g[k] == gone[k];
    }
  }

  lemma NothingTrimmed(stream: Bytes, chunk: Bytes, limit: nat)
    requires |stream| + |chunk| <= limit
    ensures Last(Rest(stream) + chunk, limit) == Rest(stream) + chunk
    ensures Lines(stream + chunk) == Lines(stream) + Lines(Rest(stream) + chunk)
    ensures Rest(stream + chunk) == Rest(Rest(stream) + chunk)
  {
    SplitOfAppend(stream, chunk);
  }

  lemma TrimmingShortens(stream: Bytes, emitted: seq<Bytes>, pending: Bytes, chunk: Bytes, kept: Bytes)
    requires Shortened(emitted, Lines(stream)) && IsSuffix(pending, Rest(stream)) && IsSuffix(kept, pending)
    ensures Shortened(emitted + Lines(kept + chunk), Lines(stream + chunk))
    ensures IsSuffix(Rest(kept + chunk), Rest(stream + chunk))
  {
    assert IsSuffix(kept, Rest(stream));
    SplitOfAppend(stream, chunk);
    SplitOfShortened(kept, Rest(stream), chunk);
  }

  /** A chunk longer than the limit can lose a whole line: the newline is trimmed with what it ended. */
  lemma LongChunkLosesALine(limit: nat)
    ensures exists chunk: Bytes :: Newlines(chunk) == 1 && |chunk| == limit + 1 && Lines(Last(chunk, limit)) == []
  {
    var text: Bytes := seq(limit, k => 65);
    var chunk: Bytes := [NEWLINE] + text;
    SplitOfAppend([NEWLINE], text);
    Unfinished(text);
    assert Rest([NEWLINE]) + text == text && Last(chunk, limit) == text;
    assert Lines([NEWLINE]) == [[]] by { assert [NEWLINE][..0] == []; }
    LinesCountNewlines(chunk);
  }

  lemma TrimsOnlyPending(pending: Bytes, chunk: Bytes, limit: nat)
    requires |chunk| <= limit
    ensures var kept := Last(pending, limit - |chunk|);
            IsSuffix(kept, pending) && Last(pending + chunk, limit) == kept + chunk
  {
  }

  /** While the stream fits it is split exactly; small chunks only ever shorten lines. */
  predicate Refines(stream: Bytes, emitted: seq<Bytes>, pending: Bytes, small: bool, limit: nat) {
    && |pending| <= |stream|
    && (|stream| <= limit ==> emitted == Lines(stream) && pending == Rest(stream))
    && (small ==> Shortened(emitted, Lines(stream)) && IsSuffix(pending, Rest(stream)))
  }

  lemma FeedRefines(stream: Bytes, emitted: seq<Bytes>, pending: Bytes, small: bool, chunk: Bytes, limit: nat)
    requires Refines(stream, emitted, pending, small, limit)
    ensures var work := Last(pending + chunk, limit);
            Refines(stream + chunk, emitted + Lines(work), Rest(work), small && |chunk| <= limit, limit)
  {
    if |stream| + |chunk| <= limit { NothingTrimmed(stream, chunk, limit); }
    if small && |chunk| <= limit {
      TrimsOnlyPending(pending, chunk, limit);
      TrimmingShortens(stream, emitted, pending, chunk, Last(pending, limit - |chunk|));
    }
  }

  /** Queueing one line early leaves the same lines waiting in the end. */
  lemma OneLineIn(lines: seq<Bytes>, line: Bytes, later: seq<Bytes>)
    ensures Last(Last(lines + [line], QUEUE) + later, QUEUE) == Last(lines + ([line] + later), QUEUE)
  {
    LastOfAppend(lines + [line], later, QUEUE);
    assert lines + ([line] + later) == (lines + [line]) + later;
  }

  class BoundedPipeDrain {
    const limit: nat
    var buffer: Bytes
    var pending: Bytes
    var lines: seq<Bytes>
    var overflow: bool
    /** Every byte read, every line queued and every line that left the queue. */
    ghost var stream: Bytes
    ghost var emitted: seq<Bytes>
    ghost var gone: seq<Departure>
    ghost var smallChunks: bool

    constructor (limit: nat)
      ensures Valid() && stream == [] && gone == [] && smallChunks && this.limit == limit
    {
      this.limit := limit;
      buffer, pending, lines, overflow := [], [], [], false;
      stream, emitted, gone, smallChunks := [], [], [], true;
    }

    ghost predicate Valid()
      reads this
    {
      && buffer == Last(stream, limit)
      && |pending| <= limit && NEWLINE !in pending
      && |lines| <= QUEUE
      && emitted == Left(gone) + lines
      && (overflow <==> |stream| > limit || !NoneEvicted(gone))
      && Refines(stream, emitted, pending, smallChunks, limit)
    }

    /** One chunk read from the pipe. */
    method Feed(chunk: Bytes)
      requires Valid()
      modifies this
      ensures Valid() && stream == old(stream) + chunk
      ensures smallChunks == (old(smallChunks) && |chunk| <= limit)
      ensures emitted == old(emitted) + Lines(Last(old(pending) + chunk, limit))
      ensures pending == Rest(Last(old(pending) + chunk, limit))
      ensures lines == Last(old(lines) + Lines(Last(old(pending) + chunk, limit)), QUEUE)
      ensures overflow <==> old(overflow) || |stream| > limit
                            || |old(lines) + Lines(Last(old(pending) + chunk, limit))| > QUEUE
      ensures Handed(gone) == old(Handed(gone))
    {
      LastOfAppend(stream, chunk, limit);
      FeedRefines(stream, emitted, pending, smallChunks, chunk, limit);
      Extend(chunk);
      stream := stream + chunk;
      smallChunks := smallChunks && |chunk| <= limit;
      QueueLines();
    }

    /** Both byte arrays grow by the chunk and are cut back to their last `limit` bytes. */
    method Extend(chunk: Bytes)
      modifies `buffer, `pending, `overflow
      ensures buffer == Last(old(buffer) + chunk, limit)
      ensures pending == Last(old(pending) + chunk, limit)
      ensures overflow <==> old(overflow) || |old(buffer) + chunk| > limit || |old(pending) + chunk| > limit
    {
      buffer := buffer + chunk;
      if |buffer| > limit {
        overflow := true;
        buffer := buffer[|buffer| - limit..];
      }
      pending := pending + chunk;
      if |pending| > limit {
        overflow := true;
        pending := pending[|pending| - limit..];
      }
    }

    /** Moves every complete line from the pending bytes to the queue. */
    method QueueLines()
      requires |lines| <= QUEUE && emitted == Left(gone) + lines
      requires overflow <==> |stream| > limit || !NoneEvicted(gone)
      modifies `pending, `lines, `overflow, `emitted, `gone
      ensures |lines| <= QUEUE && emitted == Left(gone) + lines
      ensures overflow <==> |stream| > limit || !NoneEvicted(gone)
      ensures emitted == old(emitted) + Lines(old(pending)) && pending == Rest(old(pending))
      ensures lines == Last(old(lines) + Lines(old(pending)), QUEUE)
      ensures overflow <==> old(overflow) || |old(lines) + Lines(old(pending))| > QUEUE
      ensures Handed(gone) == old(Handed(gone))
    {
      while NEWLINE in pending
        invariant |lines| <= QUEUE && emitted == Left(gone) + lines
        invariant emitted + Lines(pending) == old(emitted) + Lines(old(pending))
        invariant Rest(pending) == Rest(old(pending))
        invariant Last(lines + Lines(pending), QUEUE) == Last(old(lines) + Lines(old(pending)), QUEUE)
        invariant overflow || |lines + Lines(pending)| > QUEUE <==>
                  old(overflow) || |old(lines) + Lines(old(pending))| > QUEUE
        invariant overflow <==> |stream| > limit || !NoneEvicted(gone)
        invariant Handed(gone) == old(Handed(gone))
        decreases |pending|
      {
        var line, remainder := Partition(pending);
        FirstLine(line, remainder);
        assert emitted + ([line] + Lines(remainder)) == (emitted + [line]) + Lines(remainder);
        OneLineIn(lines, line, Lines(remainder));
        pending := remainder;
        Enqueue(line);
      }
      Unfinished(pending);
    }

    /** Only a full queue drops its oldest line, and it says so. */
    method Enqueue(line: Bytes)
      requires |lines| <= QUEUE && emitted == Left(gone) + lines
      requires overflow <==> |stream| > limit || !NoneEvicted(gone)
      modifies `lines, `overflow, `emitted, `gone
      ensures |lines| <= QUEUE && emitted == Left(gone) + lines
      ensures overflow <==> |stream| > limit || !NoneEvicted(gone)
      ensures emitted == old(emitted) + [line] && Handed(gone) == old(Handed(gone))
      ensures lines == Last(old(lines) + [line], QUEUE)
      ensures overflow <==> old(overflow) || |old(lines)| == QUEUE
    {
      if |lines| == QUEUE {
        overflow := true;
        LeavesTheQueue(gone, Evicted(lines[0]));
        gone := gone + [Evicted(lines[0])];
        lines := lines[1..];
      }
      lines := lines + [line];
      emitted := emitted + [line];
    }

    /** The oldest queued line, if any; waiting for one is the caller's deadline loop. */
    method NextLine() returns (line: Option<Bytes>)
      requires Valid()
      modifies this
      ensures Valid() && stream == old(stream) && emitted == old(emitted) && pending == old(pending)
      ensures line == if old(lines) == [] then None else Some(old(lines)[0])
      ensures lines == (if old(lines) == [] then [] else old(lines)[1..]) && overflow == old(overflow)
      ensures Handed(gone) == old(Handed(gone)) + if line.Some? then [line.value] else []
    {
      if lines == [] { return None; }
      line := Some(lines[0]);
      LeavesTheQueue(gone, Delivered(lines[0]));
      gone := gone + [Delivered(lines[0])];
      lines := lines[1..];
    }

    /** Unless the drain reports an overflow, what was handed out, queued and pending is the whole stream. */
    lemma NoOverflowLosesNothing()
      requires Valid() && !overflow
      ensures Join(Handed(gone) + lines) + pending == stream && buffer == stream
    {
      AllHanded(gone);
      SplitRejoins(stream);
    }

    /** Chunks no longer than the limit never cost a line: each is handed out, evicted or still queued. */
    lemma EveryNewlineIsALine()
      requires Valid() && smallChunks
      ensures |gone| + |lines| == Newlines(stream)
    {
      LinesCountNewlines(stream);
    }
  }
}
