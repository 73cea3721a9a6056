/** The retained tail of the engine's output and the file that shows it. */
module OutputTail {
  import opened ByteTail

  class OutputFile {
    var content: Bytes

    constructor ()
      ensures content == []
    {
      content := [];
    }

    /**
     * Truncates and rewrites the file. Any write may store only part of what it was given or nothing, and any call may
     * fail; a failed replacement leaves the old content or a beginning of the new one, and none fails without a cause.
     */
    method ReplaceOutput(payload: Bytes, limit: int, calls: Calls) returns (ok: bool)
      modifies this
      ensures ok ==> limit > 0 && content == Last(payload, limit)
      ensures limit > 0 && NothingFails(calls) ==> ok
      ensures !calls.opens ==> !ok && content == old(content)
      ensures !ok && limit > 0 ==> content == old(content) || content < Last(payload, limit)
      ensures !ok && limit <= 0 ==> content == old(content)
    {
      if limit <= 0 { return false; }
      var bounded := Last(payload, limit);
      if !calls.opens { return false; }
      content := [];
      var view, offset, k := bounded, 0, 0;
      while view != []
        invariant offset <= |bounded| && view == bounded[offset..] && content == bounded[..offset]
        decreases |view|
      {
        var written := Stored(calls, k, |view|);
        if written <= 0 { return false; }
        content := Overwritten(content, view[..written], offset);
        offset, k := offset + written, k + 1;
        view := view[written..];
      }
      return true;
    }
  }

  class BoundedOutputCollector {
    const limit: nat
    const workspace: OutputFile
    var tail: Bytes
    ghost var stream: Bytes

    constructor (limit: nat, workspace: OutputFile)
      requires limit > 0
      ensures Valid() && stream == [] && this.limit == limit && this.workspace == workspace
    {
      this.limit, this.workspace := limit, workspace;
      tail, stream := [], [];
    }

    ghost predicate Valid()
      reads this
    {
      limit > 0 && tail == Last(stream, limit)
    }

    method Append(chunk: Bytes)
      requires Valid()
      modifies this
      ensures Valid() && stream == old(stream) + chunk
      ensures |tail| == (if |stream| < limit then |stream| else limit)
      ensures forall k :: 0 <= k < |tail| ==> tail[k] == stream[|stream| - |tail| + k]
    {
      LastOfAppend(stream, chunk, limit);
      stream := stream + chunk;
      if |chunk| >= limit {
        tail := chunk[|chunk| - limit..];
      } else {
        tail := tail + chunk;
        var excess := |tail| - limit;
        if excess > 0 { tail := tail[excess..]; }
      }
    }

    /** What a reader of the file sees is the tail, the previous snapshot or a beginning of the tail. */
    method Snapshot(calls: Calls) returns (ok: bool)
      requires Valid()
      modifies workspace
      ensures NothingFails(calls) ==> ok
      ensures ok ==> workspace.content == Last(stream, limit)
      ensures !ok ==> workspace.content == old(workspace.content) || workspace.content < Last(stream, limit)
    {
      ok := workspace.ReplaceOutput(tail, limit, calls);
    }
  }
}
