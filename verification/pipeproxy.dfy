/** Two proxies between a writing and a reading process that keep a copy of the first `limit` bytes:
    the simple one, `pipeProxy` in `envexec/file_prepare.go`, and the tee/splice one,
    `pipeProxyZeroCopy` in `envexec/file_pipe_linux.go`.

    The kernel decides how many bytes each call moves (`pace`, at least one while there are any) and
    from which call on the reader is gone (`breakAt`).  Writes to the copy and to the null
    device succeed in full. */
module PipeProxy {
  import opened Basics

  type Bytes = seq<bv8>

  const CHUNK: nat := 64 * 1024
  const COPY_BUFFER: nat := 32 * 1024

  function Min(a: nat, b: nat): nat { if a < b then a else b }

  /** Bytes moved by a call asking for up to `cap` of the `available` ones. */
  function Taken(want: nat, cap: nat, available: nat): (n: nat)
    requires cap > 0 && available > 0
    ensures 1 <= n <= cap && n <= available
  {
    var most := Min(cap, available);
    if want == 0 then 1 else Min(want, most)
  }

  function Prefix(source: Bytes, limit: nat): Bytes { source[..Min(limit, |source|)] }

  /** The source without the `lost` bytes at `at`, cut at the limit. */
  function WithGap(source: Bytes, limit: nat, at: nat, lost: nat): Bytes
    requires at + lost <= |source|
  {
    Prefix(source[..at] + source[at + lost..], limit)
  }

  // ---------- what the environment decides ----------

  /** The most a call may move at position `pos`: recording stops exactly at the limit. */
  function Cap(limit: nat, size: nat, pos: nat): (cap: nat)
    requires size > 0
    ensures 0 < cap <= size
  {
    if pos < limit then Min(size, limit - pos) else size
  }

  /** The bytes call number `call` moves from `pos` of a source of `length` bytes. */
  function Step(length: nat, limit: nat, size: nat, pace: nat -> nat, call: nat, pos: nat): (n: nat)
    requires size > 0 && pos <= length
    ensures pos + n <= length && n <= size && (n == 0 <==> pos == length)
    ensures pos < limit ==> pos + n <= limit
  {
    if pos == length then 0 else Taken(pace(call), Cap(limit, size, pos), length - pos)
  }

  /** The bytes that the first `calls` calls move while the reader is there. */
  function Reach(length: nat, limit: nat, size: nat, pace: nat -> nat, calls: nat): (pos: nat)
    requires size > 0
    ensures pos <= length
  {
    if calls == 0 then 0
    else
      var pos := Reach(length, limit, size, pace, calls - 1);
      pos + Step(length, limit, size, pace, calls - 1, pos)
  }

  /** A reader that lasts for as many calls as there are bytes gets them all. */
  lemma {:induction false} EveryCallMoves(length: nat, limit: nat, size: nat, pace: nat -> nat, calls: nat)
    requires size > 0
    ensures Reach(length, limit, size, pace, calls) >= Min(calls, length)
  {
    if calls > 0 { EveryCallMoves(length, limit, size, pace, calls - 1); }
  }

  lemma {:induction false} ReachStays(length: nat, limit: nat, size: nat, pace: nat -> nat, calls: nat, later: nat)
    requires size > 0 && calls <= later && Reach(length, limit, size, pace, calls) == length
    ensures Reach(length, limit, size, pace, later) == length
  {
    if calls < later { ReachStays(length, limit, size, pace, calls, later - 1); }
  }

  // ---------- the zero-copy proxy ----------

  /** Where the zero-copy proxy finds the reader gone. */
  function BreakPoint(length: nat, limit: nat, pace: nat -> nat, breakAt: nat): (at: nat)
    ensures at <= length
  {
    Reach(length, limit, CHUNK, pace, breakAt)
  }

  /** The bytes torn out where the reader went: those of the first call that finds it gone. */
  function Torn(length: nat, limit: nat, pace: nat -> nat, breakAt: nat): (lost: nat)
    ensures lost <= CHUNK && BreakPoint(length, limit, pace, breakAt) + lost <= length
    ensures BreakPoint(length, limit, pace, breakAt) < length ==> lost > 0
  {
    Step(length, limit, CHUNK, pace, breakAt, BreakPoint(length, limit, pace, breakAt))
  }

  /** The copy the zero-copy proxy keeps. */
  function ZeroCopySide(source: Bytes, limit: nat, pace: nat -> nat, breakAt: nat): Bytes {
    var at := BreakPoint(|source|, limit, pace, breakAt);
    if at >= Min(limit, |source|) then Prefix(source, limit)
    else WithGap(source, limit, at, Torn(|source|, limit, pace, breakAt))
  }

  datatype Progress = Progress(pos: nat, processed: nat, broken: Option<nat>, lost: nat, side: Bytes, delivered: Bytes)

  /** The loop while the reader is there. */
  ghost predicate Healthy(source: Bytes, limit: nat, p: Progress) {
    && p.broken.None? && p.lost == 0 && p.pos <= |source|
    && p.delivered == source[..p.pos] && p.processed == Min(p.pos, limit) && p.side == source[..p.processed]
  }

  /** The loop once the reader was found gone at `at`, with recording finished or not. */
  ghost predicate Broken(source: Bytes, limit: nat, p: Progress, at: nat) {
    && p.broken == Some(at) && at <= p.pos <= |source| && p.delivered == source[..at]
    && if at >= limit then p.lost == 0 && p.processed == limit && p.side == source[..limit]
       else
         && at + p.lost <= p.pos && at <= p.processed <= limit && p.processed + p.lost <= p.pos
         && (p.processed < limit ==> p.pos == p.processed + p.lost)
         && p.side == source[..at] + source[at + p.lost..p.processed + p.lost]
  }

  ghost predicate ZeroCopyOk(source: Bytes, limit: nat, p: Progress) {
    match p.broken case None => Healthy(source, limit, p) case Some(at) => Broken(source, limit, p, at)
  }

  lemma Slices(source: Bytes, a: nat, b: nat, c: nat)
    requires a <= b <= c <= |source|
    ensures source[a..b] + source[b..c] == source[a..c]
  {
  }

  /** A round that still serves the reader: tee and splice below the limit, plain splice above it. */
  method Serve(source: Bytes, limit: nat, p: Progress, want: nat) returns (p': Progress)
    requires Healthy(source, limit, p) && p.pos < |source|
    ensures Healthy(source, limit, p') && p'.pos == p.pos + Taken(want, Cap(limit, CHUNK, p.pos), |source| - p.pos)
  {
    var n := Taken(want, Cap(limit, CHUNK, p.pos), |source| - p.pos);
    var piece := source[p.pos..p.pos + n];
    Slices(source, 0, p.pos, p.pos + n);
    if p.processed < limit {
      p' := p.(pos := p.pos + n, processed := p.processed + n, side := p.side + piece, delivered := p.delivered + piece);
    } else {
      p' := p.(pos := p.pos + n, delivered := p.delivered + piece);
    }
  }

  /** The round in which tee fails: the chunk goes to the null device, unless the source has ended. */
  method Tear(source: Bytes, limit: nat, p: Progress, want: nat) returns (p': Progress)
    requires Healthy(source, limit, p) && p.processed < limit
    ensures Broken(source, limit, p', p.pos) && p'.pos == p.pos + p'.lost
    ensures p'.lost == if p.pos == |source| then 0 else Taken(want, Cap(limit, CHUNK, p.pos), |source| - p.pos)
  {
    var n := 0;
    if p.pos < |source| { n := Taken(want, Min(CHUNK, limit - p.processed), |source| - p.pos); }
    p' := p.(broken := Some(p.pos), pos := p.pos + n, lost := n);
    assert source[p.pos + n..p.pos + n] == [];
  }

  lemma RecordOn(source: Bytes, limit: nat, p: Progress, at: nat, n: nat)
    requires Broken(source, limit, p, at) && p.processed < limit && p.pos + n <= |source| && p.processed + n <= limit
    ensures Broken(source, limit,
                   p.(pos := p.pos + n, processed := p.processed + n, side := p.side + source[p.pos..p.pos + n]), at)
  {
    SideGrows(source, at, p.lost, p.pos, n);
  }

  lemma SideGrows(source: Bytes, at: nat, lost: nat, pos: nat, n: nat)
    requires at + lost <= pos && pos + n <= |source|
    ensures source[..at] + source[at + lost..pos] + source[pos..pos + n] == source[..at] + source[at + lost..pos + n]
  {
    Slices(source, at + lost, pos, pos + n);
  }

  /** A round without a reader: recording goes on below the limit, the rest is discarded. */
  method Drain(source: Bytes, limit: nat, p: Progress, at: nat, want: nat) returns (p': Progress)
    requires Broken(source, limit, p, at) && p.pos < |source|
    ensures Broken(source, limit, p', at) && p'.pos > p.pos && p'.lost == p.lost
  {
    var n := Taken(want, Cap(limit, CHUNK, p.processed), |source| - p.pos);
    if p.processed < limit {
      RecordOn(source, limit, p, at, n);
      p' := p.(pos := p.pos + n, processed := p.processed + n, side := p.side + source[p.pos..p.pos + n]);
    } else {
      p' := p.(pos := p.pos + n);
    }
  }

  /** One round of the tee/splice loop; `done` at end of file. */
  method ZeroCopyRound(source: Bytes, limit: nat, p: Progress, want: nat, gone: bool) returns (p': Progress, done: bool)
    requires ZeroCopyOk(source, limit, p)
    ensures ZeroCopyOk(source, limit, p')
    ensures p.broken.Some? ==> p'.broken == p.broken && p'.lost == p.lost
    ensures p.broken.None? ==> p'.broken == if gone then Some(p.pos) else None
    ensures p.broken.None? && !gone ==>
              p'.pos == p.pos + if p.pos == |source| then 0 else Taken(want, Cap(limit, CHUNK, p.pos), |source| - p.pos)
    ensures p.broken.None? && gone ==>
              p'.lost == if p.pos == |source| || p.pos >= limit then 0 else Taken(want, Cap(limit, CHUNK, p.pos), |source| - p.pos)
    ensures done ==> p.pos == p'.pos == |source|
    ensures !done ==> p'.pos > p.pos || (p'.pos == p.pos && p.broken.None? && gone)
    ensures p.pos == |source| && !(p.broken.None? && gone) ==> done
  {
    if p.broken.None? && gone {
      if p.processed < limit {
        // tee failed: fall through and drain this chunk
        p' := Tear(source, limit, p, want);
        done := p.pos == |source|;
      } else {
        // splice failed: the chunk is retried with the null device
        p' := p.(broken := Some(p.pos));
        done := false;
      }
      return;
    }
    p', done := p, p.pos == |source|;
    if done { return; }
    if p.broken.None? {
      p' := Serve(source, limit, p, want);
    } else {
      p' := Drain(source, limit, p, p.broken.value, want);
    }
  }

  /** `pipeProxyZeroCopy`.  The environment alone fixes the outcome: the source is always drained, the reader gets
      exactly what was moved before it went, and the copy is the limited prefix unless the reader went
      while bytes were still being recorded; then exactly one run of 1 to 65536 bytes, where it went, is missing. */
  method ZeroCopy(source: Bytes, limit: nat, pace: nat -> nat, breakAt: nat)
    returns (side: Bytes, delivered: Bytes, read: nat, calls: nat)
    ensures read == |source|
    ensures delivered == source[..BreakPoint(|source|, limit, pace, breakAt)]
    ensures side == ZeroCopySide(source, limit, pace, breakAt)
    ensures BreakPoint(|source|, limit, pace, breakAt) < |source| ==> breakAt < calls
    // in terms of the results alone: a byte at least for every call the reader lasts, and one gap where it went
    ensures delivered <= source && |delivered| >= Min(breakAt, |source|)
    ensures |delivered| >= Min(limit, |source|) ==> side == source[..Min(limit, |source|)]
    ensures |delivered| < Min(limit, |source|) ==>
              exists lost :: 1 <= lost <= 65536 && |delivered| + lost <= |source| && OneGap(source, limit, |delivered|, lost, side)
  {
    var p := Progress(0, 0, None, 0, [], []);
    calls := 0;
    while true
      invariant ZeroCopyOk(source, limit, p) && Timed(|source|, limit, pace, breakAt, p, calls)
      decreases |source| - p.pos, if p.broken.None? then 1 else 0
    {
      var done;
      p, done := ZeroCopyRound(source, limit, p, pace(calls), calls >= breakAt);
      calls := calls + 1;
      if done { break; }
    }
    side, delivered, read := p.side, p.delivered, p.pos;
    ZeroCopyEnds(source, limit, pace, breakAt, p, calls);
    ZeroCopyMeans(source, limit, pace, breakAt);
  }

  lemma ZeroCopyMeans(source: Bytes, limit: nat, pace: nat -> nat, breakAt: nat)
    ensures var at, side := BreakPoint(|source|, limit, pace, breakAt), ZeroCopySide(source, limit, pace, breakAt);
            && at >= Min(breakAt, |source|)
            && (at >= Min(limit, |source|) ==> side == source[..Min(limit, |source|)])
            && (at < Min(limit, |source|) ==>
                  exists lost :: 1 <= lost <= 65536 && at + lost <= |source| && OneGap(source, limit, at, lost, side))
  {
    EveryCallMoves(|source|, limit, CHUNK, pace, breakAt);
    var at := BreakPoint(|source|, limit, pace, breakAt);
    if at < Min(limit, |source|) {
      assert OneGap(source, limit, at, Torn(|source|, limit, pace, breakAt), ZeroCopySide(source, limit, pace, breakAt));
    }
  }

  /** `side` is the source without the `lost` bytes at `at`, cut at the limit. */
  ghost predicate OneGap(source: Bytes, limit: nat, at: nat, lost: nat, side: Bytes)
    requires at + lost <= |source|
  {
    var rest := source[..at] + source[at + lost..];
    side == if |rest| <= limit then rest else rest[..limit]
  }

  /** The loop is where the environment has brought it. */
  ghost predicate Timed(length: nat, limit: nat, pace: nat -> nat, breakAt: nat, p: Progress, calls: nat) {
    match p.broken
    case None => calls <= breakAt && p.pos == Reach(length, limit, CHUNK, pace, calls)
    case Some(at) =>
      && breakAt < calls && at == BreakPoint(length, limit, pace, breakAt)
      && p.lost == if at < limit then Torn(length, limit, pace, breakAt) else 0
  }

  lemma ZeroCopyEnds(source: Bytes, limit: nat, pace: nat -> nat, breakAt: nat, p: Progress, calls: nat)
    requires ZeroCopyOk(source, limit, p) && Timed(|source|, limit, pace, breakAt, p, calls) && p.pos == |source|
    ensures p.delivered == source[..BreakPoint(|source|, limit, pace, breakAt)]
    ensures p.side == ZeroCopySide(source, limit, pace, breakAt)
    ensures BreakPoint(|source|, limit, pace, breakAt) < |source| ==> breakAt < calls
  {
    if p.broken.None? {
      ReachStays(|source|, limit, CHUNK, pace, calls, breakAt);
    } else {
      SideComplete(source, limit, p, p.broken.value, p.lost);
    }
  }

  /** When the source has ended the copy is complete. */
  lemma SideComplete(source: Bytes, limit: nat, p: Progress, at: nat, torn: nat)
    requires Broken(source, limit, p, at) && p.pos == |source| && p.lost == torn && at + torn <= |source|
    requires at == |source| ==> torn == 0
    ensures p.side == if at >= Min(limit, |source|) then Prefix(source, limit) else WithGap(source, limit, at, torn)
  {
    if at < Min(limit, |source|) {
      var rest := source[..at] + source[at + torn..];
      assert |rest| == |source| - torn;
      assert Min(limit, |rest|) == p.processed;
    }
  }

  // ---------- when the copy is a prefix ----------

  lemma GapShortens(source: Bytes, limit: nat, at: nat, lost: nat)
    requires at < limit && 0 < lost && at + lost <= |source|
    ensures WithGap(source, limit, at, lost) == Prefix(source, limit) ==>
              at + lost < |source| && source[at] == source[at + lost]
  {
    var rest := source[..at] + source[at + lost..];
    if WithGap(source, limit, at, lost) == Prefix(source, limit) {
      assert |Prefix(rest, limit)| == |Prefix(source, limit)|;
      assert at + lost < |source|;
      assert Prefix(rest, limit)[at] == rest[at] == source[at + lost];
      assert Prefix(source, limit)[at] == source[at];
    }
  }

  /** The copy is the limited prefix of every source of a length if and only if the reader stays until
      the copy is full or the source has ended. */
  lemma CopyIsPrefixIff(length: nat, limit: nat, pace: nat -> nat, breakAt: nat)
    ensures (forall source: Bytes | |source| == length :: ZeroCopySide(source, limit, pace, breakAt) == Prefix(source, limit))
            <==> BreakPoint(length, limit, pace, breakAt) >= Min(limit, length)
  {
    var at := BreakPoint(length, limit, pace, breakAt);
    if at < Min(limit, length) {
      var source: Bytes := seq(length, i => if i == at then 1 else 0);
      GapShortens(source, limit, at, Torn(length, limit, pace, breakAt));
      assert ZeroCopySide(source, limit, pace, breakAt) != Prefix(source, limit);
    }
  }

  /** A run whose copy is not even a prefix: two bytes, read one at a time, and no reader at all. */
  lemma CopyNeedNotBePrefix()
    ensures ZeroCopySide([1, 2], 2, _ => 1, 0) == [2]
    ensures !(ZeroCopySide([1, 2], 2, _ => 1, 0) <= [1, 2])
  {
    var source: Bytes := [1, 2];
    var pace: nat -> nat := _ => 1;
    assert BreakPoint(2, 2, pace, 0) == 0 && Torn(2, 2, pace, 0) == 1;
    assert WithGap(source, 2, 0, 1) == [2];
    assert [2 as bv8][0] != source[0];
  }

  // ---------- the simple proxy ----------

  /** The bytes that get through to the reader of the simple proxy: those of the calls before it went, and
      what the first failing write still took of its chunk. */
  function SimpleOut(length: nat, limit: nat, pace: nat -> nat, breakAt: nat, partial: nat): (n: nat)
    ensures n <= length
  {
    var at := Reach(length, limit, COPY_BUFFER, pace, breakAt);
    at + Min(partial, Step(length, limit, COPY_BUFFER, pace, breakAt, at))
  }

  /** `io.Copy(in2, …)` from `start` up to `end`, which is either the end of the recorded part or of the source.
      `broken` says that a write failed, now or before. */
  method CopyOut(length: nat, limit: nat, start: nat, end: nat, gone: bool, pace: nat -> nat, breakAt: nat, first: nat,
                 partial: nat)
    returns (pos: nat, written: nat, broken: bool, calls: nat)
    requires start <= end <= length && (end == length || end == limit)
    requires end > limit ==> start >= limit
    requires !gone ==> first <= breakAt && start == Reach(length, limit, COPY_BUFFER, pace, first)
    ensures start <= pos <= end && (gone ==> broken)
    ensures gone ==> written == 0
    ensures !broken ==> pos == end && written == end - start && calls <= breakAt && end == Reach(length, limit, COPY_BUFFER, pace, calls)
    ensures broken && !gone ==> start + written == SimpleOut(length, limit, pace, breakAt, partial) && written <= pos - start
    ensures broken && !gone && start + written == end ==> pos == end
  {
    pos, written, broken, calls := start, 0, gone, first;
    while pos < end
      invariant start <= pos <= end
      invariant !broken ==> written == pos - start && calls <= breakAt && pos == Reach(length, limit, COPY_BUFFER, pace, calls)
      invariant broken == gone && (gone ==> written == 0)
    {
      var n := Taken(pace(calls), COPY_BUFFER, end - pos);
      if gone { return pos + n, 0, true, calls + 1; }
      assert n == Step(length, limit, COPY_BUFFER, pace, calls, pos);
      if calls >= breakAt {
        return pos + n, written + Min(partial, n), true, calls + 1;
      }
      pos, written, calls := pos + n, written + n, calls + 1;
    }
  }

  /** `pipeProxy`: the copy is always the limited prefix, the source is drained, and the reader gets what was
      written before it went. */
  method Simple(source: Bytes, limit: nat, pace: nat -> nat, breakAt: nat, partial: nat)
    returns (side: Bytes, delivered: Bytes, read: nat)
    ensures read == |source|
    ensures side == Prefix(source, limit)
    ensures delivered == source[..SimpleOut(|source|, limit, pace, breakAt, partial)]
    ensures delivered <= source && |delivered| >= Min(breakAt, |source|)
  {
    EveryCallMoves(|source|, limit, COPY_BUFFER, pace, breakAt);
    var pos, n, torn, calls;
    side, pos, n, torn, calls := CopyRecorded(source, limit, pace, breakAt, partial);
    var pos2, n2, torn2, calls2 := CopyOut(|source|, limit, pos, |source|, torn, pace, breakAt, calls, partial);
    if !torn { Slices(source, 0, n, n + n2); }
    if !torn2 { ReachStays(|source|, limit, COPY_BUFFER, pace, calls2, breakAt); }
    delivered := source[..n] + source[pos..pos + n2];
    read := pos2;
    while read < |source|
      invariant read <= |source|
    {
      read := read + Taken(pace(read), COPY_BUFFER, |source| - read);
    }
  }

  /** The part up to the limit: `io.Copy` through the tee reader and, if the reader went, the rest into the copy. */
  method CopyRecorded(source: Bytes, limit: nat, pace: nat -> nat, breakAt: nat, partial: nat)
    returns (side: Bytes, pos: nat, n: nat, torn: bool, calls: nat)
    ensures side == Prefix(source, limit) && pos == Min(limit, |source|) && n <= pos
    ensures torn ==> n == SimpleOut(|source|, limit, pace, breakAt, partial)
    ensures !torn ==> n == pos == Reach(|source|, limit, COPY_BUFFER, pace, calls) && calls <= breakAt
  {
    var stop := Min(limit, |source|);
    pos, n, torn, calls := CopyOut(|source|, limit, 0, stop, false, pace, breakAt, 0, partial);
    side := source[..pos];
    if n < limit {
      Slices(source, 0, pos, stop);
      side := side + source[pos..stop];
      pos := stop;
    }
  }

  /** The fast proxy against the simple one, each under its own timing.  The copies agree unless the reader of
      the fast one goes while it records; readers that stay get the whole source from both; otherwise
      each gets a prefix. */
  method Compare(source: Bytes, limit: nat, pace1: nat -> nat, break1: nat, pace2: nat -> nat, break2: nat, partial: nat)
    returns (side1: Bytes, out1: Bytes, side2: Bytes, out2: Bytes)
    ensures BreakPoint(|source|, limit, pace1, break1) >= Min(limit, |source|) ==> side1 == side2
    ensures BreakPoint(|source|, limit, pace1, break1) < Min(limit, |source|) ==>
              side1 == WithGap(source, limit, BreakPoint(|source|, limit, pace1, break1), Torn(|source|, limit, pace1, break1))
    ensures side2 == Prefix(source, limit)
    ensures break1 >= |source| ==> out1 == source && side1 == side2
    ensures break2 >= |source| ==> out2 == source
    ensures out1 <= source && out2 <= source
    ensures |out1| >= Min(break1, |source|) && |out2| >= Min(break2, |source|)
    ensures |out1| >= Min(limit, |source|) ==> side1 == side2
  {
    var read1, calls1, read2;
    side1, out1, read1, calls1 := ZeroCopy(source, limit, pace1, break1);
    side2, out2, read2 := Simple(source, limit, pace2, break2, partial);
    EveryCallMoves(|source|, limit, CHUNK, pace1, break1);
    EveryCallMoves(|source|, limit, COPY_BUFFER, pace2, break2);
    assert source[..|source|] == source;
  }
}
