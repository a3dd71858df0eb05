/**
 AutoXzDecoder: a download is decompressed while it is written if, and only if, it starts with
 the magic of an xz stream (section 2.1.1.1 of The .xz File Format 1.0.4), however the stream
 is cut into chunks.

 The xz library is a parameter: its answer may depend on everything it was fed before.  How
 often `decompress` may call it is bounded by a budget, since only the library can promise
 that the loop ends; running out of it is an outcome of its own.
 */
module AutoXz {
  import opened Wrappers
  import opened ByteStrings
  import opened Sequences

  const MAGIC: Bytes := [0xFD, 0x37, 0x7A, 0x58, 0x5A, 0x00]

  const BUFFER_SIZE: nat := 65536

  datatype Action = Run | Finish

  /** One call of `process`: the bytes offered, how many of them were read, and what came out. */
  datatype Entry = Entry(offered: Bytes, action: Action, read: nat, out: Bytes)

  /** `ok` is false for a status other than Ok and StreamEnd. */
  datatype Reply = Processed(read: nat, out: Bytes, ok: bool) | StreamError

  type Library = (seq<Entry>, Bytes, Action) -> Reply

  /** The library reads from what it is offered and writes into the buffer it is given. */
  ghost predicate IsLibrary(xz: Library) {
    forall log, input, action :: xz(log, input, action).Processed? ==>
      xz(log, input, action).read <= |input| && |xz(log, input, action).out| <= BUFFER_SIZE
  }

  /** The library reports an error, or a status that `decompress` does not expect. */
  predicate Errs(reply: Reply) {
    reply.StreamError? || !reply.ok
  }

  /** Every entry is an answer that the library gave with this history. */
  ghost predicate IsGenuine(xz: Library, log: seq<Entry>) {
    forall i :: 0 <= i < |log| ==>
      xz(log[..i], log[i].offered, log[i].action) == Processed(log[i].read, log[i].out, true)
          && log[i].read <= |log[i].offered|
  }

  /** A library that never errs, and reads something whenever it is told to run on something. */
  ghost predicate NeverStalls(xz: Library) {
    forall log, input, action ::
      !Errs(xz(log, input, action)) && (action == Run && input != [] ==> xz(log, input, action).read > 0)
  }

  /** A library that never errs, and always reads everything at once. */
  ghost predicate ReadsAll(xz: Library) {
    forall log, input, action :: !Errs(xz(log, input, action)) && xz(log, input, action).read == |input|
  }

  datatype State = Probing(pos: nat) | PlainText | Compressed(log: seq<Entry>)

  datatype Status = Done | Failed | OutOfBudget

  /** What the decoder has read, and what it has produced. */
  function Consumed(log: seq<Entry>): Bytes {
    if log == [] then []
    else
      var last := log[|log| - 1];
      Consumed(log[..|log| - 1]) + if last.read <= |last.offered| then last.offered[..last.read] else []
  }

  function Produced(log: seq<Entry>): Bytes {
    if log == [] then [] else Produced(log[..|log| - 1]) + log[|log| - 1].out
  }

  /** The library erred while it was fed this stream: after a history of its own answers, on the next bytes. */
  ghost predicate ErredOn(xz: Library, stream: Bytes) {
    exists log, input, action ::
      IsGenuine(xz, log) && Consumed(log) + input <= stream && Errs(xz(log, input, action))
  }

  lemma ErredOnMore(xz: Library, stream: Bytes, more: Bytes)
    requires ErredOn(xz, stream) && stream <= more
    ensures ErredOn(xz, more)
  {
    var log, input, action :|
      IsGenuine(xz, log) && Consumed(log) + input <= stream && Errs(xz(log, input, action));
    assert Consumed(log) + input <= more;
  }

  predicate OnlyRuns(log: seq<Entry>) {
    forall i :: 0 <= i < |log| ==> log[i].action == Run && log[i].offered != []
  }

  /** Run calls with something to read, then one Finish with nothing: the decoder is told the end once, at the end. */
  predicate FinishedOnce(log: seq<Entry>) {
    log != [] && OnlyRuns(log[..|log| - 1]) && log[|log| - 1].action == Finish && log[|log| - 1].offered == []
  }

  /** The last call read all that it was offered. */
  predicate WasRead(log: seq<Entry>) {
    log == [] || log[|log| - 1].read == |log[|log| - 1].offered|
  }

  /** Neither is a prefix of the other. */
  predicate Disagree(a: Bytes, b: Bytes) {
    exists i :: 0 <= i < |a| && i < |b| && a[i] != b[i]
  }

  lemma ConsumedAppend(log: seq<Entry>, e: Entry)
    requires e.read <= |e.offered|
    ensures Consumed(log + [e]) == Consumed(log) + e.offered[..e.read] && Produced(log + [e]) == Produced(log) + e.out
  {
    assert (log + [e])[..|log|] == log;
  }

  lemma GenuineAppend(xz: Library, log: seq<Entry>, e: Entry)
    requires IsGenuine(xz, log) && xz(log, e.offered, e.action) == Processed(e.read, e.out, true)
        && e.read <= |e.offered|
    ensures IsGenuine(xz, log + [e])
  {
    forall i | 0 <= i < |log + [e]|
      ensures var l := log + [e];
              && xz(l[..i], l[i].offered, l[i].action) == Processed(l[i].read, l[i].out, true)
              && l[i].read <= |l[i].offered|
    {
      if i < |log| {
        assert (log + [e])[..i] == log[..i];
      } else {
        assert (log + [e])[..i] == log;
      }
    }
  }

  lemma ActionsAppend(log: seq<Entry>, e: Entry)
    requires OnlyRuns(log)
    ensures e.action == Run && e.offered != [] ==> OnlyRuns(log + [e])
    ensures e.action == Finish && e.offered == [] ==> FinishedOnce(log + [e])
  {
    assert (log + [e])[..|log|] == log;
  }

  lemma EmptyLog(xz: Library)
    ensures OnlyRuns([]) && IsGenuine(xz, []) && Consumed([]) == [] && Produced([]) == []
  {
  }

  lemma Bounded(xz: Library, log: seq<Entry>, input: Bytes, action: Action)
    requires IsLibrary(xz) && xz(log, input, action).Processed?
    ensures xz(log, input, action).read <= |input|
  {
  }

  /** An empty chunk stands for the end of the stream. */
  function ActionFor(chunk: Bytes): Action {
    if chunk == [] then Finish else Run
  }

  /** The log after one call that reads all of the chunk. */
  function Extend(xz: Library, log: seq<Entry>, chunk: Bytes): seq<Entry> {
    var reply := xz(log, chunk, ActionFor(chunk));
    log + [Entry(chunk, ActionFor(chunk), |chunk|, if reply.Processed? then reply.out else [])]
  }

  lemma Promises(xz: Library, log: seq<Entry>, input: Bytes, action: Action)
    ensures NeverStalls(xz) ==>
      !Errs(xz(log, input, action)) && (action == Run && input != [] ==> xz(log, input, action).read > 0)
    ensures ReadsAll(xz) ==> !Errs(xz(log, input, action)) && xz(log, input, action).read == |input|
    ensures IsGenuine(xz, log) && Errs(xz(log, input, action)) ==> ErredOn(xz, Consumed(log) + input)
  {
  }

  /** One call of the library moves bytes from the rest of the chunk to what was consumed. */
  lemma Fed(xz: Library, log: seq<Entry>, e: Entry)
    requires IsLibrary(xz) && IsGenuine(xz, log) && OnlyRuns(log)
    requires xz(log, e.offered, e.action) == Processed(e.read, e.out, true)
    ensures e.read <= |e.offered|
    ensures IsGenuine(xz, log + [e]) && Produced(log + [e]) == Produced(log) + e.out
    ensures Consumed(log + [e]) + e.offered[e.read..] == Consumed(log) + e.offered
    ensures e.action == Run && e.offered != [] ==> OnlyRuns(log + [e])
    ensures e.action == Finish && e.offered == [] ==> FinishedOnce(log + [e])
  {
    hide IsLibrary, IsGenuine, Consumed, Produced, OnlyRuns, FinishedOnce;
    Bounded(xz, log, e.offered, e.action);
    ConsumedAppend(log, e);
    GenuineAppend(xz, log, e);
    ActionsAppend(log, e);
    assert e.offered == e.offered[..e.read] + e.offered[e.read..];
  }

  /** Comparing the next len bytes decides whether the stream still agrees with the magic. */
  lemma MagicCompared(received: Bytes, chunk: Bytes, pos: nat, len: nat)
    requires pos + len <= |MAGIC| && len <= |chunk| && received == MAGIC[..pos]
    ensures MAGIC[pos..pos + len] != chunk[..len] ==> Disagree(MAGIC, received + chunk)
    ensures MAGIC[pos..pos + len] == chunk[..len] ==> (received + chunk)[..pos + len] == MAGIC[..pos + len]
  {
    var all, next := received + chunk, MAGIC[pos..pos + len];
    assert all[..pos + len] == received + chunk[..len];
    if next == chunk[..len] {
      assert received + next == MAGIC[..pos + len];
    } else {
      var i :| 0 <= i < len && next[i] != chunk[..len][i];
      assert MAGIC[pos + i] == next[i] && all[pos + i] == chunk[i];
    }
  }

  lemma DisagreeAppend(a: Bytes, b: Bytes, more: Bytes)
    requires Disagree(a, b)
    ensures Disagree(a, b + more)
  {
    var i :| 0 <= i < |a| && i < |b| && a[i] != b[i];
    assert (b + more)[i] == b[i];
  }

  lemma AgreeOrDisagree(a: Bytes, b: Bytes, chunk: Bytes)
    requires a <= chunk && b == chunk
    ensures !Disagree(a, b)
  {
  }

  class AutoXzDecoder {
    const xz: Library
    var file: Bytes
    var state: State
    ghost var received: Bytes

    /** All of `received` is accounted for: held back as a prefix of the magic, written, or fed to the decoder. */
    ghost predicate Valid()
      reads this
    {
      match state
      case Probing(pos) => pos < |MAGIC| && received == MAGIC[..pos] && file == []
      case PlainText => Disagree(MAGIC, received) && file == received
      case Compressed(log) =>
        MAGIC <= received && Feeding(log) && Consumed(log) == received && WasRead(log)
    }

    /** The decoder was only told to run, and the file holds what it produced. */
    ghost predicate Feeding(log: seq<Entry>)
      reads this
    {
      OnlyRuns(log) && IsGenuine(xz, log) && file == Produced(log)
    }

    constructor (xz: Library)
      ensures Valid() && received == [] && this.xz == xz
    {
      this.xz := xz;
      file, state, received := [], Probing(0), [];
    }

    method Probe(chunk: Bytes) returns (r: Option<nat>)
      requires Valid()
      modifies this`state
      ensures chunk == [] ==> r == None && state == old(state)
      ensures r.None? && chunk != [] ==>
        old(state.Probing?) && state == Probing(old(state.pos) + |chunk|) && state.pos < |MAGIC|
            && old(received) + chunk == MAGIC[..state.pos]
      ensures r.Some? ==> chunk != [] && if old(state.Probing?)
        then r.value == old(state.pos)
            && ((state == PlainText && Disagree(MAGIC, received + chunk))
                || (state == Compressed([]) && MAGIC <= received + chunk))
        else r.value == 0 && state == old(state)
    {
      if chunk == [] {
        return None;
      }
      if !state.Probing? {
        return Some(0);
      }
      var pos := state.pos;
      var len := if |MAGIC| - pos <= |chunk| then |MAGIC| - pos else |chunk|;
      MagicCompared(received, chunk, pos, len);
      hide Disagree;
      if MAGIC[pos..pos + len] != chunk[..len] {
        state := PlainText;
        return Some(pos);
      }
      if pos + len == |MAGIC| {
        state := Compressed([]);
        return Some(pos);
      }
      state := Probing(pos + len);
      return None;
    }

    /**
     `decompress`: offers the chunk until all of it is read.  It fails only when the library
     errs, and gives up only after `budget` calls that left something to read.
     */
    method Decompress(chunk: Bytes, budget: nat) returns (status: Status)
      requires IsLibrary(xz) && state.Compressed? && Feeding(state.log)
      modifies this`file, this`state
      ensures state.Compressed?
      ensures status.Done? && chunk != [] ==>
        Feeding(state.log) && Consumed(state.log) == old(Consumed(state.log)) + chunk && WasRead(state.log)
      ensures status.Done? && chunk == [] ==>
        && IsGenuine(xz, state.log) && file == Produced(state.log) && FinishedOnce(state.log)
        && |state.log| == |old(state.log)| + 1 && old(state.log) <= state.log
        && Consumed(state.log) == old(Consumed(state.log))
      ensures status.Failed? ==> ErredOn(xz, old(Consumed(state.log)) + chunk)
      ensures status.OutOfBudget? ==>
        && Feeding(state.log) && |state.log| == |old(state.log)| + budget
        && if chunk == [] then budget == 0 else Consumed(state.log) < old(Consumed(state.log)) + chunk
      ensures NeverStalls(xz) && |chunk| <= budget && budget > 0 ==> status.Done?
      ensures ReadsAll(xz) && budget > 0 ==> status.Done? && state.log == Extend(xz, old(state.log), chunk)
    {
      hide IsLibrary, IsGenuine, Consumed, Produced, OnlyRuns, FinishedOnce, NeverStalls, ReadsAll, ErredOn;
      var action := ActionFor(chunk);
      var rest := chunk;
      ghost var before := state.log;
      for k := 0 to budget
        invariant state.Compressed? && Feeding(state.log) && |state.log| == |before| + k
        invariant if chunk == [] then rest == [] && k == 0 else rest != []
        invariant k == 0 ==> rest == chunk && state.log == before
        invariant Consumed(state.log) + rest == Consumed(before) + chunk
        invariant NeverStalls(xz) ==> |rest| + k <= |chunk|
        invariant ReadsAll(xz) ==> k == 0
      {
        var reply := xz(state.log, rest, action);
        Promises(xz, state.log, rest, action);
        if reply.StreamError? || !reply.ok {
          return Failed;
        }
        var e := Entry(rest, action, reply.read, reply.out);
        Fed(xz, state.log, e);
        state := Compressed(state.log + [e]);
        rest := rest[reply.read..];
        file := file + reply.out;
        if rest == [] {
          assert Consumed(state.log) + [] == Consumed(state.log) && Consumed(before) + [] == Consumed(before);
          return Done;
        }
      }
      return OutOfBudget;
    }

    method WriteAllImpl(chunk: Bytes, budget: nat) returns (status: Status)
      requires IsLibrary(xz) && chunk != [] && !state.Probing? && (state.Compressed? ==> Feeding(state.log))
      modifies this`file, this`state
      ensures old(state.PlainText?) ==> status.Done? && state == PlainText && file == old(file) + chunk
      ensures status.Done? && old(state.Compressed?) ==>
        && state.Compressed? && Feeding(state.log) && WasRead(state.log)
        && Consumed(state.log) == old(Consumed(state.log)) + chunk
      ensures status.Failed? ==> old(state.Compressed?) && ErredOn(xz, old(Consumed(state.log)) + chunk)
      ensures NeverStalls(xz) && |chunk| <= budget ==> status.Done?
      ensures ReadsAll(xz) && budget > 0 && old(state.Compressed?) ==>
        status.Done? && state == Compressed(Extend(xz, old(state.log), chunk))
    {
      hide *;
      match state
      case PlainText =>
        file := file + chunk;
        return Done;
      case Compressed(_) =>
        status := Decompress(chunk, budget);
    }

    method WriteAll(chunk: Bytes, budget: nat) returns (status: Status)
      requires IsLibrary(xz) && Valid()
      modifies this
      ensures status.Done? ==> Valid() && received == old(received) + chunk
      ensures !status.Done? ==> MAGIC <= old(received) + chunk
      ensures status.Failed? ==> ErredOn(xz, old(received) + chunk)
      ensures NeverStalls(xz) && |MAGIC| <= budget && |chunk| <= budget ==> status.Done?
      ensures ReadsAll(xz) && budget > 0 ==> status.Done?
      ensures ReadsAll(xz) && budget > 0 && old(state) == Probing(0) && MAGIC <= chunk ==>
        state == Compressed(Extend(xz, [], chunk))
      ensures ReadsAll(xz) && budget > 0 && old(state.Compressed?) && chunk != [] ==>
        state == Compressed(Extend(xz, old(state.log), chunk))
    {
      hide IsLibrary, IsGenuine, Consumed, Produced, OnlyRuns, Disagree, NeverStalls, ReadsAll, ErredOn, Extend;
      EmptyLog(xz);
      ghost var all := received + chunk;
      var len := Probe(chunk);
      status := Done;
      if len.Some? {
        if state.PlainText? && old(state.PlainText?) {
          DisagreeAppend(MAGIC, received, chunk);
        }
        if old(state) == Probing(0) && MAGIC <= chunk {
          AgreeOrDisagree(MAGIC, received + chunk, chunk);
        }
        if len.value != 0 {
          status := WriteAllImpl(MAGIC[..len.value], budget);
          if !status.Done? {
            assert [] + MAGIC[..len.value] == MAGIC[..len.value] <= all;
            if status.Failed? {
              ErredOnMore(xz, MAGIC[..len.value], all);
            }
            return;
          }
        }
        assert state.Compressed? ==> Consumed(state.log) == received && Consumed(state.log) + chunk == all by {
          assert [] + MAGIC[..len.value] == MAGIC[..len.value];
        }
        status := WriteAllImpl(chunk, budget);
      } else if chunk == [] {
        assert received + chunk == received;
      }
      received := all;
    }

    /** `finish`: the file holds the stream itself, or what the decoder made of all of it. */
    method FinishStream(budget: nat) returns (status: Status)
      requires IsLibrary(xz) && Valid()
      modifies this`file, this`state
      ensures !(MAGIC <= received) ==> status.Done? && file == received && !state.Compressed?
      ensures status.Done? && MAGIC <= received ==>
        && state.Compressed? && FinishedOnce(state.log) && IsGenuine(xz, state.log)
        && Consumed(state.log) == received && file == Produced(state.log) && WasRead(state.log[..|state.log| - 1])
      ensures status.Failed? ==> ErredOn(xz, received)
      ensures NeverStalls(xz) && budget > 0 ==> status.Done?
      ensures ReadsAll(xz) && budget > 0 && old(state.Compressed?) ==>
        status.Done? && state == Compressed(Extend(xz, old(state.log), []))
    {
      match state
      case Probing(pos) =>
        file := file + MAGIC[..pos];
        return Done;
      case PlainText =>
        return Done;
      case Compressed(_) =>
        status := Decompress([], budget);
    }
  }

  lemma FlatPrefix(chunks: seq<Bytes>, k: nat)
    requires k <= |chunks|
    ensures Flat(chunks[..k]) <= Flat(chunks)
  {
    hide Flat;
    assert chunks == chunks[..k] + chunks[k..];
    FlatAppend(chunks[..k], chunks[k..]);
  }

  /**
   The library decodes prefixes: what it has produced is a prefix of the decoded input, and all of it
   when its buffer had room.
   */
  ghost predicate Decodes(xz: Library, decoded: Bytes -> Bytes) {
    forall log, input, action ::
      IsGenuine(xz, log) && !Errs(xz(log, input, action)) && xz(log, input, action).read == |input| ==>
        var all := Produced(log) + xz(log, input, action).out;
        && all <= decoded(Consumed(log) + input)
        && (|xz(log, input, action).out| < BUFFER_SIZE ==> all == decoded(Consumed(log) + input))
  }

  lemma GenuinePrefix(xz: Library, log: seq<Entry>, n: nat)
    requires IsGenuine(xz, log) && n <= |log|
    ensures IsGenuine(xz, log[..n])
  {
    forall i | 0 <= i < n
      ensures var l := log[..n];
              && xz(l[..i], l[i].offered, l[i].action) == Processed(l[i].read, l[i].out, true)
              && l[i].read <= |l[i].offered|
    {
      assert log[..n][..i] == log[..i];
    }
  }

  /** What is decoded but not yet written fits into the one buffer that Finish fills. */
  ghost predicate RestFits(decoded: Bytes -> Bytes, log: seq<Entry>, stream: Bytes)
    requires log != []
  {
    |decoded(stream)| <= |Produced(log[..|log| - 1])| + BUFFER_SIZE
  }

  /**
   Finish is called once.  So the file is always a prefix of the decoded stream, and it is all
   of it if and only if the rest fits into one buffer when Finish is called.
   */
  lemma FileIsDecodedIffRestFits(xz: Library, decoded: Bytes -> Bytes, log: seq<Entry>, stream: Bytes)
    requires IsLibrary(xz) && Decodes(xz, decoded) && FinishedOnce(log) && IsGenuine(xz, log) && Consumed(log) == stream
    ensures Produced(log) <= decoded(stream)
    ensures Produced(log) == decoded(stream) <==> RestFits(decoded, log, stream)
  {
    var init, last := log[..|log| - 1], log[|log| - 1];
    GenuinePrefix(xz, log, |log| - 1);
    assert xz(init, last.offered, last.action) == Processed(last.read, last.out, true);
    assert Consumed(init) + [] == Consumed(log) by {
      assert last.offered[..last.read] == [];
    }
    var all := decoded(stream);
    assert Produced(log) == Produced(init) + last.out;
    if |last.out| == BUFFER_SIZE && RestFits(decoded, log, stream) {
      assert all[..|Produced(log)|] == all;
    }
  }

  /** Under Run, the library reads the last byte that it is offered only when nothing decoded is left to write. */
  ghost predicate Flushes(xz: Library, decoded: Bytes -> Bytes) {
    forall log, input ::
      IsGenuine(xz, log) && input != [] && !Errs(xz(log, input, Run)) && xz(log, input, Run).read == |input| ==>
        Produced(log) + xz(log, input, Run).out == decoded(Consumed(log) + input)
  }

  lemma FlushedAfterRuns(xz: Library, decoded: Bytes -> Bytes, runs: seq<Entry>)
    requires Flushes(xz, decoded) && IsGenuine(xz, runs) && OnlyRuns(runs) && runs != [] && WasRead(runs)
    ensures Produced(runs) == decoded(Consumed(runs))
  {
    var init, last := runs[..|runs| - 1], runs[|runs| - 1];
    GenuinePrefix(xz, runs, |runs| - 1);
    assert xz(init, last.offered, last.action) == Processed(last.read, last.out, true);
    assert last.offered[..last.read] == last.offered;
  }

  lemma ReadBeforeFinish(log: seq<Entry>)
    requires FinishedOnce(log)
    ensures Consumed(log[..|log| - 1]) == Consumed(log)
  {
    var end := log[|log| - 1];
    assert end.read <= |end.offered| ==> end.offered[..end.read] == [];
    assert Consumed(log[..|log| - 1]) + [] == Consumed(log[..|log| - 1]);
  }

  /** With a library that flushes, nothing is left when Finish is called, however the stream was cut. */
  lemma NothingIsLeft(xz: Library, decoded: Bytes -> Bytes, log: seq<Entry>, stream: Bytes)
    requires IsLibrary(xz) && Decodes(xz, decoded) && Flushes(xz, decoded) && FinishedOnce(log) && IsGenuine(xz, log)
    requires Consumed(log) == stream && stream != [] && WasRead(log[..|log| - 1])
    ensures Produced(log[..|log| - 1]) == decoded(stream) && Produced(log) == decoded(stream)
  {
    ReadBeforeFinish(log);
    EmptyLog(xz);
    hide IsLibrary, Decodes, Flushes, Consumed, Produced, IsGenuine, WasRead, OnlyRuns;
    GenuinePrefix(xz, log, |log| - 1);
    FlushedAfterRuns(xz, decoded, log[..|log| - 1]);
    FileIsDecodedIffRestFits(xz, decoded, log, stream);
  }

  /**
   The download loop.  For every way of cutting a stream into chunks, empty ones included: a
   stream with the magic is fed to the decoder whole and in order, with one Finish at the end,
   and the file holds what the decoder produced; any other stream is written unchanged.  With a
   library that decodes, the file is the decoded stream if and only if the rest fits into one
   buffer at the end; with one that also flushes, it is so for every cut.
   */
  method Save(xz: Library, chunks: seq<Bytes>, budget: nat, ghost decoded: Bytes -> Bytes)
    returns (status: Status, file: Bytes, log: seq<Entry>)
    requires IsLibrary(xz)
    ensures status.Done? && !(MAGIC <= Flat(chunks)) ==> file == Flat(chunks) && log == []
    ensures status.Done? && MAGIC <= Flat(chunks) ==>
      && FinishedOnce(log) && IsGenuine(xz, log) && Consumed(log) == Flat(chunks) && file == Produced(log)
      && WasRead(log[..|log| - 1])
    ensures status.Done? && MAGIC <= Flat(chunks) && Decodes(xz, decoded) ==>
      file <= decoded(Flat(chunks)) && (file == decoded(Flat(chunks)) <==> RestFits(decoded, log, Flat(chunks)))
    ensures status.Done? && MAGIC <= Flat(chunks) && Decodes(xz, decoded) && Flushes(xz, decoded) ==>
      file == decoded(Flat(chunks))
    ensures !(MAGIC <= Flat(chunks)) ==> status.Done?
    ensures status.Failed? ==> ErredOn(xz, Flat(chunks))
    ensures NeverStalls(xz) && |MAGIC| <= budget && (forall i :: 0 <= i < |chunks| ==> |chunks[i]| <= budget) ==>
      status.Done?
  {
    hide Decodes, Flushes, RestFits, NeverStalls, ErredOn;
    var out := new AutoXzDecoder(xz);
    file, log := [], [];
    for k := 0 to |chunks|
      invariant out.xz == xz && out.Valid() && out.received == Flat(chunks[..k]) && fresh(out)
    {
      FlatLast(chunks, k);
      FlatPrefix(chunks, k + 1);
      status := out.WriteAll(chunks[k], budget);
      if !status.Done? {
        if status.Failed? {
          ErredOnMore(xz, Flat(chunks[..k + 1]), Flat(chunks));
        }
        return;
      }
    }
    assert chunks[..|chunks|] == chunks;
    status := out.FinishStream(budget);
    file := out.file;
    log := if out.state.Compressed? then out.state.log else [];
    if status.Done? && MAGIC <= Flat(chunks) && Decodes(xz, decoded) {
      FileIsDecodedIffRestFits(xz, decoded, log, Flat(chunks));
      if Flushes(xz, decoded) {
        NothingIsLeft(xz, decoded, log, Flat(chunks));
      }
    }
  }

  // The cut of a stream can matter

  function Zeros(n: nat): (r: Bytes)
    ensures |r| == n && forall i :: 0 <= i < n ==> r[i] == 0
  {
    seq(n, _ => 0)
  }

  /** A stream with the magic stands for three buffers of zeros. */
  function ThreeBuffers(stream: Bytes): Bytes {
    if MAGIC <= stream then Zeros(3 * BUFFER_SIZE) else []
  }

  /** It reads everything at once and hands out as much as fits into the buffer. */
  function SlowReply(log: seq<Entry>, input: Bytes, action: Action): Reply {
    var rest := |ThreeBuffers(Consumed(log) + input)| - |Produced(log)|;
    Processed(|input|, Zeros(if rest <= 0 then 0 else if rest <= BUFFER_SIZE then rest else BUFFER_SIZE), true)
  }

  const SLOW: Library := (log, input, action) => SlowReply(log, input, action)

  lemma {:induction false} SlowProduces(log: seq<Entry>)
    requires IsGenuine(SLOW, log)
    ensures Produced(log) == Zeros(|Produced(log)|) && |Produced(log)| <= |ThreeBuffers(Consumed(log))|
  {
    if log != [] {
      var init, last := log[..|log| - 1], log[|log| - 1];
      GenuinePrefix(SLOW, log, |log| - 1);
      SlowProduces(init);
      assert SLOW(init, last.offered, last.action) == Processed(last.read, last.out, true);
      assert last.offered[..last.read] == last.offered;
    }
  }

  lemma SlowDecodes()
    ensures IsLibrary(SLOW) && ReadsAll(SLOW) && Decodes(SLOW, ThreeBuffers)
  {
    forall log, input, action | IsGenuine(SLOW, log)
      ensures var all := Produced(log) + SLOW(log, input, action).out;
              && all <= ThreeBuffers(Consumed(log) + input)
              && (|SLOW(log, input, action).out| < BUFFER_SIZE ==> all == ThreeBuffers(Consumed(log) + input))
    {
      SlowProduces(log);
    }
  }

  /** Once it has the magic, a call hands out one buffer, until there are three. */
  lemma SlowExtend(log: seq<Entry>, chunk: Bytes, n: nat)
    requires MAGIC <= Consumed(log) + chunk && Produced(log) == Zeros(n * BUFFER_SIZE) && n < 3
    ensures Consumed(Extend(SLOW, log, chunk)) == Consumed(log) + chunk
    ensures Produced(Extend(SLOW, log, chunk)) == Zeros((n + 1) * BUFFER_SIZE)
  {
    var reply := SLOW(log, chunk, ActionFor(chunk));
    var e := Entry(chunk, ActionFor(chunk), |chunk|, reply.out);
    assert |ThreeBuffers(Consumed(log) + chunk)| == 3 * BUFFER_SIZE;
    assert reply.out == Zeros(BUFFER_SIZE);
    assert Extend(SLOW, log, chunk) == log + [e];
    ConsumedAppend(log, e);
    assert chunk[..|chunk|] == chunk;
    assert Zeros(n * BUFFER_SIZE) + Zeros(BUFFER_SIZE) == Zeros((n + 1) * BUFFER_SIZE);
  }

  lemma OneStream()
    ensures Flat([MAGIC + [1]]) == Flat([MAGIC, [1]]) == MAGIC + [1]
    ensures ThreeBuffers(MAGIC + [1]) == Zeros(3 * BUFFER_SIZE)
  {
    FlatOne(MAGIC + [1]);
    FlatOne([1]);
    assert [MAGIC, [1]][1..] == [[1]];
  }

  /**
   One stream cut in two ways, with a library that decodes, and the calls that the download
   loop makes for each: the files differ, and one of them is not the decoded stream.
   */
  method CutsCanMatter() returns (whole: Bytes, cut: Bytes)
    ensures IsLibrary(SLOW) && Decodes(SLOW, ThreeBuffers)
        && Flat([MAGIC + [1]]) == Flat([MAGIC, [1]]) == MAGIC + [1]
    ensures |whole| == 2 * BUFFER_SIZE && cut == ThreeBuffers(MAGIC + [1]) && |cut| == 3 * BUFFER_SIZE
  {
    SlowDecodes();
    OneStream();
    EmptyLog(SLOW);
    hide IsLibrary, ReadsAll, Decodes, ThreeBuffers, Consumed, Produced, Extend, IsGenuine, FinishedOnce, OnlyRuns,
        Flat;
    var a := new AutoXzDecoder(SLOW);
    var status := a.WriteAll(MAGIC + [1], 1);
    SlowExtend([], MAGIC + [1], 0);
    status := a.FinishStream(1);
    SlowExtend(Extend(SLOW, [], MAGIC + [1]), [], 1);
    whole := a.file;
    var b := new AutoXzDecoder(SLOW);
    status := b.WriteAll(MAGIC, 1);
    SlowExtend([], MAGIC, 0);
    status := b.WriteAll([1], 1);
    SlowExtend(Extend(SLOW, [], MAGIC), [1], 1);
    status := b.FinishStream(1);
    SlowExtend(Extend(SLOW, Extend(SLOW, [], MAGIC), [1]), [], 2);
    cut := b.file;
  }
}
