/** `muduo::AsyncLogging`: front-end threads append to buffers that one back-end thread collects, writes and
    recycles. */
module AsyncLoggings {
  import opened Options

  /** `FixedBuffer::append`: all of the line or nothing, and never the last byte of the buffer. */
  function Fill(size: nat, buf: string, line: string): string {
    if size - |buf| > |line| then buf + line else buf
  }

  datatype Stage = AtTop | Entered | Collected | Written | Exited

  /** What happened to the text, in order of time. */
  datatype Chunk =
    | Text(text: string)      // written to the file
    | Notice(text: string)    // written by the back end about a drop
    | Dropped(text: string)   // erased unwritten

  datatype Log = Log(
    size: nat,                      // capacity of a buffer
    running: bool,
    current: string,                // `currentBuffer_`
    next: Option<string>,           // `nextBuffer_`
    buffers: seq<string>,
    // The back end's locals.
    stage: Stage,
    newBuffer1: Option<string>,
    newBuffer2: Option<string>,
    toWrite: seq<string>,
    // History.
    accepted: string,               // all appended lines shorter than a buffer
    chunks: seq<Chunk>,
    file: string)

  function Start(size: nat): Log {
    Log(size, true, "", Some(""), [], AtTop, Some(""), Some(""), [], "", [], "")
  }

  function Append(s: Log, line: string): Log {
    var logged := s.(accepted := if |line| < s.size then s.accepted + line else s.accepted);
    if s.size - |s.current| > |line| then
      logged.(current := s.current + line)
    else
      var spare := if s.next.Some? then s.next.value else "";
      logged.(buffers := s.buffers + [s.current], current := Fill(s.size, spare, line), next := None)
  }

  /** The critical section of the back end, after the wait if there was one. */
  function Collect(s: Log): Log
    requires s.newBuffer1.Some?
  {
    var swapped := s.(toWrite := s.buffers + [s.current], buffers := [], current := s.newBuffer1.value,
                      newBuffer1 := None, stage := Collected);
    if s.next.None? then swapped.(next := s.newBuffer2, newBuffer2 := None) else swapped
  }

  function Flat(bs: seq<string>): string {
    if bs == [] then "" else Flat(bs[..|bs| - 1]) + bs[|bs| - 1]
  }

  function Texts(bs: seq<string>): seq<Chunk> {
    if bs == [] then [] else Texts(bs[..|bs| - 1]) + [Text(bs[|bs| - 1])]
  }

  /** Dropping all but two buffers of an over-long batch, and writing the rest. */
  function WriteBatch(s: Log, notice: string): Log
  {
    if |s.toWrite| > 25 then
      s.(toWrite := s.toWrite[..2], file := s.file + notice + Flat(s.toWrite[..2]), stage := Written,
         chunks := s.chunks + [Notice(notice)] + Texts(s.toWrite[..2]) + [Dropped(Flat(s.toWrite[2..]))])
    else
      s.(file := s.file + Flat(s.toWrite), stage := Written, chunks := s.chunks + Texts(s.toWrite))
  }

  predicate CanRecycle(s: Log) {
    (s.newBuffer1.None? ==> |s.toWrite| >= 1) && (s.newBuffer1.None? && s.newBuffer2.None? ==> |s.toWrite| >= 2)
    && (s.newBuffer2.None? ==> |s.toWrite| >= 1)
  }

  /** Refilling the spare buffers from the ones just written. */
  function Recycle(s: Log): Log {
    s.(newBuffer1 := Some(if s.newBuffer1.Some? then s.newBuffer1.value else ""),
       newBuffer2 := Some(if s.newBuffer2.Some? then s.newBuffer2.value else ""),
       toWrite := [], stage := AtTop)
  }

  datatype Event =
    | AppendLine(line: string)   // any thread, under the mutex
    | Stop
    | Enter                      // `while (running_)`
    | Leave
    | CollectBatch
    | Write(notice: string)
    | RecycleBuffers

  predicate Enabled(s: Log, ev: Event) {
    match ev
    case AppendLine(_) => true
    case Stop => true
    case Enter => s.stage == AtTop && s.running
    case Leave => s.stage == AtTop && !s.running
    case CollectBatch => s.stage == Entered && s.newBuffer1.Some?
    case Write(_) => s.stage == Collected
    case RecycleBuffers => s.stage == Written && CanRecycle(s)
  }

  function Step(s: Log, ev: Event): Log
    requires Enabled(s, ev)
  {
    match ev
    case AppendLine(line) => Append(s, line)
    case Stop => s.(running := false)
    case Enter => s.(stage := Entered)
    case Leave => s.(stage := Exited)
    case CollectBatch => Collect(s)
    case Write(notice) => WriteBatch(s, notice)
    case RecycleBuffers => Recycle(s)
  }

  function Run(s: Log, evs: seq<Event>): Log
    decreases |evs|
  {
    if evs == [] then s
    else Run(if Enabled(s, evs[0]) then Step(s, evs[0]) else s, evs[1..])
  }

  // ------------------------------------------------------------------
  // Invariants.

  /** `nextBuffer_` is there or a buffer is queued; and at each stage the spare buffers are as the asserts want them. */
  predicate Recyclable(s: Log) {
    && (s.next.None? ==> s.buffers != [])
    && (s.next.Some? ==> s.next.value == "")
    && (s.newBuffer1.Some? ==> s.newBuffer1.value == "")
    && (s.newBuffer2.Some? ==> s.newBuffer2.value == "")
    && (s.stage.AtTop? || s.stage.Entered? ==> s.newBuffer1.Some? && s.newBuffer2.Some? && s.toWrite == [])
    && (s.stage.Collected? || s.stage.Written? ==>
          s.newBuffer1.None? && s.toWrite != [] && (s.newBuffer2.None? ==> |s.toWrite| >= 2))
  }

  /** The text of the chunks as it was appended. */
  function Appended(chunks: seq<Chunk>): string {
    if chunks == [] then ""
    else
      Appended(chunks[..|chunks| - 1])
      + (match chunks[|chunks| - 1] case Notice(_) => "" case Text(t) => t case Dropped(t) => t)
  }

  /** The text of the chunks as the file shows it. */
  function Shown(chunks: seq<Chunk>): string {
    if chunks == [] then ""
    else
      Shown(chunks[..|chunks| - 1])
      + (match chunks[|chunks| - 1] case Notice(n) => n case Text(t) => t case Dropped(_) => "")
  }

  /** Text that has been accepted and neither written nor dropped. */
  function Unwritten(s: Log): string {
    (if s.stage == Collected then Flat(s.toWrite) else "") + Flat(s.buffers) + s.current
  }

  predicate Accounted(s: Log) {
    s.accepted == Appended(s.chunks) + Unwritten(s) && s.file == Shown(s.chunks)
  }

  lemma {:induction false} FlatSnoc(bs: seq<string>, b: string)
    ensures Flat(bs + [b]) == Flat(bs) + b
  {
    assert (bs + [b])[..|bs|] == bs;
  }

  lemma {:induction false} FlatConcat(a: seq<string>, b: seq<string>)
    ensures Flat(a + b) == Flat(a) + Flat(b)
    decreases |b|
  {
    if b == [] {
      assert a + b == a;
    } else {
      var n := |b| - 1;
      FlatConcat(a, b[..n]);
      FlatSnoc(a + b[..n], b[n]);
      assert a + b == (a + b[..n]) + [b[n]];
    }
  }

  lemma {:induction false} ChunkSnoc(cs: seq<Chunk>, c: Chunk)
    ensures Appended(cs + [c]) == Appended(cs) + (match c case Notice(_) => "" case Text(t) => t case Dropped(t) => t)
    ensures Shown(cs + [c]) == Shown(cs) + (match c case Notice(n) => n case Text(t) => t case Dropped(_) => "")
  {
    assert (cs + [c])[..|cs|] == cs;
  }

  lemma Associate(a: string, b: string, c: string)
    ensures a + (b + c) == (a + b) + c
  {
  }

  lemma {:induction false} TextsAppended(cs: seq<Chunk>, bs: seq<string>)
    ensures Appended(cs + Texts(bs)) == Appended(cs) + Flat(bs)
    ensures Shown(cs + Texts(bs)) == Shown(cs) + Flat(bs)
    decreases |bs|
  {
    hide Appended, Shown;
    if bs == [] {
      assert cs + Texts(bs) == cs;
      assert Appended(cs) + "" == Appended(cs) && Shown(cs) + "" == Shown(cs);
    } else {
      var n := |bs| - 1;
      Associate(Appended(cs), Flat(bs[..n]), bs[n]);
      Associate(Shown(cs), Flat(bs[..n]), bs[n]);
      TextsAppended(cs, bs[..n]);
      ChunkSnoc(cs + Texts(bs[..n]), Text(bs[n]));
      assert cs + Texts(bs) == (cs + Texts(bs[..n])) + [Text(bs[n])];
    }
  }

  lemma StepRecyclable(s: Log, ev: Event)
    requires Recyclable(s) && Enabled(s, ev)
    ensures Recyclable(Step(s, ev))
  {
  }

  lemma AppendAccounted(s: Log, line: string)
    requires Accounted(s) && Recyclable(s)
    ensures Accounted(Append(s, line))
  {
    hide Appended, Shown;
    UnwrittenAppend(s, line);
    hide Unwritten, Flat;
    if |line| < s.size {
      Associate(Appended(s.chunks), Unwritten(s), line);
    }
  }

  lemma UnwrittenAppend(s: Log, line: string)
    requires Recyclable(s)
    ensures Unwritten(Append(s, line)) == Unwritten(s) + (if |line| < s.size then line else "")
  {
    FlatSnoc(s.buffers, s.current);
    hide Flat;
    var r := Append(s, line);
    var x := if s.stage == Collected then Flat(s.toWrite) else "";
    if r.buffers == s.buffers {
      Associate(x + Flat(s.buffers), s.current, line);
    } else {
      Associate(x, Flat(s.buffers), s.current);
    }
  }

  lemma WriteAccounted(s: Log, notice: string)
    requires Accounted(s) && s.stage == Collected
    ensures Accounted(WriteBatch(s, notice))
  {
    hide Appended, Shown, Texts, Flat;
    var r := WriteBatch(s, notice);
    assert Unwritten(s) == Flat(s.toWrite) + Unwritten(r);
    if |s.toWrite| > 25 {
      var two, rest := s.toWrite[..2], s.toWrite[2..];
      assert s.toWrite == two + rest;
      FlatConcat(two, rest);
      ChunkSnoc(s.chunks, Notice(notice));
      TextsAppended(s.chunks + [Notice(notice)], two);
      ChunkSnoc(s.chunks + [Notice(notice)] + Texts(two), Dropped(Flat(rest)));
    } else {
      TextsAppended(s.chunks, s.toWrite);
    }
  }

  lemma StepAccounted(s: Log, ev: Event)
    requires Accounted(s) && Recyclable(s) && Enabled(s, ev)
    ensures Accounted(Step(s, ev))
  {
    hide Appended, Shown, Flat, Texts;
    match ev
    case AppendLine(line) => hide Accounted, Append; AppendAccounted(s, line);
    case Write(notice) => hide Accounted, WriteBatch; WriteAccounted(s, notice);
    case CollectBatch => hide Accounted, Unwritten; CollectAccounted(s);
    case _ => assert Unwritten(Step(s, ev)) == Unwritten(s);
  }

  lemma CollectAccounted(s: Log)
    requires Accounted(s) && Recyclable(s) && Enabled(s, CollectBatch)
    ensures Accounted(Collect(s))
  {
    hide Appended, Shown;
    FlatSnoc(s.buffers, s.current);
    var r := Collect(s);
    assert Unwritten(r) == Flat(s.buffers + [s.current]);
    assert Unwritten(s) == Flat(s.buffers) + s.current;
  }

  lemma {:induction false} RunKeeps(s: Log, evs: seq<Event>)
    requires Recyclable(s) && Accounted(s)
    ensures Recyclable(Run(s, evs)) && Accounted(Run(s, evs))
    decreases |evs|
  {
    hide Recyclable, Accounted, Step, Enabled;
    if evs != [] {
      if Enabled(s, evs[0]) {
        StepRecyclable(s, evs[0]);
        StepAccounted(s, evs[0]);
        RunKeeps(Step(s, evs[0]), evs[1..]);
      } else {
        RunKeeps(s, evs[1..]);
      }
    }
  }

  // ------------------------------------------------------------------
  // Main results.

  /** Recycling never fails: in every run, `nextBuffer_` is non-null or `buffers_` is non-empty, the asserts at the
      top of the loop hold, and both `pop_back`s find a buffer. */
  lemma {:induction false} RecyclingNeverFails(size: nat, evs: seq<Event>)
    ensures var s := Run(Start(size), evs);
            && (s.next.Some? || s.buffers != [])
            && (s.stage == AtTop ==> s.newBuffer1 == Some("") && s.newBuffer2 == Some("") && s.toWrite == [])
            && (s.stage == Entered ==> Enabled(s, CollectBatch))
            && (s.stage == Collected ==> s.toWrite != [])
            && (s.stage == Written ==> Enabled(s, RecycleBuffers))
  {
    RunKeeps(Start(size), evs);
  }

  predicate NothingDropped(chunks: seq<Chunk>) {
    forall i :: 0 <= i < |chunks| ==> chunks[i].Text?
  }

  lemma {:induction false} ShownIsAppended(chunks: seq<Chunk>)
    requires NothingDropped(chunks)
    ensures Shown(chunks) == Appended(chunks)
  {
    if chunks != [] {
      ShownIsAppended(chunks[..|chunks| - 1]);
    }
  }

  /** In every run the accepted text is the text written, dropped and still unwritten, in order, and the file shows
      the written part with the notices; so without a drop, file and unwritten buffers together are exactly the
      lines appended, those as long as a whole buffer left out. */
  lemma {:induction false} LogIsAccounted(size: nat, evs: seq<Event>)
    ensures var s := Run(Start(size), evs);
            && s.accepted == Appended(s.chunks) + Unwritten(s)
            && s.file == Shown(s.chunks)
            && (NothingDropped(s.chunks) ==> s.file + Unwritten(s) == s.accepted)
  {
    RunKeeps(Start(size), evs);
    var s := Run(Start(size), evs);
    if NothingDropped(s.chunks) {
      ShownIsAppended(s.chunks);
    }
  }

  lemma {:induction false} TextsOnly(bs: seq<string>)
    ensures forall i :: 0 <= i < |Texts(bs)| ==> Texts(bs)[i].Text?
  {
    if bs != [] {
      TextsOnly(bs[..|bs| - 1]);
    }
  }

  /** Exactly the batches of more than 25 buffers drop anything. */
  lemma DropsExactly(s: Log, ev: Event)
    requires Enabled(s, ev) && NothingDropped(s.chunks)
    ensures NothingDropped(Step(s, ev).chunks) <==> !(ev.Write? && |s.toWrite| > 25)
  {
    hide Flat;
    if ev.Write? {
      TextsOnly(s.toWrite);
      var r := WriteBatch(s, ev.notice);
      if |s.toWrite| > 25 {
        assert r.chunks[|s.chunks|] == Notice(ev.notice);
      }
    }
  }

  /** No pass of the back end finds more than 25 buffers. */
  predicate NoOverfull(s: Log, evs: seq<Event>)
    decreases |evs|
  {
    evs == [] ||
    (!(Enabled(s, evs[0]) && evs[0].Write? && |s.toWrite| > 25)
     && NoOverfull(if Enabled(s, evs[0]) then Step(s, evs[0]) else s, evs[1..]))
  }

  lemma {:induction false} NoOverfullKeeps(s: Log, evs: seq<Event>)
    requires NothingDropped(s.chunks) && NoOverfull(s, evs)
    ensures NothingDropped(Run(s, evs).chunks)
    decreases |evs|
  {
    hide Step, Enabled, NothingDropped;
    if evs != [] {
      if Enabled(s, evs[0]) {
        DropsExactly(s, evs[0]);
        NoOverfullKeeps(Step(s, evs[0]), evs[1..]);
      } else {
        NoOverfullKeeps(s, evs[1..]);
      }
    }
  }

  /** As long as no pass finds more than 25 buffers, the file and the unwritten buffers are the accepted text. */
  lemma {:induction false} NothingIsLost(size: nat, evs: seq<Event>)
    requires NoOverfull(Start(size), evs)
    ensures var s := Run(Start(size), evs); s.file + Unwritten(s) == s.accepted
  {
    NoOverfullKeeps(Start(size), evs);
    LogIsAccounted(size, evs);
  }

  /** The lines shorter than a buffer appended since the last collection, after `tail` before the run. */
  function Tail(s: Log, evs: seq<Event>, tail: string): string
    decreases |evs|
  {
    if evs == [] then tail
    else if !Enabled(s, evs[0]) then Tail(s, evs[1..], tail)
    else
      Tail(Step(s, evs[0]), evs[1..],
           match evs[0]
           case AppendLine(line) => if |line| < s.size then tail + line else tail
           case CollectBatch => ""
           case _ => tail)
  }

  /** What the front end's buffers hold. */
  function Front(s: Log): string {
    Flat(s.buffers) + s.current
  }

  lemma FrontAppend(s: Log, line: string)
    requires Recyclable(s)
    ensures Front(Append(s, line)) == Front(s) + (if |line| < s.size then line else "")
  {
    FlatSnoc(s.buffers, s.current);
    hide Flat;
    if Append(s, line).buffers == s.buffers {
      Associate(Flat(s.buffers), s.current, line);
    }
  }

  lemma {:induction false} FrontIsTail(s: Log, evs: seq<Event>, tail: string)
    requires Recyclable(s) && Front(s) == tail
    ensures Front(Run(s, evs)) == Tail(s, evs, tail)
    decreases |evs|
  {
    hide Recyclable, Append, WriteBatch, Flat;
    if evs != [] {
      var ev := evs[0];
      if Enabled(s, ev) {
        StepRecyclable(s, ev);
        if ev.AppendLine? {
          FrontAppend(s, ev.line);
          assert tail + "" == tail;
        } else {
          FrontElse(s, ev);
        }
        hide Front, Step, Enabled;
        FrontIsTail(Step(s, ev), evs[1..], Front(Step(s, ev)));
      } else {
        FrontIsTail(s, evs[1..], tail);
      }
    }
  }

  lemma FrontElse(s: Log, ev: Event)
    requires Recyclable(s) && Enabled(s, ev) && !ev.AppendLine?
    ensures Front(Step(s, ev)) == if ev.CollectBatch? then "" else Front(s)
  {
    assert Flat([]) == "";
  }

  /** After `stop`, exactly: if no pass found more than 25 buffers, the file holds everything accepted if and only
      if no non-empty line shorter than a buffer was appended after the last collection; those lines are what is
      missing. */
  lemma {:induction false} StopLosesExactly(size: nat, evs: seq<Event>)
    requires NoOverfull(Start(size), evs) && Run(Start(size), evs).stage == Exited
    ensures var s := Run(Start(size), evs);
            var tail := Tail(Start(size), evs, "");
            s.accepted == s.file + tail && (s.file == s.accepted <==> tail == "")
  {
    NothingIsLost(size, evs);
    StartFront(size);
    FrontIsTail(Start(size), evs, "");
    hide Run, Tail, Flat;
    var s := Run(Start(size), evs);
    assert Unwritten(s) == Front(s);
    assert |s.accepted| == |s.file| + |Front(s)|;
  }

  lemma StartFront(size: nat)
    ensures Recyclable(Start(size)) && Front(Start(size)) == ""
  {
  }

  // What an over-full pass erases, against a notice that might look like it: by the text of the chunks.

  /** The accepted text that was written. */
  function Kept(chunks: seq<Chunk>): string {
    if chunks == [] then ""
    else Kept(chunks[..|chunks| - 1]) + (if chunks[|chunks| - 1].Text? then chunks[|chunks| - 1].text else "")
  }

  /** How much of it was erased. */
  function Erased(chunks: seq<Chunk>): nat {
    if chunks == [] then 0
    else Erased(chunks[..|chunks| - 1]) + (if chunks[|chunks| - 1].Dropped? then |chunks[|chunks| - 1].text| else 0)
  }

  lemma {:induction false} KeptLength(chunks: seq<Chunk>)
    ensures |Appended(chunks)| == |Kept(chunks)| + Erased(chunks)
    ensures Erased(chunks) == 0 ==> Appended(chunks) == Kept(chunks)
  {
    if chunks != [] {
      KeptLength(chunks[..|chunks| - 1]);
    }
  }

  lemma {:induction false} ErasedSnoc(cs: seq<Chunk>, c: Chunk)
    ensures Erased(cs + [c]) == Erased(cs) + (if c.Dropped? then |c.text| else 0)
  {
    assert (cs + [c])[..|cs|] == cs;
  }

  lemma {:induction false} TextsErase(cs: seq<Chunk>, bs: seq<string>)
    ensures Erased(cs + Texts(bs)) == Erased(cs)
    decreases |bs|
  {
    hide Erased;
    if bs == [] {
      assert cs + Texts(bs) == cs;
    } else {
      var n := |bs| - 1;
      TextsErase(cs, bs[..n]);
      ErasedSnoc(cs + Texts(bs[..n]), Text(bs[n]));
      assert cs + Texts(bs) == (cs + Texts(bs[..n])) + [Text(bs[n])];
    }
  }

  /** A pass over more than 25 buffers, of which those after the second hold text. */
  predicate Erases(s: Log, ev: Event) {
    Enabled(s, ev) && ev.Write? && |s.toWrite| > 25 && Flat(s.toWrite[2..]) != ""
  }

  lemma StepErases(s: Log, ev: Event)
    requires Enabled(s, ev)
    ensures Erased(Step(s, ev).chunks) >= Erased(s.chunks)
    ensures Erased(Step(s, ev).chunks) == Erased(s.chunks) <==> !Erases(s, ev)
  {
    hide Flat, Texts, Erased, Append;
    if ev.Write? {
      if |s.toWrite| > 25 {
        var two, cs := s.toWrite[..2], s.chunks + [Notice(ev.notice)];
        ErasedSnoc(s.chunks, Notice(ev.notice));
        TextsErase(cs, two);
        ErasedSnoc(cs + Texts(two), Dropped(Flat(s.toWrite[2..])));
      } else {
        TextsErase(s.chunks, s.toWrite);
      }
    } else if ev.AppendLine? {
      AppendChunks(s, ev.line);
    }
  }

  lemma AppendChunks(s: Log, line: string)
    ensures Append(s, line).chunks == s.chunks
  {
  }

  predicate NothingErased(s: Log, evs: seq<Event>)
    decreases |evs|
  {
    evs == [] ||
    (!Erases(s, evs[0]) && NothingErased(if Enabled(s, evs[0]) then Step(s, evs[0]) else s, evs[1..]))
  }

  lemma {:induction false} RunErases(s: Log, evs: seq<Event>)
    ensures Erased(Run(s, evs).chunks) >= Erased(s.chunks)
    ensures Erased(Run(s, evs).chunks) == Erased(s.chunks) <==> NothingErased(s, evs)
    decreases |evs|
  {
    hide Step, Enabled, Erased, Erases;
    if evs != [] {
      if Enabled(s, evs[0]) {
        StepErases(s, evs[0]);
        RunErases(Step(s, evs[0]), evs[1..]);
      } else {
        NotEnabledErases(s, evs[0]);
        RunErases(s, evs[1..]);
      }
    }
  }

  lemma NotEnabledErases(s: Log, ev: Event)
    requires !Enabled(s, ev)
    ensures !Erases(s, ev)
  {
  }

  /** After `stop`, for every run: the accepted text was written whole if and only if no pass erased buffers with
      text and no non-empty line shorter than a buffer was appended after the last collection. */
  lemma {:induction false} StopKeepsExactly(size: nat, evs: seq<Event>)
    requires Run(Start(size), evs).stage == Exited
    ensures var s := Run(Start(size), evs);
            Kept(s.chunks) == s.accepted <==> NothingErased(Start(size), evs) && Tail(Start(size), evs, "") == ""
  {
    LogIsAccounted(size, evs);
    StartFront(size);
    FrontIsTail(Start(size), evs, "");
    RunErases(Start(size), evs);
    var s := Run(Start(size), evs);
    KeptLength(s.chunks);
    hide Run, Tail, Flat, Kept, Appended, Shown, NothingErased, Erased;
    assert Unwritten(s) == Front(s);
    assert |s.accepted| == |Appended(s.chunks)| + |Front(s)|;
    NoChunksErased(size);
    assert Kept(s.chunks) + "" == Kept(s.chunks);
  }

  lemma NoChunksErased(size: nat)
    ensures Erased(Start(size).chunks) == 0
  {
  }

  /** Such a run: a line appended before `stop` and not collected. */
  lemma StopLosesTail(size: nat, line: string)
    requires 0 < |line| < size
    ensures var s := Run(Start(size), [AppendLine(line), Stop, Leave]);
            s.stage == Exited && s.accepted == line && s.file == ""
  {
    var a := Step(Start(size), AppendLine(line));
    var b := Step(a, Stop);
    var c := Step(b, Leave);
    assert [AppendLine(line), Stop, Leave][1..] == [Stop, Leave] && [Stop, Leave][1..] == [Leave] && [Leave][1..] == [];
    assert "" + line == line;
    assert Run(c, []) == c;
  }

  // ------------------------------------------------------------------
  // Where the text is.

  /** A line goes into the current buffer exactly if that leaves a character of it unused; otherwise the buffer is
      queued as it is, the next one takes its place, and the line is lost if it is as long as a whole buffer. */
  lemma AppendExact(s: Log, line: string)
    requires Recyclable(s)
    ensures var r := Append(s, line);
            if |s.current| + |line| < s.size then
              r.current == s.current + line && r.buffers == s.buffers && r.next == s.next
            else
              && r.buffers == s.buffers + [s.current] && r.next == None
              && r.current == if |line| < s.size then line else ""
  {
    assert "" + line == line;
  }

  /** Appending and stopping are always possible, and the back end leaves its loop only after `stop`. */
  lemma AlwaysPossible(s: Log, line: string)
    ensures Enabled(s, AppendLine(line)) && Enabled(s, Stop)
    ensures s.stage == AtTop ==> if s.running then Enabled(s, Enter) && !Enabled(s, Leave) else Enabled(s, Leave)
  {
  }

  /** No buffer is ever full. */
  predicate NoneFull(s: Log) {
    && |s.current| < s.size
    && (forall i :: 0 <= i < |s.buffers| ==> |s.buffers[i]| < s.size)
    && (forall i :: 0 <= i < |s.toWrite| ==> |s.toWrite[i]| < s.size)
  }

  lemma StepNoneFull(s: Log, ev: Event)
    requires Recyclable(s) && NoneFull(s) && Enabled(s, ev)
    ensures NoneFull(Step(s, ev)) && Step(s, ev).size == s.size
  {
    hide Flat, Texts;
    if ev.AppendLine? {
      AppendExact(s, ev.line);
    }
  }

  /** Over every run, each buffer has room for a terminator. */
  lemma {:induction false} BuffersNeverFull(s: Log, evs: seq<Event>)
    requires Recyclable(s) && NoneFull(s)
    ensures NoneFull(Run(s, evs))
    decreases |evs|
  {
    hide Recyclable, NoneFull, Step, Enabled;
    if evs != [] {
      if Enabled(s, evs[0]) {
        StepRecyclable(s, evs[0]);
        StepNoneFull(s, evs[0]);
        BuffersNeverFull(Step(s, evs[0]), evs[1..]);
      } else {
        BuffersNeverFull(s, evs[1..]);
      }
    }
  }

  /** What one pass adds to the file: all the buffers it found; or, of more than 25, a notice and the first two. */
  function Shipped(found: seq<string>, notice: string): string {
    if |found| > 25 then notice + found[0] + found[1] else Flat(found)
  }

  lemma {:induction false} TwoFlat(bs: seq<string>)
    requires |bs| >= 2
    ensures Flat(bs[..2]) == bs[0] + bs[1]
  {
    assert bs[..2] == [] + [bs[0]] + [bs[1]];
    FlatSnoc([] + [bs[0]], bs[1]);
    FlatSnoc([], bs[0]);
    assert Flat([]) == "" && "" + bs[0] == bs[0];
  }

  lemma {:induction false} BatchShipped(s: Log, notice: string)
    ensures WriteBatch(s, notice).file == s.file + Shipped(s.toWrite, notice)
  {
    hide Flat, Texts;
    if |s.toWrite| > 25 {
      TwoFlat(s.toWrite);
      Associate(s.file, notice, s.toWrite[0] + s.toWrite[1]);
      Associate(notice, s.toWrite[0], s.toWrite[1]);
    }
  }

  /** One pass of the back end, with nothing appended meanwhile: the queued buffers and the current one, in order, are
      what it finds; it ships them, leaves both front-end buffers empty, and is ready for the next pass. */
  lemma {:induction false} OnePass(s: Log, notice: string)
    requires Recyclable(s) && s.stage == AtTop && s.running
    ensures var r := Run(s, [Enter, CollectBatch, Write(notice), RecycleBuffers]);
            && r.file == s.file + Shipped(s.buffers + [s.current], notice)
            && r.stage == AtTop && r.buffers == [] && r.current == "" && r.next == Some("")
            && r.accepted == s.accepted && r.running && Recyclable(r)
  {
    var evs := [Enter, CollectBatch, Write(notice), RecycleBuffers];
    var s1 := Step(s, Enter);
    StepRecyclable(s, Enter);
    var s2 := Step(s1, CollectBatch);
    StepRecyclable(s1, CollectBatch);
    BatchShipped(s2, notice);
    var s3 := Step(s2, Write(notice));
    StepRecyclable(s2, Write(notice));
    var s4 := Step(s3, RecycleBuffers);
    StepRecyclable(s3, RecycleBuffers);
    hide Flat, Texts, Shipped, WriteBatch;
    assert evs[1..][0] == CollectBatch && evs[1..][1..][0] == Write(notice);
    assert evs[1..][1..][1..][0] == RecycleBuffers && evs[1..][1..][1..][1..] == [];
    assert Run(s4, []) == s4;
    assert Run(s3, evs[1..][1..][1..]) == s4;
    assert Run(s2, evs[1..][1..]) == s4;
    assert Run(s1, evs[1..]) == s4;
  }

  // ------------------------------------------------------------------
  // The object.

  /** What the front-end threads append while the back end waits, and while it writes. */
  datatype Round = Round(waiting: seq<string>, writing: seq<string>, notice: string)

  /** The lines short enough to be kept. */
  function Short(size: nat, lines: seq<string>): string {
    if lines == [] then ""
    else Short(size, lines[..|lines| - 1]) + (if |lines[|lines| - 1]| < size then lines[|lines| - 1] else "")
  }

  function ShortRounds(size: nat, rounds: seq<Round>): string {
    if rounds == [] then ""
    else
      var last := rounds[|rounds| - 1];
      ShortRounds(size, rounds[..|rounds| - 1]) + Short(size, last.waiting) + Short(size, last.writing)
  }

  /** The lines appended in the last round after its collection, or what was there if there was no round. */
  function LeftOver(size: nat, before: string, rounds: seq<Round>): string {
    if rounds == [] then before else Short(size, rounds[|rounds| - 1].writing)
  }

  lemma {:induction false} NoRounds(size: nat, before: string, accepted: string)
    ensures LeftOver(size, before, []) == before && accepted + ShortRounds(size, []) == accepted
  {
  }

  lemma {:induction false} OneMoreRound(size: nat, before: string, rounds: seq<Round>, i: nat, accepted: string)
    requires i < |rounds|
    ensures LeftOver(size, before, rounds[..i + 1]) == Short(size, rounds[i].writing)
    ensures accepted + ShortRounds(size, rounds[..i]) + Short(size, rounds[i].waiting) + Short(size, rounds[i].writing)
            == accepted + ShortRounds(size, rounds[..i + 1])
  {
    hide Short;
    assert rounds[..i + 1][..i] == rounds[..i];
    var a, b, c := ShortRounds(size, rounds[..i]), Short(size, rounds[i].waiting), Short(size, rounds[i].writing);
    Associate(accepted, a, b);
    Associate(accepted, a + b, c);
  }

  /** The back end's locals, and where it is. */
  datatype Locals = Locals(stage: Stage, newBuffer1: Option<string>, newBuffer2: Option<string>, toWrite: seq<string>)

  class AsyncLogging {
    const size: nat
    var running: bool
    var currentBuffer: string
    var nextBuffer: Option<string>
    var buffers: seq<string>
    var file: string
    ghost var accepted: string
    ghost var chunks: seq<Chunk>

    /** The state with the back end at the given stage, with the given locals. */
    ghost function At(l: Locals): Log
      reads this
    {
      Log(size, running, currentBuffer, nextBuffer, buffers, l.stage, l.newBuffer1, l.newBuffer2, l.toWrite,
          accepted, chunks, file)
    }

    ghost predicate Sound(l: Locals)
      reads this
    {
      Recyclable(At(l)) && Accounted(At(l))
    }

    /** What the front end's buffers hold. */
    ghost function Held(): string
      reads this`buffers, this`currentBuffer
    {
      Flat(buffers) + currentBuffer
    }

    constructor (size: nat)
      ensures At(Locals(AtTop, Some(""), Some(""), [])) == Start(size)
    {
      this.size := size;
      running, currentBuffer, nextBuffer, buffers := true, "", Some(""), [];
      file, accepted, chunks := "", "", [];
    }

    method AppendLine(line: string)
      modifies this`currentBuffer, this`nextBuffer, this`buffers, this`accepted
      ensures forall l :: At(l) == Append(old(At(l)), line)
      ensures accepted == old(accepted) + if |line| < size then line else ""
    {
      if size - |currentBuffer| > |line| {
        currentBuffer := Fill(size, currentBuffer, line);
      } else {
        buffers := buffers + [currentBuffer];
        if nextBuffer.Some? {
          currentBuffer := nextBuffer.value;
          nextBuffer := None;
        } else {
          currentBuffer := "";
        }
        currentBuffer := Fill(size, currentBuffer, line);
      }
      accepted := if |line| < size then accepted + line else accepted;
    }

    method AppendAll(lines: seq<string>, ghost l: Locals)
      requires Sound(l)
      modifies this`currentBuffer, this`nextBuffer, this`buffers, this`accepted
      ensures Sound(l)
      ensures accepted == old(accepted) + Short(size, lines)
      ensures Held() == old(Held()) + Short(size, lines)
    {
      hide Recyclable, Accounted, Flat, Append;
      var i := 0;
      while i < |lines|
        invariant 0 <= i <= |lines|
        invariant accepted == old(accepted) + Short(size, lines[..i])
        invariant Held() == old(Held()) + Short(size, lines[..i])
        invariant Sound(l)
      {
        StepRecyclable(At(l), Event.AppendLine(lines[i]));
        StepAccounted(At(l), Event.AppendLine(lines[i]));
        FrontAppend(At(l), lines[i]);
        AppendLine(lines[i]);
        assert lines[..i + 1][..i] == lines[..i];
        i := i + 1;
      }
      assert lines[..i] == lines;
    }

    /** `threadFunc`, for one iteration per round; `stop` is called during the last one, or before the first.  The
        lines appended in that round after its collection stay in the buffers, and nothing else does. */
    method ThreadFunc(rounds: seq<Round>)
      requires running && Sound(Locals(AtTop, Some(""), Some(""), []))
      modifies this
      ensures !running && Sound(Locals(Exited, Some(""), Some(""), []))
      ensures accepted == old(accepted) + ShortRounds(size, rounds)
      ensures Held() == LeftOver(size, old(Held()), rounds)
    {
      hide Accounted, Recyclable, Short, Collect, WriteBatch, Flat, ShortRounds, LeftOver, Held;
      NoRounds(size, Held(), accepted);
      assert rounds[..0] == [];
      var newBuffer1: Option<string>, newBuffer2: Option<string> := Some(""), Some("");
      var buffersToWrite: seq<string> := [];
      var i := 0;
      if i == |rounds| {
        Stop(Locals(AtTop, newBuffer1, newBuffer2, buffersToWrite));
      }
      while running
        invariant 0 <= i <= |rounds| && (running <==> i < |rounds|)
        invariant accepted == old(accepted) + ShortRounds(size, rounds[..i])
        invariant Held() == LeftOver(size, old(Held()), rounds[..i])
        invariant newBuffer1 == Some("") && newBuffer2 == Some("") && buffersToWrite == []
        invariant Sound(Locals(AtTop, newBuffer1, newBuffer2, buffersToWrite))
        decreases |rounds| - i
      {
        newBuffer1, newBuffer2, buffersToWrite := Turn(newBuffer1, newBuffer2, buffersToWrite, rounds[i]);
        OneMoreRound(size, old(Held()), rounds, i, old(accepted));
        i := i + 1;
        if i == |rounds| {
          Stop(Locals(AtTop, newBuffer1, newBuffer2, buffersToWrite));
        }
      }
      assert rounds[..i] == rounds;
      LeaveLoop(Locals(AtTop, newBuffer1, newBuffer2, buffersToWrite));
    }

    /** One turn of the loop, with its asserts. */
    method Turn(newBuffer1: Option<string>, newBuffer2: Option<string>, toWrite: seq<string>, round: Round)
      returns (b1: Option<string>, b2: Option<string>, w: seq<string>)
      requires running && Sound(Locals(AtTop, newBuffer1, newBuffer2, toWrite))
      modifies this
      ensures running && b1 == Some("") && b2 == Some("") && w == [] && Sound(Locals(AtTop, b1, b2, w))
      ensures accepted == old(accepted) + Short(size, round.waiting) + Short(size, round.writing)
      ensures Held() == Short(size, round.writing)
    {
      assert newBuffer1.Some? && |newBuffer1.value| == 0;
      assert newBuffer2.Some? && |newBuffer2.value| == 0;
      assert toWrite == [];
      hide Accounted, Recyclable, Short, Collect, WriteBatch, Flat;
      EnterLoop(Locals(AtTop, newBuffer1, newBuffer2, toWrite));
      AppendAll(round.waiting, Locals(Entered, newBuffer1, newBuffer2, toWrite));
      b1, b2, w := TakeBatch(newBuffer1, newBuffer2, toWrite);
      AppendAll(round.writing, Locals(Collected, b1, b2, w));
      assert Held() == "" + Short(size, round.writing) == Short(size, round.writing);
      w := WriteOut(b1, b2, w, round.notice);
      b1, b2 := Refill(b1, b2, w);
      w := [];
    }

    /** `stop`, on another thread. */
    method Stop(ghost l: Locals)
      requires Sound(l)
      modifies this`running
      ensures !running && Sound(l)
    {
      StepRecyclable(At(l), Event.Stop);
      StepAccounted(At(l), Event.Stop);
      hide Recyclable, Accounted;
      running := false;
    }

    /** The end of an iteration: the spare buffers come out of the batch just written. */
    method Refill(newBuffer1: Option<string>, newBuffer2: Option<string>, toWrite: seq<string>)
      returns (b1: Option<string>, b2: Option<string>)
      requires Sound(Locals(Written, newBuffer1, newBuffer2, toWrite))
      ensures b1 == Some("") && b2 == Some("")
      ensures Sound(Locals(AtTop, b1, b2, []))
    {
      StepAccounted(At(Locals(Written, newBuffer1, newBuffer2, toWrite)), RecycleBuffers);
      hide Accounted;
      var w := toWrite;
      b1, b2 := newBuffer1, newBuffer2;
      if |w| > 2 {
        w := w[..2];
      }
      if b1.None? {
        assert w != [];
        b1 := Some("");
        w := w[..|w| - 1];
      }
      if b2.None? {
        assert w != [];
        b2 := Some("");
        w := w[..|w| - 1];
      }
    }

    /** The start of an iteration. */
    lemma EnterLoop(l: Locals)
      requires running && l.stage == AtTop && Sound(l)
      ensures Sound(l.(stage := Entered))
    {
      StepAccounted(At(l), Enter);
    }

    /** The end of the loop. */
    lemma LeaveLoop(l: Locals)
      requires !running && l.stage == AtTop && Sound(l)
      ensures Sound(l.(stage := Exited))
    {
      StepAccounted(At(l), Leave);
    }

    /** The critical section. */
    method TakeBatch(newBuffer1: Option<string>, newBuffer2: Option<string>, toWrite: seq<string>)
      returns (b1: Option<string>, b2: Option<string>, w: seq<string>)
      requires Sound(Locals(Entered, newBuffer1, newBuffer2, toWrite))
      modifies this`currentBuffer, this`nextBuffer, this`buffers
      ensures At(Locals(Collected, b1, b2, w)) == Collect(old(At(Locals(Entered, newBuffer1, newBuffer2, toWrite))))
      ensures Sound(Locals(Collected, b1, b2, w))
      ensures w != [] && accepted == old(accepted) && running == old(running) && Held() == ""
    {
      StepAccounted(At(Locals(Entered, newBuffer1, newBuffer2, toWrite)), CollectBatch);
      hide Accounted;
      buffers := buffers + [currentBuffer];
      currentBuffer := newBuffer1.value;
      b1, b2 := None, newBuffer2;
      w, buffers := buffers, toWrite;
      if nextBuffer.None? {
        nextBuffer := newBuffer2;
        b2 := None;
      }
    }

    /** Between the critical section and the recycling. */
    method WriteOut(newBuffer1: Option<string>, newBuffer2: Option<string>, toWrite: seq<string>, notice: string)
      returns (w: seq<string>)
      requires Sound(Locals(Collected, newBuffer1, newBuffer2, toWrite))
      modifies this`file, this`chunks
      ensures At(Locals(Written, newBuffer1, newBuffer2, w))
              == WriteBatch(old(At(Locals(Collected, newBuffer1, newBuffer2, toWrite))), notice)
      ensures Sound(Locals(Written, newBuffer1, newBuffer2, w))
      ensures accepted == old(accepted)
    {
      StepAccounted(At(Locals(Collected, newBuffer1, newBuffer2, toWrite)), Write(notice));
      hide Accounted;
      ghost var s := WriteBatch(At(Locals(Collected, newBuffer1, newBuffer2, toWrite)), notice);
      w := toWrite;
      if |w| > 25 {
        file := file + notice;
        w := w[..2];
      }
      Output(w);
      chunks := s.chunks;
    }

    /** `LogFile::append` of each buffer. */
    method Output(w: seq<string>)
      modifies this`file
      ensures file == old(file) + Flat(w)
    {
      var i := 0;
      while i < |w|
        invariant 0 <= i <= |w| && file == old(file) + Flat(w[..i])
      {
        assert w[..i + 1] == w[..i] + [w[i]];
        FlatSnoc(w[..i], w[i]);
        Associate(old(file), Flat(w[..i]), w[i]);
        file := file + w[i];
        i := i + 1;
      }
      assert w[..i] == w;
    }
  }
}
