/** The streaming playback engine: the queue of encoded chunks, the busy flag, the cursor, the current turn
    and the registry of started sources, in its two revisions (the hook src/hooks/useAudioPlayer.js and the
    inline copy in src/App.jsx). The audio device is a state and a clock; each asynchronous completion
    (a `resume()` settling, a source's `onended`, a `setTimeout` callback) is a method of its own. */
module Playback {
  import opened Wrappers
  import Pcm
  import opened Scheduling

  /** A pass with the cursor unset waits until this many chunks are queued. */
  const MinBufferChunks: nat := 2
  /** The delay of the re-run scheduled when chunks are left after a pass, in milliseconds. */
  const RerunDelayMs: real := 50.0
  /** The grace period added to the end of the audio before the delayed reset, in milliseconds. */
  const ResetGraceMs: real := 300.0
  /** Device clock ticks (sample frames) per millisecond at 24000 Hz. */
  const TicksPerMs: real := 24.0

  datatype Revision = Hook | App

  datatype DeviceState = Closed | Suspended | Interrupted | Running

  /** What a pending `setTimeout` callback does: re-run the pass, or the delayed reset after `isFinal`. */
  datatype Action = Rerun | FinalReset

  datatype Timer = Timer(delayMs: real, action: Action)

  /** A queue array. Its identity matters: a pass works on the array it read at its start, while a flush
      installs a new one. */
  class ChunkQueue {
    var items: seq<string>

    constructor ()
      ensures items == []
    {
      items := [];
    }
  }

  /** Registry order: identities strictly increase along the registry and are all below the next identity,
      so every registered source is a distinct object. */
  predicate Registered(sources: seq<Source>, nextId: nat) {
    && (forall i, j :: 0 <= i < j < |sources| ==> sources[i].id < sources[j].id)
    && (forall i :: 0 <= i < |sources| ==> sources[i].id < nextId)
  }

  /** Every piece of the player's state at one moment; the queue is recorded as the array and its contents. */
  datatype Snapshot = Snapshot(
    deviceState: DeviceState, now: nat, queue: ChunkQueue, items: seq<string>, busy: bool, cursor: nat,
    context: Option<string>, sources: seq<Source>, nextId: nat, halted: seq<nat>,
    awaiting: seq<ChunkQueue>, timers: seq<Timer>)

  /** The state after a drain pass over `pending`: the decodable chunks started back to back and appended to
      the registry. When the pass worked on the current queue array, that array is now empty. */
  function Drained(s: Snapshot, pending: seq<string>, aliased: bool): Snapshot {
    var plan := Schedule(Pcm.FrameCount, pending, s.cursor, s.now, s.nextId);
    s.(items := if aliased then [] else s.items, sources := s.sources + plan.units,
       cursor := plan.cursor, nextId := plan.nextId)
  }

  /** A 50 ms re-run when chunks are left. */
  function RerunIf(left: bool): seq<Timer> {
    if left then [Timer(RerunDelayMs, Rerun)] else []
  }

  /** The hook's end of a pass: busy cleared only when the current queue is empty, otherwise a re-run. */
  function HookSettle(s: Snapshot): Snapshot {
    s.(busy := s.items != [], timers := s.timers + RerunIf(s.items != []))
  }

  /** The inline revision's end of a pass: busy cleared unconditionally, and a re-run when chunks are left. */
  function AppSettle(s: Snapshot): Snapshot {
    s.(busy := false, timers := s.timers + RerunIf(s.items != []))
  }

  /** The pre-buffer rule: with the cursor unset, fewer than two chunks are not enough to start. */
  predicate Prebuffering(cursor: nat, queued: nat) {
    cursor == 0 && queued < MinBufferChunks
  }

  /** The device states in which a revision awaits `resume()` first. */
  predicate NeedsResume(revision: Revision, state: DeviceState) {
    if revision == Hook then state == Suspended || state == Interrupted else state == Suspended
  }

  /** `indexOf` then `splice(index, 1)`: the first source with that identity removed. */
  function Without(sources: seq<Source>, id: nat): (r: seq<Source>)
    ensures |r| <= |sources|
  {
    if sources == [] then []
    else if sources[0].id == id then sources[1..]
    else [sources[0]] + Without(sources[1..], id)
  }

  /** The identities of a sequence of sources, in order. */
  function Ids(sources: seq<Source>): (r: seq<nat>)
    ensures |r| == |sources| && forall k :: 0 <= k < |sources| ==> r[k] == sources[k].id
  {
    seq(|sources|, k requires 0 <= k < |sources| => sources[k].id)
  }

  /** The identities, in registry order, of the sources whose `stop()` does not throw: every other
      registered source is stopped. */
  function Stoppable(sources: seq<Source>, failing: set<nat>): seq<nat> {
    if sources == [] then []
    else (if sources[0].id in failing then [] else [sources[0].id]) + Stoppable(sources[1..], failing)
  }

  /** An identity is stopped exactly when it is registered and its source's `stop()` does not throw. */
  lemma {:induction false} StoppableMembers(sources: seq<Source>, failing: set<nat>)
    ensures forall x :: x in Stoppable(sources, failing) <==> x in Ids(sources) && x !in failing
    decreases |sources|
  {
    if sources != [] {
      assert Ids(sources) == [sources[0].id] + Ids(sources[1..]);
      StoppableMembers(sources[1..], failing);
    }
  }

  /** The delay of the reset after the last chunk of a turn, `max(0, cursor - currentTime) * 1000 + 300` ms:
      at least the grace period, and exactly the time until the scheduled audio ends plus the grace period. */
  function FinalResetDelay(cursor: nat, now: nat): (ms: real)
    ensures ms >= ResetGraceMs
    ensures now as real + (ms - ResetGraceMs) * TicksPerMs == (if cursor > now then cursor else now) as real
  {
    (if cursor > now then (cursor - now) as real / TicksPerMs else 0.0) + ResetGraceMs
  }

  class Player {
    const revision: Revision
    /** Whether a device is attached (`audioContextRef.current` is not null). */
    const hasDevice: bool
    var deviceState: DeviceState
    /** The device's `currentTime`, in ticks at 24000 Hz. */
    var now: nat
    var queue: ChunkQueue
    var busy: bool
    /** The start of the next chunk; 0 means unset. */
    var cursor: nat
    /** The turn the queued audio belongs to. */
    var context: Option<string>
    /** The registry of started sources. */
    var sources: seq<Source>
    var nextId: nat
    /** The sources told to `stop()`, in order. */
    var halted: seq<nat>
    /** The passes suspended in `await resume()`, oldest first, each with the queue array it read. */
    var awaiting: seq<ChunkQueue>
    /** The pending `setTimeout` callbacks. */
    var timers: seq<Timer>

    ghost function Snap(): Snapshot
      reads this, queue
    {
      Snapshot(deviceState, now, queue, queue.items, busy, cursor, context, sources, nextId, halted, awaiting, timers)
    }

    ghost predicate Valid()
      reads this
    {
      Registered(sources, nextId)
    }

    /** The guards of `playQueuedAudio`: no device, a closed one, a pass already running, or nothing queued. */
    ghost predicate Blocked()
      reads this, queue
    {
      !hasDevice || deviceState == Closed || busy || queue.items == []
    }

    constructor (revision: Revision, hasDevice: bool, state: DeviceState, now: nat)
      ensures this.revision == revision && this.hasDevice == hasDevice && fresh(queue)
      ensures Snap() == Snapshot(state, now, queue, [], false, 0, None, [], 0, [], [], [])
      ensures Valid()
    {
      this.revision := revision;
      this.hasDevice := hasDevice;
      deviceState := state;
      this.now := now;
      queue := new ChunkQueue();
      busy := false;
      cursor := 0;
      context := None;
      sources := [];
      nextId := 0;
      halted := [];
      awaiting := [];
      timers := [];
    }

    /** `stopAudioPlayback`: every registered source is told to stop, one that throws being skipped, then
        the registry and queue are emptied, the cursor unset, busy cleared and the turn forgotten. */
    method StopAudioPlayback(failing: set<nat>)
      requires Valid()
      modifies this
      ensures Valid() && fresh(queue)
      ensures Snap() == old(Snap()).(queue := queue, items := [], busy := false, cursor := 0, context := None,
                                     sources := [], halted := old(halted) + Stoppable(old(sources), failing))
    {
      var stopped := StopEach(sources, failing);
      halted := halted + stopped;
      sources := [];
      queue := new ChunkQueue();
      cursor := 0;
      busy := false;
      context := None;
    }

    /** Everything a drain pass leaves alone: all but the queue contents, the registry, the cursor and the
        next identity. */
    twostate predicate PassFrame()
      reads this
    {
      && queue == old(queue) && deviceState == old(deviceState) && now == old(now) && busy == old(busy)
      && context == old(context) && halted == old(halted) && awaiting == old(awaiting) && timers == old(timers)
    }

    /** The drain loop: chunks are shifted off the array `q` front first and each one that decodes is started
        at the cursor, which then moves past it, and is registered. */
    method DrainPass(q: ChunkQueue)
      requires Valid()
      modifies this, q
      ensures Valid()
      ensures q.items == [] && Snap() == Drained(old(Snap()), old(q.items), q == queue)
    {
      ghost var full := Schedule(Pcm.FrameCount, q.items, cursor, now, nextId);
      ghost var registered := sources;
      ghost var goal := Plan(registered + full.units, full.cursor, full.nextId);
      while q.items != []
        invariant Resumes(Pcm.FrameCount, goal, sources, q.items, cursor, now, nextId)
        invariant PassFrame() && (q != queue ==> queue.items == old(queue.items))
        decreases |q.items|
      {
        StepResumes(Pcm.FrameCount, goal, sources, q.items, cursor, now, nextId);
        StartFront(q);
      }
      assert sources == registered + full.units && nextId == full.nextId;
      PassRegistered(registered, old(nextId), Pcm.FrameCount, old(q.items), old(cursor), now);
    }

    /** One turn of the drain loop: the front chunk is shifted off `q` and decoded inside the `try`; when it
        decodes it is started at the cursor, the cursor moves past it and it is registered. */
    method StartFront(q: ChunkQueue)
      requires q.items != []
      modifies this, q
      ensures q.items == old(q.items)[1..] && PassFrame() && (q != queue ==> queue.items == old(queue.items))
      ensures Pcm.FrameCount(old(q.items)[0]) == 0 ==>
                sources == old(sources) && cursor == old(cursor) && nextId == old(nextId)
      ensures Pcm.FrameCount(old(q.items)[0]) > 0 ==>
                var start := StartAt(old(cursor), now);
                && sources == old(sources) + [Source(old(nextId), Chunk(old(q.items)[0]), start,
                                                     Pcm.FrameCount(old(q.items)[0]))]
                && cursor == start + Pcm.FrameCount(old(q.items)[0]) && nextId == old(nextId) + 1
    {
      var chunk := q.items[0];
      q.items := q.items[1..];
      var frames := Pcm.DecodeFrames(chunk);
      if frames > 0 {
        if cursor == 0 {
          cursor := now;
        }
        sources := sources + [Source(nextId, Chunk(chunk), cursor, frames)];
        cursor := cursor + frames;
        nextId := nextId + 1;
      }
    }

    /** The hook's pass after the resume point: the pre-buffer rule, then busy, the drain loop and the
        settle step. */
    method ContinueHook(q: ChunkQueue)
      requires Valid()
      modifies this, q
      ensures Valid()
      ensures Prebuffering(old(cursor), |old(q.items)|) ==> q.items == old(q.items) && Snap() == old(Snap())
      ensures !Prebuffering(old(cursor), |old(q.items)|) ==>
                q.items == [] && Snap() == HookSettle(Drained(old(Snap()).(busy := true), old(q.items), q == queue))
    {
      if cursor == 0 && |q.items| < MinBufferChunks {
        return;
      }
      busy := true;
      DrainPass(q);
      if queue.items == [] {
        busy := false;
      }
      if queue.items != [] {
        timers := timers + [Timer(RerunDelayMs, Rerun)];
      }
    }

    /** The inline revision's pass after the resume point: the drain loop and the settle step. */
    method ContinueApp(q: ChunkQueue)
      requires Valid()
      modifies this, q
      ensures Valid()
      ensures q.items == [] && Snap() == AppSettle(Drained(old(Snap()), old(q.items), q == queue))
    {
      DrainPass(q);
      busy := false;
      if queue.items != [] {
        timers := timers + [Timer(RerunDelayMs, Rerun)];
      }
    }

    /** `playQueuedAudio`. Nothing happens when blocked. The hook awaits `resume()` on a suspended or
        interrupted device before the pre-buffer rule; the inline revision applies the pre-buffer rule, sets
        busy, and awaits `resume()` only on a suspended device. Otherwise the whole current queue is drained
        and, the queue being empty afterwards, busy is clear again. */
    method PlayQueuedAudio()
      requires Valid()
      modifies this, queue
      ensures Valid()
      ensures old(Blocked()) ==> Snap() == old(Snap())
      ensures revision == Hook && !old(Blocked()) ==>
                Snap() == (if NeedsResume(Hook, old(deviceState)) then old(Snap()).(awaiting := old(awaiting) + [old(queue)])
                           else if Prebuffering(old(cursor), |old(queue.items)|) then old(Snap())
                           else Drained(old(Snap()), old(queue.items), true))
      ensures revision == App && !old(Blocked()) ==>
                Snap() == (if Prebuffering(old(cursor), |old(queue.items)|) then old(Snap())
                           else if NeedsResume(App, old(deviceState))
                           then old(Snap()).(busy := true, awaiting := old(awaiting) + [old(queue)])
                           else Drained(old(Snap()), old(queue.items), true))
    {
      if !hasDevice || deviceState == Closed || busy || queue.items == [] {
        return;
      }
      if revision == Hook {
        if deviceState == Suspended || deviceState == Interrupted {
          awaiting := awaiting + [queue];
          return;
        }
        ContinueHook(queue);
      } else {
        if cursor == 0 && |queue.items| < MinBufferChunks {
          return;
        }
        busy := true;
        if deviceState == Suspended {
          awaiting := awaiting + [queue];
          return;
        }
        ContinueApp(queue);
      }
    }

    /** The oldest pending `resume()` settles. On a closed device it rejects and its pass ends there;
        otherwise the device runs and the pass goes on with the queue array it read before the await. */
    method ResumeSettled()
      requires Valid()
      modifies this, awaiting
      ensures Valid()
      ensures old(awaiting) == [] ==> Snap() == old(Snap())
      ensures old(awaiting) != [] && old(deviceState) == Closed ==>
                Snap() == old(Snap()).(awaiting := old(awaiting)[1..])
      ensures old(awaiting) != [] && old(deviceState) != Closed ==>
                var q := old(awaiting)[0];
                var s := old(Snap()).(deviceState := Running, awaiting := old(awaiting)[1..]).(items := old(queue.items));
                if revision == App then
                  q.items == [] && Snap() == AppSettle(Drained(s, old(q.items), q == queue))
                else if Prebuffering(old(cursor), |old(q.items)|) then
                  q.items == old(q.items) && Snap() == s
                else
                  q.items == [] && Snap() == HookSettle(Drained(s.(busy := true), old(q.items), q == queue))
    {
      if awaiting == [] {
        return;
      }
      var q := awaiting[0];
      awaiting := awaiting[1..];
      if deviceState == Closed {
        return;
      }
      deviceState := Running;
      if revision == App {
        ContinueApp(q);
      } else {
        ContinueHook(q);
      }
    }

    /** A source's `onended`: that source leaves the registry; one already gone is ignored. */
    method SourceEnded(id: nat)
      requires Valid()
      modifies this
      ensures Valid()
      ensures Snap() == old(Snap()).(sources := Without(old(sources), id))
    {
      WithoutRegistered(sources, nextId, id);
      sources := Without(sources, id);
    }

    /** `playGreeting`: the greeting buffer starts at once and is registered like any chunk. Without a device
        `createBufferSource` throws and nothing is started. */
    method PlayGreeting(buffer: Pcm.AudioBuffer)
      requires revision == Hook && Valid()
      modifies this
      ensures Valid()
      ensures !hasDevice ==> Snap() == old(Snap())
      ensures hasDevice ==> Snap() == old(Snap()).(sources := old(sources) + [Source(old(nextId), Greeting, now, |buffer.channel|)],
                                                 nextId := old(nextId) + 1)
    {
      if !hasDevice {
        return;
      }
      sources := sources + [Source(nextId, Greeting, now, |buffer.channel|)];
      nextId := nextId + 1;
    }

    /** The delayed reset after `isFinal`: a new empty queue, cursor unset, turn forgotten, busy cleared and
        the registry emptied, with no source told to stop. */
    method FinalResetFired()
      requires Valid()
      modifies this
      ensures Valid() && fresh(queue)
      ensures Snap() == old(Snap()).(queue := queue, items := [], cursor := 0, context := None, busy := false, sources := [])
    {
      queue := new ChunkQueue();
      cursor := 0;
      context := None;
      busy := false;
      sources := [];
    }

    /** Pending timer `i` fires and leaves the list; an index past its end is ignored. */
    method FireTimer(i: nat)
      requires Valid()
      modifies this, queue
      ensures Valid()
      ensures i >= |old(timers)| ==> Snap() == old(Snap())
      ensures i < |old(timers)| && old(timers[i]).action == FinalReset ==>
                fresh(queue) && Snap() == old(Snap()).(timers := old(timers[..i] + timers[i + 1..]), queue := queue,
                                                       items := [], cursor := 0, context := None, busy := false, sources := [])
      ensures i < |old(timers)| && old(timers[i]).action == Rerun && old(Blocked()) ==>
                Snap() == old(Snap()).(timers := old(timers[..i] + timers[i + 1..]))
    {
      if i >= |timers| {
        return;
      }
      var t := timers[i];
      timers := timers[..i] + timers[i + 1..];
      match t.action
      case Rerun => PlayQueuedAudio();
      case FinalReset => FinalResetFired();
    }

    /** The device changes state; a closed device stays closed. */
    method DeviceChanged(state: DeviceState)
      modifies this
      ensures Snap() == old(Snap()).(deviceState := if old(deviceState) == Closed then Closed else state)
    {
      if deviceState != Closed {
        deviceState := state;
      }
    }

    /** The device clock advances. */
    method AdvanceClock(ticks: nat)
      modifies this
      ensures Snap() == old(Snap()).(now := old(now) + ticks)
    {
      now := now + ticks;
    }

    /** The first half of the `ai-audio-chunk` handler: an event without audio or turn id is ignored; a chunk
        of a different turn than the current one flushes first; then the turn is recorded and the audio is
        appended to the queue. */
    method AcceptChunk(audio: Option<string>, contextId: Option<string>, failing: set<nat>) returns (accepted: bool)
      requires revision == App && Valid()
      modifies this, queue
      ensures Valid()
      ensures accepted <==> audio.Some? && audio.value != "" && contextId.Some? && contextId.value != ""
      ensures !accepted ==> Snap() == old(Snap())
      ensures accepted && old(context).Some? && old(context) != contextId ==>
                fresh(queue) && Snap() == old(Snap()).(queue := queue, items := [audio.value], busy := false, cursor := 0,
                                                       context := contextId, sources := [],
                                                       halted := old(halted) + Stoppable(old(sources), failing))
      ensures accepted && (old(context).None? || old(context) == contextId) ==>
                Snap() == old(Snap()).(items := old(queue.items) + [audio.value], context := contextId)
    {
      if audio.None? || audio.value == "" || contextId.None? || contextId.value == "" {
        return false;
      }
      if context.Some? && context != contextId {
        StopAudioPlayback(failing);
      }
      context := contextId;
      queue.items := queue.items + [audio.value];
      return true;
    }

    /** The second half of the handler on the last chunk of a turn: with a device and the cursor set, the
        delayed reset is scheduled for when the scheduled audio has ended plus the grace period. */
    method ScheduleFinalReset(isFinal: bool)
      requires revision == App
      modifies this
      ensures isFinal && hasDevice && old(cursor) > 0 ==>
                Snap() == old(Snap()).(timers := old(timers) + [Timer(FinalResetDelay(old(cursor), old(now)), FinalReset)])
      ensures !(isFinal && hasDevice && old(cursor) > 0) ==> Snap() == old(Snap())
    {
      if isFinal && hasDevice && cursor > 0 {
        timers := timers + [Timer(FinalResetDelay(cursor, now), FinalReset)];
      }
    }

    /** The `ai-audio-chunk` handler: accept, run a pass, and on the last chunk of a turn schedule the reset.
        An accepted chunk leaves its turn as the current one. */
    method HandleAudioChunk(audio: Option<string>, contextId: Option<string>, isFinal: bool, failing: set<nat>)
      requires revision == App && Valid()
      modifies this, queue
      ensures Valid()
      ensures (audio.None? || audio.value == "" || contextId.None? || contextId.value == "") ==> Snap() == old(Snap())
      ensures audio.Some? && audio.value != "" && contextId.Some? && contextId.value != "" ==> context == contextId
    {
      var accepted := AcceptChunk(audio, contextId, failing);
      if !accepted {
        return;
      }
      PlayQueuedAudio();
      ScheduleFinalReset(isFinal);
    }

    /** The `ai-interrupt` handler: the total flush. */
    method HandleInterrupt(failing: set<nat>)
      requires revision == App && Valid()
      modifies this
      ensures Valid() && fresh(queue)
      ensures Snap() == old(Snap()).(queue := queue, items := [], busy := false, cursor := 0, context := None,
                                     sources := [], halted := old(halted) + Stoppable(old(sources), failing))
    {
      StopAudioPlayback(failing);
    }
  }

  /** The `forEach` over the registry calling `stop()` on each source inside a `try`: the identities of the
      sources it stopped, in order, a throwing source being skipped without ending the loop. */
  method StopEach(registry: seq<Source>, failing: set<nat>) returns (stopped: seq<nat>)
    ensures stopped == Stoppable(registry, failing)
  {
    stopped := [];
    for i := 0 to |registry|
      invariant stopped == Stoppable(registry[..i], failing)
    {
      StoppableAppend(registry[..i], registry[i], failing);
      assert registry[..i + 1] == registry[..i] + [registry[i]];
      if registry[i].id !in failing {
        stopped := stopped + [registry[i].id];
      }
    }
    assert registry[..|registry|] == registry;
  }

  /** A pass keeps the registry ordered: the sources it starts get fresh, increasing identities. */
  lemma PassRegistered(sources: seq<Source>, nextId: nat, count: string -> nat, chunks: seq<string>, cursor: nat, now: nat)
    requires Registered(sources, nextId)
    ensures var plan := Schedule(count, chunks, cursor, now, nextId);
            Registered(sources + plan.units, plan.nextId)
  {
    ScheduleIds(count, chunks, cursor, now, nextId);
  }

  lemma {:induction false} StoppableAppend(sources: seq<Source>, last: Source, failing: set<nat>)
    ensures Stoppable(sources + [last], failing)
         == Stoppable(sources, failing) + (if last.id in failing then [] else [last.id])
    decreases |sources|
  {
    if sources == [] {
      assert [] + [last] == [last];
    } else {
      assert (sources + [last])[1..] == sources[1..] + [last];
      StoppableAppend(sources[1..], last, failing);
    }
  }

  /** Removing a source cuts out the first source with that identity. */
  lemma {:induction false} WithoutFirst(sources: seq<Source>, id: nat, k: nat)
    requires k < |sources| && sources[k].id == id
    requires forall j :: 0 <= j < k ==> sources[j].id != id
    ensures Without(sources, id) == sources[..k] + sources[k + 1..]
    decreases k
  {
    if k > 0 {
      WithoutFirst(sources[1..], id, k - 1);
      assert sources[..k] == [sources[0]] + sources[1..][..k - 1];
      assert sources[1..][k..] == sources[k + 1..];
    }
  }

  /** Removing an identity that is not registered changes nothing. */
  lemma {:induction false} WithoutAbsent(sources: seq<Source>, id: nat)
    requires id !in Ids(sources)
    ensures Without(sources, id) == sources
    decreases |sources|
  {
    if sources != [] {
      assert Ids(sources) == [sources[0].id] + Ids(sources[1..]);
      WithoutAbsent(sources[1..], id);
    }
  }

  /** Removing a source keeps only sources that were registered. */
  lemma {:induction false} WithoutMembers(sources: seq<Source>, id: nat)
    ensures forall k :: 0 <= k < |Without(sources, id)| ==> Without(sources, id)[k] in sources
    decreases |sources|
  {
    if sources != [] && sources[0].id != id {
      WithoutMembers(sources[1..], id);
      var tail := Without(sources[1..], id);
      assert Without(sources, id) == [sources[0]] + tail;
      forall k | 0 <= k < |tail| ensures tail[k] in sources {
        assert tail[k] in sources[1..];
      }
    }
  }

  /** In an ordered registry, removing a source leaves no source with that identity. */
  lemma {:induction false} WithoutDropsId(sources: seq<Source>, nextId: nat, id: nat)
    requires Registered(sources, nextId)
    ensures forall k :: 0 <= k < |Without(sources, id)| ==> Without(sources, id)[k].id != id
    decreases |sources|
  {
    if sources != [] {
      var r := Without(sources, id);
      if sources[0].id != id {
        assert Registered(sources[1..], nextId);
        WithoutDropsId(sources[1..], nextId, id);
        assert r == [sources[0]] + Without(sources[1..], id);
      } else {
        forall k | 0 <= k < |r| ensures r[k].id != id {
          assert r[k] == sources[k + 1];
        }
      }
    }
  }

  /** Removing a source keeps the registry ordered, and the removed identity is no longer registered. */
  lemma {:induction false} WithoutRegistered(sources: seq<Source>, nextId: nat, id: nat)
    requires Registered(sources, nextId)
    ensures Registered(Without(sources, id), nextId)
    ensures forall k :: 0 <= k < |Without(sources, id)| ==> Without(sources, id)[k].id != id
    ensures forall k :: 0 <= k < |Without(sources, id)| ==> Without(sources, id)[k] in sources
    decreases |sources|
  {
    WithoutMembers(sources, id);
    WithoutDropsId(sources, nextId, id);
    if sources != [] && sources[0].id != id {
      assert Registered(sources[1..], nextId);
      WithoutRegistered(sources[1..], nextId, id);
      var tail := Without(sources[1..], id);
      assert Without(sources, id) == [sources[0]] + tail;
      forall k | 0 <= k < |tail| ensures sources[0].id < tail[k].id {
        assert tail[k] in sources[1..];
      }
    }
  }
}
