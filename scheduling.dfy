/** One drain pass of the playback engine as a function of its inputs: the queued chunks, the cursor, the
    device clock and the next source number. Time and durations are counted in sample frames at 24000 Hz,
    the rate of every buffer, so a buffer's duration is its length and the arithmetic is exact.
    The pass is stated for any frame count `count` with 0 meaning "fails to decode"; the player uses
    `Pcm.FrameCount`. */
module Scheduling {

  /** What a scheduled source plays: a queued chunk, or the greeting. */
  datatype Origin = Chunk(text: string) | Greeting

  /** A started buffer source: its identity, what it plays, its start time and its length in frames. */
  datatype Source = Source(id: nat, origin: Origin, start: nat, frames: nat)

  /** The result of a pass: the sources it started, in order, and the cursor and next identity after it. */
  datatype Plan = Plan(units: seq<Source>, cursor: nat, nextId: nat)

  /** Where the next source starts: at the cursor, or at the device's current time when the cursor is unset (0). */
  function StartAt(cursor: nat, now: nat): nat {
    if cursor == 0 then now else cursor
  }

  /** The pass over `chunks`, front first: a chunk that decodes is started at the cursor, which then moves
      past it; a chunk that fails to decode is dropped. */
  function Schedule(count: string -> nat, chunks: seq<string>, cursor: nat, now: nat, nextId: nat): Plan
    decreases |chunks|
  {
    if chunks == [] then Plan([], cursor, nextId)
    else if count(chunks[0]) == 0 then Schedule(count, chunks[1..], cursor, now, nextId)
    else
      var start := StartAt(cursor, now);
      var frames := count(chunks[0]);
      var tail := Schedule(count, chunks[1..], start + frames, now, nextId + 1);
      Plan([Source(nextId, Chunk(chunks[0]), start, frames)] + tail.units, tail.cursor, tail.nextId)
  }

  /** A pass that is part way through: the whole pass `goal` is what has been started so far, `done`,
      followed by the pass over the chunks still queued. */
  predicate Resumes(count: string -> nat, goal: Plan, done: seq<Source>, chunks: seq<string>, cursor: nat, now: nat,
                    nextId: nat)
  {
    var rest := Schedule(count, chunks, cursor, now, nextId);
    goal.units == done + rest.units && goal.cursor == rest.cursor && goal.nextId == rest.nextId
  }

  /** One turn of a pass keeps it resumable: a chunk that fails to decode is dropped, one that decodes is
      started at `StartAt(cursor, now)` and appended to what is done. */
  lemma StepResumes(count: string -> nat, goal: Plan, done: seq<Source>, chunks: seq<string>, cursor: nat, now: nat,
                    nextId: nat)
    requires chunks != [] && Resumes(count, goal, done, chunks, cursor, now, nextId)
    ensures count(chunks[0]) == 0 ==> Resumes(count, goal, done, chunks[1..], cursor, now, nextId)
    ensures count(chunks[0]) > 0 ==>
              var start := StartAt(cursor, now);
              Resumes(count, goal, done + [Source(nextId, Chunk(chunks[0]), start, count(chunks[0]))], chunks[1..],
                      start + count(chunks[0]), now, nextId + 1)
  {
    if count(chunks[0]) > 0 {
      var start := StartAt(cursor, now);
      var unit := Source(nextId, Chunk(chunks[0]), start, count(chunks[0]));
      var rest := Schedule(count, chunks[1..], start + count(chunks[0]), now, nextId + 1);
      assert done + ([unit] + rest.units) == (done + [unit]) + rest.units;
    }
  }

  /** The chunks that decode, in queue order. */
  function Playable(count: string -> nat, chunks: seq<string>): (r: seq<string>)
    ensures |r| <= |chunks|
    ensures forall k :: 0 <= k < |r| ==> count(r[k]) > 0
    ensures forall k :: 0 <= k < |r| ==> r[k] in chunks
    ensures forall k :: 0 <= k < |chunks| && count(chunks[k]) > 0 ==> chunks[k] in r
  {
    if chunks == [] then []
    else if count(chunks[0]) > 0 then [chunks[0]] + Playable(count, chunks[1..])
    else Playable(count, chunks[1..])
  }

  /** What a sequence of sources plays, in order. */
  function Origins(units: seq<Source>): (r: seq<Origin>)
    ensures |r| == |units|
    ensures forall k :: 0 <= k < |units| ==> r[k] == units[k].origin
  {
    seq(|units|, k requires 0 <= k < |units| => units[k].origin)
  }

  /** The origins of the given chunks. */
  function AsChunks(texts: seq<string>): (r: seq<Origin>)
    ensures |r| == |texts|
    ensures forall k :: 0 <= k < |texts| ==> r[k] == Chunk(texts[k])
  {
    seq(|texts|, k requires 0 <= k < |texts| => Chunk(texts[k]))
  }

  /** The total length of a sequence of sources. */
  function TotalFrames(units: seq<Source>): nat {
    if units == [] then 0 else units[0].frames + TotalFrames(units[1..])
  }

  /** Identities: the k-th source of a pass gets `nextId + k`, and the pass consumes one identity per source. */
  lemma {:induction false} ScheduleIds(count: string -> nat, chunks: seq<string>, cursor: nat, now: nat, nextId: nat)
    ensures var plan := Schedule(count, chunks, cursor, now, nextId);
            && plan.nextId == nextId + |plan.units|
            && forall k :: 0 <= k < |plan.units| ==> plan.units[k].id == nextId + k
    decreases |chunks|
  {
    if chunks != [] {
      if count(chunks[0]) == 0 {
        ScheduleIds(count, chunks[1..], cursor, now, nextId);
      } else {
        ScheduleIds(count, chunks[1..], StartAt(cursor, now) + count(chunks[0]), now, nextId + 1);
      }
    }
  }

  /** FIFO order: a pass starts exactly the chunks that decode, in queue order, each once. */
  lemma {:induction false} ScheduleOrder(count: string -> nat, chunks: seq<string>, cursor: nat, now: nat, nextId: nat)
    ensures Origins(Schedule(count, chunks, cursor, now, nextId).units) == AsChunks(Playable(count, chunks))
    decreases |chunks|
  {
    if chunks != [] {
      if count(chunks[0]) == 0 {
        ScheduleOrder(count, chunks[1..], cursor, now, nextId);
      } else {
        ScheduleOrder(count, chunks[1..], StartAt(cursor, now) + count(chunks[0]), now, nextId + 1);
      }
    }
  }

  /** Back to back: every source is non-empty and each later one starts exactly where the previous one ends;
      the first starts at `StartAt(cursor, now)`. */
  lemma {:induction false} ScheduleBackToBack(count: string -> nat, chunks: seq<string>, cursor: nat, now: nat, nextId: nat)
    ensures var plan := Schedule(count, chunks, cursor, now, nextId);
            && (forall k :: 0 <= k < |plan.units| ==> plan.units[k].frames > 0)
            && (forall k :: 0 <= k < |plan.units| - 1 ==>
                  plan.units[k + 1].start == plan.units[k].start + plan.units[k].frames)
            && (plan.units != [] ==> plan.units[0].start == StartAt(cursor, now))
    decreases |chunks|
  {
    if chunks != [] {
      if count(chunks[0]) == 0 {
        ScheduleBackToBack(count, chunks[1..], cursor, now, nextId);
      } else {
        var start := StartAt(cursor, now);
        var frames := count(chunks[0]);
        ScheduleBackToBack(count, chunks[1..], start + frames, now, nextId + 1);
        var tail := Schedule(count, chunks[1..], start + frames, now, nextId + 1);
        var plan := Schedule(count, chunks, cursor, now, nextId);
        assert plan.units == [Source(nextId, Chunk(chunks[0]), start, frames)] + tail.units;
        assert plan.units[1..] == tail.units;
        if tail.units != [] {
          assert StartAt(start + frames, now) == start + frames;
        }
      }
    }
  }

  /** Where the cursor ends: unchanged by a pass that starts nothing, otherwise where the last source ends,
      which is the first start plus the total length. */
  lemma {:induction false} ScheduleCursor(count: string -> nat, chunks: seq<string>, cursor: nat, now: nat, nextId: nat)
    ensures var plan := Schedule(count, chunks, cursor, now, nextId);
            && (plan.units == [] ==> plan.cursor == cursor)
            && (plan.units != [] ==>
                  && plan.cursor == Last(plan.units).start + Last(plan.units).frames
                  && plan.cursor == StartAt(cursor, now) + TotalFrames(plan.units))
    decreases |chunks|
  {
    if chunks != [] {
      if count(chunks[0]) == 0 {
        ScheduleCursor(count, chunks[1..], cursor, now, nextId);
      } else {
        var start := StartAt(cursor, now);
        var frames := count(chunks[0]);
        ScheduleCursor(count, chunks[1..], start + frames, now, nextId + 1);
        var tail := Schedule(count, chunks[1..], start + frames, now, nextId + 1);
        var plan := Schedule(count, chunks, cursor, now, nextId);
        assert plan.units == [Source(nextId, Chunk(chunks[0]), start, frames)] + tail.units;
        assert plan.units[1..] == tail.units;
        if tail.units != [] {
          assert StartAt(start + frames, now) == start + frames;
          assert Last(plan.units) == Last(tail.units);
        }
      }
    }
  }

  /** Start times are requested times: nothing moves a set cursor up to the device clock, so after an underrun
      (the clock has passed the cursor) the first source of the next pass is requested in the past. */
  lemma ScheduleAfterUnderrun(count: string -> nat, chunks: seq<string>, cursor: nat, now: nat, nextId: nat)
    requires 0 < cursor < now
    ensures var plan := Schedule(count, chunks, cursor, now, nextId);
            plan.units != [] ==> plan.units[0].start == cursor < now
  {
    ScheduleBackToBack(count, chunks, cursor, now, nextId);
  }

  /** Two chunks of 2400 frames (0.1 s) queued with the cursor at 100 and the clock at 5000: both are
      requested before the current time. */
  lemma UnderrunExample()
    ensures var plan := Schedule((text: string) => 2400, ["a", "b"], 100, 5000, 0);
            && |plan.units| == 2
            && plan.units[0].start == 100 && plan.units[1].start == 2500
            && plan.units[1].start + plan.units[1].frames < 5000
  {
    var count := (text: string) => 2400;
    var tail := Schedule(count, ["b"], 2500, 5000, 1);
    assert ["a", "b"][1..] == ["b"];
    assert ["b"][1..] == [];
    assert tail.units == [Source(1, Chunk("b"), 2500, 2400)];
  }

  /** Gapless scheduling: the first source starts at `StartAt(cursor, now)`, each later one exactly where the
      previous one ends, every source is non-empty, and the cursor ends where the last one ends, which is the
      first start plus the total length. A pass that starts nothing leaves the cursor alone. */
  lemma {:induction false} ScheduleGapless(count: string -> nat, chunks: seq<string>, cursor: nat, now: nat, nextId: nat)
    ensures var plan := Schedule(count, chunks, cursor, now, nextId);
            && (forall k :: 0 <= k < |plan.units| ==> plan.units[k].frames > 0)
            && (forall k :: 0 <= k < |plan.units| - 1 ==>
                  plan.units[k + 1].start == plan.units[k].start + plan.units[k].frames)
            && (plan.units == [] ==> plan.cursor == cursor)
            && (plan.units != [] ==>
                  && plan.units[0].start == StartAt(cursor, now)
                  && plan.cursor == Last(plan.units).start + Last(plan.units).frames
                  && plan.cursor == StartAt(cursor, now) + TotalFrames(plan.units))
  {
    ScheduleBackToBack(count, chunks, cursor, now, nextId);
    ScheduleCursor(count, chunks, cursor, now, nextId);
  }

  function Last(units: seq<Source>): Source
    requires units != []
  {
    units[|units| - 1]
  }

  /** A chunk that fails to decode changes nothing: the pass is the pass without it. */
  lemma {:induction false} ScheduleSkipsUndecodable(count: string -> nat, before: seq<string>, bad: string,
                                                     after: seq<string>, cursor: nat, now: nat, nextId: nat)
    requires count(bad) == 0
    ensures Schedule(count, before + [bad] + after, cursor, now, nextId)
         == Schedule(count, before + after, cursor, now, nextId)
    decreases |before|
  {
    if before == [] {
      assert before + [bad] + after == [bad] + after;
      assert ([bad] + after)[1..] == after;
      assert before + after == after;
    } else {
      assert (before + [bad] + after)[0] == before[0];
      assert (before + [bad] + after)[1..] == before[1..] + [bad] + after;
      assert (before + after)[0] == before[0];
      assert (before + after)[1..] == before[1..] + after;
      if count(before[0]) == 0 {
        ScheduleSkipsUndecodable(count, before[1..], bad, after, cursor, now, nextId);
      } else {
        ScheduleSkipsUndecodable(count, before[1..], bad, after, StartAt(cursor, now) + count(before[0]), now, nextId + 1);
      }
    }
  }
}
