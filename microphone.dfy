/** The voice-activity turn tracking of src/hooks/useMicrophone.js: whether the user is speaking, whether
    capture is paused, and whether the silence timer that ends a turn is pending. Whether a frame is loud
    (its RMS above the threshold) is an input; the timer's expiry is an event of its own. */
module Microphone {
  /** How long quiet must last, while speaking, before the turn ends, in milliseconds. */
  const SilenceGracePeriodMs: nat := 1500

  /** One PCM frame as the worklet delivers it. */
  type Frame = seq<int>

  class VoiceActivity {
    var speaking: bool
    var paused: bool
    /** Whether a silence timer is pending. */
    var silenceTimer: bool
    /** How many silence timers have been started. */
    var timersStarted: nat
    /** The frames handed to `onChunk`, in order. */
    var forwarded: seq<Frame>

    /** A pending timer belongs to a speaking, unpaused turn, and a paused microphone is not speaking. */
    ghost predicate Valid()
      reads this
    {
      (silenceTimer ==> speaking && !paused) && (paused ==> !speaking)
    }

    constructor ()
      ensures Valid()
      ensures !speaking && !paused && !silenceTimer && timersStarted == 0 && forwarded == []
    {
      speaking := false;
      paused := false;
      silenceTimer := false;
      timersStarted := 0;
      forwarded := [];
    }

    /** `handlePcmMessage`. Paused: ignored entirely. Otherwise the frame is forwarded first; a loud frame
        cancels a pending timer and marks the user as speaking; a quiet frame while speaking starts the
        timer unless one is pending; a quiet frame while not speaking changes nothing more. */
    method HandlePcmMessage(frame: Frame, loud: bool)
      requires Valid()
      modifies this
      ensures Valid()
      ensures old(paused) ==>
                speaking == old(speaking) && paused && silenceTimer == old(silenceTimer)
                && timersStarted == old(timersStarted) && forwarded == old(forwarded)
      ensures !old(paused) ==> !paused && forwarded == old(forwarded) + [frame]
      ensures !old(paused) && loud ==> speaking && !silenceTimer && timersStarted == old(timersStarted)
      ensures !old(paused) && !loud ==>
                speaking == old(speaking)
                && silenceTimer == (old(speaking) || old(silenceTimer))
                && timersStarted == old(timersStarted) + (if old(speaking) && !old(silenceTimer) then 1 else 0)
    {
      if paused {
        return;
      }
      forwarded := forwarded + [frame];
      if loud {
        if silenceTimer {
          silenceTimer := false;
        }
        if !speaking {
          speaking := true;
        }
      } else if speaking {
        if !silenceTimer {
          silenceTimer := true;
          timersStarted := timersStarted + 1;
        }
      }
    }

    /** The silence timer fires: the turn ends. A timer that was cleared does not fire. */
    method SilenceTimerExpired()
      requires Valid()
      modifies this
      ensures Valid()
      ensures old(silenceTimer) ==> !speaking && !silenceTimer
      ensures !old(silenceTimer) ==> speaking == old(speaking) && !silenceTimer
      ensures paused == old(paused) && timersStarted == old(timersStarted) && forwarded == old(forwarded)
    {
      if silenceTimer {
        speaking := false;
        silenceTimer := false;
      }
    }

    /** `pause`: frames are ignored from now on, the timer is cleared and the turn ends. */
    method Pause()
      modifies this
      ensures Valid()
      ensures paused && !silenceTimer && !speaking
      ensures timersStarted == old(timersStarted) && forwarded == old(forwarded)
    {
      paused := true;
      if silenceTimer {
        silenceTimer := false;
      }
      speaking := false;
    }

    /** `resume`: only the paused flag is cleared. */
    method Resume()
      requires Valid()
      modifies this
      ensures Valid()
      ensures !paused && speaking == old(speaking) && silenceTimer == old(silenceTimer)
      ensures timersStarted == old(timersStarted) && forwarded == old(forwarded)
    {
      paused := false;
    }
  }
}
