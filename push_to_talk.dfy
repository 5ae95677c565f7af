/** The push-to-talk state of the legacy menu-bar app
    (legacy/python/main.py, `WhisperDictation`): the keyboard listener's
    callbacks, the timer that dispatches what they request, and the guards of
    `start_recording` and `stop_recording`. The transcription lock is a
    boolean; opening the microphone stream is a parameter saying whether it
    succeeds. */
module PushToTalk {

  datatype Key = Cmd | Shift | Space | Other(code: int)

  /** `pending_action`: `None`, `'start'` or `'stop'`. */
  datatype Pending = NoAction | StartPending | StopPending

  /** Cmd+Shift+Space. */
  const Hotkey: set<Key> := {Cmd, Shift, Space}

  newtype byte = x: int | 0 <= x < 256

  /** One buffer read from the microphone stream. */
  type Chunk = seq<byte>

  class Dictation {
    var isRecording: bool
    /** `transcribe_lock.locked()`. */
    var lockHeld: bool
    var pendingAction: Pending
    var pressedKeys: set<Key>
    var audioFrames: seq<Chunk>

    /** The state after `__init__` and `start_hotkey_listener`. */
    constructor ()
      ensures !isRecording && !lockHeld && pendingAction == NoAction
      ensures pressedKeys == {} && audioFrames == []
    {
      isRecording := false;
      lockHeld := false;
      pendingAction := NoAction;
      pressedKeys := {};
      audioFrames := [];
    }

    /** `on_press`: records the key, and asks for a start when the whole
        hotkey is held and nothing is being recorded. */
    method OnPress(key: Key)
      modifies this`pressedKeys, this`pendingAction
      ensures pressedKeys == old(pressedKeys) + {key}
      ensures pendingAction == if Hotkey <= pressedKeys && !isRecording then StartPending
                               else old(pendingAction)
    {
      pressedKeys := pressedKeys + {key};
      if Cmd in pressedKeys && Shift in pressedKeys && Space in pressedKeys {
        if !isRecording && pendingAction != StartPending {
          pendingAction := StartPending;
        }
      }
    }

    /** `on_release`: forgets the key, and asks for a stop when one of the
        hotkey's keys is let go during a recording. */
    method OnRelease(key: Key)
      modifies this`pressedKeys, this`pendingAction
      ensures pressedKeys == old(pressedKeys) - {key}
      ensures pendingAction == if isRecording && key in Hotkey then StopPending
                               else old(pendingAction)
    {
      pressedKeys := pressedKeys - {key};
      if isRecording {
        if key == Cmd || key == Shift || key == Space {
          pendingAction := StopPending;
        }
      }
    }

    /** `start_recording`: nothing while recording or while a transcription
        holds the lock; otherwise a fresh, empty recording, which ends at once
        when the stream cannot be opened. */
    method StartRecording(streamOpens: bool)
      modifies this`isRecording, this`audioFrames
      ensures old(isRecording) || lockHeld ==>
                isRecording == old(isRecording) && audioFrames == old(audioFrames)
      ensures !old(isRecording) && !lockHeld ==> isRecording == streamOpens && audioFrames == []
    {
      if isRecording {
        return;
      }
      if lockHeld {
        return;
      }
      isRecording := true;
      audioFrames := [];
      if !streamOpens {
        isRecording := false;
      }
    }

    /** One pass of `_record_audio`'s loop: a buffer is kept only during a
        recording. */
    method RecordChunk(data: Chunk)
      modifies this`audioFrames
      ensures audioFrames == if isRecording then old(audioFrames) + [data] else old(audioFrames)
    {
      if isRecording {
        audioFrames := audioFrames + [data];
      }
    }

    /** `stop_recording`: nothing when not recording; otherwise the recording
        ends and a transcription of the frames is started. */
    method StopRecording() returns (transcribe: bool)
      modifies this`isRecording
      ensures transcribe == old(isRecording)
      ensures !isRecording
    {
      if !isRecording {
        return false;
      }
      isRecording := false;
      transcribe := true;
    }

    /** `toggle_recording`. */
    method ToggleRecording(streamOpens: bool) returns (transcribe: bool)
      modifies this`isRecording, this`audioFrames
      ensures transcribe == old(isRecording)
      ensures old(isRecording) ==> !isRecording && audioFrames == old(audioFrames)
      ensures !old(isRecording) ==> isRecording == (!lockHeld && streamOpens)
                                    && audioFrames == if lockHeld then old(audioFrames) else []
    {
      if isRecording {
        transcribe := StopRecording();
      } else {
        StartRecording(streamOpens);
        transcribe := false;
      }
    }

    /** `check_pending_action`, run by the 50 ms timer: clears the request
        before carrying it out. */
    method CheckPendingAction(streamOpens: bool) returns (transcribe: bool)
      modifies this`pendingAction, this`isRecording, this`audioFrames
      ensures pendingAction == NoAction
      ensures old(pendingAction) == NoAction ==>
                isRecording == old(isRecording) && audioFrames == old(audioFrames) && !transcribe
      ensures old(pendingAction) == StartPending ==>
                && !transcribe
                && (old(isRecording) || lockHeld ==>
                      isRecording == old(isRecording) && audioFrames == old(audioFrames))
                && (!old(isRecording) && !lockHeld ==> isRecording == streamOpens && audioFrames == [])
      ensures old(pendingAction) == StopPending ==>
                !isRecording && audioFrames == old(audioFrames) && transcribe == old(isRecording)
    {
      transcribe := false;
      if pendingAction == StartPending {
        pendingAction := NoAction;
        StartRecording(streamOpens);
      } else if pendingAction == StopPending {
        pendingAction := NoAction;
        transcribe := StopRecording();
      }
    }

    /** The non-blocking `acquire` at the top of `_transcribe_and_paste`: a
        second transcription gives up at once. */
    method AcquireTranscribeLock() returns (acquired: bool)
      modifies this`lockHeld
      ensures acquired == !old(lockHeld)
      ensures lockHeld
    {
      acquired := !lockHeld;
      lockHeld := true;
    }

    /** The `release` in `_transcribe_and_paste`'s `finally`. */
    method ReleaseTranscribeLock()
      requires lockHeld
      modifies this`lockHeld
      ensures !lockHeld
    {
      lockHeld := false;
    }
  }

  /** Holding Cmd, Shift and Space starts a recording at the next timer
      tick, and letting Space go stops it at the tick after and hands exactly
      the frames recorded in between to a transcription. */
  method PushToTalkCycle(d: Dictation, frames: seq<Chunk>) returns (transcribe: bool)
    requires !d.isRecording && !d.lockHeld && d.pendingAction == NoAction && d.pressedKeys == {}
    modifies d
    ensures transcribe
    ensures !d.isRecording && d.pendingAction == NoAction
    ensures d.audioFrames == frames
    ensures d.pressedKeys == {Cmd, Shift}
  {
    d.OnPress(Cmd);
    d.OnPress(Shift);
    d.OnPress(Space);
    assert d.pendingAction == StartPending;
    var t := d.CheckPendingAction(true);
    assert d.isRecording && d.audioFrames == [];
    for k := 0 to |frames|
      invariant d.isRecording && d.pendingAction == NoAction && !d.lockHeld
      invariant d.pressedKeys == Hotkey
      invariant d.audioFrames == frames[..k]
    {
      d.RecordChunk(frames[k]);
      assert frames[..k + 1] == frames[..k] + [frames[k]];
    }
    assert frames[..|frames|] == frames;
    d.OnRelease(Space);
    assert d.pendingAction == StopPending;
    transcribe := d.CheckPendingAction(true);
  }
}
