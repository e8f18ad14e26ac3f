/** The background-music player: a welcome prompt offering to play, and a
    floating control with play/pause, mute and a volume slider.

    The audio element is a part of the player's state (whether it exists,
    whether it is playing, its volume); whether the browser lets `play()`
    start is a parameter of the handlers that call it. Volumes are the
    slider's values, from 0 to 1. */
module MusicPlayer {

  /** The volume the audio element is given, and the value the slider shows:
      silence while muted, the chosen volume otherwise. */
  function EffectiveVolume(isMuted: bool, volume: real): (v: real)
    ensures isMuted ==> v == 0.0
    ensures !isMuted ==> v == volume
  {
    if isMuted then 0.0 else volume
  }

  /** The welcome prompt is on screen. */
  predicate PromptVisible(showPrompt: bool, hasInteracted: bool) {
    showPrompt && !hasInteracted
  }

  /** The mute button shows the crossed-out speaker. */
  predicate MutedIconShown(isMuted: bool, volume: real) {
    isMuted || volume == 0.0
  }

  /** The crossed-out speaker shows exactly when the audio is silent. */
  lemma {:induction false} MutedIconMeansSilence(isMuted: bool, volume: real)
    ensures MutedIconShown(isMuted, volume) <==> EffectiveVolume(isMuted, volume) == 0.0
  {
  }

  /** Once the guest has interacted the prompt never shows, whatever
      `showPrompt` holds. */
  lemma {:induction false} NoPromptAfterInteraction(showPrompt: bool)
    ensures !PromptVisible(showPrompt, true)
    ensures PromptVisible(showPrompt, false) <==> showPrompt
  {
  }

  /** The player's state: the five component state fields and the audio
      element the component holds a reference to. */
  class Player {
    var isPlaying: bool
    var isMuted: bool
    var volume: real
    var showPrompt: bool
    var hasInteracted: bool
    /** There is an audio element (between mount and unmount). */
    var hasAudio: bool
    var audioPlaying: bool
    var audioVolume: real
    var audioLoop: bool

    /** The volume lies on the slider, and while there is an audio element
        it loops, and plays exactly when the component says it does, at the
        effective volume. */
    predicate Valid()
      reads this
    {
      0.0 <= volume <= 1.0 &&
      (hasAudio ==> audioLoop && audioPlaying == isPlaying && audioVolume == EffectiveVolume(isMuted, volume))
    }

    /** The first render: paused, not muted, at 0.3, prompt showing, no audio
        element yet. */
    constructor ()
      ensures !isPlaying && !isMuted && volume == 0.3
      ensures showPrompt && !hasInteracted && !hasAudio
      ensures PromptVisible(showPrompt, hasInteracted)
      ensures Valid()
    {
      isPlaying := false;
      isMuted := false;
      volume := 0.3;
      showPrompt := true;
      hasInteracted := false;
      hasAudio := false;
      audioPlaying := false;
      audioVolume := 0.0;
      audioLoop := false;
    }

    /** The volume effect: push the effective volume into the audio element,
        if there is one. */
    method ApplyVolume()
      modifies this
      ensures hasAudio ==> audioVolume == EffectiveVolume(isMuted, volume)
      ensures !hasAudio ==> audioVolume == old(audioVolume)
      ensures isPlaying == old(isPlaying) && isMuted == old(isMuted) && volume == old(volume)
      ensures showPrompt == old(showPrompt) && hasInteracted == old(hasInteracted)
      ensures hasAudio == old(hasAudio) && audioPlaying == old(audioPlaying) && audioLoop == old(audioLoop)
    {
      if hasAudio {
        audioVolume := if isMuted then 0.0 else volume;
      }
    }

    /** The effects on mount: create the looping audio element at the current
        volume, then apply the volume effect. */
    method Mount()
      requires Valid() && !hasAudio && !isPlaying
      modifies this
      ensures hasAudio && audioLoop && !audioPlaying
      ensures audioVolume == EffectiveVolume(isMuted, volume)
      ensures isPlaying == old(isPlaying) && isMuted == old(isMuted) && volume == old(volume)
      ensures showPrompt == old(showPrompt) && hasInteracted == old(hasInteracted)
      ensures Valid()
    {
      hasAudio := true;
      audioLoop := true;
      audioPlaying := false;
      audioVolume := volume;
      ApplyVolume();
    }

    /** The cleanup on unmount: pause and drop the audio element. */
    method Unmount()
      requires Valid()
      modifies this
      ensures !hasAudio
      ensures old(hasAudio) ==> !audioPlaying
      ensures isPlaying == old(isPlaying) && isMuted == old(isMuted) && volume == old(volume)
      ensures showPrompt == old(showPrompt) && hasInteracted == old(hasInteracted)
      ensures Valid()
    {
      if hasAudio {
        audioPlaying := false;
        hasAudio := false;
      }
    }

    /** `handlePlayClick`: without an audio element nothing happens. Otherwise
        the prompt is dismissed for good; a playing track pauses, a paused one
        starts if the browser lets it. */
    method PlayClick(playSucceeds: bool)
      requires Valid()
      modifies this
      ensures !old(hasAudio) ==>
        isPlaying == old(isPlaying) && showPrompt == old(showPrompt) && hasInteracted == old(hasInteracted)
      ensures old(hasAudio) ==> hasInteracted && !showPrompt
      ensures old(hasAudio) && old(isPlaying) ==> !isPlaying
      ensures old(hasAudio) && !old(isPlaying) ==> isPlaying == playSucceeds
      ensures old(hasInteracted) ==> hasInteracted
      ensures isMuted == old(isMuted) && volume == old(volume) && hasAudio == old(hasAudio)
      ensures Valid()
    {
      if !hasAudio {
        return;
      }
      hasInteracted := true;
      showPrompt := false;
      if isPlaying {
        audioPlaying := false;
        isPlaying := false;
      } else if playSucceeds {
        audioPlaying := true;
        isPlaying := true;
      }
    }

    /** `handlePromptClick`: dismiss the prompt for good, then try to start
        the track if there is an audio element. */
    method PromptClick(playSucceeds: bool)
      requires Valid()
      modifies this
      ensures hasInteracted && !showPrompt
      ensures isPlaying == (old(isPlaying) || (hasAudio && playSucceeds))
      ensures isMuted == old(isMuted) && volume == old(volume) && hasAudio == old(hasAudio)
      ensures Valid()
    {
      showPrompt := false;
      hasInteracted := true;
      if hasAudio && playSucceeds {
        audioPlaying := true;
        isPlaying := true;
      }
    }

    /** The prompt's Skip button: dismiss the prompt for good, play nothing. */
    method Skip()
      requires Valid()
      modifies this
      ensures hasInteracted && !showPrompt
      ensures isPlaying == old(isPlaying) && isMuted == old(isMuted) && volume == old(volume)
      ensures hasAudio == old(hasAudio) && audioPlaying == old(audioPlaying)
      ensures Valid()
    {
      showPrompt := false;
      hasInteracted := true;
    }

    /** `handleVolumeChange` and the volume effect: store the slider's value;
        moving above zero lifts a mute, moving to zero leaves it. */
    method VolumeChange(newVolume: real)
      requires Valid() && 0.0 <= newVolume <= 1.0
      modifies this
      ensures volume == newVolume
      ensures isMuted == (old(isMuted) && newVolume == 0.0)
      ensures isPlaying == old(isPlaying) && showPrompt == old(showPrompt) && hasInteracted == old(hasInteracted)
      ensures hasAudio == old(hasAudio)
      ensures Valid()
    {
      volume := newVolume;
      if newVolume > 0.0 && isMuted {
        isMuted := false;
      }
      ApplyVolume();
    }

    /** `toggleMute` and the volume effect. */
    method ToggleMute()
      requires Valid()
      modifies this
      ensures isMuted == !old(isMuted)
      ensures volume == old(volume) && isPlaying == old(isPlaying)
      ensures showPrompt == old(showPrompt) && hasInteracted == old(hasInteracted)
      ensures hasAudio == old(hasAudio) && audioPlaying == old(audioPlaying)
      ensures Valid()
    {
      isMuted := !isMuted;
      ApplyVolume();
    }
  }

  /** Muting twice restores the player, audio volume included. */
  method ToggleMuteTwice(player: Player)
    requires player.Valid()
    modifies player
    ensures player.isMuted == old(player.isMuted) && player.volume == old(player.volume)
    ensures player.hasAudio == old(player.hasAudio)
    ensures player.hasAudio ==> player.audioVolume == old(player.audioVolume)
    ensures player.Valid()
  {
    player.ToggleMute();
    player.ToggleMute();
  }
}
