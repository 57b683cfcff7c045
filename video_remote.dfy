/**
 * The `useImperativeHandle` demo (VideoPlayerDemo): the handle a video
 * player exposes (play, pause, reset, toggleMute, getStatus) and the remote
 * control that drives it and records the last action. The video element is
 * reduced to the three fields the handle touches; real playback is not
 * modelled.
 */
module VideoRemote {

  /** The parts of an `HTMLVideoElement` the handle reads and writes. */
  class VideoElement {
    var currentTime: real
    var muted: bool
    var paused: bool

    constructor ()
      ensures currentTime == 0.0 && !muted && paused
    {
      currentTime := 0.0;
      muted := false;
      paused := true;
    }
  }

  /** The player component: `videoRef.current` and its two state variables. */
  class VideoPlayer {
    /** `videoRef.current`, null while nothing is mounted. */
    var video: VideoElement?
    var isPlaying: bool
    var isMuted: bool

    constructor (video: VideoElement?)
      ensures this.video == video && !isPlaying && !isMuted
    {
      this.video := video;
      isPlaying := false;
      isMuted := false;
    }

    /** `play()`: start the element, if any, and mark the player as playing. */
    method Play()
      modifies this`isPlaying, video
      ensures isPlaying
      ensures video != null ==> !video.paused && video.muted == old(video.muted) && video.currentTime == old(video.currentTime)
    {
      if video != null {
        video.paused := false;
      }
      isPlaying := true;
    }

    /** `pause()`: pause the element, if any, and mark the player as not playing. */
    method Pause()
      modifies this`isPlaying, video
      ensures !isPlaying
      ensures video != null ==> video.paused && video.muted == old(video.muted) && video.currentTime == old(video.currentTime)
    {
      if video != null {
        video.paused := true;
      }
      isPlaying := false;
    }

    /** `reset()`: rewind and pause the element, if any; either way the player is no longer playing. */
    method Reset()
      modifies this`isPlaying, video
      ensures !isPlaying
      ensures video != null ==> video.currentTime == 0.0 && video.paused && video.muted == old(video.muted)
    {
      if video != null {
        video.currentTime := 0.0;
        video.paused := true;
      }
      isPlaying := false;
    }

    /** `toggleMute()`: flip the element's muted flag and mirror it in isMuted; without an element nothing changes. */
    method ToggleMute()
      modifies this`isMuted, video
      ensures video != null ==> video.muted == !old(video.muted) && isMuted == video.muted
      ensures video != null ==> video.paused == old(video.paused) && video.currentTime == old(video.currentTime)
      ensures video == null ==> isMuted == old(isMuted)
    {
      if video != null {
        video.muted := !video.muted;
        isMuted := video.muted;
      }
    }

    /** Two toggles restore the element's muted flag. */
    method ToggleMuteTwice()
      modifies this`isMuted, video
      ensures video != null ==> video.muted == old(video.muted) && isMuted == video.muted
      ensures video == null ==> isMuted == old(isMuted)
    {
      ToggleMute();
      ToggleMute();
    }

    /** `getStatus()`. */
    function GetStatus(): (s: string)
      reads this`isPlaying
      ensures s == "Playing" <==> isPlaying
      ensures s == "Paused" <==> !isPlaying
    {
      if isPlaying then "Playing" else "Paused"
    }
  }

  const InitialAction := "Initialized"
  /** The play label, spelled as the source spells it. */
  const PlayAction := "Exectued: .play()"
  const PauseAction := "Executed: .pause()"
  const ResetAction := "Executed: .reset()"
  const MuteAction := "Executed: .toggleMute()"

  /** The four button labels differ from each other and from the initial one, so lastAction tells which button was pressed last. */
  lemma ActionLabelsDistinct()
    ensures forall i, j :: 0 <= i < j < 5 ==>
              [InitialAction, PlayAction, PauseAction, ResetAction, MuteAction][i] !=
              [InitialAction, PlayAction, PauseAction, ResetAction, MuteAction][j]
  {
    var labels := [InitialAction, PlayAction, PauseAction, ResetAction, MuteAction];
    assert labels[0][0] == 'I';
    assert labels[1][2] == 'e' && labels[2][2] == 'e' && labels[3][2] == 'e' && labels[4][2] == 'e';
    assert labels[1][3] == 'c' && labels[2][3] == 'c';
    assert labels[1][4] == 't' && labels[2][4] == 'u';
    assert labels[2][11] == 'p' && labels[3][11] == 'r' && labels[4][11] == 't';
    assert labels[1][11] == 'p' && labels[1][12] == 'l' && labels[2][12] == 'a';
  }

  /** The remote control: `playerRef.current` and the `lastAction` line. */
  class Remote {
    /** `playerRef.current`, null while no player is attached. */
    var player: VideoPlayer?
    var lastAction: string

    constructor (player: VideoPlayer?)
      ensures this.player == player && lastAction == InitialAction
    {
      this.player := player;
      lastAction := InitialAction;
    }

    /** The objects a button press may change. */
    function Footprint(): set<object?>
      reads this, player
    {
      if player == null then {} else {player, player.video}
    }

    method HandlePlay()
      modifies this`lastAction, Footprint()
      ensures lastAction == PlayAction
      ensures player != null ==> player.video == old(player.video)
      ensures player != null ==> player.isPlaying && player.isMuted == old(player.isMuted)
      ensures player != null && player.video != null ==>
                !player.video.paused && player.video.muted == old(player.video.muted)
                && player.video.currentTime == old(player.video.currentTime)
    {
      if player != null {
        player.Play();
      }
      lastAction := PlayAction;
    }

    method HandlePause()
      modifies this`lastAction, Footprint()
      ensures lastAction == PauseAction
      ensures player != null ==> player.video == old(player.video)
      ensures player != null ==> !player.isPlaying && player.isMuted == old(player.isMuted)
      ensures player != null && player.video != null ==>
                player.video.paused && player.video.muted == old(player.video.muted)
                && player.video.currentTime == old(player.video.currentTime)
    {
      if player != null {
        player.Pause();
      }
      lastAction := PauseAction;
    }

    method HandleReset()
      modifies this`lastAction, Footprint()
      ensures lastAction == ResetAction
      ensures player != null ==> player.video == old(player.video)
      ensures player != null ==> !player.isPlaying && player.isMuted == old(player.isMuted)
      ensures player != null && player.video != null ==>
                player.video.currentTime == 0.0 && player.video.paused && player.video.muted == old(player.video.muted)
    {
      if player != null {
        player.Reset();
      }
      lastAction := ResetAction;
    }

    method HandleMute()
      modifies this`lastAction, Footprint()
      ensures lastAction == MuteAction
      ensures player != null ==> player.video == old(player.video)
      ensures player != null ==> player.isPlaying == old(player.isPlaying)
      ensures player != null && player.video == null ==> player.isMuted == old(player.isMuted)
      ensures player != null && player.video != null ==>
                player.video.muted == !old(player.video.muted) && player.isMuted == player.video.muted
                && player.video.paused == old(player.video.paused)
                && player.video.currentTime == old(player.video.currentTime)
    {
      if player != null {
        player.ToggleMute();
      }
      lastAction := MuteAction;
    }
  }
}
