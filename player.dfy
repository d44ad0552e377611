/**
 The mixer's session state as one object: the track list and the session fields
 that the component keeps in its state hooks. Each user action is a method that
 assigns the fields from the pure transitions of module Tracks.
 */
module Player {
  import opened Tracks
  import Catalog

  class App {
    var tracks: seq<Track>
    var favorites: seq<string>
    var mixMode: bool
    var activePreset: Option<string>
    /** Sleep-timer length in minutes, as picked on the slider (0..120, step 15). */
    var sleepTimer: int
    var timerActive: bool
    var activeTab: Category
    /** Callbacks the host has been asked to run later and has not run yet: one per
        started sleep timer. There is no way to cancel one. */
    var pendingTimers: nat

    /** What every reachable state satisfies: the catalog keeps its ids, and the
        favourites list holds no id twice. */
    ghost predicate Valid()
      reads this
    {
      UniqueIds(tracks) && NoDuplicates(favorites)
    }

    /** The exclusive-play policy: without mix mode, at most one track plays. */
    ghost predicate Exclusive()
      reads this
    {
      !mixMode ==> AtMostOnePlaying(tracks)
    }

    constructor ()
      ensures Valid() && Exclusive()
      ensures tracks == Catalog.InitialTracks() && favorites == []
      ensures !mixMode && activePreset == None && sleepTimer == 0 && !timerActive
      ensures activeTab == Nature && pendingTimers == 0
    {
      tracks := Catalog.InitialTracks();
      favorites := [];
      mixMode := false;
      activePreset := None;
      sleepTimer := 0;
      timerActive := false;
      activeTab := Nature;
      pendingTimers := 0;
    }

    /** The tracks listed under the active tab. */
    function FilteredTracks(): (r: seq<Track>)
      reads this
      ensures forall t :: t in r <==> t in tracks && t.category == activeTab
    {
      FilterCategory(tracks, activeTab)
    }

    method TogglePlay(id: string)
      requires Valid()
      modifies this`tracks
      ensures Valid()
      ensures tracks == Tracks.TogglePlay(old(tracks), id, mixMode)
      ensures SameExceptPlaying(old(tracks), tracks)
      ensures old(Exclusive()) ==> Exclusive()
      ensures forall k :: 0 <= k < |tracks| && old(tracks)[k].id == id && !old(tracks)[k].isPlaying ==>
        if mixMode then forall i :: 0 <= i < |tracks| ==> tracks[i].isPlaying == (old(tracks)[i].isPlaying || i == k)
        else PlayingCount(tracks) == 1 && tracks[k].isPlaying
      ensures forall k :: 0 <= k < |tracks| && old(tracks)[k].id == id && old(tracks)[k].isPlaying ==>
        forall i :: 0 <= i < |tracks| ==> tracks[i].isPlaying == (old(tracks)[i].isPlaying && i != k)
    {
      ghost var before := tracks;
      tracks := Tracks.TogglePlay(tracks, id, mixMode);
      TogglePlayOnlyFlags(before, id, mixMode);
      if !mixMode && AtMostOnePlaying(before) {
        TogglePlayKeepsExclusive(before, id);
      }
      forall k | 0 <= k < |before| && before[k].id == id
        ensures !before[k].isPlaying ==>
          if mixMode then forall i :: 0 <= i < |tracks| ==> tracks[i].isPlaying == (before[i].isPlaying || i == k)
          else PlayingCount(tracks) == 1 && tracks[k].isPlaying
        ensures before[k].isPlaying ==>
          forall i :: 0 <= i < |tracks| ==> tracks[i].isPlaying == (before[i].isPlaying && i != k)
      {
        if before[k].isPlaying {
          TogglePlayStopsPlaying(before, id, mixMode, k);
        } else if mixMode {
          TogglePlayMix(before, id, k);
        } else {
          TogglePlayExclusive(before, id, k);
        }
      }
    }

    method UpdateVolume(id: string, volume: int)
      requires Valid()
      modifies this`tracks
      ensures Valid()
      ensures tracks == Tracks.UpdateVolume(old(tracks), id, volume)
      ensures forall i :: 0 <= i < |tracks| ==>
        if old(tracks)[i].id == id then tracks[i] == old(tracks)[i].(volume := volume)
        else tracks[i] == old(tracks)[i]
      ensures old(Exclusive()) ==> Exclusive()
    {
      tracks := Tracks.UpdateVolume(tracks, id, volume);
    }

    method ToggleFavorite(id: string)
      requires Valid()
      modifies this`favorites
      ensures Valid()
      ensures favorites == Tracks.ToggleFavorite(old(favorites), id)
      ensures id in favorites <==> id !in old(favorites)
    {
      ToggleFavoriteKeepsNoDuplicates(favorites, id);
      ToggleFavoriteFlips(favorites, id);
      favorites := Tracks.ToggleFavorite(favorites, id);
    }

    method ApplyPreset(p: Preset)
      requires Valid()
      modifies this`tracks, this`mixMode, this`activePreset
      ensures Valid() && Exclusive()
      ensures tracks == Tracks.ApplyPreset(old(tracks), p)
      ensures mixMode && activePreset == Some(p.id)
      ensures forall i :: 0 <= i < |tracks| ==> (tracks[i].isPlaying <==> tracks[i].id in p.tracks)
    {
      ApplyPresetEffect(tracks, p);
      mixMode := true;
      activePreset := Some(p.id);
      tracks := Tracks.ApplyPreset(tracks, p);
    }

    method StopAllTracks()
      requires Valid()
      modifies this`tracks, this`activePreset
      ensures Valid() && Exclusive()
      ensures tracks == StopAll(old(tracks)) && NonePlaying(tracks)
      ensures SameExceptPlaying(old(tracks), tracks)
      ensures activePreset == None
    {
      StopAllEffect(tracks);
      tracks := StopAll(tracks);
      activePreset := None;
    }

    /** The mix-mode button flips mix mode. Turning it off stops nothing. */
    method ToggleMixMode()
      modifies this`mixMode
      ensures mixMode == !old(mixMode)
    {
      mixMode := !mixMode;
    }

    /** The sleep-timer slider. */
    method SetSleepTimer(minutes: int)
      modifies this`sleepTimer
      ensures sleepTimer == minutes
    {
      sleepTimer := minutes;
    }

    /** The category tabs. */
    method SelectTab(tab: Category)
      modifies this`activeTab
      ensures activeTab == tab
    {
      activeTab := tab;
    }

    /** Starting the sleep timer: only a positive length does anything, and then it
        marks the timer active and schedules one callback. */
    method StartSleepTimer()
      modifies this`timerActive, this`pendingTimers
      ensures old(sleepTimer) > 0 ==> timerActive && pendingTimers == old(pendingTimers) + 1
      ensures old(sleepTimer) <= 0 ==> timerActive == old(timerActive) && pendingTimers == old(pendingTimers)
    {
      if sleepTimer > 0 {
        timerActive := true;
        pendingTimers := pendingTimers + 1;
      }
    }

    /** A scheduled sleep-timer callback runs: every track stops and the timer is no
        longer active. The active preset is left as it was. */
    method SleepTimerFires()
      requires Valid() && pendingTimers > 0
      modifies this`tracks, this`timerActive, this`pendingTimers
      ensures Valid() && Exclusive()
      ensures tracks == StopAll(old(tracks)) && NonePlaying(tracks)
      ensures SameExceptPlaying(old(tracks), tracks)
      ensures !timerActive && pendingTimers == old(pendingTimers) - 1
    {
      StopAllEffect(tracks);
      tracks := StopAll(tracks);
      timerActive := false;
      pendingTimers := pendingTimers - 1;
    }
  }

  /** Without mix mode, starting a second track stops the first. */
  method ExclusivePlayScenario()
  {
    var app := new App();
    assert app.tracks[0].id == "rain" && app.tracks[1].id == "ocean";
    assert !app.tracks[0].isPlaying;
    app.TogglePlay("rain");
    assert app.tracks[0].isPlaying && app.tracks[1].id == "ocean";
    assert !app.tracks[1].isPlaying;
    app.TogglePlay("ocean");
    assert app.tracks[1].isPlaying;
    assert !app.tracks[0].isPlaying;
    app.StopAllTracks();
    assert PlayingCount(app.tracks) == 0;
  }

  /** With mix mode, starting a second track keeps the first playing. */
  method MixPlayScenario()
  {
    var app := new App();
    app.ToggleMixMode();
    app.TogglePlay("rain");
    app.TogglePlay("ocean");
    assert app.tracks[0].isPlaying && app.tracks[1].isPlaying;
  }

  /** After a preset, turning mix mode off leaves three tracks playing. */
  method MixModeOffScenario()
  {
    var app := new App();
    app.ApplyPreset(Catalog.ForestRain);
    app.ToggleMixMode();
    Catalog.PresetThenMixOffBreaksExclusive();
    assert !app.Exclusive();
  }

  /** The sleep timer stops everything but keeps the preset highlighted. */
  method SleepTimerScenario()
  {
    var app := new App();
    app.ApplyPreset(Catalog.Relaxation);
    app.SetSleepTimer(15);
    app.StartSleepTimer();
    assert app.timerActive && app.pendingTimers == 1;
    app.SleepTimerFires();
    assert !app.timerActive && NonePlaying(app.tracks);
    assert app.activePreset == Some("relaxation");
  }
}
