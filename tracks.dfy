/**
 The playback state of the sleep-sound mixer as values: the track records, the
 presets, and every transition of the track list and of the favourites list as a
 pure function, with the properties each transition keeps.
 */
module Tracks {

  datatype Option<+T> = None | Some(value: T)

  /** The three tabs a track is catalogued under. */
  datatype Category = Nature | Frequencies | Stories

  /** One catalogued sound: its identifier, its tab, whether it is playing and its
      volume in percent. Display name, icon, source handle and duration label are
      presentation only and are not part of the model. */
  datatype Track = Track(id: string, category: Category, isPlaying: bool, volume: int)

  /** A fixed combination of tracks with target volumes. */
  datatype Preset = Preset(id: string, tracks: seq<string>, volumes: map<string, int>)

  // ---------------------------------------------------------------------------
  // Predicates over track lists
  // ---------------------------------------------------------------------------

  predicate HasId(ts: seq<Track>, id: string) {
    exists i :: 0 <= i < |ts| && ts[i].id == id
  }

  predicate UniqueIds(ts: seq<Track>) {
    forall i, j :: 0 <= i < j < |ts| ==> ts[i].id != ts[j].id
  }

  /** No two tracks play at the same time. */
  predicate AtMostOnePlaying(ts: seq<Track>) {
    forall i, j :: 0 <= i < j < |ts| && ts[i].isPlaying ==> !ts[j].isPlaying
  }

  predicate NonePlaying(ts: seq<Track>) {
    forall i :: 0 <= i < |ts| ==> !ts[i].isPlaying
  }

  /** Both lists describe the same tracks in the same order, up to play flags. */
  predicate SameCatalog(ts: seq<Track>, us: seq<Track>) {
    |ts| == |us| &&
    forall i :: 0 <= i < |ts| ==> us[i].id == ts[i].id && us[i].category == ts[i].category
  }

  /** Two lists that differ at most in their play flags. */
  predicate SameExceptPlaying(ts: seq<Track>, us: seq<Track>) {
    SameCatalog(ts, us) && forall i :: 0 <= i < |ts| ==> us[i].volume == ts[i].volume
  }

  /** Number of playing tracks (the count shown in the "now playing" summary). */
  function PlayingCount(ts: seq<Track>): (c: nat)
    ensures c <= |ts|
    ensures c == 0 <==> NonePlaying(ts)
  {
    if ts == [] then 0
    else (if ts[0].isPlaying then 1 else 0) + PlayingCount(ts[1..])
  }

  // ---------------------------------------------------------------------------
  // togglePlay
  // ---------------------------------------------------------------------------

  /** The first track with the given id, as `tracks.find` returns it. */
  function FindTrack(ts: seq<Track>, id: string): (r: Option<Track>)
    ensures r.None? <==> !HasId(ts, id)
    ensures r.Some? ==> exists i :: 0 <= i < |ts| && ts[i] == r.value &&
                                    r.value.id == id &&
                                    forall j :: 0 <= j < i ==> ts[j].id != id
  {
    if ts == [] then None
    else if ts[0].id == id then Some(ts[0])
    else
      var r := FindTrack(ts[1..], id);
      if r.Some? then
        assert forall i :: 0 <= i < |ts| - 1 ==> ts[1..][i] == ts[i + 1];
        r
      else
        assert forall i :: 1 <= i < |ts| ==> ts[i] == ts[1..][i - 1];
        r
  }

  /** Every track with the given id stops; the others are untouched. */
  function Paused(ts: seq<Track>, id: string): (r: seq<Track>)
    ensures SameExceptPlaying(ts, r)
    ensures forall i :: 0 <= i < |r| ==> (r[i].isPlaying <==> ts[i].isPlaying && ts[i].id != id)
  {
    seq(|ts|, i requires 0 <= i < |ts| =>
      if ts[i].id == id then ts[i].(isPlaying := false) else ts[i])
  }

  /** Every track with the given id starts; without mix mode every other track stops. */
  function Started(ts: seq<Track>, id: string, mixMode: bool): (r: seq<Track>)
    ensures SameExceptPlaying(ts, r)
    ensures forall i :: 0 <= i < |r| && ts[i].id == id ==> r[i].isPlaying
    ensures forall i :: 0 <= i < |r| && ts[i].id != id ==> (r[i].isPlaying <==> mixMode && ts[i].isPlaying)
  {
    seq(|ts|, i requires 0 <= i < |ts| =>
      if ts[i].id == id then ts[i].(isPlaying := true)
      else if !mixMode then ts[i].(isPlaying := false)
      else ts[i])
  }

  /** togglePlay: an unknown id changes nothing; a playing track is stopped; a
      stopped track is started, exclusively unless mix mode is on. */
  function TogglePlay(ts: seq<Track>, id: string, mixMode: bool): (r: seq<Track>)
    ensures SameExceptPlaying(ts, r)
  {
    match FindTrack(ts, id)
    case None => ts
    case Some(current) =>
      if current.isPlaying then Paused(ts, id) else Started(ts, id, mixMode)
  }

  lemma TogglePlayUnknownId(ts: seq<Track>, id: string, mixMode: bool)
    requires !HasId(ts, id)
    ensures TogglePlay(ts, id, mixMode) == ts
  {
  }

  /** togglePlay only ever changes play flags. */
  lemma TogglePlayOnlyFlags(ts: seq<Track>, id: string, mixMode: bool)
    ensures SameExceptPlaying(ts, TogglePlay(ts, id, mixMode))
    ensures StopAll(TogglePlay(ts, id, mixMode)) == StopAll(ts)
  {
  }

  /** Toggling a playing track stops exactly the tracks with that id. */
  lemma TogglePlayStopsPlaying(ts: seq<Track>, id: string, mixMode: bool, k: nat)
    requires k < |ts| && ts[k].id == id && ts[k].isPlaying
    requires UniqueIds(ts)
    ensures var r := TogglePlay(ts, id, mixMode);
      SameExceptPlaying(ts, r) &&
      forall i :: 0 <= i < |ts| ==> r[i].isPlaying == (ts[i].isPlaying && i != k)
  {
  }

  /** Without mix mode, starting a stopped track leaves exactly that track playing. */
  lemma TogglePlayExclusive(ts: seq<Track>, id: string, k: nat)
    requires k < |ts| && ts[k].id == id && !ts[k].isPlaying
    requires UniqueIds(ts)
    ensures var r := TogglePlay(ts, id, false);
      SameExceptPlaying(ts, r) &&
      (forall i :: 0 <= i < |ts| ==> r[i].isPlaying == (i == k)) &&
      PlayingCount(r) == 1
  {
    var f := FindTrack(ts, id);
    assert f == Some(ts[k]);
    var r := TogglePlay(ts, id, false);
    PlayingCountSingle(r, k);
  }

  /** With mix mode, starting a stopped track adds it to the playing ones. */
  lemma TogglePlayMix(ts: seq<Track>, id: string, k: nat)
    requires k < |ts| && ts[k].id == id && !ts[k].isPlaying
    requires UniqueIds(ts)
    ensures var r := TogglePlay(ts, id, true);
      SameExceptPlaying(ts, r) &&
      forall i :: 0 <= i < |ts| ==> r[i].isPlaying == (ts[i].isPlaying || i == k)
  {
  }

  /** Without mix mode, togglePlay keeps "at most one track playing". */
  lemma TogglePlayKeepsExclusive(ts: seq<Track>, id: string)
    requires UniqueIds(ts) && AtMostOnePlaying(ts)
    ensures AtMostOnePlaying(TogglePlay(ts, id, false))
  {
  }

  /** A list in which only position k plays holds one playing track. */
  lemma {:induction false} PlayingCountSingle(ts: seq<Track>, k: nat)
    requires k < |ts|
    requires forall i :: 0 <= i < |ts| ==> ts[i].isPlaying == (i == k)
    ensures PlayingCount(ts) == 1
  {
    if k == 0 {
      assert NonePlaying(ts[1..]);
    } else {
      PlayingCountSingle(ts[1..], k - 1);
    }
  }

  /** The count in the summary is at most one exactly when no two tracks play. */
  lemma {:induction false} AtMostOnePlayingCount(ts: seq<Track>)
    ensures AtMostOnePlaying(ts) <==> PlayingCount(ts) <= 1
  {
    if ts != [] {
      AtMostOnePlayingCount(ts[1..]);
      var tail := ts[1..];
      assert AtMostOnePlaying(ts) <==>
        AtMostOnePlaying(tail) && (ts[0].isPlaying ==> NonePlaying(tail)) by {
        forall i, j | 0 <= i < j < |tail| ensures tail[i] == ts[i + 1] && tail[j] == ts[j + 1] {}
      }
    }
  }

  // ---------------------------------------------------------------------------
  // updateVolume
  // ---------------------------------------------------------------------------

  /** updateVolume: every track with the id gets exactly this volume (no clamping). */
  function UpdateVolume(ts: seq<Track>, id: string, volume: int): (r: seq<Track>)
    ensures SameCatalog(ts, r)
    ensures forall i :: 0 <= i < |ts| ==> r[i].isPlaying == ts[i].isPlaying
  {
    seq(|ts|, i requires 0 <= i < |ts| =>
      if ts[i].id == id then ts[i].(volume := volume) else ts[i])
  }

  /** Only the named track's volume changes, and it becomes exactly the given value. */
  lemma UpdateVolumeSetsOnlyNamed(ts: seq<Track>, id: string, volume: int)
    ensures var r := UpdateVolume(ts, id, volume);
      forall i :: 0 <= i < |ts| ==>
        if ts[i].id == id then r[i].volume == volume else r[i] == ts[i]
  {
  }

  /** A later volume write to the same track overrides an earlier one. */
  lemma UpdateVolumeLastWins(ts: seq<Track>, id: string, v: int, w: int)
    ensures UpdateVolume(UpdateVolume(ts, id, v), id, w) == UpdateVolume(ts, id, w)
  {
  }

  /** Writing back a track's current volume changes nothing. */
  lemma UpdateVolumeSameValue(ts: seq<Track>, id: string, k: nat)
    requires k < |ts| && ts[k].id == id && UniqueIds(ts)
    ensures UpdateVolume(ts, id, ts[k].volume) == ts
  {
  }

  /** Volume and play state are independent: stopping everything commutes with a volume write. */
  lemma UpdateVolumeCommutesWithStopAll(ts: seq<Track>, id: string, v: int)
    ensures StopAll(UpdateVolume(ts, id, v)) == UpdateVolume(StopAll(ts), id, v)
  {
  }

  // ---------------------------------------------------------------------------
  // applyPreset
  // ---------------------------------------------------------------------------

  /** The volume a preset gives a member track: its table entry, unless that entry
      is missing or 0, in which case the track keeps its volume (`||` in JavaScript). */
  function PresetVolume(p: Preset, id: string, current: int): (v: int)
    ensures v == current || (id in p.volumes && v == p.volumes[id])
    ensures v == 0 ==> current == 0
    ensures id in p.volumes && v != p.volumes[id] ==> p.volumes[id] == 0
  {
    if id in p.volumes && p.volumes[id] != 0 then p.volumes[id] else current
  }

  /** applyPreset: exactly the preset's tracks play, at the preset's volumes. */
  function ApplyPreset(ts: seq<Track>, p: Preset): (r: seq<Track>)
    ensures SameCatalog(ts, r)
    ensures forall i :: 0 <= i < |r| ==> (r[i].isPlaying <==> ts[i].id in p.tracks)
  {
    seq(|ts|, i requires 0 <= i < |ts| =>
      if ts[i].id in p.tracks
      then ts[i].(isPlaying := true, volume := PresetVolume(p, ts[i].id, ts[i].volume))
      else ts[i].(isPlaying := false))
  }

  /** After a preset a track plays iff it is in the preset, and volumes follow the table. */
  lemma ApplyPresetEffect(ts: seq<Track>, p: Preset)
    ensures var r := ApplyPreset(ts, p);
      SameCatalog(ts, r) &&
      forall i :: 0 <= i < |ts| ==>
        && (r[i].isPlaying <==> ts[i].id in p.tracks)
        && (ts[i].id !in p.tracks ==> r[i].volume == ts[i].volume)
        && (ts[i].id in p.tracks && ts[i].id in p.volumes && p.volumes[ts[i].id] != 0 ==>
              r[i].volume == p.volumes[ts[i].id])
        && (ts[i].id in p.tracks && (ts[i].id !in p.volumes || p.volumes[ts[i].id] == 0) ==>
              r[i].volume == ts[i].volume)
  {
  }

  /** Applying the same preset twice is the same as applying it once. */
  lemma ApplyPresetIdempotent(ts: seq<Track>, p: Preset)
    ensures ApplyPreset(ApplyPreset(ts, p), p) == ApplyPreset(ts, p)
  {
  }

  /** The result of a preset depends only on the catalog and volumes, not on what was playing. */
  lemma ApplyPresetForgetsPlaying(ts: seq<Track>, us: seq<Track>, p: Preset)
    requires SameExceptPlaying(ts, us)
    ensures ApplyPreset(ts, p) == ApplyPreset(us, p)
  {
  }

  // ---------------------------------------------------------------------------
  // stopAllTracks and the sleep timer's callback
  // ---------------------------------------------------------------------------

  /** Every play flag cleared. */
  function StopAll(ts: seq<Track>): (r: seq<Track>)
    ensures SameExceptPlaying(ts, r) && NonePlaying(r)
  {
    seq(|ts|, i requires 0 <= i < |ts| => ts[i].(isPlaying := false))
  }

  /** Stopping everything leaves nothing playing and keeps every volume. */
  lemma StopAllEffect(ts: seq<Track>)
    ensures var r := StopAll(ts);
      SameExceptPlaying(ts, r) && NonePlaying(r) && PlayingCount(r) == 0
  {
  }

  lemma StopAllIdempotent(ts: seq<Track>)
    ensures StopAll(StopAll(ts)) == StopAll(ts)
  {
  }

  /** With nothing playing, stopping everything changes nothing. */
  lemma StopAllWhenSilent(ts: seq<Track>)
    requires NonePlaying(ts)
    ensures StopAll(ts) == ts
  {
  }

  // ---------------------------------------------------------------------------
  // The category filter
  // ---------------------------------------------------------------------------

  /** The tracks shown under a tab, in catalog order. */
  function FilterCategory(ts: seq<Track>, tab: Category): (r: seq<Track>)
    ensures |r| <= |ts|
    ensures forall t :: t in r <==> t in ts && t.category == tab
  {
    if ts == [] then []
    else if ts[0].category == tab then [ts[0]] + FilterCategory(ts[1..], tab)
    else FilterCategory(ts[1..], tab)
  }

  /** The three tabs split the catalog: every track shows under exactly one tab. */
  lemma {:induction false} FilterPartitions(ts: seq<Track>)
    ensures multiset(FilterCategory(ts, Nature)) + multiset(FilterCategory(ts, Frequencies)) +
            multiset(FilterCategory(ts, Stories)) == multiset(ts)
  {
    if ts != [] {
      FilterPartitions(ts[1..]);
      FilterStep(ts, Nature);
      FilterStep(ts, Frequencies);
      FilterStep(ts, Stories);
      assert ts == [ts[0]] + ts[1..];
    }
  }

  lemma FilterStep(ts: seq<Track>, tab: Category)
    requires ts != []
    ensures multiset(FilterCategory(ts, tab)) ==
      (if ts[0].category == tab then multiset{ts[0]} else multiset{}) +
      multiset(FilterCategory(ts[1..], tab))
  {
  }

  /** Filtering again under the same tab changes nothing. */
  lemma {:induction false} FilterIdempotent(ts: seq<Track>, tab: Category)
    ensures FilterCategory(FilterCategory(ts, tab), tab) == FilterCategory(ts, tab)
  {
    if ts != [] {
      FilterIdempotent(ts[1..], tab);
      if ts[0].category == tab {
        var rest := FilterCategory(ts[1..], tab);
        assert ([ts[0]] + rest)[1..] == rest;
      }
    }
  }

  // ---------------------------------------------------------------------------
  // toggleFavorite
  // ---------------------------------------------------------------------------

  /** The list with every occurrence of x removed, order kept (`filter(id => id !== x)`). */
  function Without(s: seq<string>, x: string): (r: seq<string>)
    ensures |r| <= |s|
    ensures x !in r
    ensures forall y :: y != x ==> (y in r <==> y in s)
  {
    if s == [] then []
    else if s[0] == x then Without(s[1..], x)
    else [s[0]] + Without(s[1..], x)
  }

  /** toggleFavorite: remove the id if present, append it otherwise. */
  function ToggleFavorite(favs: seq<string>, id: string): (r: seq<string>)
    ensures id in r <==> id !in favs
  {
    if id in favs then Without(favs, id) else favs + [id]
  }

  predicate NoDuplicates(s: seq<string>) {
    forall i, j :: 0 <= i < j < |s| ==> s[i] != s[j]
  }

  /** Toggling flips membership of the id and leaves every other id as it was. */
  lemma ToggleFavoriteFlips(favs: seq<string>, id: string)
    ensures var r := ToggleFavorite(favs, id);
      (id in r <==> id !in favs) && forall y :: y != id ==> (y in r <==> y in favs)
  {
  }

  lemma {:induction false} WithoutAbsent(s: seq<string>, x: string)
    requires x !in s
    ensures Without(s, x) == s
  {
    if s != [] {
      WithoutAbsent(s[1..], x);
      assert s == [s[0]] + s[1..];
    }
  }

  lemma {:induction false} WithoutAppended(s: seq<string>, x: string)
    requires x !in s
    ensures Without(s + [x], x) == s
  {
    if s == [] {
      assert [x][1..] == [];
    } else {
      assert (s + [x])[1..] == s[1..] + [x];
      WithoutAppended(s[1..], x);
      assert s == [s[0]] + s[1..];
    }
  }

  /** Toggling an absent id twice restores the exact original list. */
  lemma ToggleFavoriteTwiceAbsent(favs: seq<string>, id: string)
    requires id !in favs
    ensures ToggleFavorite(ToggleFavorite(favs, id), id) == favs
  {
    WithoutAppended(favs, id);
  }

  /** Toggling a present id twice restores the set of favourites (the id moves to the end). */
  lemma ToggleFavoriteTwicePresent(favs: seq<string>, id: string)
    requires id in favs
    ensures var r := ToggleFavorite(ToggleFavorite(favs, id), id);
      (set y | y in r) == (set y | y in favs) && r[|r| - 1] == id
  {
  }

  lemma {:induction false} WithoutKeepsNoDuplicates(s: seq<string>, x: string)
    requires NoDuplicates(s)
    ensures NoDuplicates(Without(s, x))
  {
    if s != [] {
      assert NoDuplicates(s[1..]) by {
        forall i, j | 0 <= i < j < |s| - 1 ensures s[1..][i] != s[1..][j] {
          assert s[1..][i] == s[i + 1] && s[1..][j] == s[j + 1];
        }
      }
      WithoutKeepsNoDuplicates(s[1..], x);
      if s[0] != x {
        var rest := Without(s[1..], x);
        assert s[0] !in s[1..];
        assert s[0] !in rest;
        var r := [s[0]] + rest;
        forall i, j | 0 <= i < j < |r| ensures r[i] != r[j] {
          if i == 0 {
            assert r[j] == rest[j - 1];
          } else {
            assert r[i] == rest[i - 1] && r[j] == rest[j - 1];
          }
        }
      }
    }
  }

  /** A favourites list without duplicates stays without duplicates. */
  lemma ToggleFavoriteKeepsNoDuplicates(favs: seq<string>, id: string)
    requires NoDuplicates(favs)
    ensures NoDuplicates(ToggleFavorite(favs, id))
  {
    if id in favs {
      WithoutKeepsNoDuplicates(favs, id);
    }
  }
}
