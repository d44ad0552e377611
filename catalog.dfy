/**
 The fixed data of the mixer: the ten catalogued tracks as they are at start-up,
 the four presets, and the base tone frequency each track is synthesised at.
 */
module Catalog {
  import opened Tracks

  /** The identifiers of the catalogued tracks, in catalog order. */
  const CatalogIds: seq<string> :=
    ["rain", "ocean", "forest", "wind", "fire", "birds", "alpha", "theta", "story1", "meditation"]

  /** The track list at start-up: nothing playing, each at its default volume. */
  function InitialTracks(): (ts: seq<Track>)
    ensures |ts| == |CatalogIds| && UniqueIds(ts) && NonePlaying(ts)
    ensures forall i :: 0 <= i < |ts| ==> ts[i].id == CatalogIds[i]
    ensures forall i :: 0 <= i < |ts| ==> 0 <= ts[i].volume <= 100
  {
    [ Track("rain", Nature, false, 70),
      Track("ocean", Nature, false, 70),
      Track("forest", Nature, false, 70),
      Track("wind", Nature, false, 60),
      Track("fire", Nature, false, 65),
      Track("birds", Nature, false, 55),
      Track("alpha", Frequencies, false, 50),
      Track("theta", Frequencies, false, 50),
      Track("story1", Stories, false, 80),
      Track("meditation", Stories, false, 75) ]
  }

  const ForestRain := Preset("forest_rain", ["rain", "forest", "birds"],
                             map["rain" := 70, "forest" := 50, "birds" := 30])
  const OceanMeditation := Preset("ocean_meditation", ["ocean", "alpha"],
                                  map["ocean" := 60, "alpha" := 40])
  const NatureMix := Preset("nature_mix", ["wind", "fire", "birds"],
                            map["wind" := 45, "fire" := 65, "birds" := 35])
  const Relaxation := Preset("relaxation", ["theta", "story1"],
                             map["theta" := 45, "story1" := 70])

  /** The preset grid, in display order. */
  function Presets(): (ps: seq<Preset>)
    ensures |ps| == 4
    ensures forall i :: 0 <= i < |ps| ==> WellFormedPreset(ps[i])
  {
    [ForestRain, OceanMeditation, NatureMix, Relaxation]
  }

  /** A preset names only catalogued tracks and gives each of them a volume in 1..100. */
  predicate WellFormedPreset(p: Preset) {
    forall k :: 0 <= k < |p.tracks| ==>
      p.tracks[k] in CatalogIds && p.tracks[k] in p.volumes && 0 < p.volumes[p.tracks[k]] <= 100
  }

  /** The base frequency (Hz) of a track's synthesised placeholder tone; 440 by default. */
  function Frequency(id: string): (hz: nat)
    ensures 6 <= hz <= 800
    ensures id !in CatalogIds ==> hz == 440
  {
    match id
    case "rain" => 200
    case "ocean" => 150
    case "forest" => 300
    case "wind" => 100
    case "fire" => 250
    case "birds" => 800
    case "alpha" => 10
    case "theta" => 6
    case "story1" => 440
    case "meditation" => 528
    case _ => 440
  }

  /** Applying "forest_rain" to the start-up list plays rain, forest and birds at
      70, 50 and 30 and nothing else, every other volume unchanged. */
  lemma ForestRainFromStart()
    ensures ApplyPreset(InitialTracks(), ForestRain) ==
      [ Track("rain", Nature, true, 70),
        Track("ocean", Nature, false, 70),
        Track("forest", Nature, true, 50),
        Track("wind", Nature, false, 60),
        Track("fire", Nature, false, 65),
        Track("birds", Nature, true, 30),
        Track("alpha", Frequencies, false, 50),
        Track("theta", Frequencies, false, 50),
        Track("story1", Stories, false, 80),
        Track("meditation", Stories, false, 75) ]
  {
  }

  /** Every preset of the grid starts each of its tracks at exactly the table volume
      (no table entry is missing or 0, so the fallback never applies). */
  lemma PresetsSetTableVolumes(ts: seq<Track>, k: nat)
    requires k < |Presets()|
    ensures var p := Presets()[k];
      var r := ApplyPreset(ts, p);
      forall i :: 0 <= i < |ts| && ts[i].id in p.tracks ==>
        r[i].isPlaying && r[i].volume == p.volumes[ts[i].id] && 0 < r[i].volume <= 100
  {
  }

  /** A preset leaves several tracks playing, with mix mode on; switching mix mode off
      afterwards stops none of them, so "at most one track plays without mix mode"
      does not hold in every reachable state. */
  lemma PresetThenMixOffBreaksExclusive()
    ensures !AtMostOnePlaying(ApplyPreset(InitialTracks(), ForestRain))
  {
    ForestRainFromStart();
    var r := ApplyPreset(InitialTracks(), ForestRain);
    assert r[0].isPlaying && r[2].isPlaying;
  }
}
