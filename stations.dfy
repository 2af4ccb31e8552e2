/** The fixed station catalog of the Amsterdam metro guessing game and the zoom
    constants the round reads (src/data/stations.ts). */
module Stations {
  import opened Text

  /** A position as `[longitude, latitude]`; the game only copies it into the view. */
  datatype Coordinates = Coordinates(longitude: real, latitude: real)

  datatype MetroStation = MetroStation(id: string, name: string, coordinates: Coordinates)

  const MetroStations: seq<MetroStation> := [
    MetroStation("1", "Amsterdam Centraal", Coordinates(4.900272, 52.379189)),
    MetroStation("2", "Weesperplein", Coordinates(4.907678, 52.362907)),
    MetroStation("3", "Amsterdam Zuid", Coordinates(4.871722, 52.338958)),
    MetroStation("4", "Amsterdam Bijlmer ArenA", Coordinates(4.947221, 52.312222)),
    MetroStation("5", "Amsterdam Amstel", Coordinates(4.917778, 52.346944)),
    MetroStation("6", "Waterlooplein", Coordinates(4.903333, 52.367778)),
    MetroStation("7", "Nieuwmarkt", Coordinates(4.900278, 52.371944)),
    MetroStation("8", "Van der Madeweg", Coordinates(4.933889, 52.326944))
  ]

  /** Zoom at the start of a round. */
  const InitialZoom: int := 16
  /** Zoom-out applied after each non-final wrong guess. */
  const ZoomDecrease: int := 1
  /** Zoom never goes below this. */
  const MinZoom: int := 13

  /** Eight stations: the catalog is non-empty, so a selection index in [0, 8) exists. */
  lemma CatalogSize()
    ensures |MetroStations| == 8
    ensures |MetroStations| > 0
  {
  }

  /** Station ids are pairwise distinct; they key the guess buttons. */
  lemma IdsDistinct()
    ensures forall i, j :: 0 <= i < j < |MetroStations| ==> MetroStations[i].id != MetroStations[j].id
  {
  }

  /** Station names have pairwise distinct lengths. */
  lemma NameLengthsDistinct()
    ensures forall i, j :: 0 <= i < j < |MetroStations| ==>
      |MetroStations[i].name| != |MetroStations[j].name|
  {
    var lengths := [18, 12, 14, 23, 16, 13, 10, 15];
    assert forall i :: 0 <= i < |MetroStations| ==> |MetroStations[i].name| == lengths[i];
  }

  /** Station names are pairwise distinct even after lower-casing: their lengths
      already differ, and lower-casing keeps the length. */
  lemma NamesDistinctIgnoringCase()
    ensures forall i, j :: 0 <= i < j < |MetroStations| ==>
      !IsMatch(MetroStations[i].name, MetroStations[j].name)
  {
    NameLengthsDistinct();
    forall i, j | 0 <= i < j < |MetroStations|
      ensures !IsMatch(MetroStations[i].name, MetroStations[j].name)
    {
      var a, b := MetroStations[i].name, MetroStations[j].name;
      if IsMatch(a, b) {
        MatchNeedsEqualLength(a, b);
      }
    }
  }

  /** The zoom constants leave room above the floor, and each zoom-out strictly
      lowers the zoom. */
  lemma ZoomConstants()
    ensures MinZoom <= InitialZoom
    ensures ZoomDecrease > 0
  {
  }
}
