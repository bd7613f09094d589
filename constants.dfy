/** The package's static configuration: identifiers, licence, provider, colour map and class labels. */
module Constants {

  const LandcoverId: string := "nrcan-landcover"
  const LandcoverEpsg: int := 3978
  const LandcoverTitle: string := "Land Cover of Canada - Cartographic Product Collection"
  const License: string := "OGL-Canada-2.0"

  datatype Link = Link(rel: string, target: string, title: string)

  const LicenseLink: Link := Link(
    "license",
    "https://open.canada.ca/en/open-government-licence-canada",
    "Open Government Licence - Canada")

  const Description: string :=
    "Collection of Land Cover products for Canada as produced by Natural Resources Canada using Landsat satellite imagery. This collection of cartographic products offers classified Land Cover of Canada at a 30 metre scale, updated on a 5 year basis."

  datatype ProviderRole = Producer | Processor | Host

  datatype Provider = Provider(name: string, roles: seq<ProviderRole>, url: string)

  const NrcanProvider: Provider := Provider(
    "Natural Resources Canada | Ressources naturelles Canada",
    [Producer, Processor, Host],
    "https://www.nrcan.gc.ca/maps-tools-publications/satellite-imagery-air-photos/application-development/land-cover/21755")

  /** The default metadata source. */
  const JsonldHref: string := "https://open.canada.ca/data/en/dataset/4e615eae-b90c-420b-adee-2ca35896caf6.jsonld"

  const NrcanFtp: string := "http://ftp.maps.canada.ca/pub/nrcan_rncan/Land-cover_Couverture-du-sol/canada-landcover_canada-couverture-du-sol/CanadaLandcover2015.zip"

  /** A colour-map entry: red, green, blue, alpha. */
  datatype Rgba = Rgba(r: int, g: int, b: int, a: int)

  /** The palette `create_cog` writes to band 1 of every COG: class value to colour. */
  const ColourMap: map<int, Rgba> := map[
    0 := Rgba(0, 0, 0, 0),
    1 := Rgba(0, 61, 0, 255),
    2 := Rgba(147, 155, 112, 255),
    5 := Rgba(20, 140, 61, 255),
    6 := Rgba(91, 117, 43, 255),
    8 := Rgba(178, 137, 51, 255),
    10 := Rgba(224, 206, 137, 255),
    11 := Rgba(155, 117, 137, 255),
    12 := Rgba(186, 211, 84, 255),
    13 := Rgba(63, 137, 114, 255),
    14 := Rgba(107, 163, 137, 255),
    15 := Rgba(229, 173, 102, 255),
    16 := Rgba(168, 170, 173, 255),
    17 := Rgba(219, 33, 38, 155),
    18 := Rgba(76, 112, 163, 255),
    19 := Rgba(255, 249, 255, 255)
  ]

  /** The land-cover classes: class value to label. */
  const ClassificationValues: map<int, string> := map[
    1 := "Temperate or sub-polar needleleaf forest",
    2 := "Sub-polar taiga needleleaf forest",
    5 := "Temperate or sub-polar broadleaf deciduous forest",
    6 := "Mixed forest",
    8 := "Temperate or sub-polar shrubland",
    10 := "Temperate or sub-polar grassland",
    11 := "Sub-polar or polar shrubland-lichen-moss",
    12 := "Sub-polar or polar grassland-lichen-moss",
    13 := "Sub-polar or polar barren-lichen-moss",
    14 := "Wetland",
    15 := "Cropland",
    16 := "Barren lands",
    17 := "Urban",
    18 := "Water",
    19 := "Snow and Ice"
  ]

  /** The class values, in ascending order. */
  const ClassValues: seq<int> := [1, 2, 5, 6, 8, 10, 11, 12, 13, 14, 15, 16, 17, 18, 19]

  predicate IsByte(v: int) { 0 <= v <= 255 }

  /** Value 0 is the transparent background, not a class. */
  lemma BackgroundIsTransparent()
    ensures 0 in ColourMap && ColourMap[0] == Rgba(0, 0, 0, 0)
    ensures 0 !in ClassificationValues
  {
  }

  /** Every class has a colour, and the only colour without a class is the background. */
  lemma ClassesAreColouredValues()
    ensures ClassificationValues.Keys == ColourMap.Keys - {0}
    ensures ClassificationValues.Keys == set v | v in ClassValues
  {
  }

  /** 15 classes and 16 colours. */
  lemma TableSizes()
    ensures |ClassificationValues| == 15
    ensures |ColourMap| == 16
  {
    ClassesAreColouredValues();
    ClassValuesIncrease();
    DistinctSize(ClassValues);
    assert ColourMap.Keys == ClassificationValues.Keys + {0};
  }

  lemma ClassValuesIncrease()
    ensures forall i, j :: 0 <= i < j < |ClassValues| ==> ClassValues[i] < ClassValues[j]
  {
  }

  lemma {:induction false} DistinctSize(s: seq<int>)
    requires forall i, j :: 0 <= i < j < |s| ==> s[i] < s[j]
    ensures |set v | v in s| == |s|
  {
    if s != [] {
      var last := s[|s| - 1];
      var init := s[..|s| - 1];
      DistinctSize(init);
      assert (set v | v in s) == (set v | v in init) + {last};
      assert last !in (set v | v in init);
    }
  }

  /** Every colour component is a byte; every class is opaque except Urban (17), drawn at alpha 155. */
  lemma ColoursAreBytesAndAlphaRule()
    ensures forall v :: v in ColourMap ==>
      IsByte(ColourMap[v].r) && IsByte(ColourMap[v].g) && IsByte(ColourMap[v].b) && IsByte(ColourMap[v].a)
    ensures forall v :: v in ColourMap && v != 0 ==> ColourMap[v].a == (if v == 17 then 155 else 255)
  {
  }
}
