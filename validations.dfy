/** The three allow-lists the data validators check against (src/lib/validations.ts). */
module Validations {

  /** A motorcycle category as the allow-list records it: a name and an image URL. */
  datatype Category = Category(name: string, image: string)

  const ALLOWED_FEATURES: seq<string> := [
    "ABS (sistem antiblocare frâne)",
    "Mansoane încălzite",
    "Parbriz",
    "Șa încălzită",
    "Pilot automat",
    "Priză USB/12V",
    "Genți laterale",
    "Topcase",
    "Crash bar",
    "Suport telefon",
    "Navigație",
    "Bluetooth",
    "Sistem audio",
    "Keyless start",
    "Quickshifter/blipper",
    "TPMS",
    "Antifurt",
    "Imobilizator",
    "Evacuare sport",
    "Kit LED / DRL-uri personalizate",
    "Handguards (apărători mâini)",
    "Crash pads / frame sliders",
    "Bare protecție motor",
    "Scărițe reglabile"
  ]

  const ALLOWED_BRANDS: seq<string> := [
    "Yamaha",
    "Honda",
    "Suzuki",
    "Kawasaki",
    "BMW",
    "Ducati",
    "KTM",
    "Aprilia",
    "Triumph",
    "Harley-Davidson",
    "MV Agusta",
    "Benelli",
    "Moto Guzzi",
    "Indian",
    "Zero",
    "Energica",
    "Husqvarna",
    "Beta",
    "Sherco",
    "GasGas",
    "CFMOTO",
    "Kymco"
  ]

  const ALLOWED_CATEGORIES: seq<Category> := [
    Category("Sport", "https://images.pexels.com/photos/595807/pexels-photo-595807.jpeg"),
    Category("Touring", "https://images.pexels.com/photos/2519374/pexels-photo-2519374.jpeg"),
    Category("Cruiser", "https://images.pexels.com/photos/1413412/pexels-photo-1413412.jpeg"),
    Category("Adventure", "https://www.advpulse.com/wp-content/uploads/2016/04/Honda-XRE-300-a-561x373.jpg"),
    Category("Naked", "https://images.pexels.com/photos/1715193/pexels-photo-1715193.jpeg"),
    Category("Enduro", "https://images.pexels.com/photos/2611690/pexels-photo-2611690.jpeg"),
    Category("Scooter", "https://images.pexels.com/photos/2393835/pexels-photo-2393835.jpeg"),
    Category("Chopper", "https://images.pexels.com/photos/2393821/pexels-photo-2393821.jpeg")
  ]

  /** No entry occurs twice. */
  predicate NoDuplicates<T(==)>(s: seq<T>) {
    forall i, j :: 0 <= i < j < |s| ==> s[i] != s[j]
  }

  lemma AllowedFeaturesDistinct()
    ensures |ALLOWED_FEATURES| == 24 && NoDuplicates(ALLOWED_FEATURES)
  {
  }

  lemma AllowedBrandsDistinct()
    ensures |ALLOWED_BRANDS| == 22 && NoDuplicates(ALLOWED_BRANDS)
  {
  }

  /** Eight categories with distinct names, none with an empty name or image. */
  lemma AllowedCategoriesWellFormed()
    ensures |ALLOWED_CATEGORIES| == 8
    ensures forall i, j :: 0 <= i < j < |ALLOWED_CATEGORIES| ==> ALLOWED_CATEGORIES[i].name != ALLOWED_CATEGORIES[j].name
    ensures forall i :: 0 <= i < |ALLOWED_CATEGORIES| ==> ALLOWED_CATEGORIES[i].name != "" && ALLOWED_CATEGORIES[i].image != ""
  {
  }
}
