/** The sample shown by the icon preview (src/components/IconPreview.tsx),
    which looks icons up by key in a generated dictionary. */
module IconPreview {
  import opened IconCatalog
  import opened Canvas2D
  import opened IconGenerator

  /** One preview tile: caption, dictionary key and size caption. */
  datatype PreviewTile = PreviewTile(name: string, key: string, sizeLabel: string)

  const PreviewTiles: seq<PreviewTile> := [
    PreviewTile("Android MDPI", "android-48", "48px"),
    PreviewTile("Android XHDPI", "android-96", "96px"),
    PreviewTile("iOS App Store", "ios-1024", "1024px"),
    PreviewTile("iOS iPhone", "ios-60", "60px"),
    PreviewTile("macOS", "macos-512", "512px"),
    PreviewTile("macOS Small", "macos-32", "32px")
  ]

  /** The catalog step whose key each tile asks for. */
  lemma TileKeys()
    ensures PreviewTiles[0].key == TargetKey(Catalog[0])
    ensures PreviewTiles[1].key == TargetKey(Catalog[2])
    ensures PreviewTiles[2].key == TargetKey(Catalog[18])
    ensures PreviewTiles[3].key == TargetKey(Catalog[9])
    ensures PreviewTiles[4].key == TargetKey(Catalog[24])
    ensures PreviewTiles[5].key == TargetKey(Catalog[20])
  {
    CatalogAt(Android, 0);
    CatalogAt(Android, 2);
    CatalogAt(IOS, 13);
    CatalogAt(IOS, 4);
    CatalogAt(MacOS, 5);
    CatalogAt(MacOS, 1);
  }

  /** Every key the preview looks up is present in every generated dictionary. */
  lemma PreviewKeysPresent(source: SourceImage)
    ensures forall i :: 0 <= i < |PreviewTiles| ==> PreviewTiles[i].key in IconSet(source)
  {
    var icons := IconSet(source);
    TileKeys();
    CatalogLength();
    forall i | 0 <= i < |PreviewTiles| ensures PreviewTiles[i].key in icons {
      var step := [0, 2, 18, 9, 24, 20][i];
      assert PreviewTiles[i].key == TargetKey(Catalog[step]) by {
        // One case per tile, so that each meets its own clause of TileKeys.
        if i == 0 {} else if i == 1 {} else if i == 2 {} else if i == 3 {} else if i == 4 {} else {}
      }
      StepKeyPresent(source, step);
    }
  }
}
