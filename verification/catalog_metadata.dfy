/** The vocabulary every reader of the catalog shares (`native/src/catalog_metadata.rs`). */
module CatalogMetadata {
  import opened Wrappers

  datatype System = Nes | Gb | Gbc | Gba | Zx | Deck

  function ParseSystem(s: string): Option<System> {
    if s == "nes" then Some(Nes)
    else if s == "gb" then Some(Gb)
    else if s == "gbc" then Some(Gbc)
    else if s == "gba" then Some(Gba)
    else if s == "zx" then Some(Zx)
    else if s == "deck" then Some(Deck)
    else None
  }

  function RomSuffix(s: System): string {
    match s
    case Nes => ".nes"
    case Gb => ".gb"
    case Gbc => ".gbc"
    case Gba => ".gba"
    case Zx => ".tap"
    case Deck => ""
  }
}
