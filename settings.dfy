/** The plugin settings that option parsing and rendering read (settings.ts). */
module PluginSettings {
  import opened Wrappers

  /** Colours of one terrain type and its optional icon name. */
  datatype TerrainSettings = TerrainSettings(fg: string, bg: string, icon: Option<string>)

  /** The user's settings. Numbers are finite, as the settings store them. */
  datatype Settings = Settings(
    orientation: string,
    offset: string,
    terrainKey: string,
    iconKey: string,
    size: real,
    margin: real,
    coordOffset: real,
    coordSize: real,
    iconSize: real,
    terrainIconSize: real,
    terrain: map<string, TerrainSettings>,
    riverWidth: real,
    riverColour: string)
}
