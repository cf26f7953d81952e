/** The run-wide configuration, built once and passed to every component,
    and the fixed paths of the project tree (all relative to the project root). */
module Config {
  import opened FileSystem

  datatype Settings = Settings(
    copyAssets: bool,
    useGigFolders: bool,      // per-record output folders
    screenshotSubfolder: string,
    screenshotFormat: string,
    screenshotQuality: nat,
    viewportWidth: nat,
    viewportHeight: nat)
  {
    /** The environment fallbacks never leave the sub-folder name empty. */
    predicate Valid() {
      screenshotSubfolder != ""
    }
  }

  const Output: Path := ["output"]
  const Images: Path := ["assets", "images"]
  const Logos: Path := ["assets", "logos"]

  /** The folder `assets/images` is copied into, below an output scope. */
  function AssetsBelow(scope: Path): Path {
    scope + ["assets", "images"]
  }
}
