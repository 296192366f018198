/** The exclusion-region configuration: a `global` region list for every file,
    which a `specific_files` entry for a file's basename replaces outright. */
module Config {
  import opened Common
  import opened Paths
  import opened Regions

  /** A JSON object that may carry a `regions` list. */
  datatype Section = Section(regions: Option<seq<RegionEntry>>)

  /** A parsed configuration: the optional `global` object and the optional
      `specific_files` object, keyed by base file name. */
  datatype ConfigData = ConfigData(global: Option<Section>, specificFiles: Option<map<string, Section>>)

  /** The configuration used when no file is loaded: an empty global list and no file entries. */
  function Default(): ConfigData {
    ConfigData(Some(Section(Some([]))), Some(map[]))
  }

  /** The region objects that apply to `filename`. */
  function RegionsForFile(config: ConfigData, filename: string): seq<RegionEntry> {
    var regions :=
      if config.global.Some? && config.global.value.regions.Some?
      then config.global.value.regions.value else [];
    var basename := Basename(filename);
    if config.specificFiles.Some? && basename in config.specificFiles.value
       && config.specificFiles.value[basename].regions.Some?
    then config.specificFiles.value[basename].regions.value
    else regions
  }

  /** Without a loaded file, no file has any region. */
  lemma DefaultHasNoRegions(filename: string)
    ensures RegionsForFile(Default(), filename) == []
  {
  }

  /** A file without a `specific_files` entry gets the global list, or nothing
      when there is no global list. */
  lemma NoEntryUsesGlobal(config: ConfigData, filename: string)
    requires config.specificFiles.None? || Basename(filename) !in config.specificFiles.value
    ensures RegionsForFile(config, filename)
         == if config.global.Some? && config.global.value.regions.Some?
            then config.global.value.regions.value else []
  {
  }

  /** An entry that has a `regions` key replaces the global list entirely. */
  lemma EntryReplacesGlobal(config: ConfigData, filename: string, regions: seq<RegionEntry>)
    requires config.specificFiles.Some? && Basename(filename) in config.specificFiles.value
    requires config.specificFiles.value[Basename(filename)].regions == Some(regions)
    ensures RegionsForFile(config, filename) == regions
  {
  }

  /** An empty file-specific list means no regions, even when the global list has some. */
  lemma EmptyEntryMasksNothing(config: ConfigData, filename: string)
    requires config.global.Some? && config.global.value.regions.Some?
    requires config.global.value.regions.value != []
    requires config.specificFiles.Some? && Basename(filename) in config.specificFiles.value
    requires config.specificFiles.value[Basename(filename)].regions == Some([])
    ensures RegionsForFile(config, filename) == []
  {
  }

  /** An entry without a `regions` key falls back to the global list. */
  lemma EntryWithoutRegionsUsesGlobal(config: ConfigData, filename: string)
    requires config.specificFiles.Some? && Basename(filename) in config.specificFiles.value
    requires config.specificFiles.value[Basename(filename)].regions.None?
    ensures RegionsForFile(config, filename)
         == if config.global.Some? && config.global.value.regions.Some?
            then config.global.value.regions.value else []
  {
  }

  /** The lookup sees only the basename: two paths with the same basename get the same regions. */
  lemma SameBasenameSameRegions(config: ConfigData, path1: string, path2: string)
    requires Basename(path1) == Basename(path2)
    ensures RegionsForFile(config, path1) == RegionsForFile(config, path2)
  {
  }

  /** A file found inside a directory is looked up by its bare name. */
  lemma FileInDirectoryUsesItsName(config: ConfigData, dir: string, name: string)
    requires '/' !in name
    ensures RegionsForFile(config, Join(dir, name)) == RegionsForFile(config, name)
  {
    BasenameOfJoin(dir, name);
    BasenameOfJoin("", name);
    assert Join("", name) == name;
    SameBasenameSameRegions(config, Join(dir, name), name);
  }
}
