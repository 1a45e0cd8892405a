/** The format registry of confconv/converters.py: which converter serves
    each format tag, and which extension an output file of that format gets. */
module Formats {

  /** The converter classes; `yaml` and `yml` share YAMLConverter. */
  datatype Converter = YAMLConverter | JSONConverter | TOMLConverter | INIConverter

  /** Whether a converter failed while loading (parsing) or dumping (exporting);
      together with the converter it fixes the prefix of the error message. */
  datatype Direction = Parsing | Exporting

  const CONVERTERS: map<string, Converter> := map[
    "yaml" := YAMLConverter,
    "yml" := YAMLConverter,
    "json" := JSONConverter,
    "toml" := TOMLConverter,
    "ini" := INIConverter
  ]

  const EXTENSIONS: map<string, string> := map[
    "yaml" := ".yaml",
    "yml" := ".yml",
    "json" := ".json",
    "toml" := ".toml",
    "ini" := ".ini"
  ]

  /** Both tables are keyed by the same five format tags. */
  lemma RegistryKeys()
    ensures CONVERTERS.Keys == EXTENSIONS.Keys == {"yaml", "yml", "json", "toml", "ini"}
  {
  }

  /** The extension of every format is a dot followed by the tag itself. */
  lemma ExtensionIsDotFormat()
    ensures forall f :: f in EXTENSIONS ==> EXTENSIONS[f] == "." + f
  {
  }

  /** Different formats get different extensions, so an output file name
      determines the format it was written in. */
  lemma ExtensionsDistinct()
    ensures forall f, g :: f in EXTENSIONS && g in EXTENSIONS && f != g ==> EXTENSIONS[f] != EXTENSIONS[g]
  {
    ExtensionIsDotFormat();
    forall f, g | f in EXTENSIONS && g in EXTENSIONS && EXTENSIONS[f] == EXTENSIONS[g]
      ensures f == g
    {
      assert f == EXTENSIONS[f][1..] && g == EXTENSIONS[g][1..];
    }
  }

  /** `yaml` and `yml` dispatch to the same converter; any other two
      different tags dispatch to different converters. */
  lemma SharedConverter()
    ensures forall f, g :: f in CONVERTERS && g in CONVERTERS ==>
      (CONVERTERS[f] == CONVERTERS[g] <==> f == g || (f in {"yaml", "yml"} && g in {"yaml", "yml"}))
  {
  }
}
