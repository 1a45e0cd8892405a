/** The converters of confconv/converters.py. The YAML, JSON and TOML
    converters forward to third-party libraries, which the model takes as
    parameters. The INI converter builds its result itself; it is modelled
    together with the part of configparser.ConfigParser it drives
    (`__setitem__` and `write`), while the parser's grammar and its option
    name and value checks stay abstract. */
module Converters {
  import opened Wrappers
  import opened Documents
  import opened Formats
  import opened Errors

  type SectionItems = seq<(string, string)>

  /** The library calls the converters forward to. `iniRead` stands for
      `ConfigParser.read_string` followed by listing every section with its
      options in order (`config.sections()` and `dict(config[section])`). */
  datatype Library = Library(
    yamlLoad: string -> Result<Document, string>,
    yamlDump: Document -> Result<string, string>,
    jsonLoad: string -> Result<Document, string>,
    jsonDump: Document -> Result<string, string>,
    tomlLoad: string -> Result<Document, string>,
    tomlDump: Document -> Result<string, string>,
    iniRead: string -> Result<seq<(string, SectionItems)>, string>)

  /** The `try`/`except Exception` around every load and dump: any failure
      becomes a ConversionError whose message names the converter and the
      direction, followed by the original cause. */
  function Guarded<T>(c: Converter, direction: Direction, outcome: Result<T, Cause>): Result<T, Exception>
  {
    match outcome
    case Ok(v) => Ok(v)
    case Err(cause) => Err(ConversionError(Conversion(c, direction, cause)))
  }

  function FromLibrary<T>(outcome: Result<T, string>): Result<T, Cause>
  {
    match outcome
    case Ok(v) => Ok(v)
    case Err(text) => Err(LibraryError(text))
  }

  // ----- INIConverter.load -----

  /** One section's options as a dict of strings. */
  function Table(items: SectionItems): (d: Document)
  {
    Mapping(seq(|items|, j requires 0 <= j < |items| => (Str(items[j].0), Str(items[j].1))))
  }

  /** The dict comprehension `{section: dict(config[section]) for section in config.sections()}`. */
  function SectionsDocument(sections: seq<(string, SectionItems)>): (d: Document)
    ensures TwoLevelStrings(d) && |d.entries| == |sections|
  {
    Mapping(seq(|sections|, i requires 0 <= i < |sections| => (Str(sections[i].0), Table(sections[i].1))))
  }

  /** A dict whose keys are strings and whose values are dicts of strings. */
  predicate TwoLevelStrings(d: Document)
  {
    && d.Mapping?
    && (forall i :: 0 <= i < |d.entries| ==> d.entries[i].0.Str? && d.entries[i].1.Mapping?)
    && (forall i, j :: 0 <= i < |d.entries| && 0 <= j < |d.entries[i].1.entries| ==>
          d.entries[i].1.entries[j].0.Str? && d.entries[i].1.entries[j].1.Str?)
  }

  function Load(lib: Library, c: Converter, content: string): (r: Result<Document, Exception>)
    ensures r.Err? ==>
      r.error.ConversionError? && r.error.message.Conversion? &&
      r.error.message.converter == c && r.error.message.direction == Parsing
    ensures c == INIConverter ==> (r.Ok? <==> lib.iniRead(content).Ok?)
  {
    match c
    case YAMLConverter => Guarded(c, Parsing, FromLibrary(lib.yamlLoad(content)))
    case JSONConverter => Guarded(c, Parsing, FromLibrary(lib.jsonLoad(content)))
    case TOMLConverter => Guarded(c, Parsing, FromLibrary(lib.tomlLoad(content)))
    case INIConverter =>
      match lib.iniRead(content)
      case Ok(sections) => Ok(SectionsDocument(sections))
      case Err(text) => Guarded(c, Parsing, Err(LibraryError(text)))
  }

  /** INI load yields one entry per section, in the parser's order, each
      mapping the section's option names to their string values. */
  lemma IniLoadShape(lib: Library, content: string)
    requires lib.iniRead(content).Ok?
    ensures var sections := lib.iniRead(content).value;
      && Load(lib, INIConverter, content).Ok?
      && var d := Load(lib, INIConverter, content).value;
      && TwoLevelStrings(d)
      && |d.entries| == |sections|
      && forall i :: 0 <= i < |sections| ==>
           && d.entries[i].0 == Str(sections[i].0)
           && |d.entries[i].1.entries| == |sections[i].1|
           && forall j :: 0 <= j < |sections[i].1| ==>
                d.entries[i].1.entries[j] == (Str(sections[i].1[j].0), Str(sections[i].1[j].1))
  {
  }

  // ----- configparser.ConfigParser, as far as INIConverter.dump uses it -----

  const DEFAULT_SECTION := "DEFAULT"

  /** The contents of a ConfigParser: the options of its DEFAULT section and
      its other sections by name. */
  datatype IniConfig = IniConfig(defaults: map<string, string>, sections: map<string, map<string, string>>)

  const EMPTY_CONFIG := IniConfig(map[], map[])

  /** `config[key] = values`, for a key that prints as `name`. Only a str
      key can equal "DEFAULT" or an existing section name, so only a str key
      (`clears`) replaces the old contents; any other key is merged into the
      section of that name. Options set for the section named "" land in
      the defaults. */
  function SetSection(config: IniConfig, name: string, clears: bool, values: map<string, string>): (r: IniConfig)
    ensures name == DEFAULT_SECTION ==> r.sections == config.sections
    ensures name != DEFAULT_SECTION ==> r.sections.Keys == config.sections.Keys + {name}
    ensures clears && name !in {DEFAULT_SECTION, ""} ==> r.sections[name] == values && r.defaults == config.defaults
    ensures clears && name == DEFAULT_SECTION ==> r.defaults == values
  {
    if name == DEFAULT_SECTION then
      IniConfig((if clears then map[] else config.defaults) + values, config.sections)
    else if name == "" then
      IniConfig(config.defaults + values, config.sections[name := map[]])
    else
      var kept := if clears || name !in config.sections then map[] else config.sections[name];
      IniConfig(config.defaults, config.sections[name := kept + values])
  }

  /** Assigning one section leaves every section of another name alone. */
  lemma SetSectionKeepsOthers(config: IniConfig, name: string, clears: bool, values: map<string, string>, other: string)
    requires other in config.sections && other != name
    ensures other in SetSection(config, name, clears, values).sections
    ensures SetSection(config, name, clears, values).sections[other] == config.sections[other]
  {
  }

  class ConfigParser {
    var defaults: map<string, string>
    var sections: map<string, map<string, string>>

    function Config(): IniConfig
      reads this
    {
      IniConfig(defaults, sections)
    }

    constructor()
      ensures Config() == EMPTY_CONFIG
    {
      defaults := map[];
      sections := map[];
    }

    /** `__setitem__`: clear what the key names, then `read_dict({key: values})`. */
    method SetItem(key: Document, values: map<string, string>)
      modifies this
      ensures Config() == SetSection(old(Config()), Render(key), key.Str?, values)
    {
      var name := Render(key);
      if name == DEFAULT_SECTION {
        // a str key clears the defaults; add_section refuses the name and
        // the options are set in the defaults
        var kept := if key.Str? then map[] else defaults;
        defaults := kept + values;
      } else if name == "" {
        // add_section creates the section, but `set` stores the options of
        // a section with an empty name in the defaults
        sections := sections[name := map[]];
        defaults := defaults + values;
      } else {
        // a str key clears an existing section; add_section creates a
        // missing one; the options are then set in it
        var kept := if key.Str? || name !in sections then map[] else sections[name];
        sections := sections[name := kept + values];
      }
    }

    /** `write(fp)`: the DEFAULT section first, if it has options, then
        every section. Writing succeeds on any text stream; on a list it
        succeeds exactly when there is nothing to write, and then leaves
        the list as it was. */
    method Write(fp: Sink) returns (r: Result<Sink, Cause>)
      ensures r.Ok? <==> fp.TextStream? || Config() == EMPTY_CONFIG
      ensures r.Err? ==> r.error == MissingAttribute("list", "write")
      ensures r.Ok? && fp.PyList? ==> r.value == fp
      ensures r.Ok? && fp.TextStream? ==> r.value.TextStream? && fp.text <= r.value.text
    {
      var out := fp;
      if defaults != map[] {
        r := WriteSection(out, DEFAULT_SECTION, defaults);
        if r.Err? {
          return;
        }
        out := r.value;
      }
      var pending := sections.Keys;
      while pending != {}
        invariant pending <= sections.Keys
        invariant out.PyList? <==> fp.PyList?
        invariant out.PyList? ==> out == fp && defaults == map[] && pending == sections.Keys
        invariant out.TextStream? ==> fp.text <= out.text
        decreases pending
      {
        var name :| name in pending;
        r := WriteSection(out, name, sections[name]);
        if r.Err? {
          return;
        }
        out := r.value;
        pending := pending - {name};
      }
      return Ok(out);
    }
  }

  /** The file object handed to `write`: a Python list, which has no
      `write` method, or a text stream such as `io.StringIO`. */
  datatype Sink = PyList(items: seq<string>) | TextStream(text: string)

  /** `fp.write(text)`. */
  function Put(fp: Sink, text: string): Result<Sink, Cause>
  {
    match fp
    case PyList(_) => Err(MissingAttribute("list", "write"))
    case TextStream(t) => Ok(TextStream(t + text))
  }

  /** An option value as written: continuation lines are indented by a tab. */
  function Indented(value: string): string
  {
    if value == "" then ""
    else (if value[0] == '\n' then "\n\t" else [value[0]]) + Indented(value[1..])
  }

  /** `_write_section`: the header, one line per option, then a blank line.
      The very first `fp.write` is the header's. */
  method WriteSection(fp: Sink, name: string, options: map<string, string>) returns (r: Result<Sink, Cause>)
    ensures r.Ok? <==> fp.TextStream?
    ensures r.Err? ==> r.error == MissingAttribute("list", "write")
    ensures r.Ok? ==> fp.TextStream? && r.value.TextStream? && fp.text <= r.value.text
  {
    r := Put(fp, "[" + name + "]\n");
    if r.Err? {
      return;
    }
    var out := r.value;
    var pending := options.Keys;
    while pending != {}
      invariant pending <= options.Keys
      invariant out.TextStream? && fp.TextStream? && fp.text <= out.text
      decreases pending
    {
      var key :| key in pending;
      r := Put(out, key + " = " + Indented(options[key]) + "\n");
      out := r.value;
      pending := pending - {key};
    }
    r := Put(out, "\n");
  }

  /** `''.join(parts)`. */
  function Concat(parts: seq<string>): string
  {
    if parts == [] then "" else parts[0] + Concat(parts[1..])
  }

  // ----- INIConverter.dump -----

  /** The dict comprehension `{str(k): str(v) for k, v in values.items()}`:
      a later entry whose key prints the same overrides an earlier one. */
  function Stringify(entries: seq<(Document, Document)>): (r: map<string, string>)
    ensures |r| <= |entries|
  {
    if entries == [] then map[]
    else
      var n := |entries| - 1;
      Stringify(entries[..n])[Render(entries[n].0) := Render(entries[n].1)]
  }

  function PrintedKeys(entries: seq<(Document, Document)>): set<string>
  {
    set i | 0 <= i < |entries| :: Render(entries[i].0)
  }

  lemma PrintedKeysSnoc(entries: seq<(Document, Document)>)
    requires entries != []
    ensures PrintedKeys(entries) == PrintedKeys(entries[..|entries| - 1]) + {Render(entries[|entries| - 1].0)}
  {
    var n := |entries| - 1;
    forall k | k in PrintedKeys(entries)
      ensures k in PrintedKeys(entries[..n]) + {Render(entries[n].0)}
    {
      var i :| 0 <= i < |entries| && k == Render(entries[i].0);
      if i < n {
        assert entries[..n][i] == entries[i];
      }
    }
    forall k | k in PrintedKeys(entries[..n])
      ensures k in PrintedKeys(entries)
    {
      var i :| 0 <= i < n && k == Render(entries[..n][i].0);
      assert entries[..n][i] == entries[i];
    }
  }

  /** The coerced dict has exactly the printed keys. */
  lemma {:induction false} StringifyKeys(entries: seq<(Document, Document)>)
    ensures Stringify(entries).Keys == PrintedKeys(entries)
  {
    if entries != [] {
      var n := |entries| - 1;
      StringifyKeys(entries[..n]);
      PrintedKeysSnoc(entries);
    }
  }

  /** Every value is str() of the value of the last entry with that printed key. */
  lemma {:induction false} StringifyValue(entries: seq<(Document, Document)>, i: nat)
    requires i < |entries|
    requires forall j :: i < j < |entries| ==> Render(entries[j].0) != Render(entries[i].0)
    ensures Render(entries[i].0) in Stringify(entries)
    ensures Stringify(entries)[Render(entries[i].0)] == Render(entries[i].1)
  {
    var n := |entries| - 1;
    if i < n {
      assert entries[..n][i] == entries[i];
      forall j | i < j < n
        ensures Render(entries[..n][j].0) != Render(entries[..n][i].0)
      {
        assert entries[..n][j] == entries[j];
      }
      StringifyValue(entries[..n], i);
    }
  }

  predicate SectionsAreMappings(entries: seq<(Document, Document)>)
  {
    forall i :: 0 <= i < |entries| ==> entries[i].1.Mapping?
  }

  /** The first section whose value has no `items`. */
  function FirstNonMapping(entries: seq<(Document, Document)>): (r: Option<nat>)
    ensures r.None? <==> SectionsAreMappings(entries)
    ensures r.Some? ==> r.value < |entries| && !entries[r.value].1.Mapping? && SectionsAreMappings(entries[..r.value])
  {
    if entries == [] then None
    else if !entries[0].1.Mapping? then Some(0)
    else match FirstNonMapping(entries[1..])
      case None => None
      case Some(k) =>
        assert entries[..k + 1] == [entries[0]] + entries[1..][..k];
        Some(k + 1)
  }

  /** The parser after the loop has assigned every section of `entries`. */
  function ConfigAfter(entries: seq<(Document, Document)>): (r: IniConfig)
    requires SectionsAreMappings(entries)
    ensures DEFAULT_SECTION !in r.sections
  {
    if entries == [] then EMPTY_CONFIG
    else
      var n := |entries| - 1;
      SetSection(ConfigAfter(entries[..n]), Render(entries[n].0), entries[n].0.Str?, Stringify(entries[n].1.entries))
  }

  /** What INIConverter.dump does before its `except`: `data.items()` and
      `values.items()` fail on anything but a dict, and otherwise the write
      to a list fails unless the parser is empty. */
  function IniDumped(data: Document): (r: Result<string, Cause>)
    ensures r.Ok? ==> r.value == ""
    ensures !data.Mapping? ==> r == Err(MissingAttribute(TypeName(data), "items"))
  {
    if !data.Mapping? then Err(MissingAttribute(TypeName(data), "items"))
    else match FirstNonMapping(data.entries)
      case Some(i) => Err(MissingAttribute(TypeName(data.entries[i].1), "items"))
      case None =>
        if ConfigAfter(data.entries) == EMPTY_CONFIG then Ok("")
        else Err(MissingAttribute("list", "write"))
  }

  /** The loop stops at the first section value that is not a dict. */
  lemma FirstNonMappingAt(entries: seq<(Document, Document)>, i: nat)
    requires i < |entries| && SectionsAreMappings(entries[..i]) && !entries[i].1.Mapping?
    ensures FirstNonMapping(entries) == Some(i)
  {
  }

  /** The sections before the last one are dicts too, and the parser after
      all of them is the parser after those with the last one assigned. */
  lemma ConfigAfterLast(entries: seq<(Document, Document)>)
    requires entries != [] && SectionsAreMappings(entries)
    ensures SectionsAreMappings(entries[..|entries| - 1])
    ensures var n := |entries| - 1;
      ConfigAfter(entries) == SetSection(ConfigAfter(entries[..n]), Render(entries[n].0), entries[n].0.Str?, Stringify(entries[n].1.entries))
  {
    var n := |entries| - 1;
    assert forall j :: 0 <= j < n ==> entries[..n][j] == entries[j];
  }

  /** One more turn of the loop assigns one more section. */
  lemma ConfigAfterSnoc(entries: seq<(Document, Document)>, i: nat)
    requires i < |entries| && SectionsAreMappings(entries[..i]) && entries[i].1.Mapping?
    ensures SectionsAreMappings(entries[..i + 1])
    ensures ConfigAfter(entries[..i + 1]) ==
      SetSection(ConfigAfter(entries[..i]), Render(entries[i].0), entries[i].0.Str?, Stringify(entries[i].1.entries))
  {
    var prefix := entries[..i + 1];
    assert prefix[..i] == entries[..i];
    assert forall j :: 0 <= j < i ==> prefix[j] == entries[..i][j];
    assert prefix[i] == entries[i];
    ConfigAfterLast(prefix);
  }

  /** When every section value is a dict, INI dump fails or not according
      to what the loop leaves in the parser. */
  lemma IniDumpedAfterLoop(data: Document)
    requires data.Mapping? && SectionsAreMappings(data.entries)
    ensures IniDumped(data) ==
      if ConfigAfter(data.entries) == EMPTY_CONFIG then Ok("") else Err(MissingAttribute("list", "write"))
  {
  }

  method IniDump(data: Document) returns (r: Result<string, Cause>)
    ensures r == IniDumped(data)
  {
    var config := new ConfigParser();
    if !data.Mapping? {
      return Err(MissingAttribute(TypeName(data), "items"));
    }
    var entries := data.entries;
    for i := 0 to |entries|
      invariant SectionsAreMappings(entries[..i])
      invariant config.Config() == ConfigAfter(entries[..i])
    {
      var section, values := entries[i].0, entries[i].1;
      if !values.Mapping? {
        IniDumpRejectsNonMapping(data, i);
        return Err(MissingAttribute(TypeName(values), "items"));
      }
      ConfigAfterSnoc(entries, i);
      config.SetItem(section, Stringify(values.entries));
    }
    assert entries[..|entries|] == entries;
    IniDumpedAfterLoop(data);
    var output := PyList([]);
    var written := config.Write(output);
    if written.Err? {
      return Err(written.error);
    }
    return Ok(Concat(written.value.items));
  }

  // ----- what INIConverter.dump accepts -----

  /** Only the str "DEFAULT" prints as "DEFAULT": None, booleans, integers,
      lists and dicts print differently. */
  lemma RenderedDefault(key: Document)
    requires Render(key) == DEFAULT_SECTION
    ensures key == Str(DEFAULT_SECTION)
  {
  }

  /** After the loop the parser holds a section for every printed key
      except "DEFAULT". */
  lemma {:induction false} SectionsAfter(entries: seq<(Document, Document)>)
    requires SectionsAreMappings(entries)
    ensures ConfigAfter(entries).sections.Keys == PrintedKeys(entries) - {DEFAULT_SECTION}
  {
    if entries != [] {
      var n := |entries| - 1;
      ConfigAfterLast(entries);
      SectionsAfter(entries[..n]);
      PrintedKeysSnoc(entries);
    }
  }

  /** The section a str key names holds, after the loop, the str() of
      every key and value of the last dict assigned to it: nested lists and
      dicts are printed, not rejected. */
  lemma {:induction false} LastSectionWins(entries: seq<(Document, Document)>, i: nat)
    requires SectionsAreMappings(entries) && i < |entries|
    requires entries[i].0.Str? && entries[i].0.s !in {DEFAULT_SECTION, ""}
    requires forall j :: i < j < |entries| ==> Render(entries[j].0) != entries[i].0.s
    ensures entries[i].0.s in ConfigAfter(entries).sections
    ensures ConfigAfter(entries).sections[entries[i].0.s] == Stringify(entries[i].1.entries)
  {
    var n := |entries| - 1;
    ConfigAfterLast(entries);
    if i < n {
      var prefix := entries[..n];
      assert prefix[i] == entries[i];
      forall j | i < j < n
        ensures Render(prefix[j].0) != prefix[i].0.s
      {
        assert prefix[j] == entries[j];
      }
      LastSectionWins(prefix, i);
      SetSectionKeepsOthers(ConfigAfter(prefix), Render(entries[n].0), entries[n].0.Str?, Stringify(entries[n].1.entries), entries[i].0.s);
    } else {
      assert i == n;
      var key := entries[n].0;
      var r := SetSection(ConfigAfter(entries[..n]), Render(key), key.Str?, Stringify(entries[n].1.entries));
      assert ConfigAfter(entries) == r;
      assert key.Str? && key.s !in {DEFAULT_SECTION, ""};
      assert r.sections[key.s] == Stringify(entries[n].1.entries);
    }
  }

  /** With the keys of a dict (pairwise different), INI dump returns
      normally exactly for `{}` and `{"DEFAULT": {}}`, the two documents
      that leave the parser empty; any other document fails. */
  lemma IniDumpSucceedsOnlyWhenEmpty(data: Document)
    requires data.Mapping? ==> DistinctKeys(data.entries)
    ensures IniDumped(data).Ok? <==>
      data == Mapping([]) || data == Mapping([(Str(DEFAULT_SECTION), Mapping([]))])
  {
    if data == Mapping([(Str(DEFAULT_SECTION), Mapping([]))]) {
      var entries := data.entries;
      assert entries[..0] == [];
      assert FirstNonMapping(entries) == None;
      assert ConfigAfter(entries) == EMPTY_CONFIG;
    } else if IniDumped(data).Ok? {
      var entries := data.entries;
      assert SectionsAreMappings(entries);
      SectionsAfter(entries);
      forall i | 0 <= i < |entries|
        ensures entries[i].0 == Str(DEFAULT_SECTION)
      {
        assert Render(entries[i].0) in PrintedKeys(entries);
        RenderedDefault(entries[i].0);
      }
    }
  }

  /** A section value that is not a dict makes INI dump fail on its
      `items()`, even when the sections before it were fine. */
  lemma IniDumpRejectsNonMapping(data: Document, i: nat)
    requires data.Mapping? && i < |data.entries|
    requires SectionsAreMappings(data.entries[..i]) && !data.entries[i].1.Mapping?
    ensures IniDumped(data) == Err(MissingAttribute(TypeName(data.entries[i].1), "items"))
  {
    FirstNonMappingAt(data.entries, i);
  }

  /** When every section value is a dict and one key names a real section,
      INI dump gets as far as `config.write` and fails there. */
  lemma IniDumpFailsAtWrite(data: Document, i: nat)
    requires data.Mapping? && SectionsAreMappings(data.entries)
    requires i < |data.entries| && Render(data.entries[i].0) != DEFAULT_SECTION
    ensures IniDumped(data) == Err(MissingAttribute("list", "write"))
  {
    SectionsAfter(data.entries);
    assert Render(data.entries[i].0) in ConfigAfter(data.entries).sections;
  }

  /** What INI load produces cannot be dumped back to INI once the input
      has a section. */
  lemma IniLoadedNotDumpable(lib: Library, content: string)
    requires lib.iniRead(content).Ok? && lib.iniRead(content).value != []
    requires lib.iniRead(content).value[0].0 != DEFAULT_SECTION
    ensures Load(lib, INIConverter, content).Ok?
    ensures Dumped(lib, INIConverter, Load(lib, INIConverter, content).value).Err?
  {
    var d := Load(lib, INIConverter, content).value;
    assert SectionsAreMappings(d.entries);
    IniDumpFailsAtWrite(d, 0);
  }

  // ----- load and dump of every converter -----

  function Dumped(lib: Library, c: Converter, data: Document): (r: Result<string, Exception>)
    ensures r.Err? ==>
      r.error.ConversionError? && r.error.message.Conversion? &&
      r.error.message.converter == c && r.error.message.direction == Exporting
    ensures c == INIConverter ==> (r.Ok? <==> IniDumped(data).Ok?) && (r.Ok? ==> r.value == "")
  {
    match c
    case YAMLConverter => Guarded(c, Exporting, FromLibrary(lib.yamlDump(data)))
    case JSONConverter => Guarded(c, Exporting, FromLibrary(lib.jsonDump(data)))
    case TOMLConverter => Guarded(c, Exporting, FromLibrary(lib.tomlDump(data)))
    case INIConverter => Guarded(c, Exporting, IniDumped(data))
  }

  method Dump(lib: Library, c: Converter, data: Document) returns (r: Result<string, Exception>)
    ensures r == Dumped(lib, c, data)
  {
    if c == INIConverter {
      var outcome := IniDump(data);
      r := Guarded(c, Exporting, outcome);
    } else {
      r := Dumped(lib, c, data);
    }
  }
}
