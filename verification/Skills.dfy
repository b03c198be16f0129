/** Loading skills from several sources (src/capabilities/skills/index.ts) and the five-entry body cache of their
    registry (src/capabilities/skills/registry.ts). Parsing and the disk are arbitrary; files do not change while
    the registry is in use. */
module Skills {
  import opened Optional

  type Name(==, !new) = string

  datatype Record = Record(content: string, filePath: string)

  /** `records` is None when the source fails to list. */
  datatype Source = Source(fileSystem: bool, records: Option<seq<Record>>)

  /** The foreign functions: the name in a record (None when it does not parse), the body behind the
      frontmatter, blank text, and the disk. */
  datatype Text = Text(
    nameOf: string -> Option<Name>, bodyOf: string -> Option<string>, blank: string -> bool, disk: string -> Option<string>)

  /** A record that parsed, as it went into the maps. */
  datatype Loaded = Loaded(name: Name, content: string, filePath: string, fileSystem: bool)

  function LoadedFrom(text: Text, records: seq<Record>, fileSystem: bool): seq<Loaded> {
    if records == [] then []
    else
      var r := records[|records| - 1];
      var name := text.nameOf(r.content);
      LoadedFrom(text, records[..|records| - 1], fileSystem)
        + if name.Some? then [Loaded(name.value, r.content, r.filePath, fileSystem)] else []
  }

  /** All records that parsed, in the order of the sources. */
  function AllLoaded(text: Text, sources: seq<Source>): seq<Loaded> {
    if sources == [] then []
    else
      var s := sources[|sources| - 1];
      AllLoaded(text, sources[..|sources| - 1])
        + if s.records.Some? then LoadedFrom(text, s.records.value, s.fileSystem) else []
  }

  function LastOf(loaded: seq<Loaded>, name: Name): Option<Loaded> {
    if loaded == [] then None
    else if loaded[|loaded| - 1].name == name then Some(loaded[|loaded| - 1])
    else LastOf(loaded[..|loaded| - 1], name)
  }

  /** The two maps: which file a skill is loaded from, and the content an injected source gave it. */
  datatype Maps = Maps(files: map<Name, string>, contents: map<Name, string>)

  /** The last record of each name decides alone: its file path, and its content if it was injected. What an
      earlier record of that name left is gone. */
  predicate LastWins(maps: Maps, loaded: seq<Loaded>, name: Name) {
    match LastOf(loaded, name)
    case None => name !in maps.files && name !in maps.contents
    case Some(l) =>
      && name in maps.files && maps.files[name] == l.filePath
      && (if l.fileSystem then name !in maps.contents else name in maps.contents && maps.contents[name] == l.content)
  }

  function Insert(maps: Maps, l: Loaded): Maps {
    Maps(maps.files[l.name := l.filePath],
         if l.fileSystem then maps.contents - {l.name} else maps.contents[l.name := l.content])
  }

  lemma InsertWins(maps: Maps, loaded: seq<Loaded>, l: Loaded)
    requires forall name :: LastWins(maps, loaded, name)
    ensures forall name :: LastWins(Insert(maps, l), loaded + [l], name)
  {
    forall name ensures LastWins(Insert(maps, l), loaded + [l], name) {
      assert LastWins(maps, loaded, name);
      assert (loaded + [l])[..|loaded|] == loaded;
    }
  }

  method LoadSkills(text: Text, sources: seq<Source>) returns (maps: Maps)
    ensures forall name :: LastWins(maps, AllLoaded(text, sources), name)
  {
    maps := Maps(map[], map[]);
    for i := 0 to |sources|
      invariant forall name :: LastWins(maps, AllLoaded(text, sources[..i]), name)
    {
      assert sources[..i + 1][..i] == sources[..i];
      assert AllLoaded(text, sources[..i]) + [] == AllLoaded(text, sources[..i]);
      if sources[i].records.None? {
        continue;
      }
      maps := LoadSource(text, sources[i].records.value, sources[i].fileSystem, maps, AllLoaded(text, sources[..i]));
    }
    assert sources[..|sources|] == sources;
  }

  method LoadSource(text: Text, records: seq<Record>, fileSystem: bool, was: Maps, ghost before: seq<Loaded>) returns (maps: Maps)
    requires forall name :: LastWins(was, before, name)
    ensures forall name :: LastWins(maps, before + LoadedFrom(text, records, fileSystem), name)
  {
    maps := was;
    assert before + [] == before;
    for i := 0 to |records|
      invariant forall name :: LastWins(maps, before + LoadedFrom(text, records[..i], fileSystem), name)
    {
      assert records[..i + 1][..i] == records[..i];
      ghost var so_far := LoadedFrom(text, records[..i], fileSystem);
      assert so_far + [] == so_far;
      var name := text.nameOf(records[i].content);
      if name.Some? {
        var l := Loaded(name.value, records[i].content, records[i].filePath, fileSystem);
        InsertWins(maps, before + so_far, l);
        assert (before + so_far) + [l] == before + (so_far + [l]);
        maps := Insert(maps, l);
      }
    }
    assert records[..|records|] == records;
  }

  // ---- The registry

  /** What `getBody` would answer with no cache. */
  function Uncached(text: Text, maps: Maps, name: Name): Option<string> {
    if name !in maps.files then None
    else
      var raw := if name in maps.contents then text.bodyOf(maps.contents[name]) else None;
      if raw.Some? && !text.blank(raw.value) then raw
      else if maps.files[name] == "" then None
      else
        var content := text.disk(maps.files[name]);
        if content.Some? then text.bodyOf(content.value) else None
  }

  datatype Cached = Cached(name: Name, body: string)

  const MAX_CACHE: nat := 5

  class Registry {
    const text: Text
    const maps: Maps
    var bodyCache: seq<Cached>  // oldest first

    /** Every entry is what an uncached lookup gives, once a name. The size bound may fail only for a skill whose
        name is empty, which the eviction's truth test never removes; the loader's parser refuses such a name,
        so this concerns only a registry that is built directly. */
    ghost predicate Valid() reads this {
      && (forall i :: 0 <= i < |bodyCache| ==> Uncached(text, maps, bodyCache[i].name) == Some(bodyCache[i].body))
      && (forall i, j :: 0 <= i < j < |bodyCache| ==> bodyCache[i].name != bodyCache[j].name)
      && ("" !in maps.files ==> |bodyCache| <= MAX_CACHE)
    }

    constructor (text: Text, maps: Maps)
      ensures Valid() && this.text == text && this.maps == maps && bodyCache == []
    {
      this.text, this.maps, bodyCache := text, maps, [];
    }

    method GetBody(name: Name) returns (body: Option<string>)
      requires Valid()
      modifies this
      ensures Valid() && body == Uncached(text, maps, name)
    {
      if name !in maps.files {
        return None;
      }
      var at := Find(bodyCache, name);
      if at.Some? {
        return Some(bodyCache[at.value].body);
      }
      if name in maps.contents {
        var raw := text.bodyOf(maps.contents[name]);
        if raw.Some? && !text.blank(raw.value) {
          SetCache(name, raw.value);
          return raw;
        }
      }
      if maps.files[name] != "" {
        var content := text.disk(maps.files[name]);
        if content.Some? {
          body := text.bodyOf(content.value);
          if body.Some? {
            SetCache(name, body.value);
          }
          return;
        }
      }
      return None;
    }

    /** Puts the entry at the end and evicts the oldest one over the limit. */
    method SetCache(name: Name, body: string)
      requires Valid() && Find(bodyCache, name).None? && Uncached(text, maps, name) == Some(body)
      modifies this
      ensures Valid()
    {
      assert name in maps.files;
      assert forall i :: 0 <= i < |bodyCache| ==> bodyCache[i].name in maps.files;
      bodyCache := bodyCache + [Cached(name, body)];
      if |bodyCache| > MAX_CACHE && bodyCache[0].name != "" {
        bodyCache := bodyCache[1..];
      }
    }
  }

  function Find(cache: seq<Cached>, name: Name): (at: Option<nat>)
    ensures at.Some? ==> at.value < |cache| && cache[at.value].name == name
    ensures at.None? ==> forall i :: 0 <= i < |cache| ==> cache[i].name != name
  {
    if cache == [] then None
    else if cache[|cache| - 1].name == name then Some(|cache| - 1)
    else Find(cache[..|cache| - 1], name)
  }

  /** Loading and looking up together: a body always comes from the last record of its name. */
  lemma BodyIsLasts(text: Text, sources: seq<Source>, maps: Maps, name: Name)
    requires LastWins(maps, AllLoaded(text, sources), name)
    ensures match LastOf(AllLoaded(text, sources), name)
            case None => Uncached(text, maps, name) == None
            case Some(l) =>
              if !l.fileSystem && text.bodyOf(l.content).Some? && !text.blank(text.bodyOf(l.content).value)
              then Uncached(text, maps, name) == text.bodyOf(l.content)
              else Uncached(text, maps, name)
                     == if l.filePath != "" && text.disk(l.filePath).Some? then text.bodyOf(text.disk(l.filePath).value) else None
  {
  }
}
