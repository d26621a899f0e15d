/** The Accumulator's fields as one value, and every parse step as a function of that value.
    The Accumulator class is proved to move between exactly these states. */
module AccumulatorModel {
  import opened Wrappers
  import opened OrderedMaps
  import opened Xml
  import opened CloverFile
  import CloverMetrics

  type Metrics = CloverMetrics.Metrics

  /** merge_mode, lock_lines, empty, files (by value), metrics, and the warnings logged. */
  datatype AccState = AccState(
    mode: MergeMode,
    lockLines: bool,
    empty: bool,
    files: OMap<string, FileState>,
    metrics: Option<Metrics>,
    log: seq<string>)

  /** Accumulator::__construct */
  function Initial(mode: MergeMode): (s: AccState)
    ensures s.mode == mode && !s.lockLines && s.empty
    ensures s.files.keys == [] && s.metrics == None && s.log == []
  {
    AccState(mode, false, true, Empty(), None, [])
  }

  const FileWithoutName := "Ignoring file with no name."
  const PackageWithoutName := "Ignoring package with no name."

  function Unexpected(name: string): string {
    "Ignoring unexpected element: " + name + "."
  }

  /** The `name` attribute of an element, when it has one. */
  function NameOf(e: Elem): (r: Option<string>)
    ensures r.Some? <==> HasAttributes(e, ["name"])
    ensures r.Some? ==> r.value == e.attributes.values["name"]
  {
    assert "name" in ["name"];
    if "name" in e.attributes.values then Some(e.attributes.values["name"]) else None
  }

  /** The lines recorded for file `f`, none when there is no such file. */
  function LinesOf(s: AccState, f: string): OMap<int, LineState> {
    if f in s.files.values then s.files.values[f].lines else Empty()
  }

  /** Accumulator::parseFile: a nameless file is skipped with a warning; a known name is
      merged into the existing file under the current mode and lock; a new name is added
      unless lines are locked. */
  function ParseFile(s: AccState, e: Elem, pkg: Option<string>): AccState {
    match NameOf(e)
    case None => s.(log := s.log + [FileWithoutName])
    case Some(name) =>
      var parsed := FileFromXml(e, pkg);
      var s' := s.(log := s.log + parsed.log);
      if name in s.files.values then
        s'.(files := Put(s.files, name, MergeState(s.files.values[name], parsed.file, s.mode, s.lockLines)))
      else if !s.lockLines then
        s'.(files := Put(s.files, name, parsed.file))
      else s'
  }

  /** Accumulator::parseItem: a package (named or not) has its children read under its own
      name; a file is read under the enclosing package name; only the first metrics element
      is kept; anything else is warned about. */
  function ParseItem(s: AccState, e: Elem, pkg: Option<string>): AccState
    decreases e, 1, 0
  {
    if e.name == "package" then
      var s' := if NameOf(e).Some? then s else s.(log := s.log + [PackageWithoutName]);
      ParseItems(s', e, NameOf(e), 0)
    else if e.name == "file" then ParseFile(s, e, pkg)
    else if e.name == "metrics" then
      if s.metrics.None? then s.(metrics := Some(CloverMetrics.FromXml(e))) else s
    else s.(log := s.log + [Unexpected(e.name)])
  }

  /** Accumulator::parseItems over the children of `parent` from position `i` on. */
  function ParseItems(s: AccState, parent: Elem, pkg: Option<string>, i: nat): AccState
    requires i <= |parent.children|
    decreases parent, 0, |parent.children| - i
  {
    if i == |parent.children| then s
    else ParseItems(ParseItem(s, parent.children[i], pkg), parent, pkg, i + 1)
  }

  /** Accumulator::parseProject */
  function ParseProject(s: AccState, e: Elem): AccState {
    if e.name != "project" then s.(log := s.log + [Unexpected(e.name)])
    else ParseItems(s, e, None, 0)
  }

  /** The project loop of Accumulator::parseXml, from child `i` of the document on. */
  function ParseProjects(s: AccState, doc: Elem, i: nat): AccState
    requires i <= |doc.children|
    decreases |doc.children| - i
  {
    if i == |doc.children| then s
    else ParseProjects(ParseProject(s, doc.children[i]), doc, i + 1)
  }

  /** Accumulator::parseXml: a root other than `coverage` is only warned about. After the
      projects are read, additive mode locks lines, and exclusive mode (past the first
      document) keeps only the files that existed before this document. */
  function ParseXml(s: AccState, doc: Elem): AccState {
    if doc.name != "coverage" then s.(log := s.log + [Unexpected(doc.name)])
    else
      var t := ParseProjects(s, doc, 0);
      var u :=
        if t.mode == Additive then t.(lockLines := true)
        else if t.mode == Exclusive && !t.empty then t.(files := Restrict(t.files, s.files.values.Keys))
        else t;
      u.(empty := false)
  }

  /** Accumulator::parseAll: the documents, strictly in order. */
  function ParseAll(s: AccState, docs: seq<Elem>): AccState
    decreases |docs|
  {
    if docs == [] then s else ParseAll(ParseXml(s, docs[0]), docs[1..])
  }
}
