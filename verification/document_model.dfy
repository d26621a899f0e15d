/** Document's parse as functions: one map of items, keyed by file name, holding the merged
    files and (under the key `metrics`) the first project metrics met. The Document methods
    are proved to compute exactly these values. */
module DocumentModel {
  import opened Wrappers
  import opened OrderedMaps
  import opened Xml
  import opened CloverFile
  import CloverMetrics
  import opened AccumulatorModel
  import opened PackageGrouping

  /** One value of the items map: a file, or the project metrics. */
  datatype Item = FileItem(file: FileState) | MetricsItem(metrics: CloverMetrics.Metrics)

  /** The parse stops when a file is merged into the metrics entry: Metrics has no merge
      method, so the call is a fatal error. */
  datatype Fault = MergeIntoMetrics(name: string)

  /** The items map and the warnings logged so far. */
  datatype DocState = DocState(items: OMap<string, Item>, log: seq<string>)

  /** The key the project metrics are stored under, shared with the file names. */
  const MetricsKey := "metrics"

  function Unknown(name: string): string {
    "Ignoring unknown element: " + name + "."
  }

  /** The empty map parseSet starts its reduction from. */
  function Start(): (s: DocState)
    ensures s.items.keys == [] && s.log == []
  {
    DocState(Empty(), [])
  }

  /** A file element of parseItems: a nameless one is warned about; otherwise it is read
      with File::fromXml, merged (inclusive, unlocked) into the file already held under its
      name, or stored under its name. An entry holding metrics there cannot be merged. */
  function ParseFile(s: DocState, e: Elem, pkg: Option<string>): Result<DocState, Fault> {
    match NameOf(e)
    case None => Success(s.(log := s.log + [FileWithoutName]))
    case Some(name) =>
      var parsed := FileFromXml(e, pkg);
      var s' := s.(log := s.log + parsed.log);
      if name in s.items.values then
        match s.items.values[name]
        case FileItem(held) =>
          Success(s'.(items := Put(s.items, name, FileItem(MergeState(held, parsed.file, Inclusive, false)))))
        case MetricsItem(_) => Failure(MergeIntoMetrics(name))
      else Success(s'.(items := Put(s.items, name, FileItem(parsed.file))))
  }

  /** One element of parseItems: a package has its children read under its name (a
      nameless one with a warning, under no name); metrics are stored unless the key is
      taken; anything else is warned about. */
  function ParseItem(s: DocState, e: Elem, pkg: Option<string>): Result<DocState, Fault>
    decreases e, 1, 0
  {
    if e.name == "package" then
      var s' := if NameOf(e).Some? then s else s.(log := s.log + [PackageWithoutName]);
      ParseItems(s', e, NameOf(e), 0)
    else if e.name == "file" then ParseFile(s, e, pkg)
    else if e.name == "metrics" then
      if MetricsKey in s.items.values then Success(s)
      else Success(s.(items := Put(s.items, MetricsKey, MetricsItem(CloverMetrics.FromXml(e)))))
    else Success(s.(log := s.log + [Unknown(e.name)]))
  }

  /** Document::parseItems over the children of `parent` from position `i` on. */
  function ParseItems(s: DocState, parent: Elem, pkg: Option<string>, i: nat): Result<DocState, Fault>
    requires i <= |parent.children|
    decreases parent, 0, |parent.children| - i
  {
    if i == |parent.children| then Success(s)
    else
      match ParseItem(s, parent.children[i], pkg)
      case Failure(f) => Failure(f)
      case Success(t) => ParseItems(t, parent, pkg, i + 1)
  }

  /** The project loop of parseSet's reducer, from child `i` of the document on: a child
      other than `project` is warned about. */
  function ParseProjects(s: DocState, doc: Elem, i: nat): Result<DocState, Fault>
    requires i <= |doc.children|
    decreases |doc.children| - i
  {
    if i == |doc.children| then Success(s)
    else
      var p := doc.children[i];
      if p.name != "project" then ParseProjects(s.(log := s.log + [Unknown(p.name)]), doc, i + 1)
      else
        match ParseItems(s, p, None, 0)
        case Failure(f) => Failure(f)
        case Success(t) => ParseProjects(t, doc, i + 1)
  }

  /** parseSet's reducer: a document whose root is not `coverage` is passed over silently. */
  function ParseDocument(s: DocState, doc: Elem): Result<DocState, Fault> {
    if doc.name != "coverage" then Success(s) else ParseProjects(s, doc, 0)
  }

  /** The reduction over the documents, in order, stopping at a fault. */
  function ParseDocs(s: DocState, docs: seq<Elem>): Result<DocState, Fault>
    decreases |docs|
  {
    if docs == [] then Success(s)
    else
      match ParseDocument(s, docs[0])
      case Failure(f) => Failure(f)
      case Success(t) => ParseDocs(t, docs[1..])
  }

  /** Document::parseSet */
  function ParseSet(docs: seq<Elem>): Result<DocState, Fault> {
    ParseDocs(Start(), docs)
  }

  /** The entries build walks, in the map's order: each file under its key, and the metrics. */
  function ItemEntries(items: OMap<string, Item>): (es: seq<Entry>)
    ensures |es| == |items.keys|
    ensures forall i :: 0 <= i < |es| ==> es[i] == EntryOf(items.keys[i], items.values[items.keys[i]])
  {
    seq(|items.keys|, i requires 0 <= i < |items.keys| => EntryOf(items.keys[i], items.values[items.keys[i]]))
  }

  function EntryOf(name: string, item: Item): Entry {
    match item
    case FileItem(f) => FileEntry(FileOut(name, f))
    case MetricsItem(m) => MetricsEntry(m)
  }
}
