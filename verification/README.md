# CloverMerge merge engine, modelled in Dafny

CloverMerge combines several Clover-format XML coverage reports into one. This project
models its merge engine:

- **Line** (`CloverLine`): a hit count plus an ordered bag of string attributes. Merging two
  lines sums the counts and keeps the receiving line's value on a clashing attribute.
- **File** (`CloverFile`): an ordered map of class names to `ClassT`, an ordered map of line
  numbers to lines, and an optional package name. Its merge follows the merge mode:
  - inclusive: the union of line numbers;
  - exclusive: the intersection;
  - locked: no new line numbers at all.

  Its `toXml` tallies statement, conditional and method lines into coverage counters.
- **Accumulator** (`CloverAccumulator`, specified in `AccumulatorModel`): reads documents in
  order under one merge mode.
  - After each accepted document, additive mode locks lines.
  - Exclusive mode keeps only the files that existed before that document, except after the
    first document. A line of a file survives only while every element for that file carries
    it (`AccumulatorExclusive`).
  - A file keeps the first package name it is read under, and every nameless package is
    warned about once (`AccumulatorPackages`).
  - Its `toXml` sorts files by name and groups them under package elements.
- **Document** (`CloverDocument`, specified in `DocumentModel`): the older, inclusive-only
  pipeline. `parseSet` reads documents into one items map and `build` writes that map out.
- **ClassT** (`CloverClass`) and **Metrics** (`CloverMetrics`): immutable string-to-string
  attribute bags, modelled as datatypes. Every property value is a string by its type, and
  nothing can write to them after construction.

Supporting modules:

- `OrderedMaps`: `\Ds\Map` as a key sequence plus a map, with put, merge, intersect,
  filter and remove.
- `KeySort`: `ksort` over string keys, comparing them character by character. For file
  names that are both numeric strings, PHP's order differs (see "Left out").
- `Xml`: input documents as an element tree, and PHP's `(int)` cast.
- `PackageGrouping`: the package grouping that both `toXml` and `build` perform.

Where the source changes state in place, the model does too:

- `Line`, `File` and `Accumulator` are classes whose methods update their fields. Each
  method is proved to move the object to exactly the state a specification function gives.
- The loops (`parseAll`, `parseItems`, the project loop of `parseXml`, the line loop of
  `File::merge`, the counting loop of `File::toXml`, the grouping loops of `toXml` and
  `build`, and `parseSet`) are `while`/`for` loops with invariants.
- Properties are proved about the specification functions.
- Warnings, which the source prints as it goes, are an appended sequence of strings.

Three behaviours of the code worth knowing:

- **Exclusive mode.** After a later document, the accumulated file set is cut back to the
  files known before that document. So a file that the new document does not mention is
  *kept* (`ExclusiveKeepsFiles`), and only files new in that document are dropped
  (src/Accumulator.php:126, 141-145).
- **Line order in output.** A file's lines are written out in the order in which they were
  first recorded, not sorted by number (src/Accumulator.php:313-321).
- **File names with the same key.** The Document pipeline keeps the project metrics under
  the key `metrics`, in the same map as the files. A file literally named `metrics` collides
  with them:
  - if the metrics come first, merging the file into them calls a method `Metrics` does not
    have, and the parse stops (`FileAfterMetricsFails`);
  - if the file comes first, the metrics are dropped (`MetricsAfterKeyTakenIgnored`).

  The agreement with the Accumulator is therefore proved for documents without such a file.

## Model

| member | source | states |
|---|---|---|
| CloverMetrics.FromXml | src/Metrics.php:33-40 | every attribute of the element becomes a property with the same key and value, in document order, and there is no other property |
| CloverMetrics.GetPropertiesIsConstructorMap | src/Metrics.php:47-50 | getProperties returns exactly the map the constructor was given |
| CloverMetrics.ToXml | src/Accumulator.php:339-348 | buildMetrics writes a childless `metrics` element whose attributes are exactly the properties |
| CloverMetrics.ToXmlRoundTrip | src/Accumulator.php:339-348 | reading back the element buildMetrics writes gives the same metrics |
| CloverMetrics.FromXmlRoundTrip | src/Metrics.php:33-40 | a childless `metrics` element read and written back is the same element |
| CloverClass.FromXml | src/ClassT.php:35-42 | every attribute, `name` and `namespace` included, becomes a property in document order, with nothing else |
| CloverClass.GetPropertiesIsConstructorMap | src/ClassT.php:65-68 | getProperties returns the constructor's map unchanged |
| CloverClass.ToXml | src/ClassT.php:50-58 | a childless `class` element with one attribute per property, same key, same value, property order |
| CloverClass.ToXmlRoundTrip | src/ClassT.php:50-58 | fromXML of what toXml writes gives the same ClassT |
| CloverLine.NewLineDefaultCount | src/Line.php:30-34 | a line built without a count has count 0 and the given properties |
| CloverLine.LineFromXml | src/Line.php:43-53 | fails with the missing-count error exactly when there is no `count` attribute; otherwise count is the `(int)` of `count` and the properties are all other attributes in document order, `count` removed |
| CloverLine.FromXmlDecimalCount | src/Line.php:52 | a `count` attribute holding the decimal text of n gives count n |
| CloverLine.LineMerge | src/Line.php:61-66 | the count is the sum; the property keys are the union; on a shared key self's value stays; the key order is other's keys then self's own |
| CloverLine.MergeSymmetricOnAgreement | src/Line.php:61-66 | when two lines agree on their shared properties, merging either way gives the same count and properties |
| CloverLine.MergeSelf | src/Line.php:61-66 | merging a line with itself doubles its count and keeps its properties |
| CloverLine.Line.constructor | src/Line.php:30-34 | the new object holds the given properties and count |
| CloverLine.Line.FromXml | src/Line.php:43-53 | fails exactly as LineFromXml does, otherwise returns a fresh Line holding LineFromXml's result |
| CloverLine.Line.Merge | src/Line.php:61-66 | the object's new state is LineMerge of its old state and other's; other is left unchanged |
| Xml.PhpIntOfDecimal | src/Line.php:52 | the `(int)` cast of the decimal text of n, with or without a minus sign, gives back n or -n |
| CloverFile.File.constructor | src/File.php:36-41 | no classes, no lines, the given package name |
| CloverFile.File.FromXml | src/File.php:50-58 | a fresh File whose state and warnings are those of reading each child in turn from an empty file |
| CloverFile.File.ParseChildXml | src/File.php:67-88 | one child, read into the file as the specification of parseChildXML says |
| CloverFile.FromXmlFacts | src/File.php:50-58 | the file gets the given package name; line n is present iff a counted line element has num n, and its count is the sum of those elements' counts; one warning per skipped child |
| CloverFile.ParseChildLines | src/File.php:79-84 | a line element with num and count adds its number and its count; any other child leaves the lines alone |
| CloverFile.ParseChildPackageAndLog | src/File.php:67-88 | a child keeps the package name and logs exactly its own warning: nameless class, line without num or count, or unknown element (input metrics are silently ignored) |
| CloverFile.ParseChildrenLines | src/File.php:53-56 | reading children adds exactly the line numbers they mention, with summed counts |
| CloverFile.ParseChildrenPackageAndLog | src/File.php:53-56 | reading children keeps the package name and appends exactly their warnings |
| CloverFile.AddClass | src/File.php:195-200 | a class name already present is never replaced; an absent one is added last |
| CloverFile.File.MergeClass | src/File.php:195-200 | the classes become AddClass of the old classes; nothing else changes |
| CloverFile.AddLineKeys | src/File.php:210-217 | with the lock, the line numbers are unchanged; without it, exactly n is added; an existing line is merged with the new one |
| CloverFile.File.MergeLine | src/File.php:210-217 | the lines become AddLine of the old lines; nothing else changes |
| CloverFile.File.Merge | src/File.php:171-186 | the file's new state is MergeState of its old state and other's |
| CloverFile.MergeLinesLoop | src/File.php:183-185 | mergeLine applied to each incoming line in order |
| CloverFile.AddLinesDomain | src/File.php:183-185 | the loop leaves a line number iff it was present or, without the lock, is incoming |
| CloverFile.AddLinesValue | src/File.php:183-185 | after the loop a number on both sides holds the merge of both lines, a number on one side holds that side's line |
| CloverFile.MergeLines | src/File.php:176-185 | line numbers are the union (inclusive or additive, unlocked), the intersection (exclusive) or self's own (locked); a shared number holds the merge of both lines |
| CloverFile.MergeInclusiveCounts | src/File.php:176-185 | after an unlocked inclusive merge every line's count is the sum of both sides' counts |
| CloverFile.MergeClasses | src/File.php:173 | class names are the union, other's first; self's ClassT is kept on a clash |
| CloverFile.MergePackage | src/File.php:174 | self's package name if set, otherwise other's |
| CloverFile.File.ToXmlMetrics | src/File.php:104-156 | the counters, the class count and the file count are those of MetricsOf the file's state; the warnings are one per line of unknown type |
| CloverFile.CountLine | src/File.php:123-143 | one line: the type defaults to `stmt`, covered means count > 0, and an unknown type is only warned about |
| CloverFile.TallyCountsTypes | src/File.php:119-144 | each counter is the number of lines of its type, and covered ones are those with count > 0 |
| CloverFile.TallyBounded | src/File.php:126-140 | covered ≤ total for methods, statements and conditionals |
| CloverFile.TallyPartition | src/File.php:126-143 | every line is either counted once or warned about once |
| CloverFile.UntypedIsStatement | src/File.php:124 | a line without a `type` property counts as a statement |
| AccumulatorModel.Initial | src/Accumulator.php:51-55 | a new accumulator has the given mode, no lock, the empty flag set, no files, no metrics |
| AccumulatorModel.NameOf | src/Accumulator.php:195-198 | the `name` attribute when present, and none otherwise |
| CloverAccumulator.Accumulator.constructor | src/Accumulator.php:51-55 | the fields start as Initial gives |
| CloverAccumulator.Accumulator.FileCount | src/Accumulator.php:82-85 | the number of files held |
| CloverAccumulator.Accumulator.ParseAll | src/Accumulator.php:111-116 | the new state is the specification of parseAll applied to the old one |
| CloverAccumulator.Accumulator.ParseXml | src/Accumulator.php:124-148 | the new state is the specification of parseXml: warn on a non-coverage root, read the projects, then lock (additive) or cut back to the earlier files (exclusive, not first) |
| CloverAccumulator.Accumulator.ParseProject | src/Accumulator.php:156-164 | warn on a non-project element, else read its items |
| CloverAccumulator.Accumulator.ParseItems | src/Accumulator.php:173-178 | each child read in turn under the package name |
| CloverAccumulator.Accumulator.ParseItem | src/Accumulator.php:187-209 | package, file, metrics or unknown element handled as the specification says |
| CloverAccumulator.Accumulator.ParseFile | src/Accumulator.php:218-234 | a nameless file is only warned about; a held name is merged under the mode and lock; a new name is stored unless locked |
| CloverAccumulator.Accumulator.ToXml | src/Accumulator.php:241-280 | the files are sorted by name in place and nothing else changes; the project holds the grouped files, then the metrics |
| CloverAccumulator.GroupFiles | src/Accumulator.php:257-273 | the loop's output is Group of the files' entries in map order |
| CloverAccumulator.ProjectFacts | src/Accumulator.php:241-280 | on sorted files, the output is grouped (see PlaceGrouped), file names ascend, and a metrics child comes last exactly when metrics are held |
| PackageGrouping.PlaceEntry | src/Accumulator.php:259-273 | one turn of the grouping loop, with the package-name index kept in step with the output |
| PackageGrouping.PlaceGrouped | src/Accumulator.php:259-273 | one turn keeps the grouping invariant: unpackaged files carry no package, each package element holds exactly its package's files in order, one element per package name, children in first-seen order |
| PackageGrouping.PackageIndex | src/Accumulator.php:264 | the position of the package element with that name, or none when there is no such element |
| KeySort.KSort | src/Accumulator.php:244 | the same entries, keys ascending character by character |
| AccumulatorProperties.NonCoverageChangesNothing | src/Accumulator.php:128-132 | a root other than `coverage` only logs a warning |
| AccumulatorProperties.ParseXmlFlags | src/Accumulator.php:134-147 | an accepted document keeps the mode, clears the empty flag, locks lines iff additive or already locked, and keeps the first metrics |
| AccumulatorProperties.ParseXmlAccumulates | src/Accumulator.php:124-148 | inclusive and additive: a document adds its named files and their lines unless locked, and adds its counts to every line kept |
| AccumulatorProperties.ParseXmlExclusive | src/Accumulator.php:141-145 | exclusive, past the first document: the file names are exactly the earlier ones, and a kept file gains no line number |
| AccumulatorProperties.ParseXmlFiles | src/Accumulator.php:229-233 | a document adds only files it names, only while unlocked; outside exclusive mode no file is lost |
| AccumulatorProperties.ParseAllAppend | src/Accumulator.php:111-116 | one more document is one more parseXml, in order |
| AccumulatorProperties.ParseAllSplit | src/Accumulator.php:111-116 | a run splits at any document into the run before it, that document, and the run after it |
| AccumulatorProperties.ParseAllMode | src/Accumulator.php:139-140 | the mode never changes and a lock is never released |
| AccumulatorProperties.InclusiveUnion | src/Accumulator.php:229-233 | inclusive over a whole run: files and line numbers are the union over the documents, each count the sum |
| AccumulatorProperties.AdditiveLocked | src/Accumulator.php:229-233 | additive once locked: later documents add no file and no line number, and counts of kept lines only grow by what the documents say |
| AccumulatorProperties.AdditiveLocksAfterFirst | src/Accumulator.php:139-140 | additive: after any accepted document lines are locked |
| AccumulatorProperties.ExclusiveKeepsFiles | src/Accumulator.php:141-145 | exclusive past the first document: the set of file names never changes again |
| AccumulatorProperties.MetricsFirstWins | src/Accumulator.php:201-205 | once metrics are held, a further document does not replace them |
| AccumulatorProperties.ProjectsMetricsFirst | src/Accumulator.php:201-205 | the metrics kept are the held ones, else the first metrics element of the document |
| AccumulatorProperties.FileStepAccumulates | src/Accumulator.php:218-234 | one file element adds its name and lines unless locked, and its counts to every line kept |
| AccumulatorProperties.FileStepFiles | src/Accumulator.php:218-234 | one file element adds only its own name, only while unlocked; in exclusive mode it adds no line number to a held file |
| AccumulatorProperties.ItemAccumulates | src/Accumulator.php:187-209 | the same for any item, packages read depth first |
| AccumulatorProperties.ItemsAccumulate | src/Accumulator.php:173-178 | the same for a sequence of items |
| AccumulatorProperties.ItemFiles | src/Accumulator.php:187-209 | an item adds only the files it names, only while unlocked |
| AccumulatorProperties.ItemMetricsFirst | src/Accumulator.php:201-205 | the metrics after an item are the held ones, else the item's first metrics element |
| AccumulatorProperties.ProjectsAccumulate | src/Accumulator.php:134-136 | the same accumulation for the projects of a document |
| AccumulatorExclusive.FileStepIntersects | src/File.php:178-185 | exclusive: one file element leaves a held file only the line numbers it also carries, with summed counts, or stores a new file as read |
| AccumulatorExclusive.ItemIntersects | src/Accumulator.php:187-209 | the same for any item, packages read depth first |
| AccumulatorExclusive.ItemsIntersect | src/Accumulator.php:173-178 | the same for a sequence of items: a line survives iff every element for its file carries it, and its count grows by all of them |
| AccumulatorExclusive.ProjectsIntersect | src/Accumulator.php:134-136 | the same for the projects of a document |
| AccumulatorExclusive.ParseXmlIntersects | src/Accumulator.php:124-148 | exclusive: the first accepted document brings in the files it names, each with the lines all of its elements carry; a later one brings in no file, and a held file keeps a line iff it had it and every element for it carries it; surviving counts are the sums |
| AccumulatorExclusive.ExclusiveIntersection | src/Accumulator.php:141-145 | exclusive past the first document, over a run: file names unchanged, a line survives iff it was present and every element for its file in every document carries it, its count grows by all of theirs |
| AccumulatorExclusive.ExclusiveRun | src/Accumulator.php:111-116 | an exclusive run opening with an accepted document: files are those the first document names, a line is present iff every element for its file carries it, its count is the sum over all |
| AccumulatorPackages.FileStepPackage | src/File.php:174 | one file element: a new file takes the package it is read under; a held file keeps its own name, or takes that one when it had none |
| AccumulatorPackages.ItemKeepsPackage | src/Accumulator.php:192-198 | a package, named or not, has its children read; inside a nameless one files are read under no package; the first package name met is kept |
| AccumulatorPackages.ItemsKeepPackage | src/Accumulator.php:173-178 | the same for a sequence of items |
| AccumulatorPackages.ProjectsKeepPackage | src/Accumulator.php:156-164 | the same for the projects of a document, files directly under a project having no package |
| AccumulatorPackages.ParseXmlPackage | src/Accumulator.php:124-148 | one document: no held file is lost; a present file keeps its package name or takes the first one the document gives it; a named file is absent only when locked or dropped by exclusive mode |
| AccumulatorPackages.LockedAddsNoFiles | src/Accumulator.php:231-233 | once lines are locked no document brings in a file |
| AccumulatorPackages.PackageFirstNonNull | src/File.php:174 | over a run, in every mode: a file's package name is the first non-null one any of its elements was read under |
| AccumulatorPackages.ItemWarnsNameless | src/Accumulator.php:195-197 | reading an item logs the nameless-package warning once per nameless package in it, nested ones included |
| AccumulatorPackages.ItemsWarnNameless | src/Accumulator.php:173-178 | the same for a sequence of items |
| AccumulatorPackages.ProjectsWarnNameless | src/Accumulator.php:156-164 | the same for the projects of a document |
| AccumulatorPackages.NamelessWarnedOnce | src/Accumulator.php:195-197 | over a run: the nameless-package warning appears exactly once per nameless package element and for nothing else |
| DocumentModel.Start | src/Document.php:34 | parseSet starts from an empty map and an empty log |
| DocumentModel.ItemEntries | src/Document.php:106-124 | build walks one entry per item in map order, a file under its key and the metrics as metrics |
| CloverDocument.ParseSet | src/Document.php:16-36 | the result is the specification's reduction over the documents, stopping at the fault |
| CloverDocument.ParseItems | src/Document.php:46-80 | the result is the specification of parseItems over the children |
| CloverDocument.Build | src/Document.php:88-127 | the map is put in key order, and the project is Group of its entries in that order |
| DocumentProperties.BuildFacts | src/Document.php:91-124 | build writes one entry per item in ascending key order, each file under its own name, grouped as PlaceGrouped states |
| DocumentProperties.ParseSetAgrees | src/Document.php:16-80 | when no file is named `metrics`, parseSet succeeds and holds the same files, merged the same way, in the same order, and the same metrics as an inclusive Accumulator after parseAll |
| DocumentProperties.DocsAgree | src/Document.php:18-35 | the agreement is kept document by document, a non-coverage root changing neither side's files |
| DocumentProperties.ProjectsAgree | src/Document.php:24-31 | it is kept project by project; a non-project child only logs |
| DocumentProperties.ItemAgrees | src/Document.php:51-79 | it is kept item by item |
| DocumentProperties.FileAgrees | src/Document.php:59-70 | a file element is merged (inclusive, unlocked) or stored on both sides alike |
| DocumentProperties.MetricsAgrees | src/Document.php:71-75 | only the first metrics is kept, on both sides |
| DocumentProperties.FileAfterMetricsFails | src/Document.php:66-67 | a file named `metrics` after the metrics stops the parse |
| DocumentProperties.MetricsAfterKeyTakenIgnored | src/Document.php:73-75 | metrics met while the key `metrics` is taken change nothing |

## Left out

- XML loading and output: documents arrive as element trees. The DOM building, `formatOutput`, `saveXML` and the `REQUEST_TIME` timestamps are not modelled. The output is the sequence of project children, with each file as its name and state.
- `buildFile` in Accumulator.php and Document.php is not modelled beyond grouping. It renders a file's classes and lines, and it calls `ClassT::getNamespace`, `ClassT::getMetrics` and `File::getMetrics`, which the repository's classes do not define.
- `File::toXml` is modelled as its counting loop only (`CloverFile.File.ToXmlMetrics`). It returns a counters record. `Line::toXml`, `Metrics::toFileXml` and the eight-integer `Metrics` constructor it calls are not defined in the repository.
- `Accumulator::getCoverage` calls `File::getCoverage`, which no class defines; it is not modelled.
- `Accumulator::getFiles` and `getMetrics` are plain field reads of the class.
- src/Invocation.php and the command line are not part of this model. The merge mode arrives as the `MergeMode` datatype.
- src/Utilities.php: `filesExist` is a filesystem check and is not modelled. The loggers print, and here they append to the log sequence instead.
- `Utilities::xmlHasAttributes` is not part of this model. `Xml.HasAttributes` takes it to mean that every listed attribute is present.
- CloverAccumulator.Accumulator: holds each file as a `FileState` value, not a `File` object. A caller that keeps the map from `getFiles` and changes a file through it is not captured.
- CloverFile.File: holds each line as a `LineState` value, not a `Line` object. `Line::merge` is modelled as replacing the map entry, because no line object is reachable from two live maps.
- KeySort.KSort: compares keys character by character. PHP's `ksort` compares two numeric strings as numbers, so "9" sorts before "10" and "1e1" equals "10". Between numeric and other strings that comparison is not transitive ("1a" < "9" < "10" < "1a"), so PHP's result depends on its sort algorithm. The order here differs from the source's whenever two file names are both numeric strings.
- Xml.PhpInt: models optional white space, a sign and the leading run of digits. Exponents, hexadecimal text and the float a 64-bit overflow produces are left out.
- CloverLine.LineMerge: counts are unbounded integers. PHP would turn a sum past 64 bits into a float.
- Line::fromXML's ParseException is modelled as the `Failure` result. parseChildXML checks for `count` first, so a file parse never reaches it.
