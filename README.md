# kkit dump export, modelled in Dafny

This project models `writeKkit` (kinetics/WriteKkit.cpp). `writeKkit` saves a MOOSE chemical-kinetics
model as a GENESIS kkit "flat dumpfile". The exporter does four things:

- It estimates the simulation times and the default volume.
- It writes a header.
- For every ChemCompt it writes a geometry record, a `kpool` record per pool whose
  parent is not a ZombieEnz, and a `kreac` record per reaction.
- It then writes the GUI block, an `xplot` record per plotted table source, the collected `addmsg`
  directives and the footer.

Modules:

- `KkitModel` gives the values the exporter reads from the object graph (compartments, pools,
  reactions, tables, the clock, and the annotation at `<path>/info`).
- `Estimate` gives the time and volume heuristics.
- `Paths` gives `trimPath` and the `/graphs` / `/moregraphs` cut.
- `Messages` gives the `addmsg` directives.
- `Records` gives each record's text.
- `ExportSpec` gives the whole export as a function of the graph.
- `KkitWriter` is the exporter itself. The class `Dump` holds the output stream (`out`) and the directive
  vector (`msgs`). Its methods are the `write*` and `store*` functions. `WriteKkit` drives them over
  the graph with the loops of the source.
- `ExportProps` proves properties of the export.

The dump file is modelled as the sequence of records written to it (`Piece`). `Render` gives a record's
characters, and `FileText` gives the file's. Every loop of the exporter is a `while` loop whose
invariants tie the stream and the directive vector to the specification functions of `ExportSpec`.
The properties are proved about those functions.

An export ends in one of three states:

- `NoModel`: no ChemCompt was found. Only the header is written.
- `Aborted`: a table with sources lies outside `/graphs` and `/moregraphs`.
- `Complete`: the whole file, with footer, is written.

In these places the model follows the code:

- A table whose path has no `/graphs` or `/moregraphs` segment is not skipped silently when it has a source.
  `writePlot` returns early without writing. `storePlotMsgs` then asserts that the segment exists
  (line 250), so the export stops there (`Aborted`). The file is left without its directives and footer.
  A table without sources writes nothing and is harmless.
- An `xplot` record is written once per (table, source) pair, not once per table.
- The table loop reads the source's `textColor` into `bg` and its `color` into `fg`. It then passes
  `bg, fg` to `writePlot`, whose parameters are `colour, textcolour`. So the `xplot` record's
  `textcolour` and the PLOT directive's colour are both the source's `color`.
- A missing annotation does not default to cyan/black. The typed field reads of a missing object give
  zero coordinates and empty colour names (`Resolve`). The cyan/black locals of lines 318-319 are
  shadowed and never reach a record.

## Model

| member | source | states |
|---|---|---|
| KkitModel.Resolve | kinetics/WriteKkit.cpp:352-358 | the annotation's position and colours when `<path>/info` exists; otherwise zero coordinates and empty colour names |
| Text.FindSpec | kinetics/WriteKkit.cpp:213 | `find` returns a position exactly when the pattern occurs, and it is the first occurrence |
| Text.NatStrRoundTrip | kinetics/WriteKkit.cpp:339 | the decimal rendering of `numDimensions` consists of digits and reads back as the same number |
| Estimate.SimTimes | kinetics/WriteKkit.cpp:261-278 | run time, plot step and sim step are positive-defaulted: a non-positive run time becomes 100; a non-positive tick 18 gives run time / 200; tick 16 is used when non-zero and not above the plot step; otherwise 0.01 when unset and small enough, else plot step / 100; so the sim step never exceeds the plot step |
| Estimate.EstimateSimTimes | kinetics/WriteKkit.cpp:261-278 | the in-place defaulting of the clock's run time and ticks 16 and 18 yields exactly `SimTimes` |
| Estimate.FirstKinetics | kinetics/WriteKkit.cpp:289-292 | the index found is that of a ChemCompt named "kinetics" with none before it; none is found only when no child is one |
| Estimate.EstimateDefaultVol | kinetics/WriteKkit.cpp:281-301 | the loop returns `DefaultVol`: the first "kinetics" compartment's volume, else the largest compartment volume, else 1e-15 |
| Estimate.MaxVolBounds | kinetics/WriteKkit.cpp:285-297 | the running maximum is at least 0, bounds every compartment volume, and is 0 or one of them |
| Estimate.KineticsShortCircuit | kinetics/WriteKkit.cpp:289-292 | a "kinetics" compartment with none before it decides the volume, whatever follows |
| Estimate.DefaultVolWithoutKinetics | kinetics/WriteKkit.cpp:285-300 | with no "kinetics" compartment the volume is the largest compartment volume (bounding all and equal to one) when one is positive, and 1e-15 when none is |
| Estimate.Compartments | kinetics/WriteKkit.cpp:289 | the children kept are exactly the model's children that are ChemCompts |
| Estimate.CompartmentsMaxVol | kinetics/WriteKkit.cpp:289-296 | dropping non-compartment children leaves the running maximum unchanged |
| Estimate.CompartmentsKinetics | kinetics/WriteKkit.cpp:289-292 | dropping non-compartment children keeps the first "kinetics" compartment and adds none |
| Estimate.NonCompartmentsIgnored | kinetics/WriteKkit.cpp:287-300 | children that are not ChemCompts never change the default volume |
| Paths.TrimPathSpec | kinetics/WriteKkit.cpp:207-215 | the trimmed path is a suffix of the path, starts with "/" + parent name, and no earlier position holds that pattern |
| Paths.PlotPathSpec | kinetics/WriteKkit.cpp:158-164 | a plot path exists exactly when the table path contains `/graphs` or `/moregraphs`; it is the suffix from the first `/graphs`, or, without one, from the first `/moregraphs` |
| Messages.LinkMsgsLength | kinetics/WriteKkit.cpp:223-238 | each neighbour loop pushes two directives per neighbour |
| Messages.LinkMsgsAt | kinetics/WriteKkit.cpp:223-229 | neighbour k's directives sit at 2k (neighbour to reaction, with the role) and 2k+1 (reaction to neighbour) |
| Messages.ReacMsgsLayout | kinetics/WriteKkit.cpp:217-239 | a reaction's directives are its substrates' pairs followed by its products' pairs, 2(subs + prds) in all |
| Messages.SubstrateMsgsAt | kinetics/WriteKkit.cpp:223-229 | substrate k gives "addmsg S R SUBSTRATE n" at 2k and "addmsg R S REAC A B" at 2k+1, with trimmed paths |
| Messages.ProductMsgsAt | kinetics/WriteKkit.cpp:231-237 | product k gives "addmsg P R PRODUCT n" and "addmsg R P REAC B A" after all substrate pairs |
| Messages.PlotMsgShape | kinetics/WriteKkit.cpp:241-255 | a PLOT directive starts with the source's trimmed path and ends with " PLOT Co *name *colour" |
| Records.GeometryColumns | kinetics/WriteKkit.cpp:336-340 | the geometry record is one line whose columns are the record head followed by the declared geometry fields: volume, dimensions, sphere, no outside, white, black, origin |
| Records.KpoolColumns | kinetics/WriteKkit.cpp:124-152 | the kpool record is one line whose columns are the head "/parent/name" followed by the declared kpool fields in order, with mwt and nMin 0, volume scaled by NA * 1e-3, slave_enable 0 and the parent's geometry |
| Records.KreacColumns | kinetics/WriteKkit.cpp:80-96 | the kreac record is one line whose columns are the head followed by kf, kb, empty notes, the colours and position, z = 0 |
| ExportSpec.PlottablePrefix | kinetics/WriteKkit.cpp:383-398 | the table loop gets through exactly the leading (table, source) pairs under the graphs; the pair after them is not |
| ExportSpec.TableCompletes | kinetics/WriteKkit.cpp:383-398 | a table whose sources all lie under the graphs extends the completed pairs by exactly its own |
| ExportSpec.TableAborts | kinetics/WriteKkit.cpp:383-398 | once a table's source fails the graphs assertion, the export as a whole stops short of its pairs |
| Estimate.MaxVol | kinetics/WriteKkit.cpp:286-296 | the running maximum of ChemCompt volumes, starting from 0; its bounds are proved by `MaxVolBounds` |
| Estimate.DefaultVol | kinetics/WriteKkit.cpp:286-300 | the first "kinetics" compartment's volume, else the positive maximum, else 1e-15; the loop `EstimateDefaultVol` computes it and `KineticsShortCircuit` and `DefaultVolWithoutKinetics` characterise it |
| Paths.TrimPath | kinetics/WriteKkit.cpp:207-215 | the path from the first "/" + parent name on; characterised by `TrimPathSpec` |
| Paths.PlotPath | kinetics/WriteKkit.cpp:157-164 | the table path from its first `/graphs`, else from its first `/moregraphs`, else none (also lines 247-251); characterised by `PlotPathSpec` |
| Messages.ReacMsgs | kinetics/WriteKkit.cpp:217-239 | a reaction's directives, substrates' pairs then products'; laid out by `ReacMsgsLayout`, `SubstrateMsgsAt` and `ProductMsgsAt` |
| Messages.PlotMsg | kinetics/WriteKkit.cpp:241-254 | the PLOT directive of a table and source, or none when the table path has no graphs segment; shaped by `PlotMsgShape` |
| Records.HeaderText | kinetics/WriteKkit.cpp:28-77 | the header: genesis banner, save stamp, the time and volume settings, and the schema declarations |
| Records.GeometryLine | kinetics/WriteKkit.cpp:339 | the geometry record of a compartment; its columns are stated by `GeometryColumns` |
| Records.KpoolLine | kinetics/WriteKkit.cpp:141-151 | the kpool record of a pool; its columns are stated by `KpoolColumns` |
| Records.KreacLine | kinetics/WriteKkit.cpp:93-95 | the kreac record of a reaction; its columns are stated by `KreacColumns` |
| Records.XplotLine | kinetics/WriteKkit.cpp:165-166 | the two-line xplot record for a plot path and text colour |
| ExportSpec.ExportPieces | kinetics/WriteKkit.cpp:309-401 | the records the export writes, in order; `WriteKkit` writes exactly these and `ExportLayout` states their layout |
| KkitWriter.Dump.constructor | kinetics/WriteKkit.cpp:310-312 | the stream and the directive vector start empty |
| KkitWriter.Dump.WriteHeader | kinetics/WriteKkit.cpp:28-77 | appends the header record with the stamp, the two steps, the run time and the default volume |
| KkitWriter.Dump.WritePool | kinetics/WriteKkit.cpp:124-152 | appends one kpool record, leaving the directives alone |
| KkitWriter.Dump.WriteReac | kinetics/WriteKkit.cpp:80-96 | appends one kreac record, leaving the directives alone |
| KkitWriter.Dump.WritePlot | kinetics/WriteKkit.cpp:154-167 | appends an xplot record for the table's graphs path, or nothing when the path has no graphs segment |
| KkitWriter.Dump.WriteGui | kinetics/WriteKkit.cpp:169-179 | appends the GUI block |
| KkitWriter.Dump.WriteFooter | kinetics/WriteKkit.cpp:181-185 | appends the footer |
| KkitWriter.Dump.WriteMsgs | kinetics/WriteKkit.cpp:302-307 | appends every directive, in order, each on its own line |
| KkitWriter.Dump.StoreLinks | kinetics/WriteKkit.cpp:223-229 | appends the directive pairs of a neighbour list, in list order |
| KkitWriter.Dump.StoreReacMsgs | kinetics/WriteKkit.cpp:217-239 | appends exactly the reaction's directives: substrates' pairs, then products' |
| KkitWriter.Dump.StorePlotMsgs | kinetics/WriteKkit.cpp:241-255 | succeeds exactly when the table path has a graphs segment, and then appends its one PLOT directive |
| KkitWriter.Dump.WritePools | kinetics/WriteKkit.cpp:343-361 | appends a kpool record, with the annotation's colours and position, for each pool whose parent is not a ZombieEnz |
| KkitWriter.Dump.WriteReacs | kinetics/WriteKkit.cpp:363-377 | appends a kreac record per reaction and stores each reaction's directives |
| KkitWriter.Dump.WriteCompt | kinetics/WriteKkit.cpp:329-377 | appends the geometry record, its blank line, the pools' and the reactions' records |
| KkitWriter.Dump.WriteCompts | kinetics/WriteKkit.cpp:328-378 | appends every compartment's records in order and collects all reaction directives |
| KkitWriter.Dump.WriteTable | kinetics/WriteKkit.cpp:385-397 | writes the xplot record and PLOT directive of each source up to the first one outside the graphs; succeeds exactly when there is none |
| KkitWriter.Dump.WriteTables | kinetics/WriteKkit.cpp:381-398 | writes the pairs of all tables up to the first stray one; succeeds exactly when every pair lies under the graphs |
| KkitWriter.Dump.WriteModel | kinetics/WriteKkit.cpp:328-400 | appends the compartments, the GUI block and the plots, then, unless a table aborts, the directives and the footer |
| KkitWriter.WriteKkit | kinetics/WriteKkit.cpp:309-401 | the records written and the final status are exactly those `ExportPieces` and `ExportStatus` define |
| KkitWriter.WriteKkitText | kinetics/WriteKkit.cpp:309-401 | the characters of the dump file are those of `ExportText` |
| ExportProps.ExportLayout | kinetics/WriteKkit.cpp:309-401 | the file starts with the header, and its sections come in order: compartments, GUI, plots, directives, footer; only the header is written exactly when there is no ChemCompt; a complete export ends with the footer; an aborted one stops within the plots |
| ExportProps.EnzymePoolsSkipped | kinetics/WriteKkit.cpp:347-360 | every record of the pool loop is a kpool record of a listed pool not under a ZombieEnz, and every such pool gets its record with its annotation's colours and position |
| ExportProps.PlotsOneRecordPerPair | kinetics/WriteKkit.cpp:385-397 | when every pair lies under the graphs, there is one xplot record per (table, source) pair, in order, carrying the table's graphs path and the source's colour |
| ExportProps.PlotsMsgCount | kinetics/WriteKkit.cpp:385-397 | when every pair lies under the graphs, each pair stores exactly one PLOT directive |
| ExportProps.PlotsMsgAt | kinetics/WriteKkit.cpp:387-395 | when every pair lies under the graphs, the j-th PLOT directive collected is pair j's, naming its source and carrying the source's colour |
| ExportProps.PlotsCover | kinetics/WriteKkit.cpp:383-388 | the pairs visited are exactly the (table, source) pairs of the tables |
| ExportProps.AbortedIff | kinetics/WriteKkit.cpp:241-255 | the export aborts exactly when there is a compartment and some table with a source has no graphs segment |

## Left out

- The object graph, `wildcardFind`, `Field<>::get` and `LookupField<>::get` are not modelled. Their results are the input values of `KkitModel`, in the order the queries return them.
- The number rendering of `double` by `ostream` is the parameter `fmt`. IEEE rounding, including that of `volume * NA * 1e-3`, is not modelled: arithmetic is on reals.
- `NA` is taken as 6.0221415e23. header.h, where the exporter finds it, is not part of this model.
- `ctime` is not modelled: the header's time stamp is the parameter `stamp`.
- Opening the `ofstream` is not modelled, nor is the `cout` warning of line 324.
- `getSlaveEnable` (lines 98-122) is not modelled: `writePool` no longer calls it and writes 0.
- `getInfoFields` (lines 186-206) is not modelled: it is commented out.
- Locals that never reach the file are not modelled. These are `noteClass`, `notes`, `dims`, `dims_size`, `index`, `species_size`, `objname`, `poolname` in `trimPath`, the `vols` vector of `estimateDefaultVol`, and the x/y/bg/fg locals of lines 318-321.
- A path without "/" + its parent's name is not modelled: `trimPath` then calls `substr(npos)`, which throws. The graph never builds such a path, so `ValidObj` requires it of every object whose path is trimmed.
- The failed assertion in `storePlotMsgs` ends the export. The model stops writing there and reports `Aborted`. In an NDEBUG build the `substr(npos)` that follows throws instead, so the writes stop there too. Buffered output that never reaches the disk is not modelled.
- The literal GUI block, declarations and footer appear in no text-level lemma. Properties of the finished file are proved about its sequence of records (`ExportProps`), which `FileText` renders.
- Records.KpoolColumns: stated only for names, colours and rendered doubles that are single words. The source writes whatever they hold, and a blank in a name would shift the reader's columns.
- Records.KreacColumns: stated only for names, colours and rendered doubles that are single words, for the same reason.
- Records.GeometryColumns: stated only for a single-word compartment name and rendered doubles, for the same reason.
