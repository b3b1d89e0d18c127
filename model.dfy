// The parts of the MOOSE object graph that writeKkit reads, as plain values.
// Each value is what the exporter obtains through Field<...>::get,
// LookupField<...>::get and wildcardFind, in the order those queries return.
module KkitModel {
  import opened Text

  /** The display fields of the annotator object at `<path>/info`. */
  datatype Annotation = Annotation(x: real, y: real, color: string, textColor: string)

  /** An object of the graph as the exporter names it: its own name, its parent's name, its full path,
      and the annotator found at `<path>/info`, if any. */
  datatype Obj = Obj(name: string, parentName: string, path: string, info: Option<Annotation>)

  /** A PoolBase object under a compartment; `parentClass` is the class name of its parent. */
  datatype Pool = Pool(obj: Obj, parentClass: string,
                       diffConst: real, concInit: real, conc: real, n: real, nInit: real, volume: real)

  /** A ReacBase object with its "sub" and "prd" neighbours, in the order the graph lists them. */
  datatype Reac = Reac(obj: Obj, kf: real, kb: real, subs: seq<Obj>, prds: seq<Obj>)

  /** A ChemCompt object with the pools and reactions found below its path. */
  datatype Compt = Compt(name: string, volume: real, numDimensions: nat,
                         pools: seq<Pool>, reacs: seq<Reac>)

  /** A direct child of the model root, as estimateDefaultVol inspects it. */
  datatype Child = Child(name: string, isChemCompt: bool, volume: real)

  /** A Table2 object with the objects its "requestOut" message reaches. */
  datatype Table = Table(path: string, sources: seq<Obj>)

  /** The clock object's fields: runTime and the per-tick step sizes `dts`. */
  datatype Clock = Clock(runTime: real, dts: seq<real>)

  /** Everything one export reads from the graph. */
  datatype Model = Model(clock: Clock, children: seq<Child>, compts: seq<Compt>, tables: seq<Table>)

  /** The annotator's fields, or what typed reads of a missing annotator yield
      (default-constructed values: zero coordinates and empty colour names). */
  function Resolve(info: Option<Annotation>): (a: Annotation)
    ensures info.Some? ==> a == info.value
    ensures info.None? ==> a.x == 0.0 && a.y == 0.0 && a.color == "" && a.textColor == ""
  {
    match info
    case Some(a) => a
    case None => Annotation(0.0, 0.0, "", "")
  }

  /** An object's path names its parent: the path contains "/" followed by the parent's name,
      as it does for every object the graph builds. */
  ghost predicate ValidObj(o: Obj)
  {
    Contains(o.path, "/" + o.parentName)
  }

  ghost predicate ValidReac(r: Reac)
  {
    ValidObj(r.obj) && (forall o :: o in r.subs ==> ValidObj(o)) && (forall o :: o in r.prds ==> ValidObj(o))
  }

  ghost predicate ValidReacs(rs: seq<Reac>)
  {
    forall r :: r in rs ==> ValidReac(r)
  }

  ghost predicate ValidCompts(cs: seq<Compt>)
  {
    forall c :: c in cs ==> ValidReacs(c.reacs)
  }

  ghost predicate ValidTables(ts: seq<Table>)
  {
    forall t :: t in ts ==> forall o :: o in t.sources ==> ValidObj(o)
  }

  /** What writeKkit relies on: paths name their parents, and the clock has at least 19 ticks. */
  ghost predicate ValidModel(m: Model)
  {
    |m.clock.dts| >= 19 && ValidCompts(m.compts) && ValidTables(m.tables)
  }
}
