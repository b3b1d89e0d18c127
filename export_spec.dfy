// What writeKkit writes, as a function of the graph it reads. The dump file
// is the sequence of records written to it, in order: the header, then per
// compartment its geometry, pools and reactions, the GUI block, the plot
// records, the collected directives and the footer -- or less, when there is
// no compartment or a plotted table lies outside the graphs. Render gives
// the characters of each record, FileText those of the whole file.
module ExportSpec {
  import opened Text
  import opened KkitModel
  import opened Estimate
  import opened Paths
  import opened Records
  import opened Messages

  datatype Status =
    | NoModel    // no ChemCompt below the model: only the header is written
    | Aborted    // storePlotMsgs met a table outside /graphs and /moregraphs
    | Complete   // every section and the footer are written

  /** One write to the dump file. */
  datatype Piece =
    | HeaderRec(stamp: string, simDt: real, plotDt: real, maxTime: real, defaultVol: real)
    | GeometryRec(compt: Compt)
    | EndLine                      // the endl that follows the geometry record
    | PoolRec(pool: Pool, colour: string, textcolour: string, x: real, y: real)
    | ReacRec(reac: Reac, colour: string, textcolour: string, x: real, y: real)
    | GuiRec
    | XplotRec(path: string, textcolour: string)
    | MsgLine(msg: string)         // one collected directive and its endl
    | FooterRec

  /** The characters one write puts into the file. */
  function Render(w: Piece, fmt: real -> string): string
  {
    match w
    case HeaderRec(stamp, simDt, plotDt, maxTime, defaultVol) =>
      HeaderText(stamp, simDt, plotDt, maxTime, defaultVol, fmt)
    case GeometryRec(c) => GeometryLine(c, fmt)
    case EndLine => "\n"
    case PoolRec(p, colour, textcolour, x, y) => KpoolLine(p, colour, textcolour, x, y, fmt)
    case ReacRec(r, colour, textcolour, x, y) => KreacLine(r, colour, textcolour, x, y, fmt)
    case GuiRec => GuiText
    case XplotRec(path, textcolour) => XplotLine(path, textcolour)
    case MsgLine(msg) => msg + "\n"
    case FooterRec => FooterText
  }

  /** The file after the writes `ws`. */
  function FileText(ws: seq<Piece>, fmt: real -> string): string
  {
    if |ws| == 0 then "" else FileText(ws[..|ws| - 1], fmt) + Render(ws[|ws| - 1], fmt)
  }

  /** The kpool record of a pool, with its annotation's colours and position, unless the pool's
      parent is an enzyme (ZombieEnz). */
  function PoolPieces(p: Pool): seq<Piece>
  {
    if p.parentClass == "ZombieEnz" then []
    else
      var a := Resolve(p.obj.info);
      [PoolRec(p, a.color, a.textColor, a.x, a.y)]
  }

  function PoolsPieces(ps: seq<Pool>): seq<Piece>
  {
    if |ps| == 0 then [] else PoolsPieces(ps[..|ps| - 1]) + PoolPieces(ps[|ps| - 1])
  }

  function ReacPiece(r: Reac): Piece
  {
    var a := Resolve(r.obj.info);
    ReacRec(r, a.color, a.textColor, a.x, a.y)
  }

  function ReacsPieces(rs: seq<Reac>): seq<Piece>
  {
    if |rs| == 0 then [] else ReacsPieces(rs[..|rs| - 1]) + [ReacPiece(rs[|rs| - 1])]
  }

  /** The geometry record and the blank line endl adds, then the pools, then the reactions. */
  function ComptPieces(c: Compt): seq<Piece>
  {
    [GeometryRec(c), EndLine] + PoolsPieces(c.pools) + ReacsPieces(c.reacs)
  }

  function ComptsPieces(cs: seq<Compt>): seq<Piece>
  {
    if |cs| == 0 then [] else ComptsPieces(cs[..|cs| - 1]) + ComptPieces(cs[|cs| - 1])
  }

  function ReacsMsgs(rs: seq<Reac>): seq<string>
    requires ValidReacs(rs)
  {
    if |rs| == 0 then [] else ReacsMsgs(rs[..|rs| - 1]) + ReacMsgs(rs[|rs| - 1])
  }

  /** The directives of every reaction, compartment by compartment. */
  function ComptsMsgs(cs: seq<Compt>): seq<string>
    requires ValidCompts(cs)
  {
    if |cs| == 0 then [] else ComptsMsgs(cs[..|cs| - 1]) + ReacsMsgs(cs[|cs| - 1].reacs)
  }

  /** One (table, source) pair of the table loop. */
  datatype Plot = Plot(tabPath: string, src: Obj)

  function TablePlots(t: Table): (r: seq<Plot>)
    ensures |r| == |t.sources|
    ensures forall k :: 0 <= k < |r| ==> r[k] == Plot(t.path, t.sources[k])
  {
    seq(|t.sources|, k requires 0 <= k < |t.sources| => Plot(t.path, t.sources[k]))
  }

  /** The pairs in the order the nested table loop visits them. */
  function Plots(ts: seq<Table>): seq<Plot>
  {
    if |ts| == 0 then [] else Plots(ts[..|ts| - 1]) + TablePlots(ts[|ts| - 1])
  }

  /** Every pair's source names its parent in its path. */
  ghost predicate ValidPlots(ps: seq<Plot>)
  {
    forall j :: 0 <= j < |ps| ==> ValidObj(ps[j].src)
  }

  lemma TablePlotsValid(t: Table)
    requires forall o :: o in t.sources ==> ValidObj(o)
    ensures ValidPlots(TablePlots(t))
  {
    forall j | 0 <= j < |t.sources| ensures ValidObj(TablePlots(t)[j].src) {
      assert t.sources[j] in t.sources;
    }
  }

  lemma ValidPlotsPrefix(ps: seq<Plot>, k: nat)
    requires ValidPlots(ps) && k <= |ps|
    ensures ValidPlots(ps[..k])
  {
    assert forall j :: 0 <= j < k ==> ps[..k][j] == ps[j];
  }

  lemma {:induction false} PlotsValid(ts: seq<Table>)
    requires ValidTables(ts)
    ensures ValidPlots(Plots(ts))
    decreases |ts|
  {
    if |ts| > 0 {
      var t := ts[|ts| - 1];
      assert t in ts;
      PlotsValid(ts[..|ts| - 1]);
      TablePlotsValid(t);
      var a: seq<Plot>, b: seq<Plot> := Plots(ts[..|ts| - 1]), TablePlots(t);
      forall j | 0 <= j < |a + b| ensures ValidObj((a + b)[j].src) {
        if j >= |a| {
          assert (a + b)[j] == b[j - |a|];
        }
      }
    }
  }

  predicate Plottable(p: Plot)
  {
    PlotPath(p.tabPath).Some?
  }

  /** What one writePlot call writes: an xplot record for the table's path from its graphs
      segment on, or nothing. */
  function XplotPieces(tabPath: string, textcolour: string): seq<Piece>
  {
    match PlotPath(tabPath)
    case None => []
    case Some(tp) => [XplotRec(tp, textcolour)]
  }

  /** writePlot for one pair: the record's text colour is the source's colour. */
  function PlotPieces(p: Plot): seq<Piece>
  {
    XplotPieces(p.tabPath, Resolve(p.src.info).color)
  }

  function PlotsPieces(ps: seq<Plot>): seq<Piece>
  {
    if |ps| == 0 then [] else PlotsPieces(ps[..|ps| - 1]) + PlotPieces(ps[|ps| - 1])
  }

  /** What one storePlotMsgs call appends: its PLOT directive, or nothing for a table outside the
      graphs. */
  function StoredPlotMsgs(tabPath: string, src: Obj, bg: string): seq<string>
    requires ValidObj(src)
  {
    match PlotMsg(tabPath, src, bg)
    case Some(msg) => [msg]
    case None => []
  }

  /** storePlotMsgs for one pair, with the source's colour as background. */
  function PlotMsgs(p: Plot): seq<string>
    requires ValidObj(p.src)
  {
    StoredPlotMsgs(p.tabPath, p.src, Resolve(p.src.info).color)
  }

  function PlotsMsgs(ps: seq<Plot>): seq<string>
    requires ValidPlots(ps)
  {
    if |ps| == 0 then [] else PlotsMsgs(ps[..|ps| - 1]) + PlotMsgs(ps[|ps| - 1])
  }

  /** How many pairs, from the first, have a table under /graphs or /moregraphs. */
  function PlottablePrefix(ps: seq<Plot>): (k: nat)
    ensures k <= |ps|
    ensures forall j :: 0 <= j < k ==> Plottable(ps[j])
    ensures k < |ps| ==> !Plottable(ps[k])
  {
    if |ps| == 0 || !Plottable(ps[0]) then 0 else 1 + PlottablePrefix(ps[1..])
  }

  /** writeMsgs: each directive on its own line. */
  function MsgPieces(ms: seq<string>): (r: seq<Piece>)
    ensures |r| == |ms|
    ensures forall k :: 0 <= k < |ms| ==> r[k] == MsgLine(ms[k])
  {
    seq(|ms|, k requires 0 <= k < |ms| => MsgLine(ms[k]))
  }

  /** writeHeader, with the times estimateSimTimes and the volume estimateDefaultVol settle on. */
  function HeaderPiece(m: Model, stamp: string): Piece
    requires |m.clock.dts| >= 19
  {
    var t := SimTimes(m.clock.runTime, m.clock.dts);
    HeaderRec(stamp, t.simDt, t.plotDt, t.runTime, DefaultVol(m.children))
  }

  function ExportStatus(m: Model): Status
  {
    if |m.compts| == 0 then NoModel
    else if PlottablePrefix(Plots(m.tables)) < |Plots(m.tables)| then Aborted
    else Complete
  }

  /** What follows the header when the model has compartments: the compartments and the GUI
      block, then the plot records up to the first pair outside the graphs; when there is none,
      every plot record, the collected directives and the footer. */
  function ModelPieces(m: Model): seq<Piece>
    requires ValidModel(m)
  {
    var ps := Plots(m.tables);
    var body := ComptsPieces(m.compts) + [GuiRec];
    var k := PlottablePrefix(ps);
    if k < |ps| then body + PlotsPieces(ps[..k])
    else
      PlotsValid(m.tables);
      body + PlotsPieces(ps) + MsgPieces(ComptsMsgs(m.compts) + PlotsMsgs(ps)) + [FooterRec]
  }

  /** The writes writeKkit issues for model `m`. */
  function ExportPieces(m: Model, stamp: string): seq<Piece>
    requires ValidModel(m)
  {
    if |m.compts| == 0 then [HeaderPiece(m, stamp)] else [HeaderPiece(m, stamp)] + ModelPieces(m)
  }

  /** The text of the dump file writeKkit produces. */
  function ExportText(m: Model, fmt: real -> string, stamp: string): string
    requires ValidModel(m)
  {
    FileText(ExportPieces(m, stamp), fmt)
  }

  // ---------------------------------------------------------------------------------------------
  // Sequence lemmas the exporter's loops step through.

  lemma {:induction false} PlotsPiecesAppend(a: seq<Plot>, b: seq<Plot>)
    ensures PlotsPieces(a + b) == PlotsPieces(a) + PlotsPieces(b)
    decreases |b|
  {
    if |b| == 0 {
      assert a + b == a;
    } else {
      var b', x := b[..|b| - 1], b[|b| - 1];
      assert (a + b)[..|a + b| - 1] == a + b';
      assert (a + b)[|a + b| - 1] == x;
      PlotsPiecesAppend(a, b');
      Assoc(PlotsPieces(a), PlotsPieces(b'), PlotPieces(x));
    }
  }

  lemma {:induction false} PlotsMsgsAppend(a: seq<Plot>, b: seq<Plot>)
    requires ValidPlots(a) && ValidPlots(b)
    ensures ValidPlots(a + b)
    ensures PlotsMsgs(a + b) == PlotsMsgs(a) + PlotsMsgs(b)
    decreases |b|
  {
    assert forall j :: |a| <= j < |a + b| ==> (a + b)[j] == b[j - |a|];
    if |b| == 0 {
      assert a + b == a;
    } else {
      var b', x := b[..|b| - 1], b[|b| - 1];
      assert (a + b)[..|a + b| - 1] == a + b';
      assert (a + b)[|a + b| - 1] == x;
      PlotsMsgsAppend(a, b');
      Assoc(PlotsMsgs(a), PlotsMsgs(b'), PlotMsgs(x));
    }
  }

  /** One more pair of a table: its record and directive follow those of the pairs before it. */
  lemma PlotsStep(ps: seq<Plot>, j: nat)
    requires j < |ps| && ValidPlots(ps)
    ensures ValidPlots(ps[..j]) && ValidPlots(ps[..j + 1])
    ensures PlotsPieces(ps[..j + 1]) == PlotsPieces(ps[..j]) + PlotPieces(ps[j])
    ensures PlotsMsgs(ps[..j + 1]) == PlotsMsgs(ps[..j]) + PlotMsgs(ps[j])
  {
    ValidPlotsPrefix(ps, j);
    ValidPlotsPrefix(ps, j + 1);
    assert ps[..j + 1][..j] == ps[..j];
  }

  lemma {:induction false} PlotsAppend(a: seq<Table>, b: seq<Table>)
    ensures Plots(a + b) == Plots(a) + Plots(b)
    decreases |b|
  {
    if |b| == 0 {
      assert a + b == a;
    } else {
      var b', t := b[..|b| - 1], b[|b| - 1];
      assert (a + b)[..|a + b| - 1] == a + b';
      assert (a + b)[|a + b| - 1] == t;
      PlotsAppend(a, b');
      Assoc(Plots(a), Plots(b'), TablePlots(t));
    }
  }

  /** Pairs that all lie under the graphs do not move where the first stray pair is found. */
  lemma {:induction false} PlottablePrefixAppend(a: seq<Plot>, b: seq<Plot>)
    requires PlottablePrefix(a) == |a|
    ensures PlottablePrefix(a + b) == |a| + PlottablePrefix(b)
    decreases |a|
  {
    if |a| > 0 {
      assert (a + b)[1..] == a[1..] + b;
      PlottablePrefixAppend(a[1..], b);
    } else {
      assert a + b == b;
    }
  }

  /** PlottablePrefix is the index of the first pair outside the graphs. */
  lemma {:induction false} PlottablePrefixIs(ps: seq<Plot>, k: nat)
    requires k <= |ps|
    requires forall j :: 0 <= j < k ==> Plottable(ps[j])
    requires k < |ps| ==> !Plottable(ps[k])
    ensures PlottablePrefix(ps) == k
    decreases k
  {
    if k > 0 {
      PlottablePrefixIs(ps[1..], k - 1);
    }
  }

  /** The tables before table i lie under the graphs, and so does table i: so do all of the first
      i + 1, whose pairs are those of the first i followed by table i's. */
  lemma TableCompletes(ts: seq<Table>, i: nat)
    requires i < |ts|
    requires PlottablePrefix(Plots(ts[..i])) == |Plots(ts[..i])|
    requires PlottablePrefix(TablePlots(ts[i])) == |ts[i].sources|
    ensures Plots(ts[..i + 1]) == Plots(ts[..i]) + TablePlots(ts[i])
    ensures PlottablePrefix(Plots(ts[..i + 1])) == |Plots(ts[..i + 1])|
  {
    var done, tp := Plots(ts[..i]), TablePlots(ts[i]);
    assert ts[..i + 1][..i] == ts[..i];
    PlottablePrefixAppend(done, tp);
  }

  /** A table all of whose pairs lie under the graphs is plotted whole. */
  lemma WholeTable(t: Table)
    requires PlottablePrefix(TablePlots(t)) == |t.sources|
    ensures TablePlots(t)[..PlottablePrefix(TablePlots(t))] == TablePlots(t)
  {
  }

  /** The pairs of the tables a, then t, then b: those of a, of t, and of b. */
  lemma PlotsAround(a: seq<Table>, t: Table, b: seq<Table>)
    ensures Plots(a + [t] + b) == Plots(a) + (TablePlots(t) + Plots(b))
  {
    var front := a + [t];
    assert front[..|a|] == a && front[|a|] == t;
    assert Plots(front) == Plots(a) + TablePlots(t);
    PlotsAppend(front, b);
    Assoc(Plots(a), TablePlots(t), Plots(b));
  }

  /** Pairs all under the graphs, then a group with a stray pair: the first stray pair of the whole
      is the group's, and the pairs before it are the leading ones and the group's up to it. */
  lemma StrayInGroup(done: seq<Plot>, group: seq<Plot>, rest: seq<Plot>)
    requires PlottablePrefix(done) == |done|
    requires PlottablePrefix(group) < |group|
    ensures var all, k := done + (group + rest), PlottablePrefix(group);
      PlottablePrefix(all) == |done| + k < |all| && all[..|done| + k] == done + group[..k]
  {
    var k := PlottablePrefix(group);
    forall j | 0 <= j <= k ensures (group + rest)[j] == group[j] {
    }
    PlottablePrefixIs(group + rest, k);
    PlottablePrefixAppend(done, group + rest);
    var all := done + (group + rest);
    assert all[..|done| + k] == done + group[..k];
  }

  /** The tables before table i lie under the graphs and table i does not: the first stray pair of
      the whole export is table i's, and the pairs before it are those of the first i tables and
      table i's up to it. */
  lemma TableAborts(ts: seq<Table>, i: nat)
    requires i < |ts|
    requires PlottablePrefix(Plots(ts[..i])) == |Plots(ts[..i])|
    requires PlottablePrefix(TablePlots(ts[i])) < |ts[i].sources|
    ensures PlottablePrefix(Plots(ts)) < |Plots(ts)|
    ensures Plots(ts)[..PlottablePrefix(Plots(ts))] ==
      Plots(ts[..i]) + TablePlots(ts[i])[..PlottablePrefix(TablePlots(ts[i]))]
  {
    assert ts == ts[..i] + [ts[i]] + ts[i + 1..];
    PlotsAround(ts[..i], ts[i], ts[i + 1..]);
    StrayInGroup(Plots(ts[..i]), TablePlots(ts[i]), Plots(ts[i + 1..]));
  }
}
