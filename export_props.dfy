// What writeKkit's output looks like as a whole: the sections follow each
// other in a fixed order, enzyme pools are skipped, each plotted pair gives one
// xplot record and one PLOT directive, and the export stops early exactly
// when a table with a source lies outside /graphs and /moregraphs.
module ExportProps {
  import opened Text
  import opened KkitModel
  import opened Paths
  import opened Messages
  import opened ExportSpec

  /** The section of the dump a write belongs to, in the order writeKkit emits them. */
  function Section(w: Piece): nat
  {
    match w
    case HeaderRec(_, _, _, _, _) => 0
    case GeometryRec(_) => 1
    case EndLine => 1
    case PoolRec(_, _, _, _, _) => 1
    case ReacRec(_, _, _, _, _) => 1
    case GuiRec => 2
    case XplotRec(_, _) => 3
    case MsgLine(_) => 4
    case FooterRec => 5
  }

  /** No write of a later section comes before one of an earlier section. */
  ghost predicate InOrder(ws: seq<Piece>)
  {
    forall i, j :: 0 <= i < j < |ws| ==> Section(ws[i]) <= Section(ws[j])
  }

  ghost predicate Within(ws: seq<Piece>, lo: nat, hi: nat)
  {
    forall i :: 0 <= i < |ws| ==> lo <= Section(ws[i]) <= hi
  }

  /** Two ordered runs, the first ending no later than the second begins, make an ordered run. */
  lemma Concat(a: seq<Piece>, b: seq<Piece>, lo: nat, mid: nat, hi: nat)
    requires lo <= mid <= hi
    requires InOrder(a) && Within(a, lo, mid)
    requires InOrder(b) && Within(b, mid, hi)
    ensures InOrder(a + b) && Within(a + b, lo, hi)
  {
    var ab := a + b;
    forall i | 0 <= i < |ab| ensures lo <= Section(ab[i]) <= hi {
      if i < |a| { assert ab[i] == a[i]; } else { assert ab[i] == b[i - |a|]; }
    }
    forall i, j | 0 <= i < j < |ab| ensures Section(ab[i]) <= Section(ab[j]) {
      if j < |a| {
        assert ab[i] == a[i] && ab[j] == a[j];
      } else if i >= |a| {
        assert ab[i] == b[i - |a|] && ab[j] == b[j - |a|];
      } else {
        assert ab[i] == a[i] && ab[j] == b[j - |a|];
      }
    }
  }

  /** A run of writes of one section is ordered. */
  lemma Uniform(ws: seq<Piece>, s: nat)
    requires Within(ws, s, s)
    ensures InOrder(ws)
  {
  }

  lemma {:induction false} PoolsSection(ps: seq<Pool>)
    ensures Within(PoolsPieces(ps), 1, 1)
    decreases |ps|
  {
    if |ps| > 0 {
      PoolsSection(ps[..|ps| - 1]);
      var a, b := PoolsPieces(ps[..|ps| - 1]), PoolPieces(ps[|ps| - 1]);
      assert forall i :: |a| <= i < |a + b| ==> (a + b)[i] == b[i - |a|];
    }
  }

  lemma {:induction false} ReacsSection(rs: seq<Reac>)
    ensures Within(ReacsPieces(rs), 1, 1)
    decreases |rs|
  {
    if |rs| > 0 {
      ReacsSection(rs[..|rs| - 1]);
    }
  }

  /** Compartment records -- geometry, pools, reactions -- all belong to the compartment
      section. */
  lemma {:induction false} ComptsSection(cs: seq<Compt>)
    ensures Within(ComptsPieces(cs), 1, 1)
    decreases |cs|
  {
    if |cs| > 0 {
      var c := cs[|cs| - 1];
      ComptsSection(cs[..|cs| - 1]);
      PoolsSection(c.pools);
      ReacsSection(c.reacs);
      Uniform(ComptsPieces(cs[..|cs| - 1]), 1);
      Uniform([GeometryRec(c), EndLine], 1);
      Uniform(PoolsPieces(c.pools), 1);
      Uniform(ReacsPieces(c.reacs), 1);
      Concat([GeometryRec(c), EndLine], PoolsPieces(c.pools), 1, 1, 1);
      Concat([GeometryRec(c), EndLine] + PoolsPieces(c.pools), ReacsPieces(c.reacs), 1, 1, 1);
      Concat(ComptsPieces(cs[..|cs| - 1]), ComptPieces(c), 1, 1, 1);
    }
  }

  lemma {:induction false} PlotsSection(ps: seq<Plot>)
    ensures Within(PlotsPieces(ps), 3, 3)
    decreases |ps|
  {
    if |ps| > 0 {
      PlotsSection(ps[..|ps| - 1]);
      var a, b := PlotsPieces(ps[..|ps| - 1]), PlotPieces(ps[|ps| - 1]);
      assert forall i :: |a| <= i < |a + b| ==> (a + b)[i] == b[i - |a|];
    }
  }

  /** The writes of an export stopped at the table loop: header, compartment records, GUI block,
      plot records. */
  lemma AbortedShape(h: Piece, comps: seq<Piece>, plots: seq<Piece>)
    requires Section(h) == 0 && Within(comps, 1, 1) && Within(plots, 3, 3)
    ensures var ws := [h] + (comps + [GuiRec] + plots);
      InOrder(ws) && Within(ws, 0, 3) && Within(ws[1..], 1, 3) && GuiRec in ws
  {
    var body := comps + [GuiRec];
    Uniform(comps, 1);
    Concat(comps, [GuiRec], 1, 2, 2);
    Uniform(plots, 3);
    Concat(body, plots, 1, 3, 3);
    var rest := body + plots;
    assert rest[|comps|] == GuiRec;
    Concat([h], rest, 0, 1, 3);
    assert ([h] + rest)[1..] == rest;
  }

  /** The writes of a completed export: header, compartment records, GUI block, plot records,
      directives, footer. */
  lemma CompleteShape(h: Piece, comps: seq<Piece>, plots: seq<Piece>, msgs: seq<Piece>)
    requires Section(h) == 0 && Within(comps, 1, 1) && Within(plots, 3, 3) && Within(msgs, 4, 4)
    ensures var ws := [h] + (comps + [GuiRec] + plots + msgs + [FooterRec]);
      InOrder(ws) && Within(ws[1..], 1, 5) && GuiRec in ws && ws[|ws| - 1] == FooterRec
  {
    var body := comps + [GuiRec];
    Uniform(comps, 1);
    Concat(comps, [GuiRec], 1, 2, 2);
    Uniform(plots, 3);
    Concat(body, plots, 1, 3, 3);
    Uniform(msgs, 4);
    Concat(body + plots, msgs, 1, 4, 4);
    Concat(body + plots + msgs, [FooterRec], 1, 5, 5);
    var rest := body + plots + msgs + [FooterRec];
    assert rest[|comps|] == GuiRec;
    Concat([h], rest, 0, 1, 5);
    assert ([h] + rest)[1..] == rest;
  }

  /** The shape of the dump: the header first and only there; then, when the model has
      compartments, the compartment records, the GUI block and the plot records in that order;
      on completion the directives and, last, the footer; with no compartment nothing but the
      header; on abort neither directives nor footer. */
  lemma ExportLayout(m: Model, stamp: string)
    requires ValidModel(m)
    ensures var ws := ExportPieces(m, stamp);
      |ws| >= 1 && ws[0] == HeaderPiece(m, stamp) && InOrder(ws) && Within(ws[1..], 1, 5) &&
      (ExportStatus(m) == NoModel <==> |ws| == 1) &&
      (ExportStatus(m) != NoModel ==> GuiRec in ws) &&
      (ExportStatus(m) == Complete ==> ws[|ws| - 1] == FooterRec) &&
      (ExportStatus(m) == Aborted ==> Within(ws, 0, 3))
  {
    if |m.compts| > 0 {
      var h := HeaderPiece(m, stamp);
      var ps := Plots(m.tables);
      var k := PlottablePrefix(ps);
      ComptsSection(m.compts);
      if k < |ps| {
        PlotsSection(ps[..k]);
        AbortedShape(h, ComptsPieces(m.compts), PlotsPieces(ps[..k]));
      } else {
        PlotsValid(m.tables);
        PlotsSection(ps);
        var msgs := MsgPieces(ComptsMsgs(m.compts) + PlotsMsgs(ps));
        CompleteShape(h, ComptsPieces(m.compts), PlotsPieces(ps), msgs);
      }
    }
  }

  /** The pool loop skips exactly the pools under an enzyme: every record it writes is a kpool
      record of a pool whose parent is not a ZombieEnz, and every such pool gets one, with its
      annotation's colours and position. */
  lemma {:induction false} EnzymePoolsSkipped(ps: seq<Pool>)
    ensures forall w :: w in PoolsPieces(ps) ==>
      w.PoolRec? && w.pool in ps && w.pool.parentClass != "ZombieEnz"
    ensures forall p :: p in ps && p.parentClass != "ZombieEnz" ==>
      var a := Resolve(p.obj.info);
      PoolRec(p, a.color, a.textColor, a.x, a.y) in PoolsPieces(ps)
    decreases |ps|
  {
    if |ps| > 0 {
      var pre, p := ps[..|ps| - 1], ps[|ps| - 1];
      EnzymePoolsSkipped(pre);
      assert ps == pre + [p];
      assert forall q :: q in ps ==> q in pre || q == p;
    }
  }

  /** The pairs before the last of a run under the graphs are a run under the graphs. */
  lemma PlottableFront(ps: seq<Plot>)
    requires |ps| > 0 && PlottablePrefix(ps) == |ps|
    ensures PlottablePrefix(ps[..|ps| - 1]) == |ps| - 1 && Plottable(ps[|ps| - 1])
  {
    var pre := ps[..|ps| - 1];
    assert forall j :: 0 <= j < |pre| ==> pre[j] == ps[j];
    PlottablePrefixIs(pre, |pre|);
  }

  lemma PlotPiecesOne(p: Plot)
    requires Plottable(p)
    ensures PlotPieces(p) == [XplotRec(PlotPath(p.tabPath).value, Resolve(p.src.info).color)]
  {
  }

  lemma {:induction false} PlotsRecordCount(ps: seq<Plot>)
    requires PlottablePrefix(ps) == |ps|
    ensures |PlotsPieces(ps)| == |ps|
    decreases |ps|
  {
    if |ps| > 0 {
      PlottableFront(ps);
      PlotsRecordCount(ps[..|ps| - 1]);
    }
  }

  lemma {:induction false} PlotsRecordAt(ps: seq<Plot>, j: nat)
    requires PlottablePrefix(ps) == |ps| && j < |ps|
    ensures |PlotsPieces(ps)| == |ps|
    ensures PlotsPieces(ps)[j] == XplotRec(PlotPath(ps[j].tabPath).value, Resolve(ps[j].src.info).color)
    decreases |ps|
  {
    var pre, x := ps[..|ps| - 1], ps[|ps| - 1];
    PlottableFront(ps);
    PlotsRecordCount(pre);
    PlotsRecordCount(ps);
    var a, b := PlotsPieces(pre), PlotPieces(x);
    assert PlotsPieces(ps) == a + b;
    if j < |pre| {
      PlotsRecordAt(pre, j);
      assert pre[j] == ps[j];
      assert (a + b)[j] == a[j];
    } else {
      PlotPiecesOne(x);
      assert (a + b)[j] == b[0];
    }
  }

  /** Once every pair lies under the graphs, each pair gives exactly one xplot record, in pair
      order, carrying the table's path from its graphs segment on and the source's colour. */
  lemma PlotsOneRecordPerPair(ps: seq<Plot>)
    requires PlottablePrefix(ps) == |ps|
    ensures |PlotsPieces(ps)| == |ps|
    ensures forall j :: 0 <= j < |ps| ==>
      PlotsPieces(ps)[j] == XplotRec(PlotPath(ps[j].tabPath).value, Resolve(ps[j].src.info).color)
  {
    PlotsRecordCount(ps);
    forall j | 0 <= j < |ps|
      ensures PlotsPieces(ps)[j] == XplotRec(PlotPath(ps[j].tabPath).value, Resolve(ps[j].src.info).color)
    {
      PlotsRecordAt(ps, j);
    }
  }

  lemma PlotMsgsOne(p: Plot)
    requires ValidObj(p.src) && Plottable(p)
    ensures PlotMsgs(p) == [PlotMsg(p.tabPath, p.src, Resolve(p.src.info).color).value]
  {
  }

  /** Once every pair lies under the graphs, each pair stores exactly one PLOT directive. */
  lemma {:induction false} PlotsMsgCount(ps: seq<Plot>)
    requires ValidPlots(ps) && PlottablePrefix(ps) == |ps|
    ensures |PlotsMsgs(ps)| == |ps|
    decreases |ps|
  {
    if |ps| > 0 {
      PlottableFront(ps);
      ValidPlotsPrefix(ps, |ps| - 1);
      PlotsMsgCount(ps[..|ps| - 1]);
      PlotMsgsOne(ps[|ps| - 1]);
    }
  }

  /** Once every pair lies under the graphs, the PLOT directives come in pair order: the j-th is
      pair j's, naming the source and carrying its colour. */
  lemma {:induction false} PlotsMsgAt(ps: seq<Plot>, j: nat)
    requires ValidPlots(ps) && PlottablePrefix(ps) == |ps| && j < |ps|
    ensures |PlotsMsgs(ps)| == |ps|
    ensures PlotsMsgs(ps)[j] == PlotMsg(ps[j].tabPath, ps[j].src, Resolve(ps[j].src.info).color).value
    decreases |ps|
  {
    var pre, x := ps[..|ps| - 1], ps[|ps| - 1];
    PlottableFront(ps);
    ValidPlotsPrefix(ps, |ps| - 1);
    PlotsMsgCount(pre);
    PlotsMsgCount(ps);
    var a, b := PlotsMsgs(pre), PlotMsgs(x);
    assert PlotsMsgs(ps) == a + b;
    if j < |pre| {
      PlotsMsgAt(pre, j);
      assert pre[j] == ps[j];
      assert (a + b)[j] == a[j];
    } else {
      PlotMsgsOne(x);
      assert (a + b)[j] == b[0];
    }
  }

  /** The pairs are exactly the (table, source) pairs of the tables. */
  lemma {:induction false} PlotsCover(ts: seq<Table>)
    ensures forall p :: p in Plots(ts) ==>
      exists i :: 0 <= i < |ts| && p.tabPath == ts[i].path && p.src in ts[i].sources
    ensures forall i, k :: 0 <= i < |ts| && 0 <= k < |ts[i].sources| ==>
      Plot(ts[i].path, ts[i].sources[k]) in Plots(ts)
    decreases |ts|
  {
    if |ts| > 0 {
      var pre, t := ts[..|ts| - 1], ts[|ts| - 1];
      PlotsCover(pre);
      var a, b := Plots(pre), TablePlots(t);
      assert Plots(ts) == a + b;
      forall p: Plot | p in a + b
        ensures exists i :: 0 <= i < |ts| && p.tabPath == ts[i].path && p.src in ts[i].sources
      {
        if p in a {
          var i :| 0 <= i < |pre| && p.tabPath == pre[i].path && p.src in pre[i].sources;
          assert pre[i] == ts[i];
        } else {
          var k :| 0 <= k < |b| && b[k] == p;
          assert t.sources[k] in t.sources;
          assert ts[|ts| - 1] == t;
        }
      }
      forall i, k | 0 <= i < |ts| && 0 <= k < |ts[i].sources|
        ensures Plot(ts[i].path, ts[i].sources[k]) in a + b
      {
        if i < |pre| {
          assert pre[i] == ts[i];
        } else {
          assert b[k] == Plot(ts[i].path, ts[i].sources[k]);
        }
      }
    }
  }

  /** writeKkit stops at the table loop exactly when the model has compartments and some table
      with a source lies outside /graphs and /moregraphs. */
  lemma AbortedIff(m: Model)
    ensures ExportStatus(m) == Aborted <==>
      |m.compts| > 0 &&
      exists i :: 0 <= i < |m.tables| && |m.tables[i].sources| > 0 && PlotPath(m.tables[i].path).None?
  {
    var ts := m.tables;
    var ps := Plots(ts);
    var k := PlottablePrefix(ps);
    PlotsCover(ts);
    if k < |ps| {
      assert ps[k] in ps;
      var i :| 0 <= i < |ts| && ps[k].tabPath == ts[i].path && ps[k].src in ts[i].sources;
      assert |ts[i].sources| > 0;
    }
    if i :| 0 <= i < |ts| && |ts[i].sources| > 0 && PlotPath(ts[i].path).None? {
      var p := Plot(ts[i].path, ts[i].sources[0]);
      assert p in ps;
      var j :| 0 <= j < |ps| && ps[j] == p;
      assert !Plottable(ps[j]);
    }
  }
}
