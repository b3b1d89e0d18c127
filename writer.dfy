// The exporter itself: the output stream and the directive vector as the
// state of a Dump object, the write* and store* functions as its methods,
// and writeKkit driving them over the graph.
module KkitWriter {
  import opened Text
  import opened KkitModel
  import opened Estimate
  import opened Paths
  import opened Records
  import opened Messages
  import opened ExportSpec

  /** The file being written (`fout`), as the records written to it so far, and the directives
      collected for the end (`msgs`). */
  class Dump {
    var out: seq<Piece>
    var msgs: seq<string>

    constructor ()
      ensures out == [] && msgs == []
    {
      out := [];
      msgs := [];
    }

    method WriteHeader(stamp: string, simDt: real, plotDt: real, maxTime: real, defaultVol: real)
      modifies this`out
      ensures out == old(out) + [HeaderRec(stamp, simDt, plotDt, maxTime, defaultVol)]
    {
      out := out + [HeaderRec(stamp, simDt, plotDt, maxTime, defaultVol)];
    }

    method WritePool(p: Pool, colour: string, textcolour: string, x: real, y: real)
      modifies this`out
      ensures out == old(out) + [PoolRec(p, colour, textcolour, x, y)]
    {
      out := out + [PoolRec(p, colour, textcolour, x, y)];
    }

    method WriteReac(r: Reac, colour: string, textcolour: string, x: real, y: real)
      modifies this`out
      ensures out == old(out) + [ReacRec(r, colour, textcolour, x, y)]
    {
      out := out + [ReacRec(r, colour, textcolour, x, y)];
    }

    /** writePlot: only `textcolour` reaches the record, with the table's path from its graphs
        segment on; nothing is written for a table outside /graphs and /moregraphs. */
    method WritePlot(tabPath: string, colour: string, textcolour: string)
      modifies this`out
      ensures out == old(out) + XplotPieces(tabPath, textcolour)
    {
      var pos := Find(tabPath, "/graphs");
      if pos.None? {
        pos := Find(tabPath, "/moregraphs");
      }
      if pos.None? {
        return;
      }
      out := out + [XplotRec(tabPath[pos.value..], textcolour)];
    }

    method WriteGui()
      modifies this`out
      ensures out == old(out) + [GuiRec]
    {
      out := out + [GuiRec];
    }

    method WriteFooter()
      modifies this`out
      ensures out == old(out) + [FooterRec]
    {
      out := out + [FooterRec];
    }

    /** writeMsgs: every directive followed by endl. */
    method WriteMsgs(ms: seq<string>)
      modifies this`out
      ensures out == old(out) + MsgPieces(ms)
    {
      var i := 0;
      while i < |ms|
        invariant 0 <= i <= |ms|
        invariant out == old(out) + MsgPieces(ms)[..i]
      {
        assert MsgPieces(ms)[..i + 1] == MsgPieces(ms)[..i] + [MsgLine(ms[i])];
        out := out + [MsgLine(ms[i])];
        i := i + 1;
      }
    }

    /** One loop of storeReacMsgs: for each neighbour, the directive that feeds it to the reaction,
        then the one that feeds the reaction back to it. */
    method StoreLinks(rp: string, os: seq<Obj>, role: string, reac: string)
      requires forall o :: o in os ==> ValidObj(o)
      modifies this`msgs
      ensures msgs == old(msgs) + LinkMsgs(rp, os, role, reac)
    {
      var i := 0;
      while i < |os|
        invariant 0 <= i <= |os|
        invariant msgs == old(msgs) + LinkMsgs(rp, os[..i], role, reac)
      {
        assert os[..i + 1][..i] == os[..i];
        var o := os[i];
        ghost var prev := msgs;
        ghost var done := LinkMsgs(rp, os[..i], role, reac);
        msgs := msgs + ["addmsg " + TrimPath(o) + " " + rp + role];
        msgs := msgs + ["addmsg " + rp + " " + TrimPath(o) + reac];
        assert msgs == prev + LinkPair(rp, o, role, reac);
        assert LinkMsgs(rp, os[..i + 1], role, reac) == done + LinkPair(rp, o, role, reac);
        Assoc(old(msgs), done, LinkPair(rp, o, role, reac));
        i := i + 1;
      }
      assert os[..i] == os;
    }

    /** storeReacMsgs: the pairs of every substrate, then of every product, appended in place. */
    method StoreReacMsgs(r: Reac)
      requires ValidReac(r)
      modifies this`msgs
      ensures msgs == old(msgs) + ReacMsgs(r)
    {
      var rp := TrimPath(r.obj);
      StoreLinks(rp, r.subs, " SUBSTRATE n", " REAC A B");
      StoreLinks(rp, r.prds, " PRODUCT n", " REAC B A");
      Assoc(old(msgs), LinkMsgs(rp, r.subs, " SUBSTRATE n", " REAC A B"),
        LinkMsgs(rp, r.prds, " PRODUCT n", " REAC B A"));
    }

    /** storePlotMsgs: one PLOT directive; `ok` is false where the source's assertion that the table
        lies under /graphs or /moregraphs fails, and then nothing is stored. */
    method StorePlotMsgs(tabPath: string, src: Obj, bg: string) returns (ok: bool)
      requires ValidObj(src)
      modifies this`msgs
      ensures ok == PlotPath(tabPath).Some?
      ensures msgs == old(msgs) + StoredPlotMsgs(tabPath, src, bg)
    {
      var pos := Find(tabPath, "/graphs");
      if pos.None? {
        pos := Find(tabPath, "/moregraphs");
      }
      if pos.None? {
        return false;
      }
      msgs := msgs + ["addmsg " + TrimPath(src) + " " + tabPath[pos.value..] + " PLOT Co *" + src.name + " *" + bg];
      return true;
    }

    /** The pool loop of a compartment: a kpool record for each pool not under an enzyme. */
    method WritePools(ps: seq<Pool>)
      modifies this`out
      ensures out == old(out) + PoolsPieces(ps)
    {
      var j := 0;
      while j < |ps|
        invariant 0 <= j <= |ps|
        invariant out == old(out) + PoolsPieces(ps[..j])
      {
        assert ps[..j + 1][..j] == ps[..j];
        var p := ps[j];
        ghost var prev := out;
        if p.parentClass != "ZombieEnz" {
          var a := Resolve(p.obj.info);
          WritePool(p, a.color, a.textColor, a.x, a.y);
        }
        assert out == prev + PoolPieces(p);
        Assoc(old(out), PoolsPieces(ps[..j]), PoolPieces(p));
        j := j + 1;
      }
      assert ps[..j] == ps;
    }

    /** The reaction loop of a compartment: a kreac record for each reaction, its directives
        stored. */
    method WriteReacs(rs: seq<Reac>)
      requires ValidReacs(rs)
      modifies this
      ensures out == old(out) + ReacsPieces(rs)
      ensures msgs == old(msgs) + ReacsMsgs(rs)
    {
      var j := 0;
      while j < |rs|
        invariant 0 <= j <= |rs|
        invariant out == old(out) + ReacsPieces(rs[..j])
        invariant msgs == old(msgs) + ReacsMsgs(rs[..j])
      {
        assert rs[..j + 1][..j] == rs[..j];
        var r := rs[j];
        assert r in rs;
        assert forall q :: q in rs[..j] ==> q in rs;
        var a := Resolve(r.obj.info);
        WriteReac(r, a.color, a.textColor, a.x, a.y);
        StoreReacMsgs(r);
        Assoc(old(out), ReacsPieces(rs[..j]), [ReacPiece(r)]);
        Assoc(old(msgs), ReacsMsgs(rs[..j]), ReacMsgs(r));
        j := j + 1;
      }
      assert rs[..j] == rs;
    }

    /** The body of the compartment loop: the geometry record and the blank line endl adds, then
        the pools, then the reactions. */
    method WriteCompt(c: Compt)
      requires ValidReacs(c.reacs)
      modifies this
      ensures out == old(out) + ComptPieces(c)
      ensures msgs == old(msgs) + ReacsMsgs(c.reacs)
    {
      out := out + [GeometryRec(c), EndLine];
      ghost var afterGeometry := out;
      WritePools(c.pools);
      ghost var afterPools := out;
      WriteReacs(c.reacs);
      calc {
        out;
        afterPools + ReacsPieces(c.reacs);
        afterGeometry + PoolsPieces(c.pools) + ReacsPieces(c.reacs);
        { Assoc(old(out), [GeometryRec(c), EndLine], PoolsPieces(c.pools));
          Assoc(old(out), [GeometryRec(c), EndLine] + PoolsPieces(c.pools), ReacsPieces(c.reacs)); }
        old(out) + ComptPieces(c);
      }
    }

    /** The body of the table loop: per source an xplot record and a PLOT directive. `ok` is false
        when the table lies outside the graphs: the first source then writes and stores nothing
        and the exporter's assertion stops it. */
    method WriteTable(t: Table) returns (ok: bool)
      requires forall o :: o in t.sources ==> ValidObj(o)
      modifies this
      ensures ValidPlots(TablePlots(t))
      ensures ok <==> PlottablePrefix(TablePlots(t)) == |t.sources|
      ensures var k := PlottablePrefix(TablePlots(t));
        out == old(out) + PlotsPieces(TablePlots(t)[..k]) &&
        msgs == old(msgs) + PlotsMsgs(TablePlots(t)[..k])
    {
      ghost var ps := TablePlots(t);
      TablePlotsValid(t);
      var j := 0;
      while j < |t.sources|
        invariant 0 <= j <= |t.sources|
        invariant forall k :: 0 <= k < j ==> Plottable(ps[k])
        invariant out == old(out) + PlotsPieces(ps[..j])
        invariant msgs == old(msgs) + PlotsMsgs(ps[..j])
      {
        var src := t.sources[j];
        assert src in t.sources;
        PlotsStep(ps, j);
        var a := Resolve(src.info);
        WritePlot(t.path, a.textColor, a.color);
        var stored := StorePlotMsgs(t.path, src, a.color);
        if !stored {
          PlottablePrefixIs(ps, j);
          return false;
        }
        Assoc(old(out), PlotsPieces(ps[..j]), PlotPieces(ps[j]));
        Assoc(old(msgs), PlotsMsgs(ps[..j]), PlotMsgs(ps[j]));
        j := j + 1;
      }
      PlottablePrefixIs(ps, j);
      assert ps[..j] == ps;
      return true;
    }

    /** The compartment loop of writeKkit. */
    method WriteCompts(cs: seq<Compt>)
      requires ValidCompts(cs)
      modifies this
      ensures out == old(out) + ComptsPieces(cs)
      ensures msgs == old(msgs) + ComptsMsgs(cs)
    {
      var i := 0;
      while i < |cs|
        invariant 0 <= i <= |cs|
        invariant out == old(out) + ComptsPieces(cs[..i])
        invariant msgs == old(msgs) + ComptsMsgs(cs[..i])
      {
        assert cs[..i + 1][..i] == cs[..i];
        var c := cs[i];
        assert c in cs;
        assert forall q :: q in cs[..i] ==> q in cs;
        WriteCompt(c);
        Assoc(old(out), ComptsPieces(cs[..i]), ComptPieces(c));
        Assoc(old(msgs), ComptsMsgs(cs[..i]), ReacsMsgs(c.reacs));
        i := i + 1;
      }
      assert cs[..i] == cs;
    }

    /** The table loop of writeKkit, up to the first source whose table lies outside the graphs,
        where the exporter's assertion stops it (`ok` false). */
    method WriteTables(ts: seq<Table>) returns (ok: bool)
      requires ValidTables(ts)
      modifies this
      ensures ValidPlots(Plots(ts))
      ensures ok <==> PlottablePrefix(Plots(ts)) == |Plots(ts)|
      ensures var k := PlottablePrefix(Plots(ts));
        out == old(out) + PlotsPieces(Plots(ts)[..k]) &&
        msgs == old(msgs) + PlotsMsgs(Plots(ts)[..k])
    {
      PlotsValid(ts);
      var i := 0;
      while i < |ts|
        invariant 0 <= i <= |ts|
        invariant PlottablePrefix(Plots(ts[..i])) == |Plots(ts[..i])|
        invariant ValidPlots(Plots(ts[..i]))
        invariant out == old(out) + PlotsPieces(Plots(ts[..i]))
        invariant msgs == old(msgs) + PlotsMsgs(Plots(ts[..i]))
      {
        var t := ts[i];
        assert t in ts;
        ghost var done := Plots(ts[..i]);
        var tableOk := WriteTable(t);
        ghost var k := PlottablePrefix(TablePlots(t));
        ghost var part := TablePlots(t)[..k];
        ValidPlotsPrefix(TablePlots(t), k);
        PlotsPiecesAppend(done, part);
        PlotsMsgsAppend(done, part);
        Assoc(old(out), PlotsPieces(done), PlotsPieces(part));
        Assoc(old(msgs), PlotsMsgs(done), PlotsMsgs(part));
        if !tableOk {
          TableAborts(ts, i);
          return false;
        }
        WholeTable(t);
        TableCompletes(ts, i);
        i := i + 1;
      }
      assert ts[..i] == ts;
      ghost var all := Plots(ts);
      assert all[..|all|] == all;
      return true;
    }

    /** writeKkit after the header, for a model with compartments; `ok` is false where the
        exporter's assertion stops it at a table outside the graphs. */
    method WriteModel(m: Model) returns (ok: bool)
      requires ValidModel(m) && msgs == []
      modifies this
      ensures ok <==> PlottablePrefix(Plots(m.tables)) == |Plots(m.tables)|
      ensures out == old(out) + ModelPieces(m)
    {
      WriteCompts(m.compts);
      assert msgs == ComptsMsgs(m.compts);
      ghost var comptMsgs := msgs;
      WriteGui();
      ghost var body := ComptsPieces(m.compts) + [GuiRec];
      assert out == old(out) + body;
      ok := WriteTables(m.tables);
      ghost var ps := Plots(m.tables);
      ghost var k := PlottablePrefix(ps);
      Assoc(old(out), body, PlotsPieces(ps[..k]));
      if !ok {
        return;
      }
      assert ps[..k] == ps;
      ghost var all := comptMsgs + PlotsMsgs(ps);
      ghost var mid := out;
      WriteMsgs(msgs);
      WriteFooter();
      assert out == mid + MsgPieces(all) + [FooterRec];
      Assoc(old(out), body + PlotsPieces(ps), MsgPieces(all));
      Assoc(old(out), body + PlotsPieces(ps) + MsgPieces(all), [FooterRec]);
    }
  }

  /** writeKkit, as the records it writes to the dump file and the status it ends in. */
  method WriteKkit(m: Model, stamp: string) returns (out: seq<Piece>, status: Status)
    requires ValidModel(m)
    ensures status == ExportStatus(m)
    ensures out == ExportPieces(m, stamp)
  {
    var d := new Dump();
    var runTime, simDt, plotDt := EstimateSimTimes(m.clock.runTime, m.clock.dts);
    var defaultVol := EstimateDefaultVol(m.children);
    d.WriteHeader(stamp, simDt, plotDt, runTime, defaultVol);
    if |m.compts| == 0 {
      return d.out, NoModel;
    }
    var ok := d.WriteModel(m);
    return d.out, if ok then Complete else Aborted;
  }

  /** The characters of the dump file writeKkit produces for model `m`. */
  method WriteKkitText(m: Model, fmt: real -> string, stamp: string) returns (text: string, status: Status)
    requires ValidModel(m)
    ensures status == ExportStatus(m)
    ensures text == ExportText(m, fmt, stamp)
  {
    var out;
    out, status := WriteKkit(m, stamp);
    text := FileText(out, fmt);
  }
}
