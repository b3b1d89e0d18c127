// The text of the dump: the header, the simundump records for compartments
// (geometry), pools (kpool), reactions (kreac) and plots (xplot), the fixed
// GUI block and the footer.
//
// A geometry, kpool or kreac record is the words "simundump <kind> <path> 0"
// followed by one value per field of the simobjdump declaration of <kind>
// in the header, in declaration order; the reader assigns values to fields
// by position. Doubles are rendered by `fmt`, which stands for the stream's
// operator<< on double.
module Records {
  import opened Text
  import opened KkitModel

  /** Avogadro's number as the exporter's headers define it. */
  const NA: real := 6.0221415e23

  /** Field names of the simobjdump declarations in the header. */
  datatype Column =
    | Size | Dim | Shape | Outside
    | DiffConst | CoInit | Co | N | NInit | Mwt | NMin | Vol | SlaveEnable | GeomName
    | Kf | Kb | Notes
    | FgReq | TextFgReq | X | Y | Z

  /** simobjdump geometry size dim shape outside xtree_fg_req xtree_textfg_req x y z */
  const GeometrySchema: seq<Column> := [Size, Dim, Shape, Outside, FgReq, TextFgReq, X, Y, Z]

  /** simobjdump kpool DiffConst CoInit Co n nInit mwt nMin vol slave_enable geomname
      xtree_fg_req xtree_textfg_req x y z */
  const KpoolSchema: seq<Column> :=
    [DiffConst, CoInit, Co, N, NInit, Mwt, NMin, Vol, SlaveEnable, GeomName, FgReq, TextFgReq, X, Y, Z]

  /** simobjdump kreac kf kb notes xtree_fg_req xtree_textfg_req x y z */
  const KreacSchema: seq<Column> := [Kf, Kb, Notes, FgReq, TextFgReq, X, Y, Z]

  /** Every double is rendered as a single word. */
  ghost predicate WordRenderer(fmt: real -> string)
  {
    forall v :: Word(fmt(v))
  }

  /** The value a geometry record gives field `col`: the volume, the dimension count, a sphere
      with no outside compartment, white on black at the origin. */
  function GeometryValue(c: Compt, fmt: real -> string, col: Column): string
  {
    match col
    case Size => fmt(c.volume)
    case Dim => NatStr(c.numDimensions)
    case Shape => "sphere"
    case Outside => "\"\""
    case FgReq => "white"
    case TextFgReq => "black"
    case X => "0"
    case Y => "0"
    case Z => "0"
    case _ => ""
  }

  /** The value a kpool record gives field `col`: the pool's diffusion constant, concentrations and
      counts; 0 for mwt and nMin; the volume scaled by NA * 1e-3; slave_enable 0; the parent's
      geometry; the annotation's colours and position; z = 0. */
  function KpoolValue(p: Pool, colour: string, textcolour: string, x: real, y: real,
                      fmt: real -> string, col: Column): string
  {
    match col
    case DiffConst => fmt(p.diffConst)
    case CoInit => fmt(p.concInit)
    case Co => fmt(p.conc)
    case N => fmt(p.n)
    case NInit => fmt(p.nInit)
    case Mwt => "0"
    case NMin => "0"
    case Vol => fmt(p.volume * NA * 1.0e-3)
    case SlaveEnable => "0"
    case GeomName => p.obj.parentName + "/geometry"
    case FgReq => colour
    case TextFgReq => textcolour
    case X => fmt(x)
    case Y => fmt(y)
    case Z => "0"
    case _ => ""
  }

  /** The value a kreac record gives field `col`: the rate constants, empty notes, the annotation's
      colours and position, z = 0. */
  function KreacValue(r: Reac, colour: string, textcolour: string, x: real, y: real,
                      fmt: real -> string, col: Column): string
  {
    match col
    case Kf => fmt(r.kf)
    case Kb => fmt(r.kb)
    case Notes => "\"\""
    case FgReq => colour
    case TextFgReq => textcolour
    case X => fmt(x)
    case Y => fmt(y)
    case Z => "0"
    case _ => ""
  }

  /** "simundump geometry /<compartment>/geometry 0 ..." */
  function GeometryLine(c: Compt, fmt: real -> string): string
  {
    Join(["simundump", "geometry", "/" + c.name + "/geometry", "0"] +
         seq(|GeometrySchema|, k requires 0 <= k < |GeometrySchema| => GeometryValue(c, fmt, GeometrySchema[k])))
    + "\n"
  }

  /** "simundump kpool /<parent>/<pool> 0 ..." (writePool). */
  function KpoolLine(p: Pool, colour: string, textcolour: string, x: real, y: real,
                     fmt: real -> string): string
  {
    Join(["simundump", "kpool", "/" + p.obj.parentName + "/" + p.obj.name, "0"] +
         seq(|KpoolSchema|, k requires 0 <= k < |KpoolSchema| =>
           KpoolValue(p, colour, textcolour, x, y, fmt, KpoolSchema[k])))
    + "\n"
  }

  /** "simundump kreac /<parent>/<reaction> 0 ..." (writeReac). */
  function KreacLine(r: Reac, colour: string, textcolour: string, x: real, y: real,
                     fmt: real -> string): string
  {
    Join(["simundump", "kreac", "/" + r.obj.parentName + "/" + r.obj.name, "0"] +
         seq(|KreacSchema|, k requires 0 <= k < |KreacSchema| =>
           KreacValue(r, colour, textcolour, x, y, fmt, KreacSchema[k])))
    + "\n"
  }

  /** The xplot record of writePlot, for a plot path already cut at its graphs segment. */
  function XplotLine(path: string, textcolour: string): string
  {
    "simundump xplot " + path + " 3 524288 \\\n" +
    "\"delete_plot.w <s> <d>; edit_plot.D <w>\" " + textcolour + " 0 0 1\n"
  }

  /** The schema declarations at the end of the header. */
  const Declarations: string :=
    "initdump -version 3 -ignoreorphans 1\n" +
    "simobjdump table input output alloced step_mode stepsize x y z\n" +
    "simobjdump xtree path script namemode sizescale\n" +
    "simobjdump xcoredraw xmin xmax ymin ymax\n" +
    "simobjdump xtext editable\n" +
    "simobjdump xgraph xmin xmax ymin ymax overlay\n" +
    "simobjdump xplot pixflags script fg ysquish do_slope wy\n" +
    "simobjdump group xtree_fg_req xtree_textfg_req plotfield expanded movealone \\\n" +
    "  link savename file version md5sum mod_save_flag x y z\n" +
    "simobjdump geometry size dim shape outside xtree_fg_req xtree_textfg_req x y z\n" +
    "simobjdump kpool DiffConst CoInit Co n nInit mwt nMin vol slave_enable \\\n" +
    "  geomname xtree_fg_req xtree_textfg_req x y z\n" +
    "simobjdump kreac kf kb notes xtree_fg_req xtree_textfg_req x y z\n" +
    "simobjdump kenz CoComplexInit CoComplex nComplexInit nComplex vol k1 k2 k3 \\\n" +
    "  keepconc usecomplex notes xtree_fg_req xtree_textfg_req link x y z\n" +
    "simobjdump stim level1 width1 delay1 level2 width2 delay2 baselevel trig_time \\\n" +
    "  trig_mode notes xtree_fg_req xtree_textfg_req is_running x y z\n" +
    "simobjdump xtab input output alloced step_mode stepsize notes editfunc \\\n" +
    "  xtree_fg_req xtree_textfg_req baselevel last_x last_y is_running x y z\n" +
    "simobjdump kchan perm gmax Vm is_active use_nernst notes xtree_fg_req \\\n" +
    "  xtree_textfg_req x y z\n" +
    "simobjdump transport input output alloced step_mode stepsize dt delay clock \\\n" +
    "  kf xtree_fg_req xtree_textfg_req x y z\n" +
    "simobjdump proto x y z\n"

  /** writeHeader; `stamp` is the text ctime returns for the moment of saving. */
  function HeaderText(stamp: string, simDt: real, plotDt: real, maxTime: real, defaultVol: real,
                      fmt: real -> string): string
  {
    "//genesis\n// kkit Version 11 flat dumpfile\n\n" +
    "// Saved on " + stamp + "\n" +
    "include kkit {argv 1}\n" +
    "FASTDT = " + fmt(simDt) + "\n" +
    "SIMDT = " + fmt(simDt) + "\n" +
    "CONTROLDT = " + fmt(plotDt) + "\n" +
    "PLOTDT = " + fmt(plotDt) + "\n" +
    "MAXTIME = " + fmt(maxTime) + "\n" +
    "TRANSIENT_TIME = 2\nVARIABLE_DT_FLAG = 0\n" +
    "DEFAULT_VOL = " + fmt(defaultVol) + "\n" +
    "VERSION = 11.0\nsetfield /file/modpath value ~/scripts/modules\nkparms\n\n" +
    Declarations
  }

  /** writeGui: graphs, the edit canvas, its tree view and the notes box. */
  const GuiText: string :=
    "simundump xgraph /graphs/conc1 0 0 99 0.001 0.999 0\n" +
    "simundump xgraph /graphs/conc2 0 0 100 0 1 0\n" +
    "simundump xgraph /moregraphs/conc3 0 0 100 0 1 0\n" +
    "simundump xgraph /moregraphs/conc4 0 0 100 0 1 0\n" +
    "simundump xcoredraw /edit/draw 0 -6 4 -2 6\n" +
    "simundump xtree /edit/draw/tree 0 \\\n" +
    "  /kinetics/#[],/kinetics/#[]/#[],/kinetics/#[]/#[]/#[][TYPE!=proto],/kinetics/#[]/#[]/#[][TYPE!=linkinfo]/##[] \"edit_elm.D <v>; drag_from_edit.w <d> <S> <x> <y> <z>\" auto 0.6\n" +
    "simundump xtext /file/notes 0 1\n"

  /** writeFooter. */
  const FooterText: string := "\nenddump\ncomplete_loading\n"

  /** The columns a reader sees in a one-line record. */
  function Columns(line: string): seq<string>
    requires |line| > 0
  {
    Split(line[..|line| - 1])
  }

  lemma WordConcat(a: string, b: string)
    requires ' ' !in a && '\n' !in a && ' ' !in b && '\n' !in b && |a + b| > 0
    ensures Word(a + b)
  {
    assert forall i :: 0 <= i < |a + b| ==> (a + b)[i] in a || (a + b)[i] in b;
  }

  /** A record built from a head of words and field values is one line whose columns are those
      words and values. */
  lemma RecordColumns(head: seq<string>, values: seq<string>)
    requires |head| >= 1
    requires forall k :: 0 <= k < |head| ==> Word(head[k])
    requires forall k :: 0 <= k < |values| ==> Word(values[k])
    ensures var line := Join(head + values) + "\n";
      |line| > 0 && line[|line| - 1] == '\n' && '\n' !in line[..|line| - 1] &&
      Columns(line) == head + values
  {
    var ws := head + values;
    assert forall k :: 0 <= k < |ws| ==> Word(ws[k]) by {
      forall k | 0 <= k < |ws| ensures Word(ws[k]) {
        if k < |head| { assert ws[k] == head[k]; } else { assert ws[k] == values[k - |head|]; }
      }
    }
    SplitJoin(ws);
    JoinSingleLine(ws);
    var line := Join(ws) + "\n";
    assert line[..|line| - 1] == Join(ws);
  }

  lemma PathWord(a: string, b: string)
    requires Word(a) && Word(b)
    ensures Word("/" + a + "/" + b)
  {
    WordConcat("/", a);
    WordConcat("/" + a, "/");
    WordConcat("/" + a + "/", b);
  }

  lemma GeometryValueWord(c: Compt, fmt: real -> string, col: Column)
    requires WordRenderer(fmt) && col in GeometrySchema
    ensures Word(GeometryValue(c, fmt, col))
  {
    if col == Dim {
      NatStrIsWord(c.numDimensions);
    }
  }

  /** The geometry record is one line: "simundump geometry /<name>/geometry 0", then the volume,
      the dimension count and the fixed shape, colours and position, as the geometry declaration
      orders its fields. */
  lemma GeometryColumns(c: Compt, fmt: real -> string)
    requires WordRenderer(fmt) && Word(c.name)
    ensures var line := GeometryLine(c, fmt);
      |line| > 0 && line[|line| - 1] == '\n' && '\n' !in line[..|line| - 1] &&
      |Columns(line)| == 4 + |GeometrySchema| &&
      Columns(line)[..4] == ["simundump", "geometry", "/" + c.name + "/geometry", "0"] &&
      forall k :: 0 <= k < |GeometrySchema| ==> Columns(line)[4 + k] == GeometryValue(c, fmt, GeometrySchema[k])
  {
    WordConcat("/", c.name);
    WordConcat("/" + c.name, "/geometry");
    var values := seq(|GeometrySchema|, k requires 0 <= k < |GeometrySchema| => GeometryValue(c, fmt, GeometrySchema[k]));
    forall k | 0 <= k < |values| ensures Word(values[k]) {
      GeometryValueWord(c, fmt, GeometrySchema[k]);
    }
    RecordColumns(["simundump", "geometry", "/" + c.name + "/geometry", "0"], values);
  }

  lemma KpoolValueWord(p: Pool, colour: string, textcolour: string, x: real, y: real,
                       fmt: real -> string, col: Column)
    requires WordRenderer(fmt) && Word(p.obj.parentName) && Word(colour) && Word(textcolour)
    requires col in KpoolSchema
    ensures Word(KpoolValue(p, colour, textcolour, x, y, fmt, col))
  {
    if col == GeomName {
      WordConcat(p.obj.parentName, "/geometry");
    }
  }

  /** The kpool record is one line: "simundump kpool /<parent>/<pool> 0", then diffConst, concInit,
      conc, n, nInit, 0, 0, volume * NA * 1e-3, 0, <parent>/geometry, the colours, x, y and 0 --
      the fields of the kpool declaration, in its order. */
  lemma KpoolColumns(p: Pool, colour: string, textcolour: string, x: real, y: real, fmt: real -> string)
    requires WordRenderer(fmt) && Word(p.obj.name) && Word(p.obj.parentName)
    requires Word(colour) && Word(textcolour)
    ensures var line := KpoolLine(p, colour, textcolour, x, y, fmt);
      |line| > 0 && line[|line| - 1] == '\n' && '\n' !in line[..|line| - 1] &&
      |Columns(line)| == 4 + |KpoolSchema| &&
      Columns(line)[..4] == ["simundump", "kpool", "/" + p.obj.parentName + "/" + p.obj.name, "0"] &&
      forall k :: 0 <= k < |KpoolSchema| ==>
        Columns(line)[4 + k] == KpoolValue(p, colour, textcolour, x, y, fmt, KpoolSchema[k])
  {
    PathWord(p.obj.parentName, p.obj.name);
    var values := seq(|KpoolSchema|, k requires 0 <= k < |KpoolSchema| =>
      KpoolValue(p, colour, textcolour, x, y, fmt, KpoolSchema[k]));
    forall k | 0 <= k < |values| ensures Word(values[k]) {
      KpoolValueWord(p, colour, textcolour, x, y, fmt, KpoolSchema[k]);
    }
    RecordColumns(["simundump", "kpool", "/" + p.obj.parentName + "/" + p.obj.name, "0"], values);
  }

  lemma KreacValueWord(r: Reac, colour: string, textcolour: string, x: real, y: real,
                       fmt: real -> string, col: Column)
    requires WordRenderer(fmt) && Word(colour) && Word(textcolour) && col in KreacSchema
    ensures Word(KreacValue(r, colour, textcolour, x, y, fmt, col))
  {
  }

  /** The kreac record is one line: "simundump kreac /<parent>/<reaction> 0", then kf, kb, empty
      notes, the colours, x, y and 0 -- the fields of the kreac declaration, in its order. */
  lemma KreacColumns(r: Reac, colour: string, textcolour: string, x: real, y: real, fmt: real -> string)
    requires WordRenderer(fmt) && Word(r.obj.name) && Word(r.obj.parentName)
    requires Word(colour) && Word(textcolour)
    ensures var line := KreacLine(r, colour, textcolour, x, y, fmt);
      |line| > 0 && line[|line| - 1] == '\n' && '\n' !in line[..|line| - 1] &&
      |Columns(line)| == 4 + |KreacSchema| &&
      Columns(line)[..4] == ["simundump", "kreac", "/" + r.obj.parentName + "/" + r.obj.name, "0"] &&
      forall k :: 0 <= k < |KreacSchema| ==>
        Columns(line)[4 + k] == KreacValue(r, colour, textcolour, x, y, fmt, KreacSchema[k])
  {
    PathWord(r.obj.parentName, r.obj.name);
    var values := seq(|KreacSchema|, k requires 0 <= k < |KreacSchema| =>
      KreacValue(r, colour, textcolour, x, y, fmt, KreacSchema[k]));
    forall k | 0 <= k < |values| ensures Word(values[k]) {
      KreacValueWord(r, colour, textcolour, x, y, fmt, KreacSchema[k]);
    }
    RecordColumns(["simundump", "kreac", "/" + r.obj.parentName + "/" + r.obj.name, "0"], values);
  }
}
