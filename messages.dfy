// The addmsg directives collected while the compartments and tables are
// written: two per reaction neighbour (storeReacMsgs) and one PLOT message
// per plotted source (storePlotMsgs).
module Messages {
  import opened Text
  import opened KkitModel
  import opened Paths

  /** The two directives for one neighbour `o` of a reaction at trimmed path `rp`: the neighbour's
      n feeds the reaction under `role`, and the reaction feeds back under `reac`. */
  function LinkPair(rp: string, o: Obj, role: string, reac: string): seq<string>
    requires ValidObj(o)
  {
    ["addmsg " + TrimPath(o) + " " + rp + role,
     "addmsg " + rp + " " + TrimPath(o) + reac]
  }

  /** The directives for a list of neighbours, in list order. */
  function LinkMsgs(rp: string, os: seq<Obj>, role: string, reac: string): seq<string>
    requires forall o :: o in os ==> ValidObj(o)
  {
    if |os| == 0 then []
    else LinkMsgs(rp, os[..|os| - 1], role, reac) + LinkPair(rp, os[|os| - 1], role, reac)
  }

  /** storeReacMsgs: substrates first, then products. */
  function ReacMsgs(r: Reac): seq<string>
    requires ValidReac(r)
  {
    LinkMsgs(TrimPath(r.obj), r.subs, " SUBSTRATE n", " REAC A B") +
    LinkMsgs(TrimPath(r.obj), r.prds, " PRODUCT n", " REAC B A")
  }

  lemma {:induction false} LinkMsgsLength(rp: string, os: seq<Obj>, role: string, reac: string)
    requires forall o :: o in os ==> ValidObj(o)
    ensures |LinkMsgs(rp, os, role, reac)| == 2 * |os|
    decreases |os|
  {
    if |os| > 0 {
      LinkMsgsLength(rp, os[..|os| - 1], role, reac);
    }
  }

  /** The two directives of neighbour k sit at 2k and 2k + 1. */
  lemma {:induction false} LinkMsgsAt(rp: string, os: seq<Obj>, role: string, reac: string, k: nat)
    requires forall o :: o in os ==> ValidObj(o)
    requires k < |os|
    ensures |LinkMsgs(rp, os, role, reac)| == 2 * |os|
    ensures LinkMsgs(rp, os, role, reac)[2 * k] == "addmsg " + TrimPath(os[k]) + " " + rp + role
    ensures LinkMsgs(rp, os, role, reac)[2 * k + 1] == "addmsg " + rp + " " + TrimPath(os[k]) + reac
    decreases |os|
  {
    LinkMsgsLength(rp, os, role, reac);
    var pre := os[..|os| - 1];
    LinkMsgsLength(rp, pre, role, reac);
    if k < |pre| {
      LinkMsgsAt(rp, pre, role, reac, k);
      assert pre[k] == os[k];
    }
  }

  /** A reaction's directives: all of its substrates' pairs, then all of its products' pairs,
      2 * (|subs| + |prds|) in all. */
  lemma ReacMsgsLayout(r: Reac)
    requires ValidReac(r)
    ensures |ReacMsgs(r)| == 2 * (|r.subs| + |r.prds|)
    ensures ReacMsgs(r)[..2 * |r.subs|] == LinkMsgs(TrimPath(r.obj), r.subs, " SUBSTRATE n", " REAC A B")
    ensures ReacMsgs(r)[2 * |r.subs|..] == LinkMsgs(TrimPath(r.obj), r.prds, " PRODUCT n", " REAC B A")
  {
    var rp := TrimPath(r.obj);
    LinkMsgsLength(rp, r.subs, " SUBSTRATE n", " REAC A B");
    LinkMsgsLength(rp, r.prds, " PRODUCT n", " REAC B A");
  }

  /** Substrate k contributes "addmsg S R SUBSTRATE n" at 2k, then "addmsg R S REAC A B". */
  lemma SubstrateMsgsAt(r: Reac, k: nat)
    requires ValidReac(r) && k < |r.subs|
    ensures |ReacMsgs(r)| == 2 * (|r.subs| + |r.prds|)
    ensures ReacMsgs(r)[2 * k] == "addmsg " + TrimPath(r.subs[k]) + " " + TrimPath(r.obj) + " SUBSTRATE n"
    ensures ReacMsgs(r)[2 * k + 1] == "addmsg " + TrimPath(r.obj) + " " + TrimPath(r.subs[k]) + " REAC A B"
  {
    ReacMsgsLayout(r);
    var a := LinkMsgs(TrimPath(r.obj), r.subs, " SUBSTRATE n", " REAC A B");
    LinkMsgsAt(TrimPath(r.obj), r.subs, " SUBSTRATE n", " REAC A B", k);
    assert ReacMsgs(r)[2 * k] == ReacMsgs(r)[..2 * |r.subs|][2 * k];
    assert ReacMsgs(r)[2 * k + 1] == ReacMsgs(r)[..2 * |r.subs|][2 * k + 1];
  }

  /** Product k contributes, after every substrate's pair, "addmsg P R PRODUCT n" at 2|subs| + 2k,
      then "addmsg R P REAC B A". */
  lemma ProductMsgsAt(r: Reac, k: nat)
    requires ValidReac(r) && k < |r.prds|
    ensures |ReacMsgs(r)| == 2 * (|r.subs| + |r.prds|)
    ensures ReacMsgs(r)[2 * |r.subs| + 2 * k] ==
      "addmsg " + TrimPath(r.prds[k]) + " " + TrimPath(r.obj) + " PRODUCT n"
    ensures ReacMsgs(r)[2 * |r.subs| + 2 * k + 1] ==
      "addmsg " + TrimPath(r.obj) + " " + TrimPath(r.prds[k]) + " REAC B A"
  {
    ReacMsgsLayout(r);
    LinkMsgsAt(TrimPath(r.obj), r.prds, " PRODUCT n", " REAC B A", k);
    assert ReacMsgs(r)[2 * |r.subs| + 2 * k] == ReacMsgs(r)[2 * |r.subs|..][2 * k];
    assert ReacMsgs(r)[2 * |r.subs| + 2 * k + 1] == ReacMsgs(r)[2 * |r.subs|..][2 * k + 1];
  }

  /** storePlotMsgs: the source's concentration plotted into the table, tagged with the source's
      name and colour; None where the table path has no graphs segment (the assertion fails). */
  function PlotMsg(tabPath: string, src: Obj, bg: string): Option<string>
    requires ValidObj(src)
  {
    match PlotPath(tabPath)
    case None => None
    case Some(tp) => Some("addmsg " + TrimPath(src) + " " + tp + " PLOT Co *" + src.name + " *" + bg)
  }

  lemma EndsWith(a: string, b: string)
    ensures |a + b| >= |b| && (a + b)[|a + b| - |b|..] == b
  {
  }

  /** Every PLOT directive ends with " PLOT Co *<source name> *<colour>" and starts at the source's
      trimmed path. */
  lemma PlotMsgShape(tabPath: string, src: Obj, bg: string)
    requires ValidObj(src) && PlotPath(tabPath).Some?
    ensures var m := PlotMsg(tabPath, src, bg).value;
      var tail := " PLOT Co *" + src.name + " *" + bg;
      StartsWith(m, "addmsg " + TrimPath(src) + " ") &&
      |m| >= |tail| && m[|m| - |tail|..] == tail
  {
    var m := PlotMsg(tabPath, src, bg).value;
    var head := "addmsg " + TrimPath(src) + " ";
    var tail := " PLOT Co *" + src.name + " *" + bg;
    assert m == head + PlotPath(tabPath).value + tail;
    assert m[..|head|] == head;
    EndsWith(head + PlotPath(tabPath).value, tail);
  }
}
