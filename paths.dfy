// Path rewriting: trimPath, and the "/graphs" / "/moregraphs" prefix
// search shared by writePlot and storePlotMsgs.
module Paths {
  import opened Text
  import opened KkitModel

  predicate IsSuffix(r: string, s: string)
  {
    |r| <= |s| && s[|s| - |r|..] == r
  }

  predicate StartsWith(s: string, p: string)
  {
    |p| <= |s| && s[..|p|] == p
  }

  /** trimPath: the object's path from the first occurrence of "/" + its parent's name on. The
      search cannot fail on a valid object (TrimPathSpec). */
  function TrimPath(o: Obj): string
    requires ValidObj(o)
  {
    match Find(o.path, "/" + o.parentName)
    case Some(pos) => o.path[pos..]
    case None => o.path
  }

  /** The trimmed path is the tail of the path that starts at the first "/" + parent name. */
  lemma TrimPathSpec(o: Obj)
    requires ValidObj(o)
    ensures IsSuffix(TrimPath(o), o.path)
    ensures StartsWith(TrimPath(o), "/" + o.parentName)
    ensures forall j: nat :: j < |o.path| - |TrimPath(o)| ==> !OccursAt(o.path, "/" + o.parentName, j)
  {
    FindSpec(o.path, "/" + o.parentName);
  }

  /** The path of a plot table from its "/graphs" segment, or failing that from its "/moregraphs"
      segment; None when it has neither. */
  function PlotPath(tabPath: string): Option<string>
  {
    match Find(tabPath, "/graphs")
    case Some(pos) => Some(tabPath[pos..])
    case None =>
      match Find(tabPath, "/moregraphs")
      case Some(pos) => Some(tabPath[pos..])
      case None => None
  }

  /** A plot path exists exactly when the table path has a graphs segment; it is the tail from
      the first "/graphs", or failing that from the first "/moregraphs". */
  lemma PlotPathSpec(tabPath: string)
    ensures PlotPath(tabPath).None? <==> !Contains(tabPath, "/graphs") && !Contains(tabPath, "/moregraphs")
    ensures PlotPath(tabPath).Some? ==> IsSuffix(PlotPath(tabPath).value, tabPath)
    ensures PlotPath(tabPath).Some? && Contains(tabPath, "/graphs") ==>
      StartsWith(PlotPath(tabPath).value, "/graphs") &&
      forall j: nat :: j < |tabPath| - |PlotPath(tabPath).value| ==> !OccursAt(tabPath, "/graphs", j)
    ensures PlotPath(tabPath).Some? && !Contains(tabPath, "/graphs") ==>
      StartsWith(PlotPath(tabPath).value, "/moregraphs") &&
      forall j: nat :: j < |tabPath| - |PlotPath(tabPath).value| ==> !OccursAt(tabPath, "/moregraphs", j)
  {
    FindSpec(tabPath, "/graphs");
    FindSpec(tabPath, "/moregraphs");
  }
}
