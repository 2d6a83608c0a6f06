/**
  An abstract view of a viewport value set (the framework's `Viewports` field
  type): a fixed order of viewport names, an optional integer value per name,
  and a breakpoint (a CSS media-query expression) per name. How the framework
  stores the values and computes breakpoints is not part of this model; the
  order and the breakpoint lookup are parameters.
 */
module Viewports {
  import opened Wrappers

  datatype ViewportSet = ViewportSet(
    names: seq<string>,               // the order the framework lists its viewports in
    values: map<string, int>,         // a name without a key is unset
    breakpoint: string -> string)     // the media-query value for each viewport

  /** The stored value for one viewport, with no fallback to any other viewport. */
  function GetField(w: ViewportSet, name: string): (r: Option<int>)
    ensures r.Some? <==> name in w.values
    ensures r.Some? ==> r.value == w.values[name]
  {
    if name in w.values then Some(w.values[name]) else None
  }

  /**
    PHP truthiness of the stored value: an unset viewport and a viewport
    whose value is 0 are both false.
   */
  predicate IsTruthy(w: ViewportSet, name: string): (truthy: bool)
    ensures name !in w.values ==> !truthy
    ensures name in w.values ==> (truthy <==> w.values[name] != 0)
  {
    match GetField(w, name)
    case None => false
    case Some(v) => v != 0
  }

  /** A value set with no viewport assigned. */
  function Empty(names: seq<string>, breakpoint: string -> string): (w: ViewportSet)
    ensures w.names == names
    ensures forall name :: !IsTruthy(w, name)
  {
    ViewportSet(names, map[], breakpoint)
  }
}
