/**
 * Color levels and the per-thread color-level context that chooses which ANSI
 * serializer renders a component. One thread is modelled: the thread-local
 * slot is a field.
 */
module Ansi {
  import opened Wrappers

  /** The terminal color capability of a client (net.kyori.ansi.ColorLevel). */
  datatype ColorLevel = NoColor | Indexed8 | Indexed16 | Indexed256 | TrueColor

  /** The six serializers: one per level, and one for the level of the local terminal. */
  datatype Serializer = AnsiLocal | AnsiFor(level: ColorLevel)

  /** The level a serializer renders at, given the local terminal's level. */
  function SerializerLevel(s: Serializer, local: ColorLevel): ColorLevel {
    match s
    case AnsiLocal => local
    case AnsiFor(level) => level
  }

  /** What a push hands back: the value the slot held before, to be put back on close. */
  datatype Scope<T> = Scope(previous: Option<T>)

  /** ColorLevelContext: a thread-local color level, falling back to the local terminal's. */
  class ColorLevelContext {
    /** LOCAL_COLOR_LEVEL, computed once from the environment. */
    const localColorLevel: ColorLevel
    /** The thread-local CURRENT slot; None when nothing is pushed. */
    var current: Option<ColorLevel>

    constructor (localColorLevel: ColorLevel)
      ensures this.localColorLevel == localColorLevel && current == None
    {
      this.localColorLevel := localColorLevel;
      current := None;
    }

    /** current(): the pushed level, else the local one. */
    function Current(): (level: ColorLevel)
      reads this
      ensures current.Some? ==> level == current.value
      ensures current.None? ==> level == localColorLevel
    {
      if current.Some? then current.value else localColorLevel
    }

    /** push: set the slot, and hand back the previous value for close. */
    method Push(level: ColorLevel) returns (scope: Scope<ColorLevel>)
      modifies this
      ensures current == Some(level) && Current() == level
      ensures scope == Scope(old(current))
    {
      scope := Scope(current);
      current := Some(level);
    }

    /** Closing a scope puts the previous value back, or clears the slot if there was none. */
    method Close(scope: Scope<ColorLevel>)
      modifies this
      ensures current == scope.previous
      ensures scope.previous == None ==> Current() == localColorLevel
    {
      current := scope.previous;
    }

    /** Scopes nested as try-with-resources blocks, the k-th pushing `levels[k]`: `innermost` is
      * the current level inside the innermost block, the last level pushed, and once every
      * scope has closed, innermost first, the slot is back as it was. */
    method Nested(levels: seq<ColorLevel>) returns (innermost: ColorLevel)
      modifies this
      ensures innermost == if levels == [] then old(Current()) else levels[|levels| - 1]
      ensures current == old(current)
      decreases |levels|
    {
      if levels == [] {
        innermost := Current();
      } else {
        var scope := Push(levels[0]);
        innermost := Nested(levels[1..]);
        Close(scope);
      }
    }

    /** currentSerializer: the serializer for the pushed level, or ANSI_LOCAL when unset. */
    function CurrentSerializer(): (s: Serializer)
      reads this
      ensures SerializerLevel(s, localColorLevel) == Current()
      ensures s == AnsiLocal <==> current == None
    {
      match current
      case None => AnsiLocal
      case Some(level) =>
        match level
        case NoColor => AnsiFor(NoColor)
        case Indexed8 => AnsiFor(Indexed8)
        case Indexed16 => AnsiFor(Indexed16)
        case Indexed256 => AnsiFor(Indexed256)
        case TrueColor => AnsiFor(TrueColor)
    }
  }
}
