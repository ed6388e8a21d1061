/**
 * The two per-thread contexts the server's logging uses: the color level a
 * layout renders at, and the five pre-rendered copies of a rich log message
 * kept in the logging library's thread context map. One thread is modelled:
 * each thread-local becomes a field.
 */
module LogContexts {
  import opened Wrappers
  import opened Ansi

  // ---------------------------------------------------------------------------
  // RenderColorContext
  // ---------------------------------------------------------------------------

  /** A thread-local color level for rendering, falling back to the local terminal's. */
  class RenderColorContext {
    /** LOCAL, computed once from the environment. */
    const local: ColorLevel
    /** The thread-local CURRENT slot; None when nothing is pushed. */
    var current: Option<ColorLevel>

    constructor (local: ColorLevel)
      ensures this.local == local && current == None && Current() == local
    {
      this.local := local;
      current := None;
    }

    /** current(): the pushed level, else LOCAL. */
    function Current(): (level: ColorLevel)
      reads this
      ensures current.None? ==> level == local
      ensures current.Some? ==> level == current.value
    {
      if current.Some? then current.value else local
    }

    /** push: set the slot, and hand back the previous value for close. */
    method Push(level: ColorLevel) returns (scope: Scope<ColorLevel>)
      modifies this
      ensures current == Some(level) && Current() == level
      ensures scope == Scope(old(current))
    {
      scope := Scope(current);
      current := Some(level);
    }

    /** Closing a scope puts the previous value back, or empties the slot if there was none,
      * so that current() is LOCAL again. */
    method Close(scope: Scope<ColorLevel>)
      modifies this
      ensures current == scope.previous
      ensures scope.previous == None ==> Current() == local
    {
      current := scope.previous;
    }
  }

  // ---------------------------------------------------------------------------
  // RichLogContext
  // ---------------------------------------------------------------------------

  const KeyPrefix: string := "endermux.richMessage."

  /** The part of each key after the prefix. */
  function KeySuffix(level: ColorLevel): string {
    match level
    case NoColor => "none"
    case Indexed8 => "indexed8"
    case Indexed16 => "indexed16"
    case Indexed256 => "indexed256"
    case TrueColor => "trueColor"
  }

  /** keyFor: the context key holding the message rendered at a level. */
  function KeyFor(level: ColorLevel): (key: string)
    ensures |key| > |KeyPrefix| && key[..|KeyPrefix|] == KeyPrefix
  {
    KeyPrefix + KeySuffix(level)
  }

  /** Distinct levels use distinct keys. */
  lemma KeyForInjective(a: ColorLevel, b: ColorLevel)
    requires KeyFor(a) == KeyFor(b)
    ensures a == b
  {
    assert KeySuffix(a) == KeyFor(a)[|KeyPrefix|..];
    assert KeySuffix(b) == KeyFor(b)[|KeyPrefix|..];
  }

  /** The five keys. */
  const Keys: set<string> := {KeyFor(NoColor), KeyFor(Indexed8), KeyFor(Indexed16), KeyFor(Indexed256), KeyFor(TrueColor)}

  lemma KeysAreTheKeysOfTheLevels(key: string)
    ensures key in Keys <==> exists level: ColorLevel :: KeyFor(level) == key
  {
  }

  /** There are five keys, one per level. */
  lemma FiveDistinctKeys()
    ensures |Keys| == 5
  {
    forall a: ColorLevel, b: ColorLevel | a != b ensures KeyFor(a) != KeyFor(b) {
      if KeyFor(a) == KeyFor(b) {
        KeyForInjective(a, b);
      }
    }
    var k0, k1, k2, k3, k4 := KeyFor(NoColor), KeyFor(Indexed8), KeyFor(Indexed16), KeyFor(Indexed256), KeyFor(TrueColor);
    assert |{k0}| == 1;
    assert |{k0, k1}| == 2;
    assert |{k0, k1, k2}| == 3;
    assert |{k0, k1, k2, k3}| == 4;
  }

  /** The thread context map's value for a key, or None when the key is absent. */
  function Lookup(context: map<string, string>, key: string): Option<string> {
    if key in context then Some(context[key]) else None
  }

  /** The message rendered once per level. */
  datatype Renderings = Renderings(none: string, indexed8: string, indexed16: string, indexed256: string, trueColor: string)

  function RenderingFor(r: Renderings, level: ColorLevel): string {
    match level
    case NoColor => r.none
    case Indexed8 => r.indexed8
    case Indexed16 => r.indexed16
    case Indexed256 => r.indexed256
    case TrueColor => r.trueColor
  }

  /** What a push hands back: the previous value of each of the five keys. */
  datatype RichScope = RichScope(
    previousNone: Option<string>,
    previousIndexed8: Option<string>,
    previousIndexed16: Option<string>,
    previousIndexed256: Option<string>,
    previousTrueColor: Option<string>)

  function PreviousFor(scope: RichScope, level: ColorLevel): Option<string> {
    match level
    case NoColor => scope.previousNone
    case Indexed8 => scope.previousIndexed8
    case Indexed16 => scope.previousIndexed16
    case Indexed256 => scope.previousIndexed256
    case TrueColor => scope.previousTrueColor
  }

  /** The scope a push from `context` hands back. */
  function SavedScope(context: map<string, string>): (scope: RichScope)
    ensures forall level: ColorLevel :: PreviousFor(scope, level) == Lookup(context, KeyFor(level))
  {
    RichScope(
      Lookup(context, KeyFor(NoColor)),
      Lookup(context, KeyFor(Indexed8)),
      Lookup(context, KeyFor(Indexed16)),
      Lookup(context, KeyFor(Indexed256)),
      Lookup(context, KeyFor(TrueColor)))
  }

  /** The context after putting the five renderings. */
  function Pushed(context: map<string, string>, r: Renderings): map<string, string> {
    context[KeyFor(NoColor) := r.none]
           [KeyFor(Indexed8) := r.indexed8]
           [KeyFor(Indexed16) := r.indexed16]
           [KeyFor(Indexed256) := r.indexed256]
           [KeyFor(TrueColor) := r.trueColor]
  }

  /** restore: put a saved value back, or remove the key if it was absent. */
  function Restored(context: map<string, string>, key: string, value: Option<string>): (c: map<string, string>)
    ensures Lookup(c, key) == value
    ensures forall k :: k != key ==> Lookup(c, k) == Lookup(context, k)
  {
    if value.None? then context - {key} else context[key := value.value]
  }

  /** The context after closing a scope: each of the five keys restored in turn. */
  function Closed(context: map<string, string>, scope: RichScope): map<string, string> {
    var c := Restored(context, KeyFor(NoColor), scope.previousNone);
    var c := Restored(c, KeyFor(Indexed8), scope.previousIndexed8);
    var c := Restored(c, KeyFor(Indexed16), scope.previousIndexed16);
    var c := Restored(c, KeyFor(Indexed256), scope.previousIndexed256);
    Restored(c, KeyFor(TrueColor), scope.previousTrueColor)
  }

  /** renderedFor: the message rendered at a level, if the context holds one. */
  function RenderedFor(context: map<string, string>, level: ColorLevel): Option<string> {
    Lookup(context, KeyFor(level))
  }

  /** After a push, renderedFor gives back for each level the string pushed for it. */
  lemma RenderedForAfterPush(context: map<string, string>, r: Renderings, level: ColorLevel)
    ensures RenderedFor(Pushed(context, r), level) == Some(RenderingFor(r, level))
  {
    forall a: ColorLevel, b: ColorLevel | a != b ensures KeyFor(a) != KeyFor(b) {
      if KeyFor(a) == KeyFor(b) {
        KeyForInjective(a, b);
      }
    }
  }

  /** Closing gives each of the five keys its saved value back, and removes it when it had none. */
  lemma ClosedRestoresEachKey(context: map<string, string>, scope: RichScope, level: ColorLevel)
    ensures Lookup(Closed(context, scope), KeyFor(level)) == PreviousFor(scope, level)
    ensures PreviousFor(scope, level).None? ==> KeyFor(level) !in Closed(context, scope)
  {
    forall a: ColorLevel, b: ColorLevel | a != b ensures KeyFor(a) != KeyFor(b) {
      if KeyFor(a) == KeyFor(b) {
        KeyForInjective(a, b);
      }
    }
  }

  /** Neither pushing nor closing touches a key other than the five. */
  lemma OtherKeysUntouched(context: map<string, string>, r: Renderings, scope: RichScope, key: string)
    requires key !in Keys
    ensures Lookup(Pushed(context, r), key) == Lookup(context, key)
    ensures Lookup(Closed(context, scope), key) == Lookup(context, key)
  {
  }

  /** Closing the scope a push handed back gives the context as it was before the push. */
  lemma PushThenCloseRestores(context: map<string, string>, r: Renderings)
    ensures Closed(Pushed(context, r), SavedScope(context)) == context
  {
    var after := Closed(Pushed(context, r), SavedScope(context));
    forall key ensures Lookup(after, key) == Lookup(context, key) {
      PushThenCloseAt(context, r, key);
    }
    forall key ensures key in after <==> key in context {
      assert Lookup(after, key) == Lookup(context, key);
    }
  }

  /** Pushing and then closing with the saved scope gives every key its value back: a
    * rendering key by its restore, any other key because neither step touches it. */
  lemma PushThenCloseAt(context: map<string, string>, r: Renderings, key: string)
    ensures Lookup(Closed(Pushed(context, r), SavedScope(context)), key) == Lookup(context, key)
  {
    if key in Keys {
      var level: ColorLevel :| KeyFor(level) == key;
      ClosedRestoresEachKey(Pushed(context, r), SavedScope(context), level);
    } else {
      OtherKeysUntouched(context, r, SavedScope(context), key);
      OtherKeysUntouched(Pushed(context, r), r, SavedScope(context), key);
    }
  }

  /** Two nested pushes closed innermost first leave the context as it was before both. */
  lemma NestedRichScopesRestore(context: map<string, string>, outer: Renderings, inner: Renderings)
    ensures var first := Pushed(context, outer);
            Closed(Closed(Pushed(first, inner), SavedScope(first)), SavedScope(context)) == context
  {
    PushThenCloseRestores(Pushed(context, outer), inner);
    PushThenCloseRestores(context, outer);
  }

  /** The logging library's per-thread context map, with RichLogContext's push and restore. */
  class RichLogContext {
    /** ThreadContext's map for the one modelled thread. */
    var context: map<string, string>

    constructor (context: map<string, string>)
      ensures this.context == context
    {
      this.context := context;
    }

    /** pushRenderedByColorLevel of five strings: save the five keys, then put the new values. */
    method PushRenderedByColorLevel(none: string, indexed8: string, indexed16: string, indexed256: string, trueColor: string)
      returns (scope: RichScope)
      modifies this
      ensures context == Pushed(old(context), Renderings(none, indexed8, indexed16, indexed256, trueColor))
      ensures scope == SavedScope(old(context))
    {
      scope := RichScope(Get(KeyFor(NoColor)), Get(KeyFor(Indexed8)), Get(KeyFor(Indexed16)),
                         Get(KeyFor(Indexed256)), Get(KeyFor(TrueColor)));
      context := context[KeyFor(NoColor) := none];
      context := context[KeyFor(Indexed8) := indexed8];
      context := context[KeyFor(Indexed16) := indexed16];
      context := context[KeyFor(Indexed256) := indexed256];
      context := context[KeyFor(TrueColor) := trueColor];
    }

    /** pushRenderedByColorLevel of a rendering function: applied to the serializer of each level. */
    method PushRenderedBy(renderedBy: Serializer -> string) returns (scope: RichScope)
      modifies this
      ensures context == Pushed(old(context), Renderings(renderedBy(AnsiFor(NoColor)), renderedBy(AnsiFor(Indexed8)),
                                   renderedBy(AnsiFor(Indexed16)), renderedBy(AnsiFor(Indexed256)), renderedBy(AnsiFor(TrueColor))))
      ensures scope == SavedScope(old(context))
    {
      scope := PushRenderedByColorLevel(renderedBy(AnsiFor(NoColor)), renderedBy(AnsiFor(Indexed8)),
                                        renderedBy(AnsiFor(Indexed16)), renderedBy(AnsiFor(Indexed256)),
                                        renderedBy(AnsiFor(TrueColor)));
    }

    /** ThreadContext.get: the value, or None when the key is absent. */
    function Get(key: string): (value: Option<string>)
      reads this
      ensures value == Lookup(context, key)
    {
      if key in context then Some(context[key]) else None
    }

    /** The scope's close: restore each of the five keys in turn. */
    method Close(scope: RichScope)
      modifies this
      ensures context == Closed(old(context), scope)
    {
      Restore(KeyFor(NoColor), scope.previousNone);
      Restore(KeyFor(Indexed8), scope.previousIndexed8);
      Restore(KeyFor(Indexed16), scope.previousIndexed16);
      Restore(KeyFor(Indexed256), scope.previousIndexed256);
      Restore(KeyFor(TrueColor), scope.previousTrueColor);
    }

    /** restore: ThreadContext.remove for an absent value, ThreadContext.put otherwise. */
    method Restore(key: string, value: Option<string>)
      modifies this
      ensures context == Restored(old(context), key, value)
    {
      if value.None? {
        context := context - {key};
      } else {
        context := context[key := value.value];
      }
    }
  }
}
