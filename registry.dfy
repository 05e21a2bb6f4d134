/** `registerVideoPlayer` and the `customElements` registry it writes: a map
    from tag name to element class. `define` throws `NotSupportedError` for a
    name already defined and for a class already defined under another
    name. */
module Registry {
  import opened Wrappers

  /** The element classes the two revisions export. */
  datatype ElementClass = VideoPlayerClass | JfmVideoPlayerClass

  type Definitions = map<string, ElementClass>

  const DefaultTagName := "video-player"

  /** `customElements.define(name, cls)`: the definitions it leaves, or `None`
      when it throws. */
  function Define(defs: Definitions, name: string, cls: ElementClass): (r: Option<Definitions>)
    ensures r.None? <==> name in defs || cls in defs.Values
    ensures r.Some? ==> r.value == defs[name := cls] && r.value.Keys == defs.Keys + {name}
  {
    if name in defs || cls in defs.Values then None else Some(defs[name := cls])
  }

  /** `registerVideoPlayer(tagName)`: defines the tag unless some class
      already holds it; `None` when the `define` it calls throws. */
  function Register(defs: Definitions, name: string, cls: ElementClass): Option<Definitions> {
    if name in defs then Some(defs) else Define(defs, name, cls)
  }

  /** A registration never changes an existing definition, and after one
      that returns the tag is defined. */
  lemma RegisterKeepsDefinitions(defs: Definitions, name: string, cls: ElementClass)
    ensures var r := Register(defs, name, cls);
            r.Some? ==> name in r.value && forall n :: n in defs ==> n in r.value && r.value[n] == defs[n]
    ensures name in defs ==> Register(defs, name, cls) == Some(defs)
    ensures Register(defs, name, cls).None? <==> name !in defs && cls in defs.Values
  {
  }

  /** Registering twice is registering once, and the second call never throws. */
  lemma RegisterIdempotent(defs: Definitions, name: string, cls: ElementClass)
    requires Register(defs, name, cls).Some?
    ensures Register(Register(defs, name, cls).value, name, cls) == Register(defs, name, cls)
  {
    RegisterKeepsDefinitions(defs, name, cls);
  }

  /** Once a class holds one tag, registering it under a new tag throws. In
      particular, after lib/video-player.ts has registered itself as
      `video-player` on load, `registerVideoPlayer` with any other tag name
      throws. */
  lemma RegisterUnderSecondName(defs: Definitions, first: string, second: string, cls: ElementClass)
    requires first != second && first !in defs && second !in defs && cls !in defs.Values
    ensures Register(defs, first, cls).Some?
    ensures Register(Register(defs, first, cls).value, second, cls).None?
  {
    var d := Register(defs, first, cls).value;
    assert d[first] == cls;
  }

  /** The page's `customElements`. */
  class CustomElementRegistry {
    var definitions: Definitions

    constructor()
      ensures definitions == map[]
    {
      definitions := map[];
    }

    /** `customElements.get(name)` */
    function Get(name: string): (r: Option<ElementClass>)
      reads this
      ensures r.Some? <==> name in definitions
      ensures r.Some? ==> r.value == definitions[name]
    {
      if name in definitions then Some(definitions[name]) else None
    }

    /** `registerVideoPlayer(name)` of the revision that exports `cls`:
        `threw` when `define` throws, in which case nothing changes. */
    method RegisterVideoPlayer(name: string, cls: ElementClass) returns (threw: bool)
      modifies this
      ensures threw <==> Register(old(definitions), name, cls).None?
      ensures definitions == Register(old(definitions), name, cls).GetOr(old(definitions))
    {
      if Get(name).None? {
        var r := Define(definitions, name, cls);
        threw := r.None?;
        if r.Some? {
          definitions := r.value;
        }
      } else {
        threw := false;
      }
    }

    /** Loading lib/video-player.ts in a window: the module registers its
        class as `video-player` unless that tag is taken. */
    method LoadVideoPlayerModule() returns (threw: bool)
      modifies this
      ensures threw <==> Register(old(definitions), DefaultTagName, VideoPlayerClass).None?
      ensures definitions == Register(old(definitions), DefaultTagName, VideoPlayerClass).GetOr(old(definitions))
    {
      threw := RegisterVideoPlayer(DefaultTagName, VideoPlayerClass);
    }
  }
}
