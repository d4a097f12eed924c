/** Texture resolution, shared by the three adapters: the font atlas is never put in
    the texture registry; the GUI refers to it by the sentinel id `usize::MAX`. */
module Textures {
  import opened Base

  /** The id the adapters assign to the font atlas (`fonts.tex_id`). */
  const FONT_TEXTURE_ID: nat := USIZE_MAX

  /** `lookup_texture` (and the inline lookup of the FNA3D adapter): the sentinel
      yields the font texture, any other id whatever the registry holds for it. */
  function Resolve<T>(font: T, registry: map<nat, T>, id: nat): (r: Option<T>)
    ensures id == FONT_TEXTURE_ID ==> r == Some(font)
    ensures id != FONT_TEXTURE_ID ==> (r.Some? <==> id in registry)
    ensures id != FONT_TEXTURE_ID && id in registry ==> r == Some(registry[id])
  {
    if id == FONT_TEXTURE_ID then Some(font)
    else if id in registry then Some(registry[id])
    else None
  }

  /** The registry is never consulted for the sentinel, even if it has an entry
      under that key. */
  lemma SentinelIgnoresRegistry<T>(font: T, r1: map<nat, T>, r2: map<nat, T>)
    ensures Resolve(font, r1, FONT_TEXTURE_ID) == Resolve(font, r2, FONT_TEXTURE_ID) == Some(font)
  {
  }

  /** Resolution fails exactly for a non-sentinel id missing from the registry. */
  lemma ResolveFailsIff<T>(font: T, registry: map<nat, T>, id: nat)
    ensures Resolve(font, registry, id).None? <==> id != FONT_TEXTURE_ID && id !in registry
  {
  }

  /** Registering a texture under one id changes no other id's resolution, and
      makes that id resolve to it unless it is the sentinel. */
  lemma RegisterIsLocal<T>(font: T, registry: map<nat, T>, key: nat, t: T, id: nat)
    ensures id != key ==> Resolve(font, registry[key := t], id) == Resolve(font, registry, id)
    ensures key != FONT_TEXTURE_ID ==> Resolve(font, registry[key := t], key) == Some(t)
  {
  }
}
