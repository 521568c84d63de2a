/**
 * `DeclarationInfo`: the table of the shape parameters declared in one scope, keyed by name, that the
 * parser fills while reading declarations and consults (own scope first, then the enclosing ones) when it
 * resolves a name.
 */
module DeclarationInfos {
  import opened Wrappers
  import opened SNodes

  type Scope = map<string, STypeDeclaration>

  class DeclarationInfo {
    var declarations: Scope
    /** Whether the map handed to the constructor is a mutable one. */
    const isMutable: bool
    const scopeID: int

    constructor(declarations: Scope, isMutable: bool, scopeID: int)
      ensures this.declarations == declarations && this.isMutable == isMutable && this.scopeID == scopeID
    {
      this.declarations := declarations;
      this.isMutable := isMutable;
      this.scopeID := scopeID;
    }

    /** `lookupInScope`: the declaration filed under `id`, null when there is none. */
    function LookupInScope(id: string): (r: Option<STypeDeclaration>)
      reads this
      ensures r.None? <==> id !in declarations
      ensures r.Some? ==> r.value == declarations[id]
    {
      if id in declarations then Some(declarations[id]) else None
    }

    /**
     * `addToScope`: a mutable table files the declaration under its name, replacing an earlier one of that
     * name and keeping every other entry; an immutable one refuses.
     */
    method AddToScope(dec: STypeDeclaration) returns (r: Result<()>)
      modifies this
      ensures isMutable ==> r == Ok(()) && declarations == old(declarations)[dec.id.name := dec]
      ensures !isMutable ==> r == Fail(Thrown("IllegalArgumentException", "Declaration info is not mutable")) && declarations == old(declarations)
      ensures isMutable ==> LookupInScope(dec.id.name) == Some(dec)
      ensures forall n :: n != dec.id.name ==> LookupInScope(n) == old(LookupInScope(n))
    {
      if isMutable {
        declarations := declarations[dec.id.name := dec];
        return Ok(());
      }
      return Fail(Thrown("IllegalArgumentException", "Declaration info is not mutable"));
    }
  }

  /** `firstNotNullOfOrNull { it.lookupInScope(id) }` over a list of scopes: the first scope that has the name decides. */
  function LookupIn(scopes: seq<Scope>, id: string): (r: Option<STypeDeclaration>)
    ensures r.None? <==> forall i :: 0 <= i < |scopes| ==> id !in scopes[i]
    ensures r.Some? ==> exists i :: 0 <= i < |scopes| && id in scopes[i] && r.value == scopes[i][id] &&
                                     forall j :: 0 <= j < i ==> id !in scopes[j]
  {
    if scopes == [] then None
    else if id in scopes[0] then Some(scopes[0][id])
    else
      var r := LookupIn(scopes[1..], id);
      assert forall i :: 1 <= i < |scopes| ==> scopes[i] == scopes[1..][i - 1];
      if r.Some? then
        var i :| 0 <= i < |scopes[1..]| && id in scopes[1..][i] && r.value == scopes[1..][i][id] && forall j :: 0 <= j < i ==> id !in scopes[1..][j];
        assert id in scopes[i + 1] && forall j :: 0 <= j < i + 1 ==> id !in scopes[j];
        r
      else r
  }

  /** The tables' current contents, in order. */
  function ScopesOf(infos: seq<DeclarationInfo>): (r: seq<Scope>)
    reads infos
    ensures |r| == |infos|
    ensures forall i :: 0 <= i < |infos| ==> r[i] == infos[i].declarations
  {
    if infos == [] then [] else [infos[0].declarations] + ScopesOf(infos[1..])
  }

  /** `firstNotNullOfOrNull { it.lookupInScope(id) }` asked of the tables themselves: it finds what `LookupIn` finds in their contents. */
  function LookupInInfos(infos: seq<DeclarationInfo>, id: string): (r: Option<STypeDeclaration>)
    reads infos
    ensures r == LookupIn(ScopesOf(infos), id)
  {
    if infos == [] then None
    else
      assert ScopesOf(infos)[1..] == ScopesOf(infos[1..]);
      match infos[0].LookupInScope(id)
      case Some(dec) => Some(dec)
      case None => LookupInInfos(infos[1..], id)
  }

  /** A name in the first scope is found there, whatever the later scopes hold (inner declarations shadow outer ones). */
  lemma InnerShadowsOuter(inner: Scope, outer: seq<Scope>, id: string)
    requires id in inner
    ensures LookupIn([inner] + outer, id) == Some(inner[id])
  {
  }

  /** A name the first scope lacks is looked up in the remaining scopes. */
  lemma MissingFallsThrough(inner: Scope, outer: seq<Scope>, id: string)
    requires id !in inner
    ensures LookupIn([inner] + outer, id) == LookupIn(outer, id)
  {
    assert ([inner] + outer)[1..] == outer;
  }
}
