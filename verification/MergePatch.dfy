/** The profile and policy merge loops, against section 2 of RFC 7386. */
module MergePatch {
  import opened Wire

  /** What a patch leaves: null members deleted, other members replaced, the rest kept. */
  function Apply(target: Fields, patch: Fields): Fields {
    map k | k in target.Keys + patch.Keys && (k in patch ==> patch[k] != Null) ::
      if k in patch then patch[k] else target[k]
  }

  /** Go walks the patch in no fixed order; every order gives the same result. */
  method Merge(target: Fields, patch: Fields) returns (merged: Fields)
    ensures merged == Apply(target, patch)
  {
    merged := target;
    var todo := patch.Keys;
    while todo != {}
      invariant todo <= patch.Keys
      invariant forall k :: k in merged <==>
        if k in patch && k !in todo then patch[k] != Null else k in target
      invariant forall k | k in merged ::
        merged[k] == if k in patch && k !in todo then patch[k] else target[k]
      decreases todo
    {
      var k :| k in todo;
      if patch[k] == Null {
        merged := merged - {k};
      } else {
        merged := merged[k := patch[k]];
      }
      todo := todo - {k};
    }
  }

  /** Two patches in a row are one patch, the later member winning. */
  lemma Compose(target: Fields, first: Fields, second: Fields)
    ensures Apply(Apply(target, first), second) == Apply(target, first + second)
  {
    var once, both := Apply(target, first), first + second;
    assert forall k :: k in Apply(once, second) <==> k in Apply(target, both);
  }

  /** MergePatch of section 2 of RFC 7386. */
  function Rfc7386(target: Json, patch: Json): Json
    decreases patch
  {
    if !patch.Obj? then patch
    else
      var base := MapOrEmpty(target);
      Obj(map k | k in base.Keys + patch.fields.Keys && (k in patch.fields ==> patch.fields[k] != Null) ::
        if k in patch.fields then Rfc7386(Get(base, k), patch.fields[k]) else base[k])
  }

  predicate NoObjectMember(patch: Fields) {
    forall k | k in patch :: !patch[k].Obj?
  }

  /** The merge is the standard's for every target exactly when no member of the patch is an object. */
  lemma MergeIsRfc7386Iff(patch: Fields)
    ensures (forall target :: Obj(Apply(target, patch)) == Rfc7386(Obj(target), Obj(patch))) <==> NoObjectMember(patch)
  {
    if NoObjectMember(patch) {
      forall target
        ensures Obj(Apply(target, patch)) == Rfc7386(Obj(target), Obj(patch))
      {
        FlatMergeIsRfc7386(target, patch);
      }
    } else {
      var k :| k in patch && patch[k].Obj?;
      DeepMergeDiffers(patch, k);
    }
  }

  lemma FlatMergeIsRfc7386(target: Fields, patch: Fields)
    requires NoObjectMember(patch)
    ensures Obj(Apply(target, patch)) == Rfc7386(Obj(target), Obj(patch))
  {
    assert Apply(target, patch) == Rfc7386(Obj(target), Obj(patch)).fields;
  }

  /** Where a member is an object, some target keeps a nested field the handlers would drop. */
  lemma DeepMergeDiffers(patch: Fields, k: string)
    requires k in patch && patch[k].Obj?
    ensures exists target :: Obj(Apply(target, patch)) != Rfc7386(Obj(target), Obj(patch))
  {
    var unused := FreshKey(patch[k].fields.Keys);
    var nested := map[unused := Bool(true)];
    var target := map[k := Obj(nested)];
    var standard := Rfc7386(Obj(target), Obj(patch));
    assert k in standard.fields && standard.fields[k] == Rfc7386(Obj(nested), patch[k]);
    assert unused in standard.fields[k].fields;
    assert Apply(target, patch)[k] == patch[k];
  }

  /** A key longer than every key of the set is not in it. */
  lemma FreshKey(keys: set<string>) returns (unused: string)
    ensures unused !in keys
    ensures forall k | k in keys :: |k| < |unused|
  {
    unused := "a";
    if keys != {} {
      var k :| k in keys;
      var rest := FreshKey(keys - {k});
      unused := rest + k + "a";
    }
  }
}
