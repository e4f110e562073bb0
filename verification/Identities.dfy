/** Under which identity a model is stored, and the order of identities (identity.go). */
module Identities {
  import opened Text
  import opened Ordering
  import opened EntryMerge

  datatype SurfaceIdentity = SurfaceIdentity(vendorID: string, modelID: string)

  function NewSurfaceIdentity(vendorID: string, modelID: string): Option<SurfaceIdentity> {
    var v, m := TrimSpace(vendorID), TrimSpace(modelID);
    if v == "" || m == "" then None else Some(SurfaceIdentity(v, m))
  }

  function IdentityOf(definition: Option<ModelVersion>): Option<SurfaceIdentity> {
    if definition.None? then None else NewSurfaceIdentity(definition.value.vendorID, definition.value.modelID)
  }

  /** The order of `order by vendor_id, model_id`. */
  predicate IdentityLess(a: SurfaceIdentity, b: SurfaceIdentity) {
    if a.vendorID != b.vendorID then Less(a.vendorID, b.vendorID) else Less(a.modelID, b.modelID)
  }

  lemma IdentitiesAreOrdered()
    ensures StrictTotal(IdentityLess)
  {
    StringsAreOrdered();
    hide Less;
    forall a, b, c | IdentityLess(a, b) && IdentityLess(b, c) ensures IdentityLess(a, c) {}
  }

  predicate TrimmedIdentity(k: SurfaceIdentity) {
    TrimSpace(k.vendorID) == k.vendorID != "" && TrimSpace(k.modelID) == k.modelID != ""
  }

  lemma IdentitiesAreTrimmed(definition: Option<ModelVersion>)
    ensures IdentityOf(definition).Some? ==> TrimmedIdentity(IdentityOf(definition).value)
  {
    if definition.Some? {
      TrimTwice(definition.value.vendorID);
      TrimTwice(definition.value.modelID);
    }
    hide TrimSpace;
  }
}
