// The record collections that account deletion owns, and the exact record URIs
// that may become deletion authority.
module CraftskyCollections {
  type Did = string

  datatype Nsid =
    | FeedPost
    | FeedLike
    | FeedRepost
    | BusinessEvent
    | BusinessProfile
    | ActorProfile
    | Foreign(name: string)

  // The registry, in deletion order: the membership profile is last.
  const REGISTRY: seq<Nsid> := [FeedPost, FeedLike, FeedRepost, BusinessEvent, BusinessProfile, ActorProfile]

  predicate Registered(collection: Nsid) {
    collection in REGISTRY
  }

  // The collections that the tombstone table's key check and the final
  // completion check name. The two business collections are not among them.
  predicate SchemaAdmits(collection: Nsid) {
    collection in {FeedPost, FeedLike, FeedRepost, ActorProfile}
  }

  // A recorded record key: either something that does not parse as an AT URI,
  // or its three parts.
  datatype RecordUri =
    | Malformed(raw: string)
    | AtUri(authority: Did, collection: Nsid, rkey: string)

  predicate OwnedKey(owner: Did, uri: RecordUri) {
    uri.AtUri? && uri.authority == owner && uri.rkey != ""
  }

  lemma AdmittedIsRegistered()
    ensures forall collection :: SchemaAdmits(collection) ==> Registered(collection)
  {
    assert REGISTRY[0] == FeedPost && REGISTRY[1] == FeedLike && REGISTRY[2] == FeedRepost
      && REGISTRY[5] == ActorProfile;
  }
}
