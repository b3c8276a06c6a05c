// The key of a snapshot-cache entry and how a binary judges it.

/** `EntryMetadata` and its key comparison. */
module CacheKey {

  /** Document schema, extractor and store-schema versions of one binary. */
  datatype Versions = Versions(schema: nat, extractor: nat, store: nat)

  datatype Metadata = Metadata(commit: nat, versions: Versions)

  /** How far an entry directory is this user's own: not there, private, open to others,
      or somebody else's. */
  datatype Provenance = Missing | Private | Loose | Foreign

  datatype KeyMatch = Current | Older | Newer | OtherCommit

  predicate AtMost(a: Versions, b: Versions) {
    a.schema <= b.schema && a.extractor <= b.extractor && a.store <= b.store
  }

  function Match(m: Metadata, commit: nat, ours: Versions): KeyMatch {
    if m.commit != commit then
      OtherCommit
    else if m.versions.schema > ours.schema || m.versions.extractor > ours.extractor
         || m.versions.store > ours.store then
      Newer
    else if m.versions == ours then
      Current
    else
      Older
  }

  /** An entry is reused exactly when it is what this binary would write, and is
      removable as stale exactly when it is strictly below this binary. A stale
      entry's author in turn sees the remover's entry as newer, so no two
      binaries ever remove each other's entries. */
  lemma StaleIsOneSided(commit: nat, a: Versions, b: Versions)
    ensures Match(Metadata(commit, a), commit, b) == Current <==> a == b
    ensures Match(Metadata(commit, a), commit, b) == Older <==> AtMost(a, b) && a != b
    ensures Match(Metadata(commit, a), commit, b) == Older ==> Match(Metadata(commit, b), commit, a) == Newer
  {
    assert AtMost(a, b) && AtMost(b, a) ==> a == b;
  }
}
