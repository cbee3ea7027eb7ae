/** Deletion targets and provider identities (remote_mutation.py, `DeletionTarget` and its subclasses). */
module Targets {

  datatype Facts =
    | ImapFacts(folder: string, uidvalidity: int, uid: int)
    | ProviderFacts(messageId: string)

  datatype Target = Target(
    remoteId: string,
    canonicalId: string,
    accountId: int,
    accountName: string,
    providerKind: string,
    canonicalSha256: string,
    facts: Facts)

  /** Everything that names the message at its provider. */
  datatype Identity = Identity(accountId: int, providerKind: string, facts: Facts)

  function IdentityOf(t: Target): Identity {
    Identity(t.accountId, t.providerKind, t.facts)
  }

  /** Two targets that agree on all that is hashed.  The account's display name is not. */
  predicate SameTarget(a: Target, b: Target) {
    a == b.(accountName := a.accountName)
  }
}
