/**
 * The rotation services as they run: fields of the credential, of the owner and
 * of the store are assigned one after the other, in the order of the service
 * code, and the result is one step of Material.Apply.
 */
module Services {
  import opened Prelude
  import opened Material

  class Session {
    const path: string
    var kvVersion: Option<nat>
    var liveKvVersion: Option<nat>
    var stagedKvVersion: Option<nat>
    var liveKey: KeyIdentity
    var stagedKey: KeyIdentity
    var audits: set<nat>
    var savepoints: seq<Snapshot>
    var attempts: seq<Attempt>
    var deletions: seq<Attempt>
    var failed: bool
    var vault: Vault
    var nextAudit: nat
    ghost var trace: seq<Effect>

    constructor (path: string, row: Row, vault: Vault, nextAudit: nat)
      ensures Owned() == Opened(path, row) && Around() == World(vault, nextAudit)
    {
      this.path := path;
      kvVersion, liveKvVersion, stagedKvVersion := row.kv, row.live, row.staged;
      liveKey, stagedKey := row.liveKey, row.stagedKey;
      audits, savepoints, attempts, deletions, failed := {}, [], [], [], false;
      this.vault, this.nextAudit, trace := vault, nextAudit, [];
    }

    function CredentialRow(): Row
      reads this
    {
      Row(kvVersion, liveKvVersion, stagedKvVersion, liveKey, stagedKey)
    }

    ghost function Owned(): Owner
      reads this
    {
      Owner(path, Snapshot(CredentialRow(), audits), savepoints, attempts, deletions, failed, trace)
    }

    function Around(): World
      reads this
    {
      World(vault, nextAudit)
    }

    /** One audit insert; `stored` is false when the insert failed. */
    method LogAccess(stored: bool) returns (id: Option<nat>)
      modifies this`audits, this`nextAudit
      ensures id == if stored then Some(old(nextAudit)) else None
      ensures audits == old(audits) + (if stored then {old(nextAudit)} else {})
      ensures nextAudit == old(nextAudit) + if stored then 1 else 0
    {
      if stored {
        id := Some(nextAudit);
        audits := audits + {nextAudit};
        nextAudit := nextAudit + 1;
      } else {
        id := None;
      }
    }

    /**
     * An identity is recorded exactly for a non-empty fingerprint, bound to this
     * version; promotion clears the staged one.
     */
    method RecordKeyVersion(fingerprint: string, version: nat, promote: bool)
      modifies this`liveKey, this`stagedKey
      ensures CredentialRow() == RecordKey(old(CredentialRow()), fingerprint, version, promote)
      ensures var key := if promote then liveKey else stagedKey;
              key.fingerprint == fingerprint && (key.version == Some(version) <==> fingerprint != "")
      ensures if promote then stagedKey == NO_KEY else liveKey == old(liveKey)
    {
      var key := KeyIdentity(fingerprint, if fingerprint != "" then Some(version) else None);
      if promote {
        liveKey := key;
        stagedKey := NO_KEY;
      } else {
        stagedKey := key;
      }
    }

    /** The part of store_credential after the store acknowledged the write and the row was saved. */
    method RecordStored(version: nat, fingerprint: string, promote: bool, audited: bool)
      requires attempts != []
      modifies this
      ensures CredentialRow() == Stored(old(CredentialRow()), version, fingerprint, promote)
      ensures audits == old(audits) + (if audited then {old(nextAudit)} else {})
      ensures nextAudit == old(nextAudit) + if audited then 1 else 0
      ensures attempts == DropLast(old(attempts))
                + [Last(old(attempts)).(audit := if audited then Some(old(nextAudit)) else None)]
      ensures unchanged(this`savepoints, this`deletions, this`failed, this`vault, this`trace)
    {
      kvVersion := Some(version);
      RecordKeyVersion(fingerprint, version, promote);
      if promote {
        liveKvVersion := Some(version);
        stagedKvVersion := None;
      } else {
        stagedKvVersion := Some(version);
      }
      var audit := LogAccess(audited);
      attempts := DropLast(attempts) + [Last(attempts).(audit := audit)];
    }

    /** backend.write, and attempt.version once the answer arrived. */
    method WriteVersion(cas: Option<nat>, fingerprint: string, reply: Reply) returns (version: Option<nat>)
      modifies this`vault, this`trace, this`attempts
      ensures var refused := !old(vault).Accepts(cas) || reply == Lost(false);
              var v := old(vault).counter + 1;
              && version == (if !refused && reply.Acknowledged? then Some(v) else None)
              && vault == (if refused then old(vault) else old(vault).Issue(fingerprint))
              && trace == old(trace) + (if refused then [] else [Wrote(v, reply.Acknowledged?)])
              && attempts == old(attempts) + [Attempt(path, version, None)]
    {
      attempts := attempts + [Attempt(path, None, None)];
      version := None;
      if vault.Accepts(cas) && reply != Lost(false) {
        var v := vault.counter + 1;
        vault := vault.Issue(fingerprint);
        trace := trace + [Wrote(v, reply.Acknowledged?)];
        if reply.Acknowledged? {
          version := Some(v);
          attempts := DropLast(attempts) + [Last(attempts).(version := version)];
        }
      }
    }

    method StoreCredential(cas: Option<nat>, fingerprint: string, promote: bool, luck: Luck) returns (raised: bool)
      modifies this
      ensures Turn(Owned(), Around(), raised)
           == Store(old(Owned()), old(Around()), cas, fingerprint, promote, luck)
    {
      var version := WriteVersion(cas, fingerprint, luck.reply);
      if version.None? || !luck.saved {
        failed := true;
        return true;
      }
      RecordStored(version.value, fingerprint, promote, luck.audited);
      return false;
    }

    method RotateMaterial(fingerprint: string, luck: Luck) returns (raised: bool)
      modifies this
      ensures Turn(Owned(), Around(), raised)
           == Apply(Replace(Recorded, fingerprint, luck), old(Owned()), old(Around()))
    {
      raised := StoreCredential(kvVersion, fingerprint, true, luck);
    }

    method StageMaterial(fingerprint: string, luck: Luck) returns (raised: bool)
      modifies this
      ensures Turn(Owned(), Around(), raised) == Apply(Stage(fingerprint, luck), old(Owned()), old(Around()))
    {
      if stagedKvVersion.Some? {
        failed := true;
        return true;
      }
      if liveKvVersion.None? && kvVersion.Some? {
        liveKvVersion := kvVersion;
      }
      raised := StoreCredential(kvVersion, fingerprint, false, luck);
    }

    method PromoteStaged(listed: bool) returns (raised: bool)
      modifies this
      ensures Turn(Owned(), Around(), raised) == Apply(Promote(listed), old(Owned()), old(Around()))
    {
      if stagedKvVersion.None? || !listed || !vault.Has(stagedKvVersion.value) {
        failed := true;
        return true;
      }
      var fingerprint := "";
      if stagedKey.version == stagedKvVersion {
        fingerprint := stagedKey.fingerprint;
      }
      RecordKeyVersion(fingerprint, stagedKvVersion.value, true);
      liveKvVersion := stagedKvVersion;
      stagedKvVersion := None;
      return false;
    }

    method DiscardStaged(audited: bool) returns (raised: bool)
      modifies this
      ensures Turn(Owned(), Around(), raised) == Apply(Discard(audited), old(Owned()), old(Around()))
    {
      if stagedKvVersion.None? {
        failed := true;
        return true;
      }
      var version := stagedKvVersion.value;
      stagedKey := NO_KEY;
      stagedKvVersion := None;
      assert CredentialRow() == Discarded(old(CredentialRow()));
      var audit := LogAccess(audited);
      deletions := deletions + [Attempt(path, Some(version), audit)];
      trace := trace + [Cleared(version)];
      return false;
    }
  }
}
