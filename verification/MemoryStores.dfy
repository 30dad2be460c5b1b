/** The in-memory stores: sets, maps and lists that every method changes in place. */
module MemoryStores {
  import opened Bytes
  import opened Ids
  import opened ServiceState
  import opened Sorting

  /* --------------------------------- list search -------------------------------- */

  /** `Array.prototype.findIndex`. */
  method FindIndex<T>(xs: seq<T>, same: T -> bool) returns (idx: int)
    ensures idx == FirstIndex(xs, same)
  {
    idx := 0;
    while idx < |xs|
      invariant 0 <= idx <= |xs|
      invariant forall i :: 0 <= i < idx ==> !same(xs[i])
    {
      if same(xs[idx]) {
        FirstIndexAt(xs, same, idx);
        return;
      }
      idx := idx + 1;
    }
    NoIndex(xs, same);
    idx := -1;
  }

  function FirstIndex<T>(xs: seq<T>, same: T -> bool): (i: int)
    ensures -1 <= i < |xs|
  {
    if xs == [] then -1
    else if same(xs[0]) then 0
    else
      var i := FirstIndex(xs[1..], same);
      if i < 0 then -1 else i + 1
  }

  lemma {:induction false} FirstIndexAt<T>(xs: seq<T>, same: T -> bool, i: nat)
    requires i < |xs| && same(xs[i]) && forall j :: 0 <= j < i ==> !same(xs[j])
    ensures FirstIndex(xs, same) == i
  {
    if i == 0 {
    } else {
      FirstIndexAt(xs[1..], same, i - 1);
    }
  }

  lemma {:induction false} NoIndex<T>(xs: seq<T>, same: T -> bool)
    requires forall j :: 0 <= j < |xs| ==> !same(xs[j])
    ensures FirstIndex(xs, same) == -1
  {
    if xs == [] {
    } else {
      NoIndex(xs[1..], same);
    }
  }

  /** Writing at the found index, or pushing, is the replacement the transitions describe. */
  lemma {:induction false} UpsertedByIndex<T>(xs: seq<T>, x: T, same: T -> bool)
    ensures var i := FirstIndex(xs, same);
      Upserted(xs, x, same) == if i >= 0 then xs[i := x] else xs + [x]
  {
    if xs == [] || same(xs[0]) {
    } else {
      UpsertedByIndex(xs[1..], x, same);
      assert xs == [xs[0]] + xs[1..];
    }
  }

  /* ------------------------------- certificate store ---------------------------- */

  class InMemoryCertificateStore {
    var certs: seq<Cert>

    constructor ()
      ensures certs == []
    {
      certs := [];
    }

    method Save(id: TcertId, wire: bytes)
      modifies this
      ensures certs == WithCert(old(certs), id, wire)
    {
      var same := (c: Cert) => c.id == id;
      UpsertedByIndex(certs, Cert(id, wire), same);
      var idx := FindIndex(certs, same);
      if idx >= 0 {
        certs := certs[idx := Cert(id, wire)];
      } else {
        certs := certs + [Cert(id, wire)];
      }
    }

    method Get(id: TcertId) returns (r: Option<bytes>)
      ensures r == GetCert(certs, id)
    {
      for i := 0 to |certs|
        invariant GetCert(certs, id) == GetCert(certs[i..], id)
      {
        if certs[i].id == id {
          return Some(certs[i].wire);
        }
      }
      return None;
    }

    method FindByKeyId(keyId: KeyId) returns (r: seq<Cert>)
      ensures r == CertsOfKey(certs, keyId)
    {
      r := [];
      for i := 0 to |certs|
        invariant r + CertsOfKey(certs[i..], keyId) == CertsOfKey(certs, keyId)
      {
        if StartsWith(certs[i].id, keyId + ":") {
          r := r + [certs[i]];
        }
      }
    }
  }

  class InMemoryDocumentStore {
    var docs: map<string, bytes>

    constructor ()
      ensures docs == map[]
    {
      docs := map[];
    }

    method Save(id: string, wire: bytes)
      modifies this
      ensures docs == old(docs)[id := wire]
    {
      docs := docs[id := wire];
    }

    method Get(id: string) returns (r: Option<bytes>)
      ensures r == if id in docs then Some(docs[id]) else None
    {
      r := if id in docs then Some(docs[id]) else None;
    }
  }

  /* ---------------------------------- trust store ------------------------------- */

  class InMemoryTrustStore {
    var pinned: set<TcertId>
    var cas: set<TcertId>
    var distrusted: set<TcertId>
    var attestations: map<TcertId, seq<Attestation>>

    function State(): TrustState
      reads this
    {
      TrustState(pinned, cas, distrusted, attestations)
    }

    constructor ()
      ensures State() == TrustState({}, {}, {}, map[])
    {
      pinned, cas, distrusted, attestations := {}, {}, {}, map[];
    }

    method AddPinned(id: TcertId)
      modifies this`pinned
      ensures pinned == old(pinned) + {id}
    {
      pinned := pinned + {id};
    }

    method RemovePinned(id: TcertId)
      modifies this`pinned
      ensures pinned == old(pinned) - {id}
    {
      pinned := pinned - {id};
    }

    method AddCa(id: TcertId)
      modifies this`cas
      ensures cas == old(cas) + {id}
    {
      cas := cas + {id};
    }

    method RemoveCa(id: TcertId)
      modifies this`cas
      ensures cas == old(cas) - {id}
    {
      cas := cas - {id};
    }

    method AddDistrust(id: TcertId)
      modifies this`distrusted
      ensures distrusted == old(distrusted) + {id}
    {
      distrusted := distrusted + {id};
    }

    method RemoveDistrust(id: TcertId)
      modifies this`distrusted
      ensures distrusted == old(distrusted) - {id}
    {
      distrusted := distrusted - {id};
    }

    /** One attestation per (target, CA): a second one replaces the first in its place. */
    method AddAttestation(a: Attestation)
      modifies this`attestations
      ensures State() == WithAttestation(old(State()), a)
    {
      var list := GetAttestations(a.target);
      var same := (x: Attestation) => x.caTcertId == a.caTcertId;
      UpsertedByIndex(list, a, same);
      var idx := FindIndex(list, same);
      list := if idx >= 0 then list[idx := a] else list + [a];
      attestations := attestations[a.target := list];
    }

    method GetAttestations(target: TcertId) returns (list: seq<Attestation>)
      ensures list == AttestationsOf(State(), target)
    {
      list := if target in attestations then attestations[target] else [];
    }
  }

  /* -------------------------------- revocation store ---------------------------- */

  class InMemoryRevocationStore {
    var revokedTcert: map<TcertId, seq<RevocationEntry>>
    var revokedKey: map<KeyId, RevocationEntry>
    var revokedAttestation: map<string, RevocationEntry>
    var blockedSdoc: map<string, BlockEntry>
    var sdocStatements: seq<SdocStatement>

    function State(): RevocationState
      reads this
    {
      RevocationState(revokedTcert, revokedKey, revokedAttestation, blockedSdoc, sdocStatements)
    }

    constructor ()
      ensures State() == RevocationState(map[], map[], map[], map[], [])
    {
      revokedTcert, revokedKey, revokedAttestation, blockedSdoc, sdocStatements := map[], map[], map[], map[], [];
    }

    /** One revocation per revoker key; entries that name no revoker accumulate. */
    method AddRevokedTcert(id: TcertId, entry: RevocationEntry)
      modifies this`revokedTcert
      ensures State() == WithRevokedTcert(old(State()), id, entry)
    {
      var list := if id in revokedTcert then revokedTcert[id] else [];
      if NamesRevoker(entry) {
        var same := (x: RevocationEntry) => x.byKeyId == entry.byKeyId;
        UpsertedByIndex(list, entry, same);
        var idx := FindIndex(list, same);
        list := if idx >= 0 then list[idx := entry] else list + [entry];
      } else {
        list := list + [entry];
      }
      revokedTcert := revokedTcert[id := list];
    }

    method GetRevokedTcert(id: TcertId) returns (r: Option<RevocationEntry>)
      ensures r == EffectiveRevocation(State(), id)
    {
      var list := if id in revokedTcert then revokedTcert[id] else [];
      if list == [] {
        return None;
      }
      SortPermutes(list, MoreSevere);
      var sorted := Sort(list, MoreSevere);
      return Some(sorted[0]);
    }

    method AddRevokedKey(k: KeyId, entry: RevocationEntry)
      modifies this`revokedKey
      ensures State() == WithRevokedKey(old(State()), k, entry)
    {
      revokedKey := revokedKey[k := entry];
    }

    method AddRevokedAttestation(target: TcertId, ca: TcertId, entry: RevocationEntry)
      modifies this`revokedAttestation
      ensures State() == WithRevokedAttestation(old(State()), target, ca, entry)
    {
      revokedAttestation := revokedAttestation[target + "|" + ca := entry];
    }

    method IsRevokedAttestation(target: TcertId, ca: TcertId) returns (r: bool)
      ensures r <==> PairKey(target, ca) in revokedAttestation
    {
      r := target + "|" + ca in revokedAttestation;
    }

    method AddBlockedSdoc(sdocId: string, entry: BlockEntry)
      modifies this`blockedSdoc, this`sdocStatements
      ensures State() == WithBlocked(old(State()), sdocId, entry)
    {
      blockedSdoc := blockedSdoc[sdocId := entry];
      sdocStatements := sdocStatements + [SdocStatement(sdocId, entry, true)];
    }

    /** Unblocking records its statement even when nothing was blocked. */
    method RemoveBlockedSdoc(sdocId: string, entry: BlockEntry)
      modifies this`blockedSdoc, this`sdocStatements
      ensures State() == WithUnblocked(old(State()), sdocId, entry)
    {
      blockedSdoc := blockedSdoc - {sdocId};
      sdocStatements := sdocStatements + [SdocStatement(sdocId, entry, false)];
    }
  }

  /* ------------------------------------- laws ----------------------------------- */

  lemma {:induction false} SeverityOrder()
    ensures TotalPreorder(MoreSevere)
  {
    forall x, y ensures MoreSevere(x, y) || MoreSevere(y, x) {
    }
    forall x, y, z | MoreSevere(x, y) && MoreSevere(y, z) ensures MoreSevere(x, z) {
    }
  }

  /**
   * The effective revocation is one of the recorded entries, and no recorded entry is worse: a
   * retrospective one wins over every prospective one, and the latest wins among equals.
   */
  lemma {:induction false} EffectiveRevocationIsWorst(r: RevocationState, id: TcertId)
    ensures EffectiveRevocation(r, id).Some? <==> TcertRevoked(r, id)
    ensures EffectiveRevocation(r, id).Some? ==>
      var e := EffectiveRevocation(r, id).value;
      && e in RevocationsOf(r, id)
      && (forall x :: x in RevocationsOf(r, id) ==>
            && (x.kind.Retrospective? ==> e.kind.Retrospective?)
            && (x.kind == e.kind ==> x.issuedAt <= e.issuedAt))
  {
    var list := RevocationsOf(r, id);
    SortPermutes(list, MoreSevere);
    if list != [] {
      SeverityOrder();
      SortSorts(list, MoreSevere);
      SortMembers(list, MoreSevere);
      var s := Sort(list, MoreSevere);
      assert s[0] in s;
      forall x | x in list ensures MoreSevere(s[0], x) {
        assert x in s;
        var j :| 0 <= j < |s| && s[j] == x;
        assert j == 0 || MoreSevere(s[0], s[j]);
      }
    }
  }
}
