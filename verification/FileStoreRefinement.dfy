/** The file-backed trust and revocation stores, and the proof that they answer as the in-memory ones. */
module FileStoreRefinement {
  import opened Bytes
  import opened FileStores
  import opened Ids
  import opened MemoryStores
  import opened ServiceState
  import opened Sorting

  /* ------------------------------- transitions ---------------------------------- */

  datatype TrustFiles = TrustFiles(
    pinned: Records<bool>,
    cas: Records<bool>,
    distrusted: Records<bool>,
    attestations: Records<Attestation>)

  datatype RevocationFiles = RevocationFiles(
    tcerts: Records<seq<RevocationEntry>>,
    keys: Records<RevocationEntry>,
    attestations: Records<RevocationEntry>,
    blocked: Records<BlockEntry>,
    statements: Records<SdocStatement>)

  /** `getAttestations`: the records whose key starts with the target. */
  function FileAttestations(m: Records<Attestation>, target: TcertId): seq<Attestation>
  {
    if m == [] then []
    else (if KeyMatches(m[0].0, target, None) then [m[0].1] else []) + FileAttestations(m[1..], target)
  }

  /** The key of the first record of this target and CA. */
  function MatchingKey(m: Records<Attestation>, target: TcertId, ca: TcertId): Option<string>
  {
    if m == [] then None
    else if KeyMatches(m[0].0, target, Some(ca)) then Some(m[0].0)
    else MatchingKey(m[1..], target, ca)
  }

  /** `addAttestation`: an existing record keeps its key, also when the new one is dated differently. */
  function AddRecord(m: Records<Attestation>, a: Attestation): Records<Attestation>
  {
    var k := MatchingKey(m, a.target, a.caTcertId);
    Put(m, if k.Some? then k.value else AttestationKey(a), a)
  }

  function FoundList(m: Records<seq<RevocationEntry>>, id: TcertId): seq<RevocationEntry>
  {
    if Has(m, id) then Find(m, id).value else []
  }

  function AddedRevocation(list: seq<RevocationEntry>, e: RevocationEntry): seq<RevocationEntry>
  {
    if NamesRevoker(e) then Upserted(list, e, (x: RevocationEntry) => x.byKeyId == e.byKeyId) else list + [e]
  }

  function StatementKey(sdocId: string, e: BlockEntry, action: string): string
  {
    sdocId + "|" + IntString(e.issuedAt) + "|" + action
  }

  /** An operation on the trust and revocation stores; `Reopen` closes them and opens the files again. */
  datatype StoreOp =
    | AddPinned(id: TcertId) | RemovePinned(id: TcertId)
    | AddCa(id: TcertId) | RemoveCa(id: TcertId)
    | AddDistrust(id: TcertId) | RemoveDistrust(id: TcertId)
    | AddAttestation(a: Attestation)
    | AddRevokedTcert(id: TcertId, e: RevocationEntry)
    | AddRevokedKey(key: KeyId, e: RevocationEntry)
    | AddRevokedAttestation(target: TcertId, ca: TcertId, e: RevocationEntry)
    | AddBlockedSdoc(sdocId: string, b: BlockEntry)
    | RemoveBlockedSdoc(sdocId: string, b: BlockEntry)
    | Reopen

  function TrustOnFiles(f: TrustFiles, op: StoreOp): TrustFiles
  {
    match op
    case AddPinned(id) => f.(pinned := Put(f.pinned, id, true))
    case RemovePinned(id) => f.(pinned := Drop(f.pinned, id))
    case AddCa(id) => f.(cas := Put(f.cas, id, true))
    case RemoveCa(id) => f.(cas := Drop(f.cas, id))
    case AddDistrust(id) => f.(distrusted := Put(f.distrusted, id, true))
    case RemoveDistrust(id) => f.(distrusted := Drop(f.distrusted, id))
    case AddAttestation(a) => f.(attestations := AddRecord(f.attestations, a))
    case Reopen => TrustFiles(AsObject(f.pinned), AsObject(f.cas), AsObject(f.distrusted), AsObject(f.attestations))
    case _ => f
  }

  function TrustInMemory(t: TrustState, op: StoreOp): TrustState
  {
    match op
    case AddPinned(id) => t.(pinned := t.pinned + {id})
    case RemovePinned(id) => t.(pinned := t.pinned - {id})
    case AddCa(id) => t.(cas := t.cas + {id})
    case RemoveCa(id) => t.(cas := t.cas - {id})
    case AddDistrust(id) => t.(distrusted := t.distrusted + {id})
    case RemoveDistrust(id) => t.(distrusted := t.distrusted - {id})
    case AddAttestation(a) => WithAttestation(t, a)
    case _ => t
  }

  function RevocationsOnFiles(f: RevocationFiles, op: StoreOp): RevocationFiles
  {
    match op
    case AddRevokedTcert(id, e) => f.(tcerts := Put(f.tcerts, id, AddedRevocation(FoundList(f.tcerts, id), e)))
    case AddRevokedKey(k, e) => f.(keys := Put(f.keys, k, e))
    case AddRevokedAttestation(t, c, e) => f.(attestations := Put(f.attestations, PairKey(t, c), e))
    case AddBlockedSdoc(d, b) =>
      f.(blocked := Put(f.blocked, d, b),
         statements := Put(f.statements, StatementKey(d, b, "blockSdoc"), SdocStatement(d, b, true)))
    case RemoveBlockedSdoc(d, b) =>
      f.(blocked := Drop(f.blocked, d),
         statements := Put(f.statements, StatementKey(d, b, "unblockSdoc"), SdocStatement(d, b, false)))
    case Reopen => RevocationFiles(AsObject(f.tcerts), AsObject(f.keys), AsObject(f.attestations),
                                   AsObject(f.blocked), AsObject(f.statements))
    case _ => f
  }

  function RevocationsInMemory(r: RevocationState, op: StoreOp): RevocationState
  {
    match op
    case AddRevokedTcert(id, e) => WithRevokedTcert(r, id, e)
    case AddRevokedKey(k, e) => WithRevokedKey(r, k, e)
    case AddRevokedAttestation(t, c, e) => WithRevokedAttestation(r, t, c, e)
    case AddBlockedSdoc(d, b) => WithBlocked(r, d, b)
    case RemoveBlockedSdoc(d, b) => WithUnblocked(r, d, b)
    case _ => r
  }

  /* ----------------------------------- classes ---------------------------------- */

  class FileTrustStore {
    const pinned: JsonFileStore<bool>
    const cas: JsonFileStore<bool>
    const distrusted: JsonFileStore<bool>
    const attestations: JsonFileStore<Attestation>

    /** The four stores are separate, and each is what its file holds. */
    ghost predicate Valid()
      reads pinned, cas, distrusted, attestations, pinned.file, cas.file, distrusted.file, attestations.file
    {
      && pinned != cas && pinned != distrusted && cas != distrusted
      && pinned.file != cas.file && pinned.file != distrusted.file && cas.file != distrusted.file
      && pinned.Synced() && cas.Synced() && distrusted.Synced() && attestations.Synced()
    }

    ghost function Stores(): set<object> { {pinned as object, cas, distrusted, attestations} }

    ghost function Files(): set<object> { {pinned.file as object, cas.file, distrusted.file, attestations.file} }

    function State(): TrustFiles
      reads pinned, cas, distrusted, attestations
    {
      TrustFiles(pinned.entries, cas.entries, distrusted.entries, attestations.entries)
    }

    /** Open the store on its files. */
    constructor (pinnedFile: File<bool>, casFile: File<bool>, distrustedFile: File<bool>,
                 attestationsFile: File<Attestation>)
      requires pinnedFile != casFile && pinnedFile != distrustedFile && casFile != distrustedFile
      ensures (Plain(pinnedFile.content) && Plain(casFile.content) && Plain(distrustedFile.content)
               && Plain(attestationsFile.content)) ==> Valid()
      ensures State() == TrustFiles(OnDisk(pinnedFile.content), OnDisk(casFile.content), OnDisk(distrustedFile.content),
                                    OnDisk(attestationsFile.content))
      ensures pinned.file == pinnedFile && cas.file == casFile && distrusted.file == distrustedFile
      ensures attestations.file == attestationsFile
      ensures fresh(pinned) && fresh(cas) && fresh(distrusted) && fresh(attestations)
    {
      pinned := new JsonFileStore(pinnedFile);
      cas := new JsonFileStore(casFile);
      distrusted := new JsonFileStore(distrustedFile);
      attestations := new JsonFileStore(attestationsFile);
    }

    /** Closing and opening again gives a store with the records that plain objects keep, in their order. */
    method Reopened() returns (again: FileTrustStore)
      requires Valid()
      ensures fresh(again) && again.Valid() && again.State() == TrustOnFiles(State(), StoreOp.Reopen)
      ensures fresh(again.Stores()) && again.Files() == Files()
    {
      ObjectIsFixed(pinned.entries);
      ObjectIsFixed(cas.entries);
      ObjectIsFixed(distrusted.entries);
      ObjectIsFixed(attestations.entries);
      again := new FileTrustStore(pinned.file, cas.file, distrusted.file, attestations.file);
    }

    method AddPinned(id: TcertId)
      requires Valid()
      modifies pinned, pinned.file
      ensures Valid() && State() == TrustOnFiles(old(State()), StoreOp.AddPinned(id))
    {
      pinned.Set(id, true);
    }

    method RemovePinned(id: TcertId)
      requires Valid()
      modifies pinned, pinned.file
      ensures Valid() && State() == TrustOnFiles(old(State()), StoreOp.RemovePinned(id))
    {
      pinned.Delete(id);
    }

    method IsPinned(id: TcertId) returns (r: bool)
      ensures r <==> Has(State().pinned, id)
    {
      var v := pinned.Get(id);
      return v.Some?;
    }

    method AddCa(id: TcertId)
      requires Valid()
      modifies cas, cas.file
      ensures Valid() && State() == TrustOnFiles(old(State()), StoreOp.AddCa(id))
    {
      cas.Set(id, true);
    }

    method RemoveCa(id: TcertId)
      requires Valid()
      modifies cas, cas.file
      ensures Valid() && State() == TrustOnFiles(old(State()), StoreOp.RemoveCa(id))
    {
      cas.Delete(id);
    }

    method IsCa(id: TcertId) returns (r: bool)
      ensures r <==> Has(State().cas, id)
    {
      var v := cas.Get(id);
      return v.Some?;
    }

    method IsDistrusted(id: TcertId) returns (r: bool)
      ensures r <==> Has(State().distrusted, id)
    {
      var v := distrusted.Get(id);
      return v.Some?;
    }

    method AddDistrust(id: TcertId)
      requires Valid()
      modifies distrusted, distrusted.file
      ensures Valid() && State() == TrustOnFiles(old(State()), StoreOp.AddDistrust(id))
    {
      distrusted.Set(id, true);
    }

    method RemoveDistrust(id: TcertId)
      requires Valid()
      modifies distrusted, distrusted.file
      ensures Valid() && State() == TrustOnFiles(old(State()), StoreOp.RemoveDistrust(id))
    {
      distrusted.Delete(id);
    }

    /** One record per (target, CA), recognised by its key. */
    method AddAttestation(a: Attestation)
      requires Valid()
      modifies attestations, attestations.file
      ensures Valid() && State() == old(State()).(attestations := AddRecord(old(State()).attestations, a))
    {
      var key := KeyFor(a);
      attestations.Set(key, a);
    }

    /** The key of the first record of this target and CA, or a new one. */
    method KeyFor(a: Attestation) returns (key: string)
      ensures Put(attestations.entries, key, a) == AddRecord(attestations.entries, a)
    {
      var m := attestations.entries;
      for i := 0 to |m|
        invariant MatchingKey(m, a.target, a.caTcertId) == MatchingKey(m[i..], a.target, a.caTcertId)
      {
        if KeyMatches(m[i].0, a.target, Some(a.caTcertId)) {
          return m[i].0;
        }
      }
      return AttestationKey(a);
    }

    method GetAttestations(target: TcertId) returns (list: seq<Attestation>)
      ensures list == FileAttestations(State().attestations, target)
    {
      list := [];
      var m := attestations.entries;
      for i := 0 to |m|
        invariant list + FileAttestations(m[i..], target) == FileAttestations(m, target)
      {
        if KeyMatches(m[i].0, target, None) {
          list := list + [m[i].1];
        }
      }
    }

    /** Carry out one operation; opening again continues on a new store over the same files. */
    method Step(op: StoreOp) returns (next: FileTrustStore)
      requires Valid()
      modifies Stores(), Files()
      ensures next.Valid() && next.State() == TrustOnFiles(old(State()), op)
      ensures next == this || (fresh(next) && fresh(next.Stores()))
      ensures next.Files() == Files()
    {
      next := this;
      match op
      case AddPinned(id) => AddPinned(id);
      case RemovePinned(id) => RemovePinned(id);
      case AddCa(id) => AddCa(id);
      case RemoveCa(id) => RemoveCa(id);
      case AddDistrust(id) => AddDistrust(id);
      case RemoveDistrust(id) => RemoveDistrust(id);
      case AddAttestation(a) => AddAttestation(a);
      case Reopen => next := Reopened();
      case _ =>
    }
  }

  class FileRevocationStore {
    const revokedTcert: JsonFileStore<seq<RevocationEntry>>
    const revokedKey: JsonFileStore<RevocationEntry>
    const revokedAttestation: JsonFileStore<RevocationEntry>
    const blockedSdoc: JsonFileStore<BlockEntry>
    const sdocStatements: JsonFileStore<SdocStatement>

    ghost predicate Valid()
      reads revokedTcert, revokedKey, revokedAttestation, blockedSdoc, sdocStatements
      reads revokedTcert.file, revokedKey.file, revokedAttestation.file, blockedSdoc.file, sdocStatements.file
    {
      && revokedKey != revokedAttestation && revokedKey.file != revokedAttestation.file
      && revokedTcert.Synced() && revokedKey.Synced() && revokedAttestation.Synced() && blockedSdoc.Synced()
      && sdocStatements.Synced()
    }

    ghost function Stores(): set<object>
    {
      {revokedTcert as object, revokedKey, revokedAttestation, blockedSdoc, sdocStatements}
    }

    ghost function Files(): set<object>
    {
      {revokedTcert.file as object, revokedKey.file, revokedAttestation.file, blockedSdoc.file, sdocStatements.file}
    }

    function State(): RevocationFiles
      reads revokedTcert, revokedKey, revokedAttestation, blockedSdoc, sdocStatements
    {
      RevocationFiles(revokedTcert.entries, revokedKey.entries, revokedAttestation.entries, blockedSdoc.entries,
                      sdocStatements.entries)
    }

    constructor (tcertFile: File<seq<RevocationEntry>>, keyFile: File<RevocationEntry>,
                 attestationFile: File<RevocationEntry>, blockedFile: File<BlockEntry>,
                 statementFile: File<SdocStatement>)
      requires keyFile != attestationFile
      ensures (Plain(tcertFile.content) && Plain(keyFile.content) && Plain(attestationFile.content)
               && Plain(blockedFile.content) && Plain(statementFile.content)) ==> Valid()
      ensures State()
        == RevocationFiles(OnDisk(tcertFile.content), OnDisk(keyFile.content), OnDisk(attestationFile.content),
                                         OnDisk(blockedFile.content), OnDisk(statementFile.content))
      ensures revokedTcert.file == tcertFile && revokedKey.file == keyFile && revokedAttestation.file == attestationFile
      ensures blockedSdoc.file == blockedFile && sdocStatements.file == statementFile
      ensures fresh(revokedTcert) && fresh(revokedKey) && fresh(revokedAttestation) && fresh(blockedSdoc)
      ensures fresh(sdocStatements)
    {
      revokedTcert := new JsonFileStore(tcertFile);
      revokedKey := new JsonFileStore(keyFile);
      revokedAttestation := new JsonFileStore(attestationFile);
      blockedSdoc := new JsonFileStore(blockedFile);
      sdocStatements := new JsonFileStore(statementFile);
    }

    /** Closing and opening again gives a store with the records that plain objects keep, in their order. */
    method Reopened() returns (again: FileRevocationStore)
      requires Valid()
      ensures fresh(again) && again.Valid() && again.State() == RevocationsOnFiles(State(), StoreOp.Reopen)
      ensures fresh(again.Stores()) && again.Files() == Files()
    {
      ObjectIsFixed(revokedTcert.entries);
      ObjectIsFixed(revokedKey.entries);
      ObjectIsFixed(revokedAttestation.entries);
      ObjectIsFixed(blockedSdoc.entries);
      ObjectIsFixed(sdocStatements.entries);
      again := new FileRevocationStore(revokedTcert.file, revokedKey.file, revokedAttestation.file, blockedSdoc.file,
                                       sdocStatements.file);
    }

    method AddRevokedTcert(id: TcertId, entry: RevocationEntry)
      requires Valid()
      modifies revokedTcert, revokedTcert.file
      ensures Valid() && State() == RevocationsOnFiles(old(State()), StoreOp.AddRevokedTcert(id, entry))
    {
      var found := revokedTcert.Get(id);
      var list := if found.Some? then found.value else [];
      if NamesRevoker(entry) {
        var same := (x: RevocationEntry) => x.byKeyId == entry.byKeyId;
        UpsertedByIndex(list, entry, same);
        var idx := FindIndex(list, same);
        list := if idx >= 0 then list[idx := entry] else list + [entry];
      } else {
        list := list + [entry];
      }
      assert revokedTcert as object !in {revokedKey as object, revokedAttestation, blockedSdoc, sdocStatements};
      revokedTcert.Set(id, list);
    }

    /** The answer of the in-memory store, on the list read from the file. */
    method GetRevokedTcert(id: TcertId) returns (r: Option<RevocationEntry>)
      ensures r == WorstOf(FoundList(State().tcerts, id))
    {
      var found := revokedTcert.Get(id);
      var list := if found.Some? then found.value else [];
      if list == [] {
        return None;
      }
      SortPermutes(list, MoreSevere);
      var sorted := Sort(list, MoreSevere);
      return Some(sorted[0]);
    }

    method AddRevokedKey(k: KeyId, entry: RevocationEntry)
      requires Valid()
      modifies revokedKey, revokedKey.file
      ensures Valid() && State() == old(State()).(keys := Put(old(State()).keys, k, entry))
    {
      assert revokedKey as object !in {revokedTcert as object, revokedAttestation, blockedSdoc, sdocStatements};
      revokedKey.Set(k, entry);
    }

    method AddRevokedAttestation(target: TcertId, ca: TcertId, entry: RevocationEntry)
      requires Valid()
      modifies revokedAttestation, revokedAttestation.file
      ensures Valid() && State() == RevocationsOnFiles(old(State()), StoreOp.AddRevokedAttestation(target, ca, entry))
    {
      assert revokedAttestation as object !in {revokedTcert as object, revokedKey, blockedSdoc, sdocStatements};
      revokedAttestation.Set(target + "|" + ca, entry);
    }

    method AddBlockedSdoc(sdocId: string, entry: BlockEntry)
      requires Valid()
      modifies blockedSdoc, blockedSdoc.file, sdocStatements, sdocStatements.file
      ensures Valid() && State() == RevocationsOnFiles(old(State()), StoreOp.AddBlockedSdoc(sdocId, entry))
    {
      assert blockedSdoc as object !in {revokedTcert as object, revokedKey, revokedAttestation, sdocStatements};
      assert sdocStatements as object !in {revokedTcert as object, revokedKey, revokedAttestation};
      blockedSdoc.Set(sdocId, entry);
      sdocStatements.Set(StatementKey(sdocId, entry, "blockSdoc"), SdocStatement(sdocId, entry, true));
    }

    method RemoveBlockedSdoc(sdocId: string, entry: BlockEntry)
      requires Valid()
      modifies blockedSdoc, blockedSdoc.file, sdocStatements, sdocStatements.file
      ensures Valid() && State() == RevocationsOnFiles(old(State()), StoreOp.RemoveBlockedSdoc(sdocId, entry))
    {
      assert blockedSdoc as object !in {revokedTcert as object, revokedKey, revokedAttestation, sdocStatements};
      assert sdocStatements as object !in {revokedTcert as object, revokedKey, revokedAttestation};
      blockedSdoc.Delete(sdocId);
      sdocStatements.Set(StatementKey(sdocId, entry, "unblockSdoc"), SdocStatement(sdocId, entry, false));
    }

    method GetRevokedKey(k: KeyId) returns (r: Option<RevocationEntry>)
      ensures r == Find(State().keys, k)
    {
      r := revokedKey.Get(k);
    }

    method GetRevokedAttestation(target: TcertId, ca: TcertId) returns (r: Option<RevocationEntry>)
      ensures r == Find(State().attestations, PairKey(target, ca))
    {
      r := revokedAttestation.Get(target + "|" + ca);
    }

    method GetBlockedSdoc(sdocId: string) returns (r: Option<BlockEntry>)
      ensures r == Find(State().blocked, sdocId)
    {
      r := blockedSdoc.Get(sdocId);
    }

    /** Carry out one operation; opening again continues on a new store over the same files. */
    method Step(op: StoreOp) returns (next: FileRevocationStore)
      requires Valid()
      modifies Stores(), Files()
      ensures next.Valid() && next.State() == RevocationsOnFiles(old(State()), op)
      ensures next == this || (fresh(next) && fresh(next.Stores()))
      ensures next.Files() == Files()
    {
      next := this;
      match op
      case AddRevokedTcert(id, e) => AddRevokedTcert(id, e);
      case AddRevokedKey(k, e) => AddRevokedKey(k, e);
      case AddRevokedAttestation(t, c, e) => AddRevokedAttestation(t, c, e);
      case AddBlockedSdoc(d, b) => AddBlockedSdoc(d, b);
      case RemoveBlockedSdoc(d, b) => RemoveBlockedSdoc(d, b);
      case Reopen => next := Reopened();
      case _ =>
    }
  }

  /* --------------------------------- refinement --------------------------------- */

  predicate BarFree(id: string) { '|' !in id }

  predicate OwnKey(p: (string, Attestation)) { KeyMatches(p.0, p.1.target, Some(p.1.caTcertId)) }

  /** Every record is filed under its own target and CA. */
  ghost predicate Filed(m: Records<Attestation>)
  {
    UniqueKeys(m) && forall i :: 0 <= i < |m| ==> OwnKey(m[i])
  }

  lemma {:induction false} FiledTail(m: Records<Attestation>)
    requires m != [] && Filed(m)
    ensures Filed(m[1..]) && forall i :: 0 <= i < |m[1..]| ==> m[1..][i].0 != m[0].0
  {
    var t := m[1..];
    forall i, j | 0 <= i < j < |t| ensures t[i].0 != t[j].0 { assert m[i + 1].0 != m[j + 1].0; }
    forall i | 0 <= i < |t| ensures OwnKey(t[i]) && t[i].0 != m[0].0 {
      assert t[i] == m[i + 1] && m[0].0 != m[i + 1].0;
    }
  }

  lemma {:induction false} MatchingKeyIsKey(m: Records<Attestation>, target: TcertId, ca: TcertId)
    ensures MatchingKey(m, target, ca).Some? ==>
      KeyMatches(MatchingKey(m, target, ca).value, target, Some(ca)) && exists i ::
        0 <= i < |m| && m[i].0 == MatchingKey(m, target, ca).value
  {
    if m == [] || KeyMatches(m[0].0, target, Some(ca)) {
    } else {
      MatchingKeyIsKey(m[1..], target, ca);
      if MatchingKey(m, target, ca).Some? {
        var i :| 0 <= i < |m[1..]| && m[1..][i].0 == MatchingKey(m, target, ca).value;
        assert m[i + 1].0 == MatchingKey(m, target, ca).value;
      }
    }
  }

  /** Adding replaces the head when it matches, and otherwise works on the rest. */
  lemma {:induction false} AddRecordStep(m: Records<Attestation>, a: Attestation)
    requires m != [] && Filed(m) && BarFree(a.target) && BarFree(a.caTcertId)
    ensures AddRecord(m, a)
         == if KeyMatches(m[0].0, a.target, Some(a.caTcertId)) then [(m[0].0, a)] + m[1..]
           else [m[0]] + AddRecord(m[1..], a)
  {
    KeyFindsItself(a);
    FiledTail(m);
    MatchingKeyIsKey(m[1..], a.target, a.caTcertId);
  }

  lemma {:induction false} ReplacedHeadUnique<T>(m: Records<T>, v: T)
    requires m != [] && UniqueKeys(m)
    ensures UniqueKeys([(m[0].0, v)] + m[1..])
  {
    var r := [(m[0].0, v)] + m[1..];
    forall i, j | 0 <= i < j < |r| ensures r[i].0 != r[j].0 {
      assert r[i].0 == m[i].0 && r[j].0 == m[j].0;
    }
  }

  lemma {:induction false} ReplacedHeadFiled(m: Records<Attestation>, a: Attestation)
    requires m != [] && Filed(m) && KeyMatches(m[0].0, a.target, Some(a.caTcertId))
    ensures Filed([(m[0].0, a)] + m[1..])
  {
    ReplacedHeadUnique(m, a);
    var r := [(m[0].0, a)] + m[1..];
    forall i | 0 <= i < |r| ensures OwnKey(r[i]) {
      if i > 0 { assert r[i] == m[i]; }
    }
  }

  lemma {:induction false} AddRecordFiled(m: Records<Attestation>, a: Attestation)
    requires Filed(m) && BarFree(a.target) && BarFree(a.caTcertId)
    ensures Filed(AddRecord(m, a))
  {
    if m == [] {
      KeyFindsItself(a);
      assert AddRecord(m, a) == [(AttestationKey(a), a)];
    } else {
      AddRecordStep(m, a);
      if KeyMatches(m[0].0, a.target, Some(a.caTcertId)) {
        ReplacedHeadFiled(m, a);
      } else {
        FiledTail(m);
        AddRecordFiled(m[1..], a);
        AddRecordKeys(m[1..], a);
        FiledCons(m, AddRecord(m[1..], a), a);
      }
    }
  }

  lemma {:induction false} AddRecordKeys(m: Records<Attestation>, a: Attestation)
    requires Filed(m) && BarFree(a.target) && BarFree(a.caTcertId)
    ensures forall i :: 0 <= i < |AddRecord(m, a)| ==>
      KeyMatches(AddRecord(m, a)[i].0, a.target, Some(a.caTcertId)) || exists j ::
        0 <= j < |m| && m[j].0 == AddRecord(m, a)[i].0
  {
    KeyFindsItself(a);
    MatchingKeyIsKey(m, a.target, a.caTcertId);
    var k := MatchingKey(m, a.target, a.caTcertId);
    PutLaws(m, if k.Some? then k.value else AttestationKey(a), a);
  }

  /** Adding a record in file order is the replacement in each target's own list. */
  lemma {:induction false} AddRecordRefines(m: Records<Attestation>, a: Attestation, t: TcertId)
    requires Filed(m) && BarFree(a.target) && BarFree(a.caTcertId)
    ensures FileAttestations(AddRecord(m, a), t)
         == if t == a.target then Upserted(FileAttestations(m, t), a, (x: Attestation) => x.caTcertId == a.caTcertId)
            else FileAttestations(m, t)
  {
    KeyFindsItself(a);
    if m == [] {
      assert AddRecord(m, a)[1..] == [];
    } else {
      var tail, r := m[1..], AddRecord(m, a);
      AddRecordStep(m, a);
      if KeyMatches(m[0].0, a.target, Some(a.caTcertId)) {
        assert r[0] == (m[0].0, a) && r[1..] == tail;
      } else {
        FiledTail(m);
        AddRecordRefines(tail, a, t);
        assert r[0] == m[0] && r[1..] == AddRecord(tail, a);
        RecordSkipped(m, a, t, FileAttestations(tail, t));
      }
    }
  }

  lemma {:induction false} RecordSkipped(m: Records<Attestation>, a: Attestation, t: TcertId, rest: seq<Attestation>)
    requires m != [] && Filed(m) && !KeyMatches(m[0].0, a.target, Some(a.caTcertId))
    requires rest == FileAttestations(m[1..], t)
    ensures t == a.target ==>
      var same := (x: Attestation) => x.caTcertId == a.caTcertId;
      Upserted(FileAttestations(m, t), a, same)
      == (if KeyMatches(m[0].0, t, None) then [m[0].1] else []) + Upserted(rest, a, same)
  {
    if t == a.target {
      if KeyMatches(m[0].0, t, None) {
        assert FileAttestations(m, t)[1..] == rest;
      } else {
        assert FileAttestations(m, t) == rest;
      }
    }
  }

  lemma {:induction false} FiledCons(m: Records<Attestation>, rest: Records<Attestation>, a: Attestation)
    requires m != [] && Filed(m) && Filed(rest) && !KeyMatches(m[0].0, a.target, Some(a.caTcertId))
    requires forall i :: 0 <= i < |rest| ==>
      KeyMatches(rest[i].0, a.target, Some(a.caTcertId)) || exists j :: 0 <= j < |m[1..]| && m[1..][j].0 == rest[i].0
    ensures Filed([m[0]] + rest)
  {
    FiledTail(m);
    UniqueCons(m[0], rest);
    var r := [m[0]] + rest;
    forall i | 0 <= i < |r| ensures OwnKey(r[i]) {
      if i > 0 { assert r[i] == rest[i - 1]; } else { assert OwnKey(m[0]); }
    }
  }

  ghost predicate SameSet(m: Records<bool>, s: set<TcertId>)
  {
    UniqueKeys(m) && PROTO_NAME !in s && forall id :: Has(m, id) <==> id in s
  }

  ghost predicate SameMap<T>(m: Records<T>, s: map<string, T>)
  {
    UniqueKeys(m) && PROTO_NAME !in s && forall k :: Find(m, k) == if k in s then Some(s[k]) else None
  }

  lemma {:induction false} ObjectKeepsSet(m: Records<bool>, s: set<TcertId>)
    requires SameSet(m, s)
    ensures SameSet(AsObject(m), s)
  {
    FindInObject(m);
  }

  lemma {:induction false} ObjectKeepsMap<T(!new)>(m: Records<T>, s: map<string, T>)
    requires SameMap(m, s)
    ensures SameMap(AsObject(m), s)
  {
    FindInObject(m);
  }

  /** Attestations are filed under names with bars, which an object keeps in order. */
  lemma {:induction false} ObjectKeepsFiled(m: Records<Attestation>)
    requires Filed(m)
    ensures AsObject(m) == m
  {
    forall p | p in m ensures '|' in p.0 {
      var i :| 0 <= i < |m| && m[i] == p;
      assert OwnKey(m[i]);
      assert p.0[IndexOf(p.0, '|')] == '|';
    }
    BarredObject(m);
  }

  lemma {:induction false} ObjectKeepsHistory(history: seq<SdocStatement>)
    ensures AsObject(FiledHistory(history)) == FiledHistory(history)
  {
    HistoryBarred(history);
    BarredObject(FiledHistory(history));
  }

  lemma {:induction false} HistoryBarred(history: seq<SdocStatement>)
    ensures forall p :: p in FiledHistory(history) ==> '|' in p.0
    decreases |history|
  {
    if history == [] {
    } else {
      var before, last := history[..|history| - 1], history[|history| - 1];
      HistoryBarred(before);
      FiledHistoryUnique(before);
      PutLaws(FiledHistory(before), HistoryKey(last), last);
      BarInKey(last);
      var r := FiledHistory(history);
      forall p | p in r ensures '|' in p.0 {
        var i :| 0 <= i < |r| && r[i] == p;
        if p.0 != HistoryKey(last) {
          var j :| 0 <= j < |FiledHistory(before)| && FiledHistory(before)[j].0 == p.0;
          assert FiledHistory(before)[j] in FiledHistory(before);
        }
      }
    }
  }

  lemma {:induction false} BarInKey(s: SdocStatement)
    ensures '|' in HistoryKey(s)
  {
    assert HistoryKey(s)[|s.sdocId|] == '|';
  }

  /** The history as the file keeps it: one statement for each document, time and action. */
  function FiledHistory(history: seq<SdocStatement>): Records<SdocStatement>
  {
    if history == [] then []
    else
      var last := history[|history| - 1];
      Put(FiledHistory(history[..|history| - 1]), HistoryKey(last), last)
  }

  function HistoryKey(s: SdocStatement): string
  {
    StatementKey(s.sdocId, s.entry, if s.blocks then "blockSdoc" else "unblockSdoc")
  }

  lemma {:induction false} FiledHistoryUnique(history: seq<SdocStatement>)
    ensures UniqueKeys(FiledHistory(history))
    decreases |history|
  {
    if history == [] {
    } else {
      var before, last := history[..|history| - 1], history[|history| - 1];
      FiledHistoryUnique(before);
      PutLaws(FiledHistory(before), HistoryKey(last), last);
    }
  }

  function LatestStatement(history: seq<SdocStatement>, key: string): Option<SdocStatement>
  {
    if history == [] then None
    else
      var last := history[|history| - 1];
      if HistoryKey(last) == key then Some(last) else LatestStatement(history[..|history| - 1], key)
  }

  /** The file holds exactly the latest statement of every document, time and action. */
  lemma {:induction false} FiledHistoryIsLatest(history: seq<SdocStatement>, key: string)
    ensures Find(FiledHistory(history), key) == LatestStatement(history, key)
    decreases |history|
  {
    if history == [] {
    } else {
      var before, last := history[..|history| - 1], history[|history| - 1];
      FiledHistoryUnique(before);
      PutLaws(FiledHistory(before), HistoryKey(last), last);
      FiledHistoryIsLatest(before, key);
    }
  }

  ghost predicate TrustRefines(f: TrustFiles, t: TrustState)
  {
    && SameSet(f.pinned, t.pinned) && SameSet(f.cas, t.cas) && SameSet(f.distrusted, t.distrusted)
    && SameAttestations(f, t)
  }

  ghost predicate SameAttestations(f: TrustFiles, t: TrustState)
  {
    Filed(f.attestations) && forall id :: FileAttestations(f.attestations, id) == AttestationsOf(t, id)
  }

  ghost predicate RevocationsRefine(f: RevocationFiles, r: RevocationState)
  {
    && SameMap(f.tcerts, r.tcerts) && SameMap(f.keys, r.keys) && SameMap(f.attestations, r.attestations)
    && SameMap(f.blocked, r.blocked) && f.statements == FiledHistory(r.history)
  }

  /**
   * Ids are joined with bars in the file keys, so they must not contain any, and the records of a file are
   * properties of a plain object, so none is named as its prototype.
   */
  predicate PlainOp(op: StoreOp)
  {
    match op
    case AddAttestation(a) => BarFree(a.target) && BarFree(a.caTcertId)
    case AddPinned(id) => id != PROTO_NAME
    case AddCa(id) => id != PROTO_NAME
    case AddDistrust(id) => id != PROTO_NAME
    case AddRevokedTcert(id, _) => id != PROTO_NAME
    case AddRevokedKey(k, _) => k != PROTO_NAME
    case AddBlockedSdoc(d, _) => d != PROTO_NAME
    case _ => true
  }

  ghost predicate PlainOps(ops: seq<StoreOp>) { forall i :: 0 <= i < |ops| ==> PlainOp(ops[i]) }

  lemma {:induction false} PutKeepsSet(m: Records<bool>, s: set<TcertId>, id: TcertId)
    requires SameSet(m, s) && id != PROTO_NAME
    ensures SameSet(Put(m, id, true), s + {id})
  {
    PutLaws(m, id, true);
  }

  lemma {:induction false} DropKeepsSet(m: Records<bool>, s: set<TcertId>, id: TcertId)
    requires SameSet(m, s)
    ensures SameSet(Drop(m, id), s - {id})
  {
    DropLaws(m, id);
  }

  lemma {:induction false} PutKeepsMap<T>(m: Records<T>, s: map<string, T>, k: string, v: T)
    requires SameMap(m, s) && k != PROTO_NAME
    ensures SameMap(Put(m, k, v), s[k := v])
  {
    PutLaws(m, k, v);
  }

  lemma {:induction false} DropKeepsMap<T>(m: Records<T>, s: map<string, T>, k: string)
    requires SameMap(m, s)
    ensures SameMap(Drop(m, k), s - {k})
  {
    DropLaws(m, k);
  }

  lemma {:induction false} AttestationStepRefines(f: TrustFiles, t: TrustState, a: Attestation)
    requires SameAttestations(f, t) && BarFree(a.target) && BarFree(a.caTcertId)
    ensures SameAttestations(f.(attestations := AddRecord(f.attestations, a)), WithAttestation(t, a))
  {
    AddRecordFiled(f.attestations, a);
    forall id ensures FileAttestations(AddRecord(f.attestations, a), id) == AttestationsOf(WithAttestation(t, a), id) {
      AddRecordRefines(f.attestations, a, id);
    }
  }

  lemma {:induction false} TrustStepRefines(f: TrustFiles, t: TrustState, op: StoreOp)
    requires TrustRefines(f, t) && PlainOp(op)
    ensures TrustRefines(TrustOnFiles(f, op), TrustInMemory(t, op))
  {
    match op
    case AddPinned(id) => PutKeepsSet(f.pinned, t.pinned, id);
    case RemovePinned(id) => DropKeepsSet(f.pinned, t.pinned, id);
    case AddCa(id) => PutKeepsSet(f.cas, t.cas, id);
    case RemoveCa(id) => DropKeepsSet(f.cas, t.cas, id);
    case AddDistrust(id) => PutKeepsSet(f.distrusted, t.distrusted, id);
    case RemoveDistrust(id) => DropKeepsSet(f.distrusted, t.distrusted, id);
    case AddAttestation(a) => AttestationStepRefines(f, t, a);
    case Reopen =>
      ObjectKeepsSet(f.pinned, t.pinned);
      ObjectKeepsSet(f.cas, t.cas);
      ObjectKeepsSet(f.distrusted, t.distrusted);
      ObjectKeepsFiled(f.attestations);
    case _ =>
  }

  lemma {:induction false} HistoryStepRefines(f: RevocationFiles, r: RevocationState, s: SdocStatement)
    requires f.statements == FiledHistory(r.history)
    ensures Put(f.statements, HistoryKey(s), s) == FiledHistory(r.history + [s])
  {
    assert (r.history + [s])[..|r.history|] == r.history;
  }

  lemma {:induction false} RevocationStepRefines(f: RevocationFiles, r: RevocationState, op: StoreOp)
    requires RevocationsRefine(f, r) && PlainOp(op)
    ensures RevocationsRefine(RevocationsOnFiles(f, op), RevocationsInMemory(r, op))
  {
    match op
    case AddRevokedTcert(id, e) =>
      PutKeepsMap(f.tcerts, r.tcerts, id, AddedRevocation(FoundList(f.tcerts, id), e));
    case AddRevokedKey(k, e) => PutKeepsMap(f.keys, r.keys, k, e);
    case AddRevokedAttestation(t, c, e) =>
      assert PairKey(t, c)[|t|] == '|';
      BarredName(PairKey(t, c));
      PutKeepsMap(f.attestations, r.attestations, PairKey(t, c), e);
    case AddBlockedSdoc(d, b) =>
      PutKeepsMap(f.blocked, r.blocked, d, b);
      HistoryStepRefines(f, r, SdocStatement(d, b, true));
    case RemoveBlockedSdoc(d, b) =>
      DropKeepsMap(f.blocked, r.blocked, d);
      HistoryStepRefines(f, r, SdocStatement(d, b, false));
    case Reopen =>
      ObjectKeepsMap(f.tcerts, r.tcerts);
      ObjectKeepsMap(f.keys, r.keys);
      ObjectKeepsMap(f.attestations, r.attestations);
      ObjectKeepsMap(f.blocked, r.blocked);
      ObjectKeepsHistory(r.history);
    case _ =>
  }

  function NoTrustFiles(): TrustFiles { TrustFiles([], [], [], []) }

  function NoTrust(): TrustState { TrustState({}, {}, {}, map[]) }

  function NoRevocationFiles(): RevocationFiles { RevocationFiles([], [], [], [], []) }

  function NoRevocations(): RevocationState { RevocationState(map[], map[], map[], map[], []) }

  function TrustFilesAfter(f: TrustFiles, ops: seq<StoreOp>): TrustFiles
  {
    if ops == [] then f else TrustOnFiles(TrustFilesAfter(f, ops[..|ops| - 1]), ops[|ops| - 1])
  }

  function TrustMemoryAfter(t: TrustState, ops: seq<StoreOp>): TrustState
  {
    if ops == [] then t else TrustInMemory(TrustMemoryAfter(t, ops[..|ops| - 1]), ops[|ops| - 1])
  }

  function RevocationFilesAfter(f: RevocationFiles, ops: seq<StoreOp>): RevocationFiles
  {
    if ops == [] then f else RevocationsOnFiles(RevocationFilesAfter(f, ops[..|ops| - 1]), ops[|ops| - 1])
  }

  function RevocationMemoryAfter(r: RevocationState, ops: seq<StoreOp>): RevocationState
  {
    if ops == [] then r else RevocationsInMemory(RevocationMemoryAfter(r, ops[..|ops| - 1]), ops[|ops| - 1])
  }

  lemma {:induction false} TrustRunRefines(f: TrustFiles, t: TrustState, ops: seq<StoreOp>)
    requires TrustRefines(f, t) && PlainOps(ops)
    ensures TrustRefines(TrustFilesAfter(f, ops), TrustMemoryAfter(t, ops))
    decreases |ops|
  {
    if ops == [] {
    } else {
      var before := ops[..|ops| - 1];
      TrustRunRefines(f, t, before);
      TrustStepRefines(TrustFilesAfter(f, before), TrustMemoryAfter(t, before), ops[|ops| - 1]);
    }
  }

  lemma {:induction false} RevocationRunRefines(f: RevocationFiles, r: RevocationState, ops: seq<StoreOp>)
    requires RevocationsRefine(f, r) && PlainOps(ops)
    ensures RevocationsRefine(RevocationFilesAfter(f, ops), RevocationMemoryAfter(r, ops))
    decreases |ops|
  {
    if ops == [] {
    } else {
      var before := ops[..|ops| - 1];
      RevocationRunRefines(f, r, before);
      RevocationStepRefines(RevocationFilesAfter(f, before), RevocationMemoryAfter(r, before), ops[|ops| - 1]);
    }
  }

  /**
   * From empty stores, after any operations and reopenings, both trust stores answer every query alike:
   * pinned, CA, distrusted, and the attestations of each target in the same order.
   */
  lemma {:induction false} TrustStoresAgree(ops: seq<StoreOp>, id: TcertId)
    requires PlainOps(ops)
    ensures var f := TrustFilesAfter(NoTrustFiles(), ops);
      var t := TrustMemoryAfter(NoTrust(), ops);
      && (Has(f.pinned, id) <==> id in t.pinned)
      && (Has(f.cas, id) <==> id in t.cas)
      && (Has(f.distrusted, id) <==> id in t.distrusted)
      && FileAttestations(f.attestations, id) == AttestationsOf(t, id)
  {
    TrustRunRefines(NoTrustFiles(), NoTrust(), ops);
  }

  /**
   * Likewise the revocation stores: entries of a TCert, keys, withdrawn attestations and blocked documents;
   * of the history the file keeps the latest statement of each document, time and action.
   */
  lemma {:induction false} RevocationStoresAgree(ops: seq<StoreOp>, id: string)
    requires PlainOps(ops)
    ensures var f := RevocationFilesAfter(NoRevocationFiles(), ops);
      var r := RevocationMemoryAfter(NoRevocations(), ops);
      && FoundList(f.tcerts, id) == RevocationsOf(r, id)
      && WorstOf(FoundList(f.tcerts, id)) == EffectiveRevocation(r, id)
      && Find(f.keys, id) == (if id in r.keys then Some(r.keys[id]) else None)
      && Find(f.attestations, id) == (if id in r.attestations then Some(r.attestations[id]) else None)
      && Find(f.blocked, id) == (if id in r.blocked then Some(r.blocked[id]) else None)
      && Find(f.statements, id) == LatestStatement(r.history, id)
  {
    RevocationRunRefines(NoRevocationFiles(), NoRevocations(), ops);
    FiledHistoryIsLatest(RevocationMemoryAfter(NoRevocations(), ops).history, id);
  }

  /* ------------------------------------ replay ---------------------------------- */

  method OpenTrust() returns (store: FileTrustStore)
    ensures fresh(store) && fresh(store.Stores()) && fresh(store.Files())
    ensures store.Valid() && store.State() == NoTrustFiles()
  {
    var pinned := new File<bool>();
    var cas := new File<bool>();
    var distrusted := new File<bool>();
    var attestations := new File<Attestation>();
    store := new FileTrustStore(pinned, cas, distrusted, attestations);
  }

  /** Carry out the operations on a store over new files, going on with the reopened store at each reopening. */
  method ReplayTrust(ops: seq<StoreOp>) returns (store: FileTrustStore)
    ensures fresh(store) && fresh(store.Stores()) && fresh(store.Files())
    ensures store.Valid() && store.State() == TrustFilesAfter(NoTrustFiles(), ops)
    decreases |ops|
  {
    if ops == [] {
      store := OpenTrust();
    } else {
      var before, last := ops[..|ops| - 1], ops[|ops| - 1];
      var first := ReplayTrust(before);
      store := first.Step(last);
    }
  }

  method OpenRevocations() returns (store: FileRevocationStore)
    ensures fresh(store) && fresh(store.Stores()) && fresh(store.Files())
    ensures store.Valid() && store.State() == NoRevocationFiles()
  {
    var tcerts := new File<seq<RevocationEntry>>();
    var keys := new File<RevocationEntry>();
    var attestations := new File<RevocationEntry>();
    var blocked := new File<BlockEntry>();
    var statements := new File<SdocStatement>();
    store := new FileRevocationStore(tcerts, keys, attestations, blocked, statements);
  }

  method ReplayRevocations(ops: seq<StoreOp>) returns (store: FileRevocationStore)
    ensures fresh(store) && fresh(store.Stores()) && fresh(store.Files())
    ensures store.Valid() && store.State() == RevocationFilesAfter(NoRevocationFiles(), ops)
    decreases |ops|
  {
    if ops == [] {
      store := OpenRevocations();
    } else {
      var before, last := ops[..|ops| - 1], ops[|ops| - 1];
      var first := ReplayRevocations(before);
      store := first.Step(last);
    }
  }

  /** After any operations and reopenings the file store answers what the in-memory store would. */
  method TrustAnswers(ops: seq<StoreOp>, id: TcertId)
    returns (isPinned: bool, isCa: bool, isDistrusted: bool, attestations: seq<Attestation>)
    requires PlainOps(ops)
    ensures var t := TrustMemoryAfter(NoTrust(), ops);
      && (isPinned <==> id in t.pinned) && (isCa <==> id in t.cas) && (isDistrusted <==> id in t.distrusted)
      && attestations == AttestationsOf(t, id)
  {
    var store := ReplayTrust(ops);
    TrustStoresAgree(ops, id);
    isPinned := store.IsPinned(id);
    isCa := store.IsCa(id);
    isDistrusted := store.IsDistrusted(id);
    attestations := store.GetAttestations(id);
  }

  method RevocationAnswers(ops: seq<StoreOp>, id: string, ca: TcertId)
    returns (tcert: Option<RevocationEntry>, key: Option<RevocationEntry>, withdrawn: Option<RevocationEntry>,
             blocked: Option<BlockEntry>)
    requires PlainOps(ops)
    ensures var r := RevocationMemoryAfter(NoRevocations(), ops);
      && tcert == EffectiveRevocation(r, id)
      && key == (if id in r.keys then Some(r.keys[id]) else None)
      && withdrawn == (if PairKey(id, ca) in r.attestations then Some(r.attestations[PairKey(id, ca)]) else None)
      && blocked == (if id in r.blocked then Some(r.blocked[id]) else None)
  {
    var store := ReplayRevocations(ops);
    RevocationStoresAgree(ops, id);
    RevocationStoresAgree(ops, PairKey(id, ca));
    tcert := store.GetRevokedTcert(id);
    key := store.GetRevokedKey(id);
    withdrawn := store.GetRevokedAttestation(id, ca);
    blocked := store.GetBlockedSdoc(id);
  }

  /* ------------------------------------- limit ---------------------------------- */

  predicate About(a: Attestation, target: TcertId, ca: TcertId) { a.target == target && a.caTcertId == ca }

  /** Both stores list the same attestations of a target after two were added to them. */
  predicate AgreeOnPair(a: Attestation, b: Attestation, target: TcertId)
  {
    FileAttestations(AddRecord(AddRecord([], a), b), target)
    == AttestationsOf(WithAttestation(WithAttestation(NoTrust(), a), b), target)
  }

  /** One record alone, as it is filed. */
  lemma {:induction false} OneRecord(a: Attestation)
    ensures AddRecord([], a) == [(AttestationKey(a), a)]
    ensures MatchingKey(AddRecord([], a), a.target, a.caTcertId)
         == if BarFree(a.target) && BarFree(a.caTcertId) then Some(AttestationKey(a)) else None
    ensures FileAttestations(AddRecord([], a), a.target) == if BarFree(a.target) then [a] else []
  {
    KeyFindsItself(a);
    var m := AddRecord([], a);
    assert m[1..] == [];
    FirstPartOf(a.target, a.caTcertId + "|" + IntString(a.issuedAt));
    assert AttestationKey(a) == a.target + "|" + (a.caTcertId + "|" + IntString(a.issuedAt));
  }

  /** With a bar in either id, a second attestation of the pair is filed beside the first one of another date. */
  lemma {:induction false} TwoRecords(a: Attestation, b: Attestation)
    requires a.target == b.target && a.caTcertId == b.caTcertId && AttestationKey(a) != AttestationKey(b)
    requires !(BarFree(a.target) && BarFree(a.caTcertId))
    ensures FileAttestations(AddRecord(AddRecord([], a), b), a.target) == if BarFree(a.target) then [a, b] else []
  {
    OneRecord(a);
    OneRecord(b);
    var p, q := (AttestationKey(a), a), (AttestationKey(b), b);
    var m := AddRecord(AddRecord([], a), b);
    assert [p][1..] == [];
    assert m == [p, q] && m[1..] == [q] && [q][1..] == [];
  }

  lemma {:induction false} MemoryKeepsLatest(a: Attestation, b: Attestation)
    requires a.target == b.target && a.caTcertId == b.caTcertId
    ensures AttestationsOf(WithAttestation(WithAttestation(NoTrust(), a), b), a.target) == [b]
  {
  }

  lemma {:induction false} BarFreePairAgrees(a: Attestation, b: Attestation, target: TcertId)
    requires BarFree(a.target) && BarFree(a.caTcertId) && BarFree(b.target) && BarFree(b.caTcertId)
    ensures AgreeOnPair(a, b, target)
  {
    AttestationStepRefines(NoTrustFiles(), NoTrust(), a);
    AttestationStepRefines(NoTrustFiles().(attestations := AddRecord([], a)), WithAttestation(NoTrust(), a), b);
  }

  lemma {:induction false} DatesDiffer(target: TcertId, ca: TcertId)
    ensures target + "|" + ca + "|" + IntString(1) != target + "|" + ca + "|" + IntString(2)
  {
    var front := target + "|" + ca + "|";
    assert IntString(1) == "1" && IntString(2) == "2";
    assert (front + "1")[|front|] == '1' && (front + "2")[|front|] == '2';
  }

  /**
   * The exact limit of the agreement: the two stores list the same attestations after every two of a
   * target by a CA if and only if neither id contains a bar. Key ids in hexadecimal never do, so only a
   * direct call of a store can bring in an id that does.
   */
  lemma {:induction false} BarsBreakTheFileStore(target: TcertId, ca: TcertId)
    ensures (forall a, b :: About(a, target, ca) && About(b, target, ca) ==> AgreeOnPair(a, b, target))
      <==> BarFree(target) && BarFree(ca)
  {
    if BarFree(target) && BarFree(ca) {
      forall a, b | About(a, target, ca) && About(b, target, ca) ensures AgreeOnPair(a, b, target) {
        BarFreePairAgrees(a, b, target);
      }
    } else {
      var a := Attestation(target, "", ca, "", None, 1, []);
      var b := Attestation(target, "", ca, "", None, 2, []);
      DatesDiffer(target, ca);
      TwoRecords(a, b);
      MemoryKeepsLatest(a, b);
      assert About(a, target, ca) && About(b, target, ca) && !AgreeOnPair(a, b, target);
    }
  }

  /**
   * The other limit: a TCert that is pinned is still pinned after the files are opened again if and only
   * if its id is not `__proto__`, whatever its id is otherwise.
   */
  lemma {:induction false} ProtoBreaksTheFileStore(id: TcertId)
    ensures var ops := [AddPinned(id), Reopen];
      id in TrustMemoryAfter(NoTrust(), ops).pinned
      && (Has(TrustFilesAfter(NoTrustFiles(), ops).pinned, id) <==> id != PROTO_NAME)
  {
    var ops := [AddPinned(id), Reopen];
    var pin := [AddPinned(id)];
    assert ops[..1] == pin && pin[..0] == [];
    var m := TrustFilesAfter(NoTrustFiles(), pin).pinned;
    var none: Records<bool> := [];
    assert TrustFilesAfter(NoTrustFiles(), pin) == TrustOnFiles(NoTrustFiles(), AddPinned(id));
    assert Put(none, id, true) == [(id, true)];
    FindInObject(m);
    assert TrustFilesAfter(NoTrustFiles(), ops).pinned == AsObject(m);
  }
}
