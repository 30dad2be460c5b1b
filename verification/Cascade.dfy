/** Deleting a TCert on the device, together with what depends on it alone. */
module Cascade {
  import opened Bytes
  import opened FileStores
  import opened Ids
  import opened ServiceState

  /* ------------------------------------ lists ----------------------------------- */

  function Filter<T>(xs: seq<T>, keep: T -> bool): seq<T>
  {
    if xs == [] then [] else (if keep(xs[0]) then [xs[0]] else []) + Filter(xs[1..], keep)
  }

  lemma {:induction false} FilterMembers<T(!new)>(xs: seq<T>, keep: T -> bool)
    ensures forall x :: x in Filter(xs, keep) <==> x in xs && keep(x)
  {
    if xs == [] {
    } else {
      assert xs == [xs[0]] + xs[1..];
      FilterMembers(xs[1..], keep);
    }
  }

  lemma {:induction false} FilterPrefix<T(!new)>(xs: seq<T>, keep: T -> bool, i: nat)
    requires i < |xs|
    ensures Filter(xs[..i + 1], keep) == Filter(xs[..i], keep) + (if keep(xs[i]) then [xs[i]] else [])
  {
    FilterAppend(xs[..i], xs[i], keep);
    assert xs[..i] + [xs[i]] == xs[..i + 1];
  }

  lemma {:induction false} FilterAppend<T(!new)>(xs: seq<T>, x: T, keep: T -> bool)
    ensures Filter(xs + [x], keep) == Filter(xs, keep) + (if keep(x) then [x] else [])
  {
    if xs == [] {
      assert xs + [x] == [x] && [x][1..] == [];
    } else {
      FilterAppend(xs[1..], x, keep);
      assert (xs + [x])[1..] == xs[1..] + [x];
    }
  }

  /** `Array.prototype.filter`. */
  method FilterList<T(!new)>(xs: seq<T>, keep: T -> bool) returns (r: seq<T>)
    ensures r == Filter(xs, keep)
  {
    r := [];
    for i := 0 to |xs|
      invariant r == Filter(xs[..i], keep)
    {
      FilterPrefix(xs, keep, i);
      if keep(xs[i]) {
        r := r + [xs[i]];
      }
    }
    assert xs[..|xs|] == xs;
  }

  lemma {:induction false} FilterAll<T(!new)>(xs: seq<T>, keep: T -> bool)
    requires forall x :: x in xs ==> keep(x)
    ensures Filter(xs, keep) == xs
  {
    if xs == [] {
    } else {
      assert xs == [xs[0]] + xs[1..];
      FilterAll(xs[1..], keep);
    }
  }

  lemma {:induction false} FilterTwice<T(!new)>(xs: seq<T>, p: T -> bool, q: T -> bool)
    requires forall x :: x in xs && p(x) ==> q(x)
    ensures Filter(Filter(xs, p), q) == Filter(xs, p)
  {
    FilterMembers(xs, p);
    FilterAll(Filter(xs, p), q);
  }

  /** Each id once, in the order of its first occurrence. */
  function Distinct(xs: seq<TcertId>): (r: seq<TcertId>)
    ensures forall x :: x in r <==> x in xs
  {
    if xs == [] then []
    else
      var n := |xs| - 1;
      assert xs == xs[..n] + [xs[n]];
      if xs[n] in xs[..n] then Distinct(xs[..n]) else Distinct(xs[..n]) + [xs[n]]
  }

  function Restrict<T>(m: map<string, T>, keep: (string, T) -> bool): map<string, T>
  {
    map k | k in m && keep(k, m[k]) :: m[k]
  }

  /** A loop over the entries of a record that deletes some of them. */
  method DeleteEntries<T>(m: map<string, T>, keep: (string, T) -> bool) returns (r: map<string, T>)
    ensures r == Restrict(m, keep)
  {
    r := m;
    var todo := m.Keys;
    while todo != {}
      invariant todo <= m.Keys && forall k :: k in r <==> k in m && (k in todo || keep(k, m[k]))
      invariant forall k :: k in r ==> r[k] == m[k]
      decreases |todo|
    {
      var k :| k in todo;
      todo := todo - {k};
      if !keep(k, m[k]) {
        r := r - {k};
      }
    }
  }

  /* ------------------------------------ storage --------------------------------- */

  /** What the app persists. */
  datatype AppState = AppState(
    attestations: seq<Attestation>,
    pinned: seq<TcertId>,
    cas: seq<TcertId>,
    distrusted: seq<TcertId>,
    archived: seq<TcertId>,
    certificates: seq<Cert>,
    revokedTcerts: map<TcertId, seq<RevocationEntry>>,
    revokedKeys: map<KeyId, RevocationEntry>,
    revokedAttestations: map<string, RevocationEntry>,
    blocked: map<string, BlockEntry>,
    statements: seq<SdocStatement>)

  function LastIndexOf(s: string, c: char): (i: int)
    ensures -1 <= i < |s|
  {
    if s == [] then -1 else if s[|s| - 1] == c then |s| - 1 else LastIndexOf(s[..|s| - 1], c)
  }

  /** `tcertId.slice(0, tcertId.lastIndexOf(':'))`; without a colon the last character is cut off. */
  function KeyPart(id: TcertId): KeyId
  {
    var i := LastIndexOf(id, ':');
    if i >= 0 then id[..i] else if id == "" then "" else id[..|id| - 1]
  }

  /** Signed by the deleted TCert, or by its key when no TCert is recorded. */
  predicate SignedBy(id: TcertId, byKeyId: Option<KeyId>, byTcertId: Option<TcertId>)
  {
    byTcertId == Some(id) || ((byTcertId.None? || byTcertId.value == "") && byKeyId == Some(KeyPart(id)))
  }

  predicate Foreign(id: TcertId, e: RevocationEntry) { !SignedBy(id, e.byKeyId, e.byTcertId) }

  predicate ForeignBlock(id: TcertId, e: BlockEntry) { !SignedBy(id, e.byKeyId, e.byTcertId) }

  /* ------------------------------------ cascade --------------------------------- */

  function Attested(s: AppState, id: TcertId): seq<TcertId>
  {
    var issued := Filter(s.attestations, (a: Attestation) => a.caTcertId == id);
    seq(|issued|, i requires 0 <= i < |issued| => issued[i].target)
  }

  /** Another TCert attests the target. */
  predicate AttestedByOther(s: AppState, id: TcertId, target: TcertId)
  {
    exists i :: 0 <= i < |s.attestations| && s.attestations[i].caTcertId != id && s.attestations[i].target == target
  }

  predicate Unsupported(s: AppState, id: TcertId, target: TcertId)
  {
    target !in s.pinned && !AttestedByOther(s, id, target)
  }

  function Orphans(s: AppState, id: TcertId): seq<TcertId>
  {
    Filter(Distinct(Attested(s, id)), (t: TcertId) => Unsupported(s, id, t))
  }

  function RemovedIds(s: AppState, id: TcertId): seq<TcertId> { [id] + Orphans(s, id) }

  function KeptRevocations(m: map<TcertId, seq<RevocationEntry>>, id: TcertId,
                           removed: seq<TcertId>): map<TcertId, seq<RevocationEntry>>
  {
    map k | k in m && k !in removed && Filter(m[k], (e: RevocationEntry) => Foreign(id, e)) != []
      :: Filter(m[k], (e: RevocationEntry) => Foreign(id, e))
  }

  /** The CA of a relation key `target|ca`. */
  predicate RelationKept(id: TcertId, removed: seq<TcertId>, relation: string, e: RevocationEntry)
  {
    && !(IndexOf(relation, '|') < |relation| && FirstPart(AfterFirst(relation)) == id)
    && FirstPart(relation) !in removed
    && Foreign(id, e)
  }

  /** The storage after a deletion. */
  function Removed(s: AppState, id: TcertId): AppState { Without(s, id, RemovedIds(s, id)) }

  function Without(s: AppState, id: TcertId, removed: seq<TcertId>): AppState
  {
    var keepId := (x: TcertId) => x !in removed;
    AppState(
      Filter(s.attestations, (a: Attestation) => a.caTcertId != id && a.target !in removed),
      Filter(s.pinned, keepId), Filter(s.cas, keepId), Filter(s.distrusted, keepId), Filter(s.archived, keepId),
      Filter(s.certificates, (c: Cert) => c.id !in removed),
      KeptRevocations(s.revokedTcerts, id, removed),
      Restrict(s.revokedKeys, (k: string, e: RevocationEntry) => Foreign(id, e)),
      Restrict(s.revokedAttestations, (k: string, e: RevocationEntry) => RelationKept(id, removed, k, e)),
      Restrict(s.blocked, (k: string, e: BlockEntry) => ForeignBlock(id, e)),
      Filter(s.statements, (x: SdocStatement) => ForeignBlock(id, x.entry)))
  }

  class AppStorage {
    var state: AppState

    constructor (state: AppState)
      ensures this.state == state
    {
      this.state := state;
    }

    /** The targets the deleted TCert attested, each once. */
    method AttestedTargets(id: TcertId) returns (targets: seq<TcertId>)
      ensures targets == Distinct(Attested(state, id))
    {
      var issued := FilterList(state.attestations, (a: Attestation) => a.caTcertId == id);
      ghost var all := Attested(state, id);
      targets := [];
      for i := 0 to |issued|
        invariant targets == Distinct(all[..i])
      {
        assert all[..i + 1][..i] == all[..i] && all[..i + 1][i] == issued[i].target;
        if issued[i].target !in targets {
          targets := targets + [issued[i].target];
        }
      }
      assert all[..|issued|] == all;
    }

    /** Those of them that nothing else supports. */
    method FindOrphans(id: TcertId) returns (orphans: seq<TcertId>)
      ensures orphans == Orphans(state, id)
    {
      var targets := AttestedTargets(id);
      orphans := SelectUnsupported(id, targets);
    }

    method SelectUnsupported(id: TcertId, targets: seq<TcertId>) returns (alone: seq<TcertId>)
      ensures alone == (var s := state; Filter(targets, (t: TcertId) => Unsupported(s, id, t)))
    {
      ghost var s := state;
      ghost var keep := (t: TcertId) => Unsupported(s, id, t);
      alone := [];
      for i := 0 to |targets|
        invariant alone == Filter(targets[..i], keep)
      {
        FilterPrefix(targets, keep, i);
        var other := AttestedElsewhere(id, targets[i]);
        assert keep(targets[i]) <==> targets[i] !in state.pinned && !other;
        if targets[i] !in state.pinned && !other {
          alone := alone + [targets[i]];
        }
      }
      assert targets[..|targets|] == targets;
    }

    method AttestedElsewhere(id: TcertId, target: TcertId) returns (r: bool)
      ensures r <==> AttestedByOther(state, id, target)
    {
      for i := 0 to |state.attestations|
        invariant forall j :: 0 <= j < i ==>
          !(state.attestations[j].caTcertId != id && state.attestations[j].target == target)
      {
        if state.attestations[i].caTcertId != id && state.attestations[i].target == target {
          return true;
        }
      }
      return false;
    }

    /** `removeTcertCascade`: the stored lists and records are rewritten one after the other. */
    method RemoveTcertCascade(id: TcertId) returns (removed: seq<TcertId>)
      modifies this
      ensures removed == RemovedIds(old(state), id)
      ensures state == Removed(old(state), id)
    {
      var orphans := FindOrphans(id);
      removed := [id] + orphans;
      RemoveFromLists(id, removed);
      RemoveSigned(id, removed);
    }

    /** The attestations and the lists of TCerts. */
    method RemoveFromLists(id: TcertId, gone: seq<TcertId>)
      modifies this
      ensures var s, t := old(state), Without(old(state), id, gone);
        state == s.(attestations := t.attestations, pinned := t.pinned, cas := t.cas, distrusted := t.distrusted,
                    archived := t.archived, certificates := t.certificates)
    {
      var keepId := (x: TcertId) => x !in gone;
      var attestations := FilterList(state.attestations, (a: Attestation) => a.caTcertId != id && a.target !in gone);
      state := state.(attestations := attestations);
      var pinned := FilterList(state.pinned, keepId);
      state := state.(pinned := pinned);
      var cas := FilterList(state.cas, keepId);
      state := state.(cas := cas);
      var distrusted := FilterList(state.distrusted, keepId);
      state := state.(distrusted := distrusted);
      var archived := FilterList(state.archived, keepId);
      state := state.(archived := archived);
      var certificates := FilterList(state.certificates, (c: Cert) => c.id !in gone);
      state := state.(certificates := certificates);
    }

    /** What the deleted TCert signed, and what is about a removed one. */
    method RemoveSigned(id: TcertId, gone: seq<TcertId>)
      modifies this
      ensures var s, t := old(state), Without(old(state), id, gone);
        state == s.(revokedTcerts := t.revokedTcerts, revokedKeys := t.revokedKeys,
                    revokedAttestations := t.revokedAttestations,
                    blocked := t.blocked, statements := t.statements)
    {
      var revokedTcerts := KeepForeign(state.revokedTcerts, id, gone);
      state := state.(revokedTcerts := revokedTcerts);
      var revokedKeys := DeleteEntries(state.revokedKeys, (k: string, e: RevocationEntry) => Foreign(id, e));
      state := state.(revokedKeys := revokedKeys);
      var relations := DeleteEntries(state.revokedAttestations,
                                     (k: string, e: RevocationEntry) => RelationKept(id, gone, k, e));
      state := state.(revokedAttestations := relations);
      var blocked := DeleteEntries(state.blocked, (k: string, e: BlockEntry) => ForeignBlock(id, e));
      state := state.(blocked := blocked);
      var statements := FilterList(state.statements, (x: SdocStatement) => ForeignBlock(id, x.entry));
      state := state.(statements := statements);
    }

    /** Drop the deleted TCert's entries, and the lists that become empty or belong to removed TCerts. */
    method KeepForeign(m: map<TcertId, seq<RevocationEntry>>, id: TcertId, removed: seq<TcertId>)
      returns (r: map<TcertId, seq<RevocationEntry>>)
      ensures r == KeptRevocations(m, id, removed)
    {
      r := m;
      var foreign := (e: RevocationEntry) => Foreign(id, e);
      var todo := m.Keys;
      while todo != {}
        invariant todo <= m.Keys
        invariant forall k :: k in r <==> k in m && (k in todo || (k !in removed && Filter(m[k], foreign) != []))
        invariant forall k :: k in r ==> r[k] == if k in todo then m[k] else Filter(m[k], foreign)
        decreases |todo|
      {
        var k :| k in todo;
        todo := todo - {k};
        var kept := FilterList(m[k], foreign);
        if |kept| > 0 && k !in removed {
          r := r[k := kept];
        } else {
          r := r - {k};
        }
      }
    }
  }

  /* -------------------------------------- laws ---------------------------------- */

  lemma {:induction false} AttestedMembers(s: AppState, id: TcertId, t: TcertId)
    ensures t in Attested(s, id) <==> exists a :: a in s.attestations && a.caTcertId == id && a.target == t
  {
    var byId := (a: Attestation) => a.caTcertId == id;
    var issued := Filter(s.attestations, byId);
    FilterMembers(s.attestations, byId);
    if t in Attested(s, id) {
      var i :| 0 <= i < |issued| && Attested(s, id)[i] == t;
      assert issued[i] in issued;
    }
    if a :| a in s.attestations && a.caTcertId == id && a.target == t {
      assert a in issued;
      var i :| 0 <= i < |issued| && issued[i] == a;
      assert Attested(s, id)[i] == t;
    }
  }

  /** The key of an id is what stands before its last colon; without one, all but the last character. */
  lemma {:induction false} KeyPartMeaning(key: KeyId, rest: string)
    requires ':' !in rest
    ensures KeyPart(key + ":" + rest) == key
    ensures rest != "" ==> KeyPart(rest) == rest[..|rest| - 1]
  {
    LastColon(key, rest);
    assert key + ":" + rest == (key + ":") + rest && (key + ":" + rest)[..|key|] == key;
    NoColon(rest);
  }

  lemma {:induction false} LastColon(key: KeyId, rest: string)
    requires ':' !in rest
    ensures LastIndexOf(key + ":" + rest, ':') == |key|
  {
    var s := key + ":" + rest;
    if rest == "" {
      assert s[|s| - 1] == ':';
    } else {
      var n := |rest| - 1;
      LastColon(key, rest[..n]);
      assert s[..|s| - 1] == key + ":" + rest[..n] && s[|s| - 1] == rest[n];
    }
  }

  lemma {:induction false} NoColon(s: string)
    requires ':' !in s
    ensures LastIndexOf(s, ':') == -1
  {
    if s == "" {
    } else {
      NoColon(s[..|s| - 1]);
    }
  }

  /**
   * Which entries go with a TCert: those recorded under its id, and, of the entries that name no TCert,
   * those of its key.
   */
  lemma {:induction false} ForeignMeaning(key: KeyId, n: int, e: RevocationEntry, b: BlockEntry)
    ensures var id := key + ":" + IntString(n);
      && (!Foreign(id, e)
          <==> e.byTcertId == Some(id) || (e.byTcertId in {None, Some("")} && e.byKeyId == Some(key)))
      && (!ForeignBlock(id, b)
          <==> b.byTcertId == Some(id) || (b.byTcertId in {None, Some("")} && b.byKeyId == Some(key)))
  {
    NumbersHaveNoColon(n);
    KeyPartMeaning(key, IntString(n));
  }

  lemma {:induction false} NumbersHaveNoColon(n: int)
    ensures ':' !in IntString(n)
  {
    if n < 0 {
      DecimalRoundTrip(-n);
      assert IntString(n) == ['-'] + Decimal(-n);
    } else {
      DecimalRoundTrip(n);
    }
  }

  /** Exactly the removed TCerts leave the lists, whose order stays. */
  lemma {:induction false} ListsLeft(s: AppState, id: TcertId)
    ensures var gone, t := RemovedIds(s, id), Removed(s, id);
      && Thinned(s.pinned, t.pinned, (x: TcertId) => x !in gone)
      && Thinned(s.cas, t.cas, (x: TcertId) => x !in gone)
      && Thinned(s.distrusted, t.distrusted, (x: TcertId) => x !in gone)
      && Thinned(s.archived, t.archived, (x: TcertId) => x !in gone)
      && Thinned(s.certificates, t.certificates, (c: Cert) => c.id !in gone)
      && Thinned(s.attestations, t.attestations, (a: Attestation) => a.caTcertId != id && a.target !in gone)
      && Thinned(s.statements, t.statements, (x: SdocStatement) => ForeignBlock(id, x.entry))
  {
    var gone := RemovedIds(s, id);
    FilterThins(s.attestations, (a: Attestation) => a.caTcertId != id && a.target !in gone);
    FilterThins(s.statements, (x: SdocStatement) => ForeignBlock(id, x.entry));
    FilterThins(s.pinned, (x: TcertId) => x !in gone);
    FilterThins(s.cas, (x: TcertId) => x !in gone);
    FilterThins(s.distrusted, (x: TcertId) => x !in gone);
    FilterThins(s.archived, (x: TcertId) => x !in gone);
    FilterThins(s.certificates, (c: Cert) => c.id !in gone);
  }

  /** The elements at the increasing places `at` of `xs`, which are all that are kept, make up `ys`. */
  ghost predicate ThinnedAt<T(!new)>(xs: seq<T>, ys: seq<T>, keep: T -> bool, at: seq<nat>)
  {
    && |at| == |ys| && (forall i, j :: 0 <= i < j < |at| ==> at[i] < at[j])
    && (forall i :: 0 <= i < |at| ==> at[i] < |xs| && ys[i] == xs[at[i]])
    && forall k: nat :: k < |xs| ==> (keep(xs[k]) <==> k in at)
  }

  ghost predicate Thinned<T(!new)>(xs: seq<T>, ys: seq<T>, keep: T -> bool)
  {
    exists at :: ThinnedAt(xs, ys, keep, at)
  }

  /** The deleted TCert comes first, and every orphan once. */
  lemma {:induction false} OrphansOnce(s: AppState, id: TcertId)
    ensures RemovedIds(s, id)[0] == id
    ensures forall i, j :: 1 <= i < j < |RemovedIds(s, id)| ==> RemovedIds(s, id)[i] != RemovedIds(s, id)[j]
  {
    DistinctOnce(Attested(s, id));
    FilterOnce(Distinct(Attested(s, id)), (t: TcertId) => Unsupported(s, id, t));
  }

  lemma {:induction false} FilterOnce<T(!new)>(xs: seq<T>, keep: T -> bool)
    requires forall i, j :: 0 <= i < j < |xs| ==> xs[i] != xs[j]
    ensures forall i, j :: 0 <= i < j < |Filter(xs, keep)| ==> Filter(xs, keep)[i] != Filter(xs, keep)[j]
  {
    if xs == [] {
    } else {
      FilterOnce(xs[1..], keep);
      FilterMembers(xs[1..], keep);
      assert xs[0] !in xs[1..];
    }
  }

  lemma {:induction false} DistinctOnce(xs: seq<TcertId>)
    ensures forall i, j :: 0 <= i < j < |Distinct(xs)| ==> Distinct(xs)[i] != Distinct(xs)[j]
  {
    if xs == [] {
    } else {
      DistinctOnce(xs[..|xs| - 1]);
    }
  }

  lemma {:induction false} FilterThins<T(!new)>(xs: seq<T>, keep: T -> bool)
    ensures Thinned(xs, Filter(xs, keep), keep)
  {
    if xs == [] {
      assert ThinnedAt(xs, Filter(xs, keep), keep, []);
    } else {
      var n := |xs| - 1;
      FilterThins(xs[..n], keep);
      FilterPrefix(xs, keep, n);
      assert xs[..n + 1] == xs;
      var at :| ThinnedAt(xs[..n], Filter(xs[..n], keep), keep, at);
      ThinnedStep(xs, Filter(xs[..n], keep), keep, at);
      assert Filter(xs[..n], keep) + [] == Filter(xs[..n], keep);
    }
  }

  lemma {:induction false} ThinnedStep<T(!new)>(xs: seq<T>, ys: seq<T>, keep: T -> bool, at: seq<nat>)
    requires xs != [] && ThinnedAt(xs[..|xs| - 1], ys, keep, at)
    ensures var n := |xs| - 1;
      if keep(xs[n]) then ThinnedAt(xs, ys + [xs[n]], keep, at + [n]) else ThinnedAt(xs, ys, keep, at)
  {
    var n := |xs| - 1;
    var more := if keep(xs[n]) then at + [n] else at;
    assert n !in at by {
      assert forall i :: 0 <= i < |at| ==> at[i] < |xs[..n]|;
    }
    forall k: nat | k < |xs| ensures keep(xs[k]) <==> k in more {
      if k < n {
        assert xs[..n][k] == xs[k];
        assert k in more <==> k in at;
      }
    }
  }

  /** Exactly the deleted TCert, and the unpinned targets that only it attested, are removed. */
  lemma {:induction false} RemovedExactly(s: AppState, id: TcertId, t: TcertId)
    ensures t in RemovedIds(s, id)
      <==> t == id
           || ((exists a :: a in s.attestations && a.caTcertId == id && a.target == t)
               && t !in s.pinned && forall a :: a in s.attestations && a.target == t ==> a.caTcertId == id)
  {
    AttestedMembers(s, id, t);
    FilterMembers(Distinct(Attested(s, id)), (x: TcertId) => Unsupported(s, id, x));
    if AttestedByOther(s, id, t) {
      var i :| 0 <= i < |s.attestations| && s.attestations[i].caTcertId != id && s.attestations[i].target == t;
      assert s.attestations[i] in s.attestations;
    }
  }

  /** No attestation is left that the deleted TCert issued or that is about a removed TCert; no other one is lost. */
  lemma {:induction false} AttestationsLeft(s: AppState, id: TcertId, a: Attestation)
    ensures a in Removed(s, id).attestations
      <==> a in s.attestations && a.caTcertId != id && a.target !in RemovedIds(s, id)
  {
    var removed := RemovedIds(s, id);
    FilterMembers(s.attestations, (x: Attestation) => x.caTcertId != id && x.target !in removed);
  }

  /** No pinned TCert but the deleted one is removed: every list holds it afterwards exactly when it did before. */
  lemma {:induction false} PinnedSurvive(s: AppState, id: TcertId, t: TcertId)
    requires t in s.pinned && t != id
    ensures t !in RemovedIds(s, id) && t in Removed(s, id).pinned
    ensures forall c: Cert :: c.id == t ==> (c in Removed(s, id).certificates <==> c in s.certificates)
    ensures t in Removed(s, id).cas <==> t in s.cas
    ensures t in Removed(s, id).distrusted <==> t in s.distrusted
    ensures t in Removed(s, id).archived <==> t in s.archived
  {
    RemovedExactly(s, id, t);
    var removed := RemovedIds(s, id);
    var keepId := (x: TcertId) => x !in removed;
    FilterMembers(s.pinned, keepId);
    FilterMembers(s.cas, keepId);
    FilterMembers(s.distrusted, keepId);
    FilterMembers(s.archived, keepId);
    FilterMembers(s.certificates, (c: Cert) => c.id !in removed);
  }

  /** A target of the deleted TCert that survives is pinned, or attested by another CA, also afterwards. */
  lemma {:induction false} SurvivorsAreSupported(s: AppState, id: TcertId, a: Attestation)
    requires a in s.attestations && a.caTcertId == id && a.target !in RemovedIds(s, id)
    ensures a.target in Removed(s, id).pinned
         || exists b :: b in Removed(s, id).attestations && b.target == a.target && b.caTcertId != id
  {
    RemovedExactly(s, id, a.target);
    var removed := RemovedIds(s, id);
    FilterMembers(s.pinned, (x: TcertId) => x !in removed);
    if a.target !in s.pinned {
      var b :| b in s.attestations && b.target == a.target && b.caTcertId != id;
      AttestationsLeft(s, id, b);
    }
  }

  /** The entries about a TCert afterwards are those of other signers, and there are none about a removed one. */
  lemma {:induction false} RevocationsLeft(s: AppState, id: TcertId, t: TcertId, e: RevocationEntry)
    ensures (t in Removed(s, id).revokedTcerts && e in Removed(s, id).revokedTcerts[t])
      <==> t in s.revokedTcerts && e in s.revokedTcerts[t] && t !in RemovedIds(s, id) && Foreign(id, e)
    ensures t in Removed(s, id).revokedTcerts ==> Removed(s, id).revokedTcerts[t] != []
    ensures t in Removed(s, id).revokedTcerts ==>
      t in s.revokedTcerts
      && Thinned(s.revokedTcerts[t], Removed(s, id).revokedTcerts[t], (x: RevocationEntry) => Foreign(id, x))
  {
    if t in s.revokedTcerts {
      FilterThins(s.revokedTcerts[t], (x: RevocationEntry) => Foreign(id, x));
      FilterMembers(s.revokedTcerts[t], (x: RevocationEntry) => Foreign(id, x));
    }
  }

  /**
   * Of what was signed about keys and documents exactly the part of other signers stays, with the history
   * of documents in its order; a list of entries about a surviving TCert that are all of other signers
   * stays as it is.
   */
  lemma {:induction false} OthersUntouched(s: AppState, id: TcertId, t: string, x: SdocStatement)
    ensures t in Removed(s, id).blocked <==> t in s.blocked && ForeignBlock(id, s.blocked[t])
    ensures t in Removed(s, id).blocked ==> Removed(s, id).blocked[t] == s.blocked[t]
    ensures t in Removed(s, id).revokedKeys <==> t in s.revokedKeys && Foreign(id, s.revokedKeys[t])
    ensures t in Removed(s, id).revokedKeys ==> Removed(s, id).revokedKeys[t] == s.revokedKeys[t]
    ensures x in Removed(s, id).statements <==> x in s.statements && ForeignBlock(id, x.entry)
    ensures (forall y :: y in s.statements ==> ForeignBlock(id, y.entry)) ==> Removed(s, id).statements == s.statements
    ensures t in s.revokedTcerts && t !in RemovedIds(s, id) && s.revokedTcerts[t] != []
            && (forall e :: e in s.revokedTcerts[t] ==> Foreign(id, e)) ==>
      t in Removed(s, id).revokedTcerts && Removed(s, id).revokedTcerts[t] == s.revokedTcerts[t]
  {
    var foreign := (y: SdocStatement) => ForeignBlock(id, y.entry);
    FilterMembers(s.statements, foreign);
    if forall y :: y in s.statements ==> ForeignBlock(id, y.entry) {
      FilterAll(s.statements, foreign);
    }
    if t in s.revokedTcerts && forall e :: e in s.revokedTcerts[t] ==> Foreign(id, e) {
      FilterAll(s.revokedTcerts[t], (e: RevocationEntry) => Foreign(id, e));
    }
  }

  /** A withdrawal of another CA about a surviving target stays; bars in ids would split the relation elsewhere. */
  lemma {:induction false} OtherWithdrawalsUntouched(s: AppState, id: TcertId, target: TcertId, ca: TcertId)
    requires '|' !in target && '|' !in ca && PairKey(target, ca) in s.revokedAttestations
    ensures PairKey(target, ca) in Removed(s, id).revokedAttestations
      <==> ca != id && target !in RemovedIds(s, id) && Foreign(id, s.revokedAttestations[PairKey(target, ca)])
  {
    FirstPartOf(target, ca);
    assert PairKey(target, ca) == target + "|" + ca;
    NoBarIsWhole(ca);
  }

  lemma {:induction false} NoBarIsWhole(s: string)
    requires '|' !in s
    ensures IndexOf(s, '|') == |s| && FirstPart(s) == s
  {
  }

  /** Running the deletion again changes nothing. */
  lemma {:induction false} CascadeTwice(s: AppState, id: TcertId)
    ensures RemovedIds(Removed(s, id), id) == [id]
    ensures Removed(Removed(s, id), id) == Removed(s, id)
  {
    NothingIssued(s, id);
    WithoutTwice(s, id, RemovedIds(s, id));
  }

  lemma {:induction false} WithoutTwice(s: AppState, id: TcertId, removed: seq<TcertId>)
    requires id in removed
    ensures Without(Without(s, id, removed), id, [id]) == Without(s, id, removed)
  {
    ListsTwice(s, id, removed);
    MapsTwice(s, id, removed);
  }

  lemma {:induction false} NothingIssued(s: AppState, id: TcertId)
    ensures Attested(Removed(s, id), id) == [] && Orphans(Removed(s, id), id) == []
  {
    var t := Removed(s, id);
    var removed := RemovedIds(s, id);
    FilterMembers(s.attestations, (x: Attestation) => x.caTcertId != id && x.target !in removed);
    if Attested(t, id) != [] {
      AttestedMembers(t, id, Attested(t, id)[0]);
    }
  }

  lemma {:induction false} ListsTwice(s: AppState, id: TcertId, removed: seq<TcertId>)
    requires id in removed
    ensures var t := Without(s, id, removed);
      var keepId := (x: TcertId) => x !in [id];
      && Filter(t.attestations, (a: Attestation) => a.caTcertId != id && a.target !in [id]) == t.attestations
      && Filter(t.pinned, keepId) == t.pinned && Filter(t.cas, keepId) == t.cas
      && Filter(t.distrusted, keepId) == t.distrusted && Filter(t.archived, keepId) == t.archived
      && Filter(t.certificates, (c: Cert) => c.id !in [id]) == t.certificates
      && Filter(t.statements, (x: SdocStatement) => ForeignBlock(id, x.entry)) == t.statements
  {
    var t := Without(s, id, removed);
    var keepId := (x: TcertId) => x !in [id];
    var kept := (x: TcertId) => x !in removed;
    FilterMembers(s.attestations, (a: Attestation) => a.caTcertId != id && a.target !in removed);
    FilterMembers(s.pinned, kept);
    FilterMembers(s.cas, kept);
    FilterMembers(s.distrusted, kept);
    FilterMembers(s.archived, kept);
    FilterMembers(s.certificates, (c: Cert) => c.id !in removed);
    FilterMembers(s.statements, (x: SdocStatement) => ForeignBlock(id, x.entry));
    FilterAll(t.attestations, (a: Attestation) => a.caTcertId != id && a.target !in [id]);
    FilterAll(t.pinned, keepId);
    FilterAll(t.cas, keepId);
    FilterAll(t.distrusted, keepId);
    FilterAll(t.archived, keepId);
    FilterAll(t.certificates, (c: Cert) => c.id !in [id]);
    FilterAll(t.statements, (x: SdocStatement) => ForeignBlock(id, x.entry));
  }

  lemma {:induction false} MapsTwice(s: AppState, id: TcertId, removed: seq<TcertId>)
    requires id in removed
    ensures var m := KeptRevocations(s.revokedTcerts, id, removed); KeptRevocations(m, id, [id]) == m
    ensures var r := Restrict(s.revokedAttestations,
                              (k: string, e: RevocationEntry) => RelationKept(id, removed, k, e));
      Restrict(r, (k: string, e: RevocationEntry) => RelationKept(id, [id], k, e)) == r
  {
    var foreign := (e: RevocationEntry) => Foreign(id, e);
    var m := KeptRevocations(s.revokedTcerts, id, removed);
    forall k | k in m ensures Filter(m[k], foreign) == m[k] {
      FilterTwice(s.revokedTcerts[k], foreign, foreign);
    }
  }

  /** The deletion is one level deep: an attestation issued by an orphan stays when its own target survives. */
  lemma {:induction false} CascadeIsOneLevel(s: AppState, id: TcertId, a: Attestation)
    requires a in s.attestations && a.caTcertId in Orphans(s, id) && a.caTcertId != id
    ensures a in Removed(s, id).attestations <==> a.target !in RemovedIds(s, id)
  {
    AttestationsLeft(s, id, a);
  }
}
