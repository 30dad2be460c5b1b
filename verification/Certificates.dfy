/** Creating TCerts: every TCert of a key gets the least number that is still free. */
module Certificates {
  import opened Bytes
  import opened Ids
  import opened ImportLaws
  import opened MemoryStores
  import opened ServiceState

  /** `tcertId.split(':')[1]`. */
  function SecondPart(id: TcertId): string
  {
    var i := IndexOf(id, ':');
    if i == |id| then "" else var rest := id[i + 1..]; rest[..IndexOf(rest, ':')]
  }

  /** The number an id counts as used; other spellings than digits are not numbers. */
  function NumberIn(id: TcertId): Option<nat> { ParseDecimal(SecondPart(id)) }

  function UsedNumbers(certs: seq<Cert>, keyId: KeyId): set<nat>
  {
    set c | c in CertsOfKey(certs, keyId) && NumberIn(c.id).Some? :: NumberIn(c.id).value
  }

  const LAST_NUMBER := 255

  /** The least number in 1..255 that is not used. */
  ghost predicate LeastFree(used: set<nat>, n: nat)
  {
    1 <= n <= LAST_NUMBER && n !in used && forall m :: 1 <= m < n ==> m in used
  }

  ghost predicate Exhausted(used: set<nat>) { forall m :: 1 <= m <= LAST_NUMBER ==> m in used }

  lemma {:induction false} UsedSoFar(certs: seq<Cert>, i: nat)
    requires i < |certs|
    ensures (set c | c in certs[..i + 1] && NumberIn(c.id).Some? :: NumberIn(c.id).value)
         == (set c | c in certs[..i] && NumberIn(c.id).Some? :: NumberIn(c.id).value)
            + (if NumberIn(certs[i].id).Some? then {NumberIn(certs[i].id).value} else {})
  {
    assert certs[..i + 1] == certs[..i] + [certs[i]];
  }

  class CertificateService {
    const store: InMemoryCertificateStore

    constructor (store: InMemoryCertificateStore)
      ensures this.store == store
    {
      this.store := store;
    }

    method CollectUsed(keyId: KeyId) returns (used: set<nat>)
      ensures used == UsedNumbers(store.certs, keyId)
    {
      var existing := store.FindByKeyId(keyId);
      used := {};
      for i := 0 to |existing|
        invariant used == set c | c in existing[..i] && NumberIn(c.id).Some? :: NumberIn(c.id).value
      {
        UsedSoFar(existing, i);
        var n := NumberIn(existing[i].id);
        if n.Some? {
          used := used + {n.value};
        }
      }
      assert existing[..|existing|] == existing;
    }

    /** 0 when there is no number left. */
    method PickNumber(used: set<nat>) returns (certificateNumber: nat)
      ensures certificateNumber == 0 <==> Exhausted(used)
      ensures certificateNumber != 0 ==> LeastFree(used, certificateNumber)
    {
      certificateNumber := 0;
      var n := 1;
      while n <= LAST_NUMBER
        invariant 1 <= n <= LAST_NUMBER + 1 && certificateNumber == 0
        invariant forall m :: 1 <= m < n ==> m in used
      {
        if n !in used {
          certificateNumber := n;
          break;
        }
        n := n + 1;
      }
    }

    /** `createTcert`; `build` makes the self-signed TCert for the number and checks it. */
    method CreateTcert(keyId: KeyId, build: nat -> Result<bytes>) returns (r: Result<nat>)
      modifies store
      ensures (store.certs, r) == Create(old(store.certs), keyId, build)
    {
      var used := CollectUsed(keyId);
      var n := PickNumber(used);
      if n == 0 {
        NoneFree(used, 1);
        return Err(ValidationError);
      }
      FreeIs(used, 1, n);
      var wire :- build(n);
      store.Save(TcertIdOf(keyId, n), wire);
      return Ok(n);
    }
  }

  /** The first number from `n` on that is not used; 0 when there is none. */
  function FirstFree(used: set<nat>, n: nat): nat
    decreases LAST_NUMBER + 1 - n
  {
    if n > LAST_NUMBER then 0 else if n !in used then n else FirstFree(used, n + 1)
  }

  function Create(certs: seq<Cert>, keyId: KeyId, build: nat -> Result<bytes>): (seq<Cert>, Result<nat>)
  {
    var n := FirstFree(UsedNumbers(certs, keyId), 1);
    if n == 0 then (certs, Err(ValidationError))
    else match build(n)
      case Err(e) => (certs, Err(e))
      case Ok(wire) => (WithCert(certs, TcertIdOf(keyId, n), wire), Ok(n))
  }

  lemma {:induction false} FreeIs(used: set<nat>, from: nat, n: nat)
    requires 1 <= from <= n <= LAST_NUMBER && n !in used && forall m :: from <= m < n ==> m in used
    ensures FirstFree(used, from) == n
    decreases n - from
  {
    if from == n {
    } else {
      FreeIs(used, from + 1, n);
    }
  }

  lemma {:induction false} NoneFree(used: set<nat>, from: nat)
    requires from >= 1 && forall m :: from <= m <= LAST_NUMBER ==> m in used
    ensures FirstFree(used, from) == 0
    decreases LAST_NUMBER + 1 - from
  {
    if from > LAST_NUMBER {
    } else {
      NoneFree(used, from + 1);
    }
  }

  lemma {:induction false} FirstFreeMeaning(used: set<nat>, from: nat)
    requires 1 <= from <= LAST_NUMBER + 1
    ensures var n := FirstFree(used, from);
      if n == 0 then forall m :: from <= m <= LAST_NUMBER ==> m in used
      else from <= n <= LAST_NUMBER && n !in used && forall m :: from <= m < n ==> m in used
    decreases LAST_NUMBER + 1 - from
  {
    if from > LAST_NUMBER || from !in used {
    } else {
      FirstFreeMeaning(used, from + 1);
    }
  }

  /* -------------------------------------- ids ----------------------------------- */

  lemma {:induction false} DecimalHasNoColon(n: nat)
    ensures ':' !in Decimal(n) && IndexOf(Decimal(n), ':') == |Decimal(n)|
  {
    DecimalRoundTrip(n);
    var s := Decimal(n);
    forall i | 0 <= i < |s| ensures s[i] != ':' {
      assert '0' <= s[i] <= '9';
    }
  }

  lemma {:induction false} NumberOfId(keyId: KeyId, n: nat)
    requires ':' !in keyId
    ensures NumberIn(TcertIdOf(keyId, n)) == Some(n)
  {
    var id := TcertIdOf(keyId, n);
    IndexOfSplit(keyId, ':', Decimal(n));
    assert id == keyId + [':'] + Decimal(n);
    assert id[|keyId| + 1..] == Decimal(n);
    DecimalHasNoColon(n);
    assert SecondPart(id) == Decimal(n)[..|Decimal(n)|] == Decimal(n);
    DecimalRoundTrip(n);
  }

  lemma {:induction false} IdBelongsToKey(keyId: KeyId, n: nat, other: KeyId)
    requires ':' !in keyId && ':' !in other
    ensures StartsWith(TcertIdOf(keyId, n), other + ":") <==> keyId == other
  {
    var id := TcertIdOf(keyId, n);
    if keyId == other {
      assert id[..|keyId| + 1] == other + ":";
    }
    if StartsWith(id, other + ":") {
      var rest := id[|other| + 1..];
      assert id == other + [':'] + rest;
      IndexOfSplit(other, ':', rest);
      IndexOfSplit(keyId, ':', Decimal(n));
      assert id == keyId + [':'] + Decimal(n);
      assert id[..|keyId|] == keyId && id[..|other|] == other;
    }
  }

  lemma {:induction false} HeldIsUsed(certs: seq<Cert>, keyId: KeyId, n: nat)
    requires ':' !in keyId && GetCert(certs, TcertIdOf(keyId, n)).Some?
    ensures n in UsedNumbers(certs, keyId)
  {
    HeldIsListed(certs, keyId, n);
    NumberOfId(keyId, n);
  }

  lemma {:induction false} HeldIsListed(certs: seq<Cert>, keyId: KeyId, n: nat)
    requires ':' !in keyId && GetCert(certs, TcertIdOf(keyId, n)).Some?
    ensures exists c :: c in CertsOfKey(certs, keyId) && c.id == TcertIdOf(keyId, n)
  {
    if certs[0].id == TcertIdOf(keyId, n) {
      IdBelongsToKey(keyId, n, keyId);
      assert certs[0] in CertsOfKey(certs, keyId);
    } else {
      HeldIsListed(certs[1..], keyId, n);
      var c :| c in CertsOfKey(certs[1..], keyId) && c.id == TcertIdOf(keyId, n);
      assert c in CertsOfKey(certs, keyId);
    }
  }

  /** A new TCert never replaces one that is held: its id is new, and it is appended. */
  lemma {:induction false} CreateIsFresh(certs: seq<Cert>, keyId: KeyId, build: nat -> Result<bytes>)
    requires ':' !in keyId && Create(certs, keyId, build).1.Ok?
    ensures var n := Create(certs, keyId, build).1.value;
      && LeastFree(UsedNumbers(certs, keyId), n)
      && GetCert(certs, TcertIdOf(keyId, n)).None?
      && build(n).Ok? && Create(certs, keyId, build).0 == certs + [Cert(TcertIdOf(keyId, n), build(n).value)]
  {
    var n := Create(certs, keyId, build).1.value;
    FirstFreeMeaning(UsedNumbers(certs, keyId), 1);
    if GetCert(certs, TcertIdOf(keyId, n)).Some? {
      HeldIsUsed(certs, keyId, n);
    } else {
      AppendedCert(certs, TcertIdOf(keyId, n), build(n).value);
    }
  }

  /** Creation marks its number as used for its key, and changes nothing for the other keys. */
  lemma {:induction false} CreateUses(certs: seq<Cert>, keyId: KeyId, build: nat -> Result<bytes>, other: KeyId)
    requires ':' !in keyId && ':' !in other
    ensures var (after, r) := Create(certs, keyId, build);
      UsedNumbers(after, other) == UsedNumbers(certs, other) + (if r.Ok? && other == keyId then {r.value} else {})
  {
    var (after, r) := Create(certs, keyId, build);
    if r.Ok? {
      CreateIsFresh(certs, keyId, build);
      var c := Cert(TcertIdOf(keyId, r.value), build(r.value).value);
      AppendedCertsOfKey(certs, c, other);
      IdBelongsToKey(keyId, r.value, other);
      NumberOfId(keyId, r.value);
      var before := CertsOfKey(certs, other);
      assert CertsOfKey(after, other) == if keyId == other then before + [c] else before + [];
      assert keyId == other ==> UsedNumbers(after, other) == UsedNumbers(certs, other) + {r.value} by {
        if keyId == other {
          assert CertsOfKey(after, other) == before + [c];
          forall x: nat ensures x in UsedNumbers(after, other) <==> x in UsedNumbers(certs, other) + {r.value} {
            if x == r.value { assert c in CertsOfKey(after, other); }
          }
        }
      }
    }
  }

  /** The TCert can be built for every number. */
  ghost predicate AlwaysBuilds(build: nat -> Result<bytes>) { forall n :: 1 <= n <= LAST_NUMBER ==> build(n).Ok? }

  /**
   * Creation fails exactly when all 255 numbers of the key are used, or the TCert cannot be built for the
   * least free one; it then keeps the store.
   */
  lemma {:induction false} FailsOnlyWhenExhausted(certs: seq<Cert>, keyId: KeyId, build: nat -> Result<bytes>)
    ensures var (after, r) := Create(certs, keyId, build);
      var used := UsedNumbers(certs, keyId);
      && (r.Err? <==> Exhausted(used) || exists n :: LeastFree(used, n) && build(n).Err?)
      && (r.Err? ==> after == certs) && (Exhausted(used) ==> r == Err(ValidationError))
      && (AlwaysBuilds(build) ==> (r.Err? <==> Exhausted(used)))
  {
    var used := UsedNumbers(certs, keyId);
    FirstFreeMeaning(used, 1);
    var n := FirstFree(used, 1);
    if n != 0 {
      assert LeastFree(used, n);
      assert forall m :: LeastFree(used, m) ==> m == n;
    }
  }

  /* ------------------------------------ runs ------------------------------------ */

  datatype Creation = Creation(keyId: KeyId, build: nat -> Result<bytes>)

  function CertsAfter(certs: seq<Cert>, cs: seq<Creation>): seq<Cert>
  {
    if cs == [] then certs
    else var last := cs[|cs| - 1]; Create(CertsAfter(certs, cs[..|cs| - 1]), last.keyId, last.build).0
  }

  /** The number the last creation of a run gave. */
  function NumberGiven(certs: seq<Cert>, cs: seq<Creation>): Result<nat>
    requires cs != []
  {
    var last := cs[|cs| - 1];
    Create(CertsAfter(certs, cs[..|cs| - 1]), last.keyId, last.build).1
  }

  /** How many creations for a key succeeded. */
  function Succeeded(certs: seq<Cert>, cs: seq<Creation>, keyId: KeyId): nat
  {
    if cs == [] then 0
    else
      Succeeded(certs, cs[..|cs| - 1], keyId)
      + (if cs[|cs| - 1].keyId == keyId && NumberGiven(certs, cs).Ok? then 1 else 0)
  }

  ghost predicate HexKeys(cs: seq<Creation>) { forall i :: 0 <= i < |cs| ==> ':' !in cs[i].keyId }

  lemma {:induction false} UsedAfter(certs: seq<Cert>, cs: seq<Creation>, keyId: KeyId)
    requires HexKeys(cs) && ':' !in keyId
    ensures UsedNumbers(certs, keyId) <= UsedNumbers(CertsAfter(certs, cs), keyId)
    decreases |cs|
  {
    if cs == [] {
    } else {
      var n := |cs| - 1;
      UsedAfter(certs, cs[..n], keyId);
      CreateUses(CertsAfter(certs, cs[..n]), cs[n].keyId, cs[n].build, keyId);
    }
  }

  /**
   * Over every run of creations, two TCerts of one key get different numbers, whatever is created
   * between them and whatever was held before.
   */
  lemma {:induction false} NumbersAreDistinct(certs: seq<Cert>, early: seq<Creation>, late: seq<Creation>)
    requires early != [] && late != [] && HexKeys(early) && HexKeys(late)
    requires early[|early| - 1].keyId == late[|late| - 1].keyId
    requires NumberGiven(certs, early).Ok? && NumberGiven(CertsAfter(certs, early), late).Ok?
    ensures 1 <= NumberGiven(certs, early).value <= LAST_NUMBER
    ensures NumberGiven(certs, early).value != NumberGiven(CertsAfter(certs, early), late).value
  {
    var n, m := |early| - 1, |late| - 1;
    var keyId := early[n].keyId;
    var middle := CertsAfter(certs, early);
    CreateUses(CertsAfter(certs, early[..n]), keyId, early[n].build, keyId);
    CreateIsFresh(CertsAfter(certs, early[..n]), keyId, early[n].build);
    UsedAfter(middle, late[..m], keyId);
    CreateIsFresh(CertsAfter(middle, late[..m]), keyId, late[m].build);
  }

  /** The numbers used are exactly 1..k. */
  ghost predicate UsesUpTo(used: set<nat>, k: nat) { forall x: nat :: x in used <==> 1 <= x <= k }

  /** One more creation for a key whose numbers are 1..k gives k + 1, and fails after 255. */
  lemma {:induction false} CreateCountsUp(certs: seq<Cert>, c: Creation, keyId: KeyId, k: nat)
    requires ':' !in c.keyId && ':' !in keyId && k <= LAST_NUMBER && UsesUpTo(UsedNumbers(certs, keyId), k)
    ensures var (after, given) := Create(certs, c.keyId, c.build);
      && (c.keyId == keyId && given.Ok? ==>
          given.value == k + 1 <= LAST_NUMBER && UsesUpTo(UsedNumbers(after, keyId), k + 1))
      && (!(c.keyId == keyId && given.Ok?) ==> UsesUpTo(UsedNumbers(after, keyId), k))
  {
    CreateUses(certs, c.keyId, c.build, keyId);
    NextNumber(UsedNumbers(certs, keyId), k);
  }

  /** From an empty store the numbers of a key are 1, 2, 3, and so on, and the 256th creation fails. */
  lemma {:induction false} NumbersCountUp(cs: seq<Creation>, keyId: KeyId)
    requires HexKeys(cs) && ':' !in keyId
    ensures Succeeded([], cs, keyId) <= LAST_NUMBER
    ensures UsesUpTo(UsedNumbers(CertsAfter([], cs), keyId), Succeeded([], cs, keyId))
    ensures cs != [] && cs[|cs| - 1].keyId == keyId && NumberGiven([], cs).Ok? ==>
      NumberGiven([], cs).value == Succeeded([], cs, keyId)
    decreases |cs|
  {
    if cs == [] {
    } else {
      var n := |cs| - 1;
      NumbersCountUp(cs[..n], keyId);
      CreateCountsUp(CertsAfter([], cs[..n]), cs[n], keyId, Succeeded([], cs[..n], keyId));
    }
  }

  /** When building succeeds, a creation from an empty store fails exactly after 255 successful ones for its key. */
  lemma {:induction false} OnlyNumbersRunOut(cs: seq<Creation>)
    requires cs != [] && HexKeys(cs) && AlwaysBuilds(cs[|cs| - 1].build)
    ensures NumberGiven([], cs).Err? <==> Succeeded([], cs[..|cs| - 1], cs[|cs| - 1].keyId) == LAST_NUMBER
  {
    var n := |cs| - 1;
    var certs, k := CertsAfter([], cs[..n]), Succeeded([], cs[..n], cs[n].keyId);
    NumbersCountUp(cs[..n], cs[n].keyId);
    FailsOnlyWhenExhausted(certs, cs[n].keyId, cs[n].build);
    NextNumber(UsedNumbers(certs, cs[n].keyId), k);
  }

  lemma {:induction false} NextNumber(used: set<nat>, k: nat)
    requires k <= LAST_NUMBER && forall x: nat :: x in used <==> 1 <= x <= k
    ensures FirstFree(used, 1) == if k < LAST_NUMBER then k + 1 else 0
  {
    if k < LAST_NUMBER {
      FreeIs(used, 1, k + 1);
    } else {
      NoneFree(used, 1);
    }
  }

  /** The ids that creation produces split back into their key and number. */
  lemma {:induction false} CreatedIdsSplit(certs: seq<Cert>, keyId: KeyId, build: nat -> Result<bytes>)
    requires keyId != "" && ':' !in keyId && Create(certs, keyId, build).1.Ok?
    ensures var n := Create(certs, keyId, build).1.value; SplitTcertId(TcertIdOf(keyId, n)) == Ok((keyId, n))
  {
    CreateIsFresh(certs, keyId, build);
    SplitInvertsJoin(keyId, Create(certs, keyId, build).1.value);
  }
}
