/**
 * NFC card wallets (src/db.ts): rows of (uid, private key, tag, linked owner) with unique uid and
 * unique tag, and the operations that attach tags and fill in keys. A statement that breaks a
 * unique constraint fails and changes nothing.
 *
 * Keys that were stored never change. The promise that a provisioned address is the one found by
 * its tag afterwards does not hold in general; the exact condition is proved.
 */
module NfcCards {
  import opened Common
  import opened Text

  type Key = nat
  type Address = nat

  /** A NULL or blank key or tag is `None`; stored uids carry no outer blanks, tags are 16 upper-case hex digits. */
  datatype Row = Row(uid: string, key: Option<Key>, tag: Option<string>, owner: Option<Address>)

  type Table = seq<Row>

  /** Wallet addresses of keys, `None` for an unusable key, and the key derived from the mnemonic for a uid. */
  datatype Env = Env(address: Key -> Option<Address>, derive: string -> Option<Key>)

  predicate IsUidHex(s: string) {
    |s| == 14 && forall i :: 0 <= i < |s| ==> IsHexDigit(s[i])
  }

  predicate ValidTag(tag: string) {
    |tag| == 16 && forall i :: 0 <= i < |tag| ==> '0' <= tag[i] <= '9' || 'A' <= tag[i] <= 'F'
  }

  // ---- Reading ----

  function FindTag(t: Table, tag: string): (i: Option<nat>)
    ensures i.Some? ==> i.value < |t| && t[i.value].tag == Some(tag)
    ensures i.None? ==> forall k :: 0 <= k < |t| ==> t[k].tag != Some(tag)
  {
    if t == [] then None
    else if t[0].tag == Some(tag) then Some(0)
    else Shifted(FindTag(t[1..], tag), 1)
  }

  /** The row that `ON CONFLICT (uid)` meets: the same text, in the same letter case. */
  function FindUid(t: Table, uid: string): (i: Option<nat>)
    ensures i.Some? ==> i.value < |t| && t[i.value].uid == uid
    ensures i.None? ==> forall k :: 0 <= k < |t| ==> t[k].uid != uid
  {
    if t == [] then None
    else if t[0].uid == uid then Some(0)
    else Shifted(FindUid(t[1..], uid), 1)
  }

  /** The row that a lookup by uid meets, in any letter case. */
  function FindUidAnyCase(t: Table, uid: string): (i: Option<nat>)
    ensures i.Some? ==> i.value < |t| && Lower(t[i.value].uid) == Lower(uid)
    ensures i.None? ==> forall k :: 0 <= k < |t| ==> Lower(t[k].uid) != Lower(uid)
  {
    if t == [] then None
    else if Lower(t[0].uid) == Lower(uid) then Some(0)
    else Shifted(FindUidAnyCase(t[1..], uid), 1)
  }

  /** The linked owner first, else the wallet of the key. */
  function Resolve(env: Env, r: Row): Option<Address> {
    if r.owner.Some? then r.owner
    else if r.key.Some? then env.address(r.key.value)
    else None
  }

  function AddressByTag(env: Env, t: Table, tag: string): Option<Address> {
    match FindTag(t, tag)
    case None => None
    case Some(i) => Resolve(env, t[i])
  }

  function KeyByUid(env: Env, t: Table, uid: string): Option<Key> {
    match FindUidAnyCase(t, uid)
    case None => env.derive(uid)
    case Some(i) => t[i].key
  }

  // ---- Writing ----

  predicate AwaitsTag(r: Row, uid: string) {
    Lower(r.uid) == Lower(uid) && r.tag.None? && r.key.Some?
  }

  function FindAwaiting(t: Table, uid: string): (i: Option<nat>)
    ensures i.Some? ==> i.value < |t| && AwaitsTag(t[i.value], uid)
    ensures i.None? ==> forall k :: 0 <= k < |t| ==> !AwaitsTag(t[k], uid)
  {
    if t == [] then None
    else if AwaitsTag(t[0], uid) then Some(0)
    else Shifted(FindAwaiting(t[1..], uid), 1)
  }

  /** The update would give the tag to exactly one row, and no row has it yet. */
  predicate CanBackfill(t: Table, uid: string, tag: string) {
    var i := FindAwaiting(t, uid);
    && uid != "" && i.Some? && FindTag(t, tag).None?
    && forall k :: 0 <= k < |t| && AwaitsTag(t[k], uid) ==> k == i.value
  }

  function Backfill(t: Table, uid: string, tag: string): Table {
    if CanBackfill(t, uid, tag)
    then var i := FindAwaiting(t, uid).value; t[i := t[i].(tag := Some(tag))]
    else t
  }

  predicate UidTakenByOther(t: Table, uid: string, i: nat) {
    exists k :: 0 <= k < |t| && k != i && t[k].uid == uid
  }

  /** The row with the tag has no key: it gets the key, and the uid when that is 14 hex digits. */
  function FillByTag(t: Table, i: nat, uid: string, key: Key): Table
    requires i < |t|
  {
    if IsUidHex(uid) && UidTakenByOther(t, uid, i) then t
    else t[i := t[i].(key := Some(key), uid := if IsUidHex(uid) then uid else t[i].uid)]
  }

  /** The row with the uid gets what it lacks, unless the tag it would get is taken. */
  function FillByUid(t: Table, j: nat, key: Key, tag: string): Table
    requires j < |t|
  {
    if t[j].tag.None? && FindTag(t, tag).Some? then t
    else t[j := t[j].(key := if t[j].key.Some? then t[j].key else Some(key),
                      tag := if t[j].tag.Some? then t[j].tag else Some(tag))]
  }

  /** A registration that carries a valid tag. */
  function Register(t: Table, uid: string, key: Key, tag: string): Table {
    var byTag, byUid := FindTag(t, tag), FindUid(t, uid);
    if uid == "" then t
    else if byTag.Some? && t[byTag.value].key.None? then FillByTag(t, byTag.value, uid, key)
    else if byUid.Some? then FillByUid(t, byUid.value, key, tag)
    else if byTag.Some? then t
    else t + [Row(uid, Some(key), Some(tag), None)]
  }

  datatype Provisioned = Provisioned(eoa: Option<Address>, isNew: bool, table: Table)

  /** `newKey` is the key of the random wallet. */
  function Provision(env: Env, t: Table, tag: string, uid: string, newKey: Key): Provisioned {
    var existing := AddressByTag(env, t, tag);
    if existing.Some? then Provisioned(existing, false, t)
    else
      var t1 := if uid != "" && KeyByUid(env, t, uid).Some? then Backfill(t, uid, tag) else t;
      var afterBackfill := AddressByTag(env, t1, tag);
      if afterBackfill.Some? then Provisioned(afterBackfill, false, t1)
      else
        var t2 := Register(t1, if uid == "" then tag else uid, newKey, tag);
        var after := AddressByTag(env, t2, tag);
        Provisioned(if after.Some? then after else env.address(newKey), true, t2)
  }

  // ---- The operations on the table ----

  class NfcCardDb {
    const env: Env
    var rows: Table

    constructor (env: Env)
      ensures rows == [] && this.env == env
    {
      this.env, rows := env, [];
    }

    method BackfillNfcCardTagIdByUid(uid: string, tag: string) returns (done: bool)
      modifies this
      ensures rows == Backfill(old(rows), uid, tag)
      ensures done <==> CanBackfill(old(rows), uid, tag)
    {
      if uid == "" { return false; }
      var matched: seq<nat> := [];
      for i := 0 to |rows|
        invariant forall k :: k in matched <==> 0 <= k < i && AwaitsTag(rows[k], uid)
        invariant forall a :: 0 <= a < |matched| ==> matched[a] < i
        invariant forall a, b :: 0 <= a < b < |matched| ==> matched[a] < matched[b]
      {
        if AwaitsTag(rows[i], uid) { matched := matched + [i]; }
      }
      var awaiting := FindAwaiting(rows, uid);
      if |matched| != 1 || FindTag(rows, tag).Some? {
        if |matched| > 1 { assert matched[0] in matched && matched[1] in matched; }
        assert |matched| == 0 ==> awaiting.None?;
        return false;
      }
      assert awaiting.Some? && awaiting.value in matched;
      rows := rows[matched[0] := rows[matched[0]].(tag := Some(tag))];
      done := true;
    }

    method RegisterNfcCardToDb(uid: string, key: Key, tag: string)
      modifies this
      ensures rows == Register(old(rows), uid, key, tag)
    {
      if uid == "" { return; }
      var byTag := FindTag(rows, tag);
      if byTag.Some? && rows[byTag.value].key.None? {
        var i := byTag.value;
        var newUid := if IsUidHex(uid) then uid else rows[i].uid;
        if newUid == uid && UidTakenByOther(rows, uid, i) && IsUidHex(uid) { return; }
        rows := rows[i := rows[i].(key := Some(key), uid := newUid)];
        return;
      }
      var byUid := FindUid(rows, uid);
      if byUid.None? {
        if byTag.Some? { return; }
        rows := rows + [Row(uid, Some(key), Some(tag), None)];
        return;
      }
      var r := rows[byUid.value];
      if r.tag.None? && byTag.Some? { return; }
      var k := if r.key.Some? then r.key else Some(key);
      rows := rows[byUid.value := r.(key := k, tag := if r.tag.Some? then r.tag else Some(tag))];
    }

    method ProvisionOrGetNfcWalletByTagId(tag: string, uid: string, newKey: Key)
      returns (eoa: Option<Address>, isNew: bool)
      modifies this
      ensures Provisioned(eoa, isNew, rows) == Provision(env, old(rows), tag, uid, newKey)
    {
      var existing := AddressByTag(env, rows, tag);
      if existing.Some? { return existing, false; }
      if uid != "" {
        var byUid := KeyByUid(env, rows, uid);
        if byUid.Some? {
          var done := BackfillNfcCardTagIdByUid(uid, tag);
          var afterBackfill := AddressByTag(env, rows, tag);
          if afterBackfill.Some? { return afterBackfill, false; }
        }
      }
      var linkedOwnerOnly := AddressByTag(env, rows, tag);
      if linkedOwnerOnly.Some? { return linkedOwnerOnly, false; }
      RegisterNfcCardToDb(if uid == "" then tag else uid, newKey, tag);
      var after := AddressByTag(env, rows, tag);
      eoa, isNew := if after.Some? then after else env.address(newKey), true;
    }
  }

  // ---- Runs: nothing stored is lost ----

  datatype Step =
    | BackfillStep(uid: string, tag: string)
    | RegisterStep(uid: string, key: Key, tag: string)
    | ProvisionStep(tag: string, uid: string, newKey: Key)

  function Next(env: Env, t: Table, s: Step): Table {
    match s
    case BackfillStep(uid, tag) => Backfill(t, uid, tag)
    case RegisterStep(uid, key, tag) => Register(t, uid, key, tag)
    case ProvisionStep(tag, uid, newKey) => Provision(env, t, tag, uid, newKey).table
  }

  function Run(env: Env, t: Table, steps: seq<Step>): Table {
    if steps == [] then t else Next(env, Run(env, t, steps[..|steps| - 1]), steps[|steps| - 1])
  }

  ghost predicate Unique(t: Table) {
    forall i, j :: 0 <= i < j < |t| ==> t[i].uid != t[j].uid && (t[i].tag.Some? ==> t[i].tag != t[j].tag)
  }

  /** A row keeps its key, its tag and its owner once it has them, and with a key also its uid. */
  predicate RowKept(r: Row, s: Row) {
    && (r.key.Some? ==> s.key == r.key && s.uid == r.uid)
    && (r.tag.Some? ==> s.tag == r.tag)
    && s.owner == r.owner
  }

  ghost predicate Kept(t: Table, u: Table) {
    |t| <= |u| && forall i :: 0 <= i < |t| ==> RowKept(t[i], u[i])
  }

  lemma BackfillKeeps(t: Table, uid: string, tag: string)
    requires Unique(t)
    ensures Unique(Backfill(t, uid, tag)) && Kept(t, Backfill(t, uid, tag))
  {
  }

  lemma FillByTagKeeps(t: Table, i: nat, uid: string, key: Key)
    requires Unique(t) && i < |t| && t[i].key.None?
    ensures Unique(FillByTag(t, i, uid, key)) && Kept(t, FillByTag(t, i, uid, key))
  {
  }

  lemma FillByUidKeeps(t: Table, j: nat, key: Key, tag: string)
    requires Unique(t) && j < |t|
    ensures Unique(FillByUid(t, j, key, tag)) && Kept(t, FillByUid(t, j, key, tag))
  {
  }

  lemma RegisterKeeps(t: Table, uid: string, key: Key, tag: string)
    requires Unique(t)
    ensures Unique(Register(t, uid, key, tag)) && Kept(t, Register(t, uid, key, tag))
  {
    var u, byTag, byUid := Register(t, uid, key, tag), FindTag(t, tag), FindUid(t, uid);
    if uid == "" {
      assert u == t;
    } else if byTag.Some? && t[byTag.value].key.None? {
      FillByTagKeeps(t, byTag.value, uid, key);
      assert u == FillByTag(t, byTag.value, uid, key);
    } else if byUid.Some? {
      FillByUidKeeps(t, byUid.value, key, tag);
      assert u == FillByUid(t, byUid.value, key, tag);
    } else if byTag.None? {
      InsertKeeps(t, Row(uid, Some(key), Some(tag), None));
    }
  }

  lemma InsertKeeps(t: Table, r: Row)
    requires Unique(t) && forall i :: 0 <= i < |t| ==> t[i].uid != r.uid && t[i].tag != r.tag
    ensures Unique(t + [r]) && Kept(t, t + [r])
  {
  }

  lemma ProvisionKeeps(env: Env, t: Table, tag: string, uid: string, newKey: Key)
    requires Unique(t)
    ensures var u := Provision(env, t, tag, uid, newKey).table; Unique(u) && Kept(t, u)
  {
    var t1 := if uid != "" && KeyByUid(env, t, uid).Some? then Backfill(t, uid, tag) else t;
    BackfillKeeps(t, uid, tag);
    RegisterKeeps(t1, if uid == "" then tag else uid, newKey, tag);
  }

  /** Over every run of backfills, registrations and provisionings, uids and tags stay unique and no stored key, tag
      or owner ever changes. */
  lemma {:induction false} KeysNeverRotate(env: Env, t: Table, steps: seq<Step>)
    requires Unique(t)
    ensures Unique(Run(env, t, steps)) && Kept(t, Run(env, t, steps))
  {
    if steps != [] {
      var u, s := Run(env, t, steps[..|steps| - 1]), steps[|steps| - 1];
      KeysNeverRotate(env, t, steps[..|steps| - 1]);
      match s
      case BackfillStep(uid, tag) => BackfillKeeps(u, uid, tag);
      case RegisterStep(uid, key, tag) => RegisterKeeps(u, uid, key, tag);
      case ProvisionStep(tag, uid, newKey) => ProvisionKeeps(env, u, tag, uid, newKey);
      var v := Run(env, t, steps);
      assert forall i :: 0 <= i < |t| ==> RowKept(t[i], u[i]) && RowKept(u[i], v[i]);
    }
  }

  /** An address once found by a tag is found by it for ever. */
  lemma TagAddressStable(env: Env, t: Table, steps: seq<Step>, tag: string)
    requires Unique(t) && AddressByTag(env, t, tag).Some?
    ensures AddressByTag(env, Run(env, t, steps), tag) == AddressByTag(env, t, tag)
  {
    var u := Run(env, t, steps);
    KeysNeverRotate(env, t, steps);
    var i := FindTag(t, tag).value;
    assert RowKept(t[i], u[i]);
    FoundByTag(u, tag, i);
  }

  lemma FoundByTag(t: Table, tag: string, i: nat)
    requires Unique(t) && i < |t| && t[i].tag == Some(tag)
    ensures FindTag(t, tag) == Some(i)
  {
    var k := FindTag(t, tag).value;
    assert t[k].tag == t[i].tag;
  }

  // ---- What the operations do, row by row ----

  /** The tag leads to the linked owner of its row, or else to the wallet of its key. */
  lemma TagLeadsTo(env: Env, t: Table, tag: string, i: nat)
    requires Unique(t)
    ensures i < |t| && t[i].tag == Some(tag) ==>
      AddressByTag(env, t, tag) == match t[i] {
        case Row(_, _, _, Some(owner)) => Some(owner)
        case Row(_, Some(key), _, None) => env.address(key)
        case Row(_, None, _, None) => None
      }
    ensures (forall k :: 0 <= k < |t| ==> t[k].tag != Some(tag)) ==> AddressByTag(env, t, tag) == None
  {
    if i < |t| && t[i].tag == Some(tag) { FoundByTag(t, tag, i); }
  }

  /** Row `i` is the only one of this uid, in any letter case, that has a key and no tag, and nobody has the tag. */
  predicate TakesTag(t: Table, uid: string, tag: string, i: nat) {
    && uid != "" && i < |t| && SameFolded(t[i].uid, uid) && t[i].tag.None? && t[i].key.Some?
    && (forall k :: 0 <= k < |t| && SameFolded(t[k].uid, uid) && t[k].tag.None? && t[k].key.Some? ==> k == i)
    && (forall k :: 0 <= k < |t| ==> t[k].tag != Some(tag))
  }

  lemma AwaitsMeans(r: Row, uid: string)
    ensures AwaitsTag(r, uid) <==> SameFolded(r.uid, uid) && r.tag.None? && r.key.Some?
  {
    LowerFolds(r.uid, uid);
  }

  /** Backfilling writes the tag into that row, and nothing when there is no such row. */
  lemma BackfillMeans(t: Table, uid: string, tag: string)
    ensures forall i: nat :: TakesTag(t, uid, tag, i) ==>
      Backfill(t, uid, tag) == t[i := Row(t[i].uid, t[i].key, Some(tag), t[i].owner)]
    ensures (forall i: nat :: !TakesTag(t, uid, tag, i)) ==> Backfill(t, uid, tag) == t
  {
    forall k | 0 <= k < |t|
      ensures AwaitsTag(t[k], uid) <==> SameFolded(t[k].uid, uid) && t[k].tag.None? && t[k].key.Some? {
      AwaitsMeans(t[k], uid);
    }
    if CanBackfill(t, uid, tag) { assert TakesTag(t, uid, tag, FindAwaiting(t, uid).value); }
  }

  /** A registration meets a row with the tag and no key: that row gets the key and, when it is 14 hex digits and free,
      the uid; from then on the row is found by it. */
  lemma KeylessTagTakesUid(env: Env, t: Table, uid: string, key: Key, tag: string, i: nat)
    requires Unique(t) && uid != "" && i < |t| && t[i].tag == Some(tag) && t[i].key.None?
    ensures var u := Register(t, uid, key, tag);
      if !(|uid| == 14 && forall k :: 0 <= k < 14 ==> IsHexDigit(uid[k])) then
        u == t[i := Row(t[i].uid, Some(key), Some(tag), t[i].owner)]
      else if exists k :: 0 <= k < |t| && k != i && t[k].uid == uid then
        u == t
      else
        && u == t[i := Row(uid, Some(key), Some(tag), t[i].owner)]
        && FindUid(u, uid) == Some(i)
        && ((forall k :: 0 <= k < |t| && k != i ==> !SameFolded(t[k].uid, uid)) ==> KeyByUid(env, u, uid) == Some(key))
  {
    FoundByTag(t, tag, i);
    assert Register(t, uid, key, tag) == FillByTag(t, i, uid, key);
    if IsUidHex(uid) && !UidTakenByOther(t, uid, i) { NewUidIsFound(env, t, uid, Some(key), i); }
  }

  /** A row that takes over a free uid is the one found by it. */
  lemma NewUidIsFound(env: Env, t: Table, uid: string, key: Option<Key>, i: nat)
    requires Unique(t) && i < |t| && forall k :: 0 <= k < |t| && k != i ==> t[k].uid != uid
    ensures var u := t[i := t[i].(key := key, uid := uid)];
      && FindUid(u, uid) == Some(i)
      && ((forall k :: 0 <= k < |t| && k != i ==> !SameFolded(t[k].uid, uid)) ==> KeyByUid(env, u, uid) == key)
  {
    var u := t[i := t[i].(key := key, uid := uid)];
    assert u[i].uid == uid;
    var j := FindUidAnyCase(u, uid).value;
    LowerFolds(u[j].uid, uid);
    assert j != i ==> u[j] == t[j];
  }

  /** A registration meets no keyless row of the tag: the row with exactly this uid is completed, unless the tag it
      would get is taken; without one a new row is made, unless the tag is taken. */
  lemma RegisterMeans(t: Table, uid: string, key: Key, tag: string, j: nat)
    requires Unique(t) && uid != ""
    requires forall k :: 0 <= k < |t| && t[k].tag == Some(tag) ==> t[k].key.Some?
    ensures var u, taken := Register(t, uid, key, tag), exists k :: 0 <= k < |t| && t[k].tag == Some(tag);
      && (j < |t| && t[j].uid == uid ==>
            u == if t[j].tag.None? && taken then t
                 else t[j := Row(uid, Some(if t[j].key.Some? then t[j].key.value else key),
                                 Some(if t[j].tag.Some? then t[j].tag.value else tag), t[j].owner)])
      && ((forall k :: 0 <= k < |t| ==> t[k].uid != uid) ==>
            u == if taken then t else t + [Row(uid, Some(key), Some(tag), None)])
  {
    var byUid := FindUid(t, uid);
    if j < |t| && t[j].uid == uid { assert byUid == Some(j); }
  }

  /** A card that is new to the table: its wallet is the random one, stored under uid and tag, and reported as new. */
  lemma FreshCard(env: Env, t: Table, tag: string, uid: string, newKey: Key)
    requires Unique(t) && env.address(newKey).Some? && tag != ""
    requires forall k :: 0 <= k < |t| ==> t[k].tag != Some(tag)
    requires forall k :: 0 <= k < |t| ==> !SameFolded(t[k].uid, if uid == "" then tag else uid)
    ensures Provision(env, t, tag, uid, newKey)
         == Provisioned(env.address(newKey), true,
                        t + [Row(if uid == "" then tag else uid, Some(newKey), Some(tag), None)])
  {
    var name := if uid == "" then tag else uid;
    forall k | 0 <= k < |t| ensures t[k].uid != name && !AwaitsTag(t[k], name) {
      AwaitsMeans(t[k], name);
    }
    assert uid != "" ==> FindAwaiting(t, uid).None?;
    var u := t + [Row(name, Some(newKey), Some(tag), None)];
    RegisterMeans(t, name, newKey, tag, 0);
    RegisterKeeps(t, name, newKey, tag);
    FoundByTag(u, tag, |t|);
  }

  // ---- What provisioning promises ----

  /** When a registration under a tag that leads nowhere makes it lead to an address. */
  predicate RegisterServes(env: Env, t: Table, tag: string, uid: string) {
    match FindTag(t, tag)
    case Some(i) => t[i].key.None? && !(IsUidHex(uid) && UidTakenByOther(t, uid, i))
    case None =>
      match FindUid(t, uid)
      case None => true
      case Some(j) => t[j].tag.None? && (t[j].key.None? || Resolve(env, t[j]).Some?)
  }

  lemma RegisteredIsFoundIff(env: Env, t: Table, uid: string, key: Key, tag: string)
    requires Unique(t) && uid != "" && AddressByTag(env, t, tag).None? && env.address(key).Some?
    ensures AddressByTag(env, Register(t, uid, key, tag), tag).Some? <==> RegisterServes(env, t, tag, uid)
  {
    var u, byTag, byUid := Register(t, uid, key, tag), FindTag(t, tag), FindUid(t, uid);
    RegisterKeeps(t, uid, key, tag);
    if byTag.Some? {
      FoundByTag(u, tag, byTag.value);
    } else if byUid.None? {
      FoundByTag(u, tag, |t|);
    } else if t[byUid.value].tag.None? {
      FoundByTag(u, tag, byUid.value);
    }
  }

  /** When the address returned by provisioning is the one the tag leads to, in terms of the table before the call. */
  predicate Serves(env: Env, t: Table, tag: string, uid: string) {
    if AddressByTag(env, t, tag).Some? then true
    else if uid != "" && KeyByUid(env, t, uid).Some? && CanBackfill(t, uid, tag) then
      Resolve(env, t[FindAwaiting(t, uid).value]).Some?
    else
      RegisterServes(env, t, tag, if uid == "" then tag else uid)
  }

  /** The returned address is what a lookup by the tag then finds exactly when `Serves` holds; otherwise nothing is
      found by the tag, and the address belongs to the random wallet. */
  lemma ProvisionedAddressIsFoundIff(env: Env, t: Table, tag: string, uid: string, newKey: Key)
    requires Unique(t) && ValidTag(tag) && env.address(newKey).Some?
    ensures var p := Provision(env, t, tag, uid, newKey);
      && p.eoa.Some?
      && (AddressByTag(env, p.table, tag) == p.eoa <==> Serves(env, t, tag, uid))
      && (!Serves(env, t, tag, uid) ==> AddressByTag(env, p.table, tag) == None && p.eoa == env.address(newKey))
  {
    var dbUid := if uid == "" then tag else uid;
    if uid != "" && KeyByUid(env, t, uid).Some? && CanBackfill(t, uid, tag) {
      var t1, i := Backfill(t, uid, tag), FindAwaiting(t, uid).value;
      BackfillKeeps(t, uid, tag);
      FoundByTag(t1, tag, i);
      if AddressByTag(env, t1, tag).None? { RegisteredIsFoundIff(env, t1, dbUid, newKey, tag); }
    } else if AddressByTag(env, t, tag).None? {
      RegisteredIsFoundIff(env, t, dbUid, newKey, tag);
    }
  }

  /** A provisioned address that is found once is returned, as not new, by every later provisioning, whatever
      happens in between. */
  lemma ProvisionedForGood(env: Env, t: Table, tag: string, uid: string, newKey: Key,
                           steps: seq<Step>, uid2: string, newKey2: Key)
    requires Unique(t) && ValidTag(tag) && env.address(newKey).Some? && Serves(env, t, tag, uid)
    ensures var p := Provision(env, t, tag, uid, newKey);
      var later := Run(env, p.table, steps);
      Provision(env, later, tag, uid2, newKey2) == Provisioned(p.eoa, false, later)
  {
    var p := Provision(env, t, tag, uid, newKey);
    ProvisionedAddressIsFoundIff(env, t, tag, uid, newKey);
    ProvisionKeeps(env, t, tag, uid, newKey);
    TagAddressStable(env, p.table, steps, tag);
  }

  predicate Matches(r: Row, tag: string, uid: string) {
    r.tag == Some(tag) || Lower(r.uid) == Lower(if uid == "" then tag else uid)
  }

  /** With usable keys and at most one row that has the tag or the uid, the promise fails exactly when that row has
      the uid, in the same letter case, and another tag. */
  lemma ServesWithOneRow(env: Env, t: Table, tag: string, uid: string)
    requires Unique(t)
    requires forall i, j ::
      0 <= i < |t| && 0 <= j < |t| && Matches(t[i], tag, uid) && Matches(t[j], tag, uid) ==> i == j
    requires forall i :: 0 <= i < |t| && t[i].key.Some? ==> env.address(t[i].key.value).Some?
    ensures Serves(env, t, tag, uid) <==>
      !exists i :: 0 <= i < |t| && t[i].uid == (if uid == "" then tag else uid)
        && t[i].tag.Some? && t[i].tag != Some(tag)
  {
    var dbUid := if uid == "" then tag else uid;
    var byTag, byUid := FindTag(t, tag), FindUid(t, dbUid);
    assert byTag.Some? ==> Matches(t[byTag.value], tag, uid);
    assert byUid.Some? ==> Matches(t[byUid.value], tag, uid);
    assert forall k :: 0 <= k < |t| && Lower(t[k].uid) == Lower(uid) && uid != "" ==> Matches(t[k], tag, uid);
  }

  /** A card known under its uid with one tag, provisioned under a second tag: the address returned belongs to a
      wallet that is stored nowhere, and the tag still leads nowhere. */
  lemma SecondTagIsNotServed(env: Env, uid: string, tag: string, other: string, key: Key, newKey: Key)
    requires uid != "" && tag != other && ValidTag(tag)
    requires env.address(newKey).Some? && env.address(newKey) != env.address(key)
    ensures var t := [Row(uid, Some(key), Some(other), None)];
      var p := Provision(env, t, tag, uid, newKey);
      p.table == t && p.isNew && p.eoa == env.address(newKey) && AddressByTag(env, p.table, tag) == None
  {
    var t := [Row(uid, Some(key), Some(other), None)];
    assert t[0].uid == uid;
  }
}
