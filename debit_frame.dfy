/**
 * The debit-authorization entry and its persistence: validity, key derivation,
 * the row layout of the `debits` relation, the cache in front of it and the
 * store operations that record every mutation in the change log.
 */
module DebitFrame {
  import opened Ledger

  /** The ledger key of an entry. */
  function KeyOf(e: DebitEntry): DebitKey {
    DebitKey(e.owner, e.debitor, e.asset)
  }

  /** An entry is valid only if its asset is an issued (non-native), well-formed asset. */
  predicate IsValid(e: DebitEntry)
    ensures IsValid(e) <==> (e.asset.CreditAlphaNum4? || e.asset.CreditAlphaNum12?) && IsAssetValid(e.asset)
  {
    AssetType(e.asset) != ASSET_TYPE_NATIVE && IsAssetValid(e.asset)
  }

  /**
   * The primary-key columns derived from a key: owner, debitor, and for an
   * issued asset its issuer and code. For the native asset the issuer and code
   * fields stay empty.
   */
  function KeyFields(k: DebitKey): (dk: DbKey)
    ensures dk.owner == k.owner && dk.debitor == k.debitor
    ensures dk.issuer.None? <==> k.asset.Native?
    ensures !k.asset.Native? ==> dk.issuer == Some(k.asset.issuer) && dk.code == k.asset.code
    ensures k.asset.Native? ==> dk.code == ""
  {
    match k.asset
    case CreditAlphaNum4(code, issuer) => DbKey(k.owner, k.debitor, Some(issuer), code)
    case CreditAlphaNum12(code, issuer) => DbKey(k.owner, k.debitor, Some(issuer), code)
    case Native => DbKey(k.owner, k.debitor, None, "")
  }

  /**
   * Two keys whose assets are well formed are equal iff their derived key
   * fields are equal: the code length tells a 4-character code from a
   * 12-character one, although the asset type is not part of the primary key.
   */
  lemma KeyFieldsInjective(k1: DebitKey, k2: DebitKey)
    requires IsAssetValid(k1.asset) && IsAssetValid(k2.asset)
    ensures KeyFields(k1) == KeyFields(k2) <==> k1 == k2
  {
    if KeyFields(k1) == KeyFields(k2) {
      match k1.asset
      case Native =>
      case CreditAlphaNum4(c1, i1) =>
      case CreditAlphaNum12(c1, i1) =>
    }
  }

  /**
   * Decoding the columns of one row: the asset type selects the asset variant;
   * an unknown asset type, or an issued asset without an issuer string, cannot
   * be decoded and faults.
   */
  function ReadRow(row: Row): (r: Result<DebitEntry>)
    ensures r.Ok? ==> r.value.owner == row.owner && r.value.debitor == row.debitor
    ensures r.Ok? ==> AssetType(r.value.asset) == row.assetType
    ensures r.Ok? && !r.value.asset.Native? ==> KeyFields(KeyOf(r.value)) == RowKey(row)
    ensures r.Fault? <==> row.assetType > ASSET_TYPE_CREDIT_ALPHANUM12
                          || (row.assetType != ASSET_TYPE_NATIVE && row.issuer.None?)
  {
    if row.assetType == ASSET_TYPE_NATIVE then
      Ok(DebitEntry(row.owner, row.debitor, Native))
    else if row.assetType == ASSET_TYPE_CREDIT_ALPHANUM4 then
      match row.issuer
      case None => Fault("invalid issuer key")
      case Some(i) => Ok(DebitEntry(row.owner, row.debitor, CreditAlphaNum4(row.code, i)))
    else if row.assetType == ASSET_TYPE_CREDIT_ALPHANUM12 then
      match row.issuer
      case None => Fault("invalid issuer key")
      case Some(i) => Ok(DebitEntry(row.owner, row.debitor, CreditAlphaNum12(row.code, i)))
    else
      Fault("invalid asset type")
  }

  /** Processing one row while loading: decode it, then fault unless the entry is valid. */
  function LoadRow(row: Row): (r: Result<DebitEntry>)
    ensures r.Ok? ==> IsValid(r.value) && ReadRow(row) == r
    ensures r.Ok? ==> KeyFields(KeyOf(r.value)) == RowKey(row) && r.value.owner == row.owner
    ensures r.Fault? <==> ReadRow(row).Fault? || !IsValid(ReadRow(row).value)
  {
    match ReadRow(row)
    case Fault(m) => Fault(m)
    case Ok(e) => if IsValid(e) then Ok(e) else Fault("Invalid DebitEntry")
  }

  /** The row that storing an entry inserts; reading it back yields the entry. */
  function RowOf(e: DebitEntry): (row: Row)
    ensures ReadRow(row) == Ok(e)
    ensures RowKey(row) == KeyFields(KeyOf(e))
    ensures IsValid(e) ==> LoadRow(row) == Ok(e)
  {
    var dk := KeyFields(KeyOf(e));
    Row(e.owner, e.debitor, AssetType(e.asset), dk.issuer, dk.code)
  }

  /** Every row of the relation sits under its own primary key. */
  ghost predicate TableKeyed(debits: map<DbKey, Row>) {
    forall dk :: dk in debits ==> RowKey(debits[dk]) == dk
  }

  /** What a query of the relation by a key's fields yields: nothing, the loaded entry, or a fault. */
  function Lookup(debits: map<DbKey, Row>, k: DebitKey): (r: Result<Option<DebitEntry>>)
    ensures r == Ok(None) <==> KeyFields(k) !in debits
    ensures r.Ok? && r.value.Some? ==> KeyFields(k) in debits && LoadRow(debits[KeyFields(k)]) == Ok(r.value.value)
    ensures r.Fault? <==> KeyFields(k) in debits && LoadRow(debits[KeyFields(k)]).Fault?
  {
    var dk := KeyFields(k);
    if dk !in debits then Ok(None)
    else match LoadRow(debits[dk])
      case Fault(m) => Fault(m)
      case Ok(e) => Ok(Some(e))
  }

  /** On a keyed relation, an entry found under a well-formed key has exactly that key. */
  lemma LookupFindsOwnKey(debits: map<DbKey, Row>, k: DebitKey)
    requires TableKeyed(debits) && IsAssetValid(k.asset)
    requires Lookup(debits, k).Ok? && Lookup(debits, k).value.Some?
    ensures KeyOf(Lookup(debits, k).value.value) == k
  {
    var e := Lookup(debits, k).value.value;
    var dk := KeyFields(k);
    assert RowKey(debits[dk]) == dk;
    KeyFieldsInjective(KeyOf(e), k);
  }

  /** A cache slot agrees with the relation: it holds what a query would return, under the entry's own key. */
  ghost predicate CacheAgrees(debits: map<DbKey, Row>, k: DebitKey, c: Option<DebitEntry>) {
    Lookup(debits, k) == Ok(c) && (c.Some? ==> KeyOf(c.value) == k)
  }

  /**
   * The store's invariant: the relation is keyed by its rows, and the cache,
   * for every key whose asset is well formed, never contradicts the relation
   * (a found entry is the one stored, the absent marker means no row).
   */
  ghost predicate Coherent(db: Database)
    reads db
  {
    && TableKeyed(db.debits)
    && forall k :: k in db.debitCache && IsAssetValid(k.asset) ==> CacheAgrees(db.debits, k, db.debitCache[k])
  }

  /**
   * Changing the relation at one primary key keeps every cache slot whose
   * well-formed key derives a different primary key.
   */
  lemma CacheAgreesElsewhere(debits: map<DbKey, Row>, debits': map<DbKey, Row>, cache: map<DebitKey, Option<DebitEntry>>, k: DebitKey)
    requires IsAssetValid(k.asset)
    requires forall dk :: dk != KeyFields(k) ==> (dk in debits <==> dk in debits') && (dk in debits ==> debits[dk] == debits'[dk])
    requires forall k' :: k' in cache && IsAssetValid(k'.asset) ==> CacheAgrees(debits, k', cache[k'])
    ensures forall k' :: k' in cache && k' != k && IsAssetValid(k'.asset) ==> CacheAgrees(debits', k', cache[k'])
  {
    forall k' | k' in cache && k' != k && IsAssetValid(k'.asset)
      ensures CacheAgrees(debits', k', cache[k'])
    {
      KeyFieldsInjective(k', k);
      assert Lookup(debits', k') == Lookup(debits, k');
    }
  }

  /**
   * Existence check: true from the cache only when it holds an entry;
   * otherwise, also on an absent marker, the relation is consulted. The cache
   * is never written.
   */
  method Exists(db: Database, k: DebitKey) returns (b: bool)
    ensures k in db.debitCache && db.debitCache[k].Some? ==> b
    ensures !(k in db.debitCache && db.debitCache[k].Some?) ==> (b <==> KeyFields(k) in db.debits)
    ensures Coherent(db) && IsAssetValid(k.asset) ==> (b <==> KeyFields(k) in db.debits)
  {
    if k in db.debitCache && db.debitCache[k].Some? {
      return true;
    }
    var dk := KeyFields(k);
    b := dk in db.debits;
  }

  /**
   * Deleting by key: flush the cache slot, remove the row with all four key
   * fields (zero or one row, so deleting an absent key is a no-op), and always
   * log the deletion.
   */
  method StoreDelete(db: Database, delta: LedgerDelta, k: DebitKey)
    modifies db`debits, db`debitCache, delta`changes
    ensures db.debitCache == old(db.debitCache) - {k}
    ensures db.debits == old(db.debits) - {KeyFields(k)}
    ensures KeyFields(k) !in old(db.debits) ==> db.debits == old(db.debits)
    ensures Lookup(db.debits, k) == Ok(None)
    ensures delta.changes == old(delta.changes) + [Deleted(DebitLK(k))]
    ensures old(Coherent(db)) && IsAssetValid(k.asset) ==> Coherent(db)
  {
    ghost var debits0, cache0 := db.debits, db.debitCache;
    db.debitCache := db.debitCache - {k};
    var dk := KeyFields(k);
    db.debits := db.debits - {dk};
    delta.changes := delta.changes + [Deleted(DebitLK(k))];
    if old(Coherent(db)) && IsAssetValid(k.asset) {
      CacheAgreesElsewhere(debits0, db.debits, cache0, k);
    }
  }

  /** A debit authorization is immutable: changing it in place always faults. */
  method StoreChange(db: Database, delta: LedgerDelta, e: DebitEntry) returns (r: Result<()>)
    ensures r.Fault?
  {
    return Fault("DebitFrame is unchangeable object");
  }

  /**
   * Adding an entry: an invalid entry faults before anything is touched;
   * otherwise the cache slot is flushed and one row is inserted, which faults
   * unless exactly one row was affected (none is when the key is taken); only
   * on success is the addition logged.
   */
  method StoreAdd(db: Database, delta: LedgerDelta, e: DebitEntry) returns (r: Result<()>)
    modifies db`debits, db`debitCache, delta`changes
    ensures !IsValid(e) ==> r.Fault? && db.debitCache == old(db.debitCache)
    ensures IsValid(e) ==> db.debitCache == old(db.debitCache) - {KeyOf(e)}
    ensures IsValid(e) ==> (r.Ok? <==> KeyFields(KeyOf(e)) !in old(db.debits))
    ensures r.Ok? ==> db.debits == old(db.debits)[KeyFields(KeyOf(e)) := RowOf(e)]
    ensures r.Ok? ==> delta.changes == old(delta.changes) + [Added(DebitLE(e))]
    ensures r.Ok? ==> Lookup(db.debits, KeyOf(e)) == Ok(Some(e))
    ensures r.Fault? ==> db.debits == old(db.debits) && delta.changes == old(delta.changes)
    ensures old(Coherent(db)) ==> Coherent(db)
  {
    if !IsValid(e) {
      return Fault("Invalid DebitEntry");
    }
    var k := KeyOf(e);
    ghost var debits0, cache0 := db.debits, db.debitCache;
    db.debitCache := db.debitCache - {k};
    var dk := KeyFields(k);
    if dk in db.debits {
      // the primary key is taken: the insert is rejected by the relation
      return Fault("Could not update data in SQL");
    }
    db.debits := db.debits[dk := RowOf(e)];
    delta.changes := delta.changes + [Added(DebitLE(e))];
    if old(Coherent(db)) {
      CacheAgreesElsewhere(debits0, db.debits, cache0, k);
    }
    return Ok(());
  }

  /**
   * The row loop: every row is decoded and checked for validity, and the
   * first row that fails aborts the whole load with its fault; otherwise the
   * entries come out in row order.
   */
  method LoadDebits(rows: seq<Row>) returns (r: Result<seq<DebitEntry>>)
    ensures r.Ok? <==> forall i :: 0 <= i < |rows| ==> LoadRow(rows[i]).Ok?
    ensures r.Ok? ==> |r.value| == |rows| && forall i :: 0 <= i < |rows| ==> LoadRow(rows[i]) == Ok(r.value[i])
    ensures r.Fault? ==> exists i :: 0 <= i < |rows| && LoadRow(rows[i]).Fault? && LoadRow(rows[i]).reason == r.reason
                                   && forall j :: 0 <= j < i ==> LoadRow(rows[j]).Ok?
  {
    var loaded: seq<DebitEntry> := [];
    var i := 0;
    while i < |rows|
      invariant 0 <= i <= |rows| && |loaded| == i
      invariant forall j :: 0 <= j < i ==> LoadRow(rows[j]) == Ok(loaded[j])
    {
      var e := ReadRow(rows[i]);
      if e.Fault? {
        return Fault(e.reason);
      }
      if !IsValid(e.value) {
        return Fault("Invalid DebitEntry");
      }
      loaded := loaded + [e.value];
      i := i + 1;
    }
    return Ok(loaded);
  }

  /**
   * Loading one authorization. A cache hit answers without a query: the absent
   * marker gives nothing, an entry gives a copy, recorded in the delta when one
   * is supplied. A miss queries by the key's four fields, caches the found
   * entry under its key or the absent marker under the queried key, and
   * records into the delta only what was found.
   */
  method LoadDebit(db: Database, owner: AccountId, debitor: AccountId, asset: Asset, delta: LedgerDelta?)
    returns (r: Result<Option<DebitEntry>>)
    modifies db`debitCache, delta
    ensures var k := DebitKey(owner, debitor, asset);
      k in old(db.debitCache) ==> r == Ok(old(db.debitCache)[k]) && db.debitCache == old(db.debitCache)
    ensures var k := DebitKey(owner, debitor, asset);
      k !in old(db.debitCache) ==> r == Lookup(db.debits, k)
    ensures var k := DebitKey(owner, debitor, asset);
      k !in old(db.debitCache) ==>
        db.debitCache == match r
          case Ok(Some(e)) => old(db.debitCache)[KeyOf(e) := Some(e)]
          case Ok(None) => old(db.debitCache)[k := None]
          case Fault(_) => old(db.debitCache)
    ensures delta != null ==>
      delta.changes == old(delta.changes) + (if r.Ok? && r.value.Some? then [Recorded(DebitLE(r.value.value))] else [])
    ensures old(Coherent(db)) ==> Coherent(db)
    ensures old(Coherent(db)) && IsAssetValid(asset) ==> r == Lookup(db.debits, DebitKey(owner, debitor, asset))
  {
    var k := DebitKey(owner, debitor, asset);
    if k in db.debitCache {
      var p := db.debitCache[k];
      if p.None? {
        return Ok(None);
      }
      if delta != null {
        delta.changes := delta.changes + [Recorded(DebitLE(p.value))];
      }
      return Ok(p);
    }
    var dk := KeyFields(k);
    var rows := if dk in db.debits then [db.debits[dk]] else [];
    var loaded := LoadDebits(rows);
    if loaded.Fault? {
      return Fault(loaded.reason);
    }
    var found: Option<DebitEntry> := None;
    if |loaded.value| > 0 {
      found := Some(loaded.value[|loaded.value| - 1]);
    }
    if found.Some? {
      db.debitCache := db.debitCache[KeyOf(found.value) := found];
    } else {
      db.debitCache := db.debitCache[k := None];
    }
    if delta != null && found.Some? {
      delta.changes := delta.changes + [Recorded(DebitLE(found.value))];
    }
    return Ok(found);
  }

  /**
   * Loading every authorization of one owner and appending it to `retDebits`.
   * `rows` is the result set of the query by owner: exactly the relation's rows
   * with that owner, in the order the database yields them.
   */
  method LoadDebitsForOwner(db: Database, owner: AccountId, rows: seq<Row>, retDebits: seq<DebitEntry>)
    returns (r: Result<seq<DebitEntry>>)
    requires forall row :: row in rows <==> row in db.debits.Values && row.owner == owner
    ensures r.Ok? <==> forall dk :: dk in db.debits && db.debits[dk].owner == owner ==> LoadRow(db.debits[dk]).Ok?
    ensures r.Ok? ==> |r.value| == |retDebits| + |rows| && r.value[..|retDebits|] == retDebits
    ensures r.Ok? ==> forall i :: |retDebits| <= i < |r.value| ==> r.value[i].owner == owner
    ensures r.Ok? ==> forall i :: 0 <= i < |rows| ==> LoadRow(rows[i]) == Ok(r.value[|retDebits| + i])
    ensures r.Ok? ==> forall dk :: dk in db.debits && db.debits[dk].owner == owner ==>
      LoadRow(db.debits[dk]).value in r.value[|retDebits|..]
  {
    var loaded := LoadDebits(rows);
    if loaded.Fault? {
      var i :| 0 <= i < |rows| && LoadRow(rows[i]).Fault?;
      assert rows[i] in rows;
      var dk :| dk in db.debits && db.debits[dk] == rows[i];
      return Fault(loaded.reason);
    }
    forall dk | dk in db.debits && db.debits[dk].owner == owner
      ensures LoadRow(db.debits[dk]).Ok? && LoadRow(db.debits[dk]).value in loaded.value
    {
      assert db.debits[dk] in db.debits.Values;
      var i :| 0 <= i < |rows| && rows[i] == db.debits[dk];
      assert LoadRow(rows[i]) == Ok(loaded.value[i]);
    }
    r := Ok(retDebits + loaded.value);
    assert r.value[|retDebits|..] == loaded.value;
    forall i | |retDebits| <= i < |r.value|
      ensures r.value[i].owner == owner
    {
      var j := i - |retDebits|;
      assert LoadRow(rows[j]) == Ok(loaded.value[j]);
      assert rows[j] in rows;
    }
  }

  /** The entries of `es` owned by `o`, in their order in `es`. */
  function OwnedBy(es: seq<DebitEntry>, o: AccountId): (os: seq<DebitEntry>)
    ensures forall e :: e in os ==> e in es && e.owner == o
  {
    if es == [] then []
    else OwnedBy(es[..|es| - 1], o) + (if es[|es| - 1].owner == o then [es[|es| - 1]] else [])
  }

  /** Every entry is among the entries of its own owner. */
  lemma {:induction false} OwnedByHas(es: seq<DebitEntry>, j: int)
    requires 0 <= j < |es|
    ensures es[j] in OwnedBy(es, es[j].owner)
  {
    if j < |es| - 1 {
      OwnedByHas(es[..|es| - 1], j);
    }
  }

  /**
   * The grouping step of the full load: each entry is appended, in order, to
   * the list of its owner, and an owner appears only once it has an entry.
   */
  method GroupByOwner(es: seq<DebitEntry>) returns (byOwner: map<AccountId, seq<DebitEntry>>)
    ensures forall o, e :: o in byOwner && e in byOwner[o] ==> e.owner == o && e in es
    ensures forall j :: 0 <= j < |es| ==> es[j].owner in byOwner && es[j] in byOwner[es[j].owner]
    ensures forall o :: o in byOwner ==> |byOwner[o]| > 0 && byOwner[o] == OwnedBy(es, o)
  {
    byOwner := map[];
    var i := 0;
    while i < |es|
      invariant 0 <= i <= |es|
      invariant forall o :: o in byOwner ==> |byOwner[o]| > 0 && byOwner[o] == OwnedBy(es[..i], o)
      invariant forall o :: o !in byOwner ==> OwnedBy(es[..i], o) == []
    {
      var e := es[i];
      forall o
        ensures OwnedBy(es[..i + 1], o) == OwnedBy(es[..i], o) + (if e.owner == o then [e] else [])
      {
        assert es[..i + 1][..i] == es[..i];
      }
      var mine := if e.owner in byOwner then byOwner[e.owner] else [];
      byOwner := byOwner[e.owner := mine + [e]];
      i := i + 1;
    }
    assert es[..i] == es;
    forall j | 0 <= j < |es|
      ensures es[j].owner in byOwner && es[j] in byOwner[es[j].owner]
    {
      OwnedByHas(es, j);
    }
  }

  /**
   * Loading every authorization, grouped by owner. `rows` is the result set of
   * the full scan: exactly the relation's rows. Each owner present maps to
   * the entries of its rows, one per row and in row order, and an owner is
   * present only if it has a row.
   */
  method LoadAllDebits(db: Database, rows: seq<Row>) returns (r: Result<map<AccountId, seq<DebitEntry>>>)
    requires forall row :: row in rows <==> row in db.debits.Values
    ensures r.Ok? <==> forall dk :: dk in db.debits ==> LoadRow(db.debits[dk]).Ok?
    ensures r.Ok? ==> forall o, e :: o in r.value && e in r.value[o] ==> e.owner == o
    ensures r.Ok? ==> forall o, e :: o in r.value && e in r.value[o] ==>
      exists dk :: dk in db.debits && LoadRow(db.debits[dk]) == Ok(e)
    ensures r.Ok? ==> forall dk :: dk in db.debits ==>
      var e := LoadRow(db.debits[dk]).value; e.owner in r.value && e in r.value[e.owner]
    ensures r.Ok? ==> forall o :: o in r.value ==> |r.value[o]| > 0
    ensures r.Ok? ==> forall o :: o in r.value ==>
      exists es :: && |es| == |rows|
                   && (forall i :: 0 <= i < |rows| ==> LoadRow(rows[i]) == Ok(es[i]))
                   && r.value[o] == OwnedBy(es, o)
  {
    var loaded := LoadDebits(rows);
    if loaded.Fault? {
      var i :| 0 <= i < |rows| && LoadRow(rows[i]).Fault?;
      assert rows[i] in rows;
      var dk :| dk in db.debits && db.debits[dk] == rows[i];
      return Fault(loaded.reason);
    }
    var es := loaded.value;
    var byOwner := GroupByOwner(es);
    forall dk | dk in db.debits
      ensures LoadRow(db.debits[dk]).Ok?
      ensures var e := LoadRow(db.debits[dk]).value; e.owner in byOwner && e in byOwner[e.owner]
    {
      assert db.debits[dk] in db.debits.Values;
      var j :| 0 <= j < |rows| && rows[j] == db.debits[dk];
      assert LoadRow(rows[j]) == Ok(es[j]);
    }
    forall o, e | o in byOwner && e in byOwner[o]
      ensures exists dk :: dk in db.debits && LoadRow(db.debits[dk]) == Ok(e)
    {
      var j :| 0 <= j < |es| && es[j] == e;
      assert LoadRow(rows[j]) == Ok(es[j]);
      assert rows[j] in rows;
      var dk :| dk in db.debits && db.debits[dk] == rows[j];
    }
    return Ok(byOwner);
  }

  /**
   * Through the cache: after adding a valid entry under a free key, loading it
   * gives the entry back and it exists; after deleting it, it no longer exists
   * and loading finds nothing.
   */
  method AddLoadDelete(db: Database, delta: LedgerDelta, e: DebitEntry)
    returns (loaded: Result<Option<DebitEntry>>, existed: bool, reloaded: Result<Option<DebitEntry>>, exists': bool)
    requires Coherent(db) && IsValid(e) && KeyFields(KeyOf(e)) !in db.debits
    modifies db, delta
    ensures loaded == Ok(Some(e)) && existed
    ensures reloaded == Ok(None) && !exists'
    ensures db.debits == old(db.debits) && Coherent(db)
  {
    var added := StoreAdd(db, delta, e);
    loaded := LoadDebit(db, e.owner, e.debitor, e.asset, delta);
    existed := Exists(db, KeyOf(e));
    StoreDelete(db, delta, KeyOf(e));
    exists' := Exists(db, KeyOf(e));
    reloaded := LoadDebit(db, e.owner, e.debitor, e.asset, null);
  }
}
