/**
 * DigitalOcean DNS records of one domain: the domain's records are held in memory by a
 * class standing for the provider, and the service's operations are its methods.  A
 * provider failure, when one is set, makes every request fail with the provider's message,
 * which the service wraps with the operation's prefix.
 */
module DoDns {
  import opened Wrappers

  /** The record types the service supports. */
  const RecordTypes: seq<string> := ["A", "AAAA", "CNAME"]

  /** The message DigitalOcean sends with a not-found response. */
  const NotFoundMessage: string := "The resource you were accessing could not be found."

  /** A record as DigitalOcean stores and the service lists it. */
  datatype DoRecord = DoRecord(id: nat, rtype: string, name: string, data: Option<string>, ttl: int)

  datatype SetAction = Created | Updated

  /** The service's RuntimeException, with its message. */
  datatype DoError = DoError(message: string)

  function ListFailed(domain: string, msg: string): DoError {
    DoError("Failed to list DNS records for '" + domain + "': " + msg)
  }

  function CreateFailed(msg: string): DoError {
    DoError("Failed to create DNS record: " + msg)
  }

  function UpdateFailed(msg: string): DoError {
    DoError("Failed to update DNS record: " + msg)
  }

  function DeleteFailed(msg: string): DoError {
    DoError("Failed to delete DNS record: " + msg)
  }

  //
  // Listing and finding
  // ----

  /** The records with the type (every record without a type filter), in the provider's order. */
  function OfType(records: seq<DoRecord>, rtype: Option<string>): seq<DoRecord>
    decreases |records|
  {
    if |records| == 0 then []
    else if rtype.Some? && records[0].rtype != rtype.value then OfType(records[1..], rtype)
    else [records[0]] + OfType(records[1..], rtype)
  }

  /** A record is listed exactly when it is stored and has the requested type. */
  lemma {:induction false} OfTypeIff(records: seq<DoRecord>, rtype: Option<string>)
    ensures forall r :: r in OfType(records, rtype) <==> r in records && (rtype.Some? ==> r.rtype == rtype.value)
    ensures rtype.None? ==> OfType(records, rtype) == records
    decreases |records|
  {
    if |records| > 0 {
      OfTypeIff(records[1..], rtype);
      assert records == [records[0]] + records[1..];
    }
  }

  /** Listing keeps the provider's order: what passes the filter before a record is listed before it. */
  lemma {:induction false} OfTypeSnoc(records: seq<DoRecord>, r: DoRecord, rtype: Option<string>)
    ensures OfType(records + [r], rtype)
         == OfType(records, rtype) + (if rtype.Some? && r.rtype != rtype.value then [] else [r])
    decreases |records|
  {
    if |records| > 0 {
      assert (records + [r])[1..] == records[1..] + [r];
      OfTypeSnoc(records[1..], r, rtype);
    }
  }

  /** The first record with the type and the exact name. */
  function FirstNamed(records: seq<DoRecord>, rtype: string, name: string): (r: Option<DoRecord>)
    decreases |records|
  {
    if |records| == 0 then None
    else if records[0].rtype == rtype && records[0].name == name then Some(records[0])
    else FirstNamed(records[1..], rtype, name)
  }

  /** The scan of findRecord over a listing of one type: the first record with the name. */
  method ScanNamed(items: seq<DoRecord>, rtype: string, name: string) returns (r: Option<DoRecord>)
    requires forall k :: 0 <= k < |items| ==> items[k].rtype == rtype
    ensures r == FirstNamed(items, rtype, name)
  {
    var i := 0;
    while i < |items|
      invariant i <= |items|
      invariant FirstNamed(items, rtype, name) == FirstNamed(items[i..], rtype, name)
    {
      if items[i].name == name {
        return Some(items[i]);
      }
      assert items[i..][1..] == items[i + 1..];
      i := i + 1;
    }
    return None;
  }

  predicate Named(r: DoRecord, rtype: string, name: string) {
    r.rtype == rtype && r.name == name
  }

  /** The first match is the earliest record with the type and name; None when there is none. */
  lemma {:induction false} FirstNamedIndex(records: seq<DoRecord>, rtype: string, name: string)
    ensures FirstNamed(records, rtype, name).None? <==> forall j :: 0 <= j < |records| ==> !Named(records[j], rtype, name)
    ensures FirstNamed(records, rtype, name).Some? ==>
      exists k :: 0 <= k < |records| && records[k] == FirstNamed(records, rtype, name).value
        && Named(records[k], rtype, name) && forall j :: 0 <= j < k ==> !Named(records[j], rtype, name)
    decreases |records|
  {
    if |records| > 0 && !Named(records[0], rtype, name) {
      FirstNamedIndex(records[1..], rtype, name);
      forall j | 0 <= j < |records[1..]| ensures records[1..][j] == records[j + 1] { }
      var f := FirstNamed(records, rtype, name);
      if f.Some? {
        var k :| 0 <= k < |records[1..]| && records[1..][k] == f.value
          && Named(records[1..][k], rtype, name) && forall j :: 0 <= j < k ==> !Named(records[1..][j], rtype, name);
        assert records[k + 1] == f.value;
      }
    }
  }

  /** A record with the type and name that comes before every other one is the first match. */
  lemma {:induction false} FirstNamedAt(records: seq<DoRecord>, rtype: string, name: string, k: nat)
    requires k < |records| && Named(records[k], rtype, name)
    requires forall j :: 0 <= j < k ==> !Named(records[j], rtype, name)
    ensures FirstNamed(records, rtype, name) == Some(records[k])
    decreases k
  {
    if k > 0 {
      FirstNamedAt(records[1..], rtype, name, k - 1);
    }
  }

  /** Searching the type-filtered list by name finds what searching all records by type and name finds. */
  lemma {:induction false} FindInListed(records: seq<DoRecord>, rtype: string, name: string)
    ensures var listed := OfType(records, Some(rtype));
      FirstNamed(records, rtype, name) == FirstNamed(listed, rtype, name)
    decreases |records|
  {
    if |records| > 0 {
      FindInListed(records[1..], rtype, name);
    }
  }

  //
  // Record IDs and upsert
  // ----

  /** Every record's ID was issued before `nextId`, and no two records share one. */
  predicate IdsValid(records: seq<DoRecord>, nextId: nat) {
    (forall i :: 0 <= i < |records| ==> records[i].id < nextId)
    && forall i, j :: 0 <= i < j < |records| ==> records[i].id != records[j].id
  }

  predicate HasId(records: seq<DoRecord>, id: nat) {
    exists i :: 0 <= i < |records| && records[i].id == id
  }

  /**
   * An update of a record: DigitalOcean's update request carries the name, data and TTL,
   * so the record keeps its ID and its type.
   */
  function WithUpdate(r: DoRecord, name: string, data: string, ttl: int): DoRecord {
    DoRecord(r.id, r.rtype, name, Some(data), ttl)
  }

  /** The records after updating the one with the ID; every other record is kept. */
  function UpdateId(records: seq<DoRecord>, id: nat, name: string, data: string, ttl: int): (r: seq<DoRecord>)
    ensures |r| == |records|
    ensures forall i :: 0 <= i < |records| ==>
      r[i] == if records[i].id == id then WithUpdate(records[i], name, data, ttl) else records[i]
  {
    seq(|records|, i requires 0 <= i < |records| =>
      if records[i].id == id then WithUpdate(records[i], name, data, ttl) else records[i])
  }

  /** The records other than the one with the ID, in order. */
  function RemoveId(records: seq<DoRecord>, id: nat): (r: seq<DoRecord>)
    ensures forall x :: x in r <==> x in records && x.id != id
    decreases |records|
  {
    if |records| == 0 then []
    else if records[0].id == id then RemoveId(records[1..], id)
    else [records[0]] + RemoveId(records[1..], id)
  }

  /** Removing keeps a subsequence of the records, so the IDs stay valid. */
  lemma {:induction false} RemoveIdValid(records: seq<DoRecord>, nextId: nat, id: nat)
    requires IdsValid(records, nextId)
    ensures IdsValid(RemoveId(records, id), nextId)
    decreases |records|
  {
    if |records| > 0 {
      var rest := records[1..];
      assert IdsValid(rest, nextId) by {
        forall i | 0 <= i < |rest| ensures rest[i] == records[i + 1] { }
      }
      RemoveIdValid(rest, nextId, id);
      if records[0].id != id {
        var tail := RemoveId(rest, id);
        forall x | x in tail ensures x.id != records[0].id {
          var i :| 0 <= i < |rest| && rest[i] == x;
          assert records[i + 1] == x;
        }
        var r := [records[0]] + tail;
        forall i | 0 <= i < |r| ensures r[i].id < nextId {
          assert r[i] in records;
        }
      }
    }
  }

  /** Removing an ID no record carries changes nothing. */
  lemma {:induction false} RemoveAbsentId(records: seq<DoRecord>, id: nat)
    requires !HasId(records, id)
    ensures RemoveId(records, id) == records
    decreases |records|
  {
    if |records| > 0 {
      AbsentIdTail(records, id);
      RemoveAbsentId(records[1..], id);
      assert records == [records[0]] + records[1..];
    }
  }

  /** An ID no record carries is carried neither by the first record nor by the rest. */
  lemma AbsentIdTail(records: seq<DoRecord>, id: nat)
    requires |records| > 0 && !HasId(records, id)
    ensures records[0].id != id && !HasId(records[1..], id)
  {
    var rest := records[1..];
    forall i | 0 <= i < |rest| ensures rest[i].id != id {
      assert rest[i] == records[i + 1];
    }
  }

  /** The outcome of setRecord: the action, the record's ID and the records and counter afterwards. */
  datatype Upserted = Upserted(action: SetAction, id: nat, records: seq<DoRecord>, nextId: nat)

  /**
   * setRecord on a domain: the first record with the type and name is updated in place
   * under its ID; without one a record is created under a new ID.
   */
  function Upsert(records: seq<DoRecord>, nextId: nat, rtype: string, name: string, data: string, ttl: int): (r: Upserted)
    ensures r.action == Updated <==> FirstNamed(records, rtype, name).Some?
    ensures r.action == Updated ==>
      r.id == FirstNamed(records, rtype, name).value.id && |r.records| == |records| && r.nextId == nextId
    ensures r.action == Created ==>
      r.id == nextId && r.nextId == nextId + 1 && |r.records| == |records| + 1 && r.records[..|records|] == records &&
      r.records[|records|] == DoRecord(nextId, rtype, name, Some(data), ttl)
  {
    match FirstNamed(records, rtype, name)
    case Some(e) => Upserted(Updated, e.id, UpdateId(records, e.id, name, data, ttl), nextId)
    case None => Upserted(Created, nextId, records + [DoRecord(nextId, rtype, name, Some(data), ttl)], nextId + 1)
  }

  /** An upsert keeps the IDs valid. */
  lemma UpsertValid(records: seq<DoRecord>, nextId: nat, rtype: string, name: string, data: string, ttl: int)
    requires IdsValid(records, nextId)
    ensures var u := Upsert(records, nextId, rtype, name, data, ttl); IdsValid(u.records, u.nextId)
  {
    var u := Upsert(records, nextId, rtype, name, data, ttl);
    assert forall i :: 0 <= i < |u.records| && i < |records| ==> u.records[i].id == records[i].id;
  }

  /** With distinct IDs, updating by the ID of the record at `k` updates exactly that record. */
  lemma UpdateIdAt(records: seq<DoRecord>, nextId: nat, k: nat, name: string, data: string, ttl: int)
    requires IdsValid(records, nextId) && k < |records|
    ensures UpdateId(records, records[k].id, name, data, ttl) == records[k := WithUpdate(records[k], name, data, ttl)]
  {
  }

  /** The number of records with the type and name. */
  function Count(records: seq<DoRecord>, rtype: string, name: string): nat
    decreases |records|
  {
    if |records| == 0 then 0
    else (if Named(records[0], rtype, name) then 1 else 0) + Count(records[1..], rtype, name)
  }

  lemma {:induction false} CountUpdate(records: seq<DoRecord>, k: nat, rec: DoRecord, rtype: string, name: string)
    requires k < |records| && Named(records[k], rtype, name) == Named(rec, rtype, name)
    ensures Count(records[k := rec], rtype, name) == Count(records, rtype, name)
    decreases k
  {
    var u := records[k := rec];
    if k == 0 {
      assert u[1..] == records[1..];
    } else {
      assert u[1..] == records[1..][k - 1 := rec];
      CountUpdate(records[1..], k - 1, rec, rtype, name);
    }
  }

  lemma {:induction false} CountSnoc(records: seq<DoRecord>, rec: DoRecord, rtype: string, name: string)
    ensures Count(records + [rec], rtype, name) == Count(records, rtype, name) + if Named(rec, rtype, name) then 1 else 0
    decreases |records|
  {
    if |records| > 0 {
      assert (records + [rec])[1..] == records[1..] + [rec];
      CountSnoc(records[1..], rec, rtype, name);
    }
  }

  lemma {:induction false} CountZero(records: seq<DoRecord>, rtype: string, name: string)
    requires forall j :: 0 <= j < |records| ==> !Named(records[j], rtype, name)
    ensures Count(records, rtype, name) == 0
    decreases |records|
  {
    if |records| > 0 {
      CountZero(records[1..], rtype, name);
    }
  }

  /**
   * setRecord never duplicates a (type, name) pair: with a match the number of records with
   * that type and name is unchanged, without one it becomes exactly one.
   */
  lemma UpsertNoDuplicate(records: seq<DoRecord>, nextId: nat, rtype: string, name: string, data: string, ttl: int)
    requires IdsValid(records, nextId)
    ensures var u := Upsert(records, nextId, rtype, name, data, ttl);
      Count(u.records, rtype, name) == if Count(records, rtype, name) == 0 then 1 else Count(records, rtype, name)
  {
    FirstNamedIndex(records, rtype, name);
    match FirstNamed(records, rtype, name)
    case Some(e) =>
      var k :| 0 <= k < |records| && records[k] == e && Named(e, rtype, name);
      UpdateIdAt(records, nextId, k, name, data, ttl);
      CountUpdate(records, k, WithUpdate(e, name, data, ttl), rtype, name);
      assert Count(records, rtype, name) > 0 by {
        CountPositive(records, rtype, name, k);
      }
    case None =>
      CountZero(records, rtype, name);
      CountSnoc(records, DoRecord(nextId, rtype, name, Some(data), ttl), rtype, name);
  }

  lemma {:induction false} CountPositive(records: seq<DoRecord>, rtype: string, name: string, k: nat)
    requires k < |records| && Named(records[k], rtype, name)
    ensures Count(records, rtype, name) > 0
    decreases k
  {
    if k > 0 {
      CountPositive(records[1..], rtype, name, k - 1);
    }
  }

  /** After an upsert, the first record with the type and name is the written one, under the reported ID. */
  lemma UpsertThenFind(records: seq<DoRecord>, nextId: nat, rtype: string, name: string, data: string, ttl: int)
    requires IdsValid(records, nextId)
    ensures var u := Upsert(records, nextId, rtype, name, data, ttl);
      FirstNamed(u.records, rtype, name) == Some(DoRecord(u.id, rtype, name, Some(data), ttl))
  {
    FirstNamedIndex(records, rtype, name);
    match FirstNamed(records, rtype, name)
    case Some(e) =>
      var k :| 0 <= k < |records| && records[k] == e && Named(records[k], rtype, name)
        && forall j :: 0 <= j < k ==> !Named(records[j], rtype, name);
      UpdateIdAt(records, nextId, k, name, data, ttl);
      FirstNamedAt(records[k := WithUpdate(e, name, data, ttl)], rtype, name, k);
    case None =>
      var r := records + [DoRecord(nextId, rtype, name, Some(data), ttl)];
      FirstNamedAt(r, rtype, name, |records|);
  }

  /** A second identical upsert updates the record the first one wrote and changes nothing. */
  lemma UpsertTwice(records: seq<DoRecord>, nextId: nat, rtype: string, name: string, data: string, ttl: int)
    requires IdsValid(records, nextId)
    ensures var u := Upsert(records, nextId, rtype, name, data, ttl);
      var v := Upsert(u.records, u.nextId, rtype, name, data, ttl);
      v.action == Updated && v.id == u.id && v.records == u.records && v.nextId == u.nextId
  {
    var u := Upsert(records, nextId, rtype, name, data, ttl);
    var e := DoRecord(u.id, rtype, name, Some(data), ttl);
    UpsertValid(records, nextId, rtype, name, data, ttl);
    UpsertThenFind(records, nextId, rtype, name, data, ttl);
    UpsertFound(u.records, u.nextId, e, data, ttl);
  }

  /** Upserting the values a found record already holds leaves the records as they are. */
  lemma UpsertFound(records: seq<DoRecord>, nextId: nat, e: DoRecord, data: string, ttl: int)
    requires IdsValid(records, nextId)
    requires FirstNamed(records, e.rtype, e.name) == Some(e) && e.data == Some(data) && e.ttl == ttl
    ensures Upsert(records, nextId, e.rtype, e.name, data, ttl) == Upserted(Updated, e.id, records, nextId)
  {
    FirstNamedIndex(records, e.rtype, e.name);
    var k :| 0 <= k < |records| && records[k] == e;
    UpdateIdAt(records, nextId, k, e.name, data, ttl);
    assert records[k := WithUpdate(records[k], e.name, data, ttl)] == records;
  }

  //
  // The domain
  // ----

  /** The DNS records of one DigitalOcean domain, the ID counter and an optional provider failure. */
  class DoDomainRecords {
    const domain: string
    var records: seq<DoRecord>
    var nextId: nat
    /** When set, every request fails with this provider message. */
    var failure: Option<string>

    predicate Valid()
      reads this
    {
      IdsValid(records, nextId)
    }

    constructor (domain: string)
      ensures this.domain == domain && records == [] && nextId == 0 && failure == None && Valid()
    {
      this.domain := domain;
      records := [];
      nextId := 0;
      failure := None;
    }

    /** listRecords: the records with the type (all without a filter), in the provider's order. */
    method ListRecords(rtype: Option<string>) returns (r: Result<seq<DoRecord>, DoError>)
      ensures failure.Some? ==> r == Err(ListFailed(domain, failure.value))
      ensures failure.None? ==> r == Ok(OfType(records, rtype))
    {
      if failure.Some? {
        return Err(ListFailed(domain, failure.value));
      }
      var result := [];
      var i := 0;
      while i < |records|
        invariant i <= |records|
        invariant result == OfType(records[..i], rtype)
      {
        var record := records[i];
        assert records[..i + 1] == records[..i] + [record];
        OfTypeSnoc(records[..i], record, rtype);
        if rtype.Some? && record.rtype != rtype.value {
          i := i + 1;
          continue;
        }
        result := result + [record];
        i := i + 1;
      }
      assert records[..i] == records;
      return Ok(result);
    }

    /** findRecord: the first listed record of the type whose name is `name`. */
    method FindRecord(rtype: string, name: string) returns (r: Result<Option<DoRecord>, DoError>)
      ensures failure.Some? ==> r == Err(ListFailed(domain, failure.value))
      ensures failure.None? ==> r == Ok(FirstNamed(records, rtype, name))
    {
      var listed := ListRecords(Some(rtype));
      if listed.Err? {
        return Err(listed.error);
      }
      var items := listed.value;
      OfTypeIff(records, Some(rtype));
      FindInListed(records, rtype, name);
      assert forall k :: 0 <= k < |items| ==> items[k].rtype == rtype by {
        forall k | 0 <= k < |items| ensures items[k].rtype == rtype {
          assert items[k] in items;
        }
      }
      var found := ScanNamed(items, rtype, name);
      return Ok(found);
    }

    /** createRecord: the record is stored under a new ID, which is returned. */
    method CreateRecord(rtype: string, name: string, data: string, ttl: int) returns (r: Result<nat, DoError>)
      requires Valid()
      modifies this
      ensures Valid() && failure == old(failure)
      ensures old(failure).Some? ==> r == Err(CreateFailed(old(failure).value)) && records == old(records) && nextId == old(nextId)
      ensures old(failure).None? ==>
        r == Ok(old(nextId)) && !HasId(old(records), old(nextId))
        && records == old(records) + [DoRecord(old(nextId), rtype, name, Some(data), ttl)]
        && nextId == old(nextId) + 1
    {
      if failure.Some? {
        return Err(CreateFailed(failure.value));
      }
      var id := nextId;
      records := records + [DoRecord(id, rtype, name, Some(data), ttl)];
      nextId := nextId + 1;
      return Ok(id);
    }

    /** updateRecord: the record's name, data and TTL are replaced; an unknown ID is a wrapped not-found error. */
    method UpdateRecord(recordId: nat, name: string, data: string, ttl: int) returns (r: Result<(), DoError>)
      requires Valid()
      modifies this
      ensures Valid() && failure == old(failure) && nextId == old(nextId)
      ensures old(failure).Some? ==> r == Err(UpdateFailed(old(failure).value)) && records == old(records)
      ensures old(failure).None? && !HasId(old(records), recordId) ==>
        r == Err(UpdateFailed(NotFoundMessage)) && records == old(records)
      ensures old(failure).None? && HasId(old(records), recordId) ==>
        r == Ok(()) && records == UpdateId(old(records), recordId, name, data, ttl)
    {
      if failure.Some? {
        return Err(UpdateFailed(failure.value));
      }
      if !HasId(records, recordId) {
        return Err(UpdateFailed(NotFoundMessage));
      }
      records := UpdateId(records, recordId, name, data, ttl);
      return Ok(());
    }

    /** deleteRecord: the record is removed; an unknown ID is already deleted and succeeds. */
    method DeleteRecord(recordId: nat) returns (r: Result<(), DoError>)
      requires Valid()
      modifies this
      ensures Valid() && failure == old(failure) && nextId == old(nextId)
      ensures old(failure).Some? ==> r == Err(DeleteFailed(old(failure).value)) && records == old(records)
      ensures old(failure).None? ==> r == Ok(()) && records == RemoveId(old(records), recordId)
      ensures old(failure).None? && !HasId(old(records), recordId) ==> records == old(records)
    {
      if failure.Some? {
        return Err(DeleteFailed(failure.value));
      }
      if !HasId(records, recordId) {
        RemoveAbsentId(records, recordId);
        return Ok(());
      }
      RemoveIdValid(records, nextId, recordId);
      records := RemoveId(records, recordId);
      return Ok(());
    }

    /** setRecord: update the record findRecord finds, or create one; the action and ID are returned. */
    method SetRecord(rtype: string, name: string, data: string, ttl: int) returns (r: Result<(SetAction, nat), DoError>)
      requires Valid()
      modifies this
      ensures Valid() && failure == old(failure)
      ensures old(failure).Some? ==>
        r == Err(ListFailed(domain, old(failure).value)) && records == old(records) && nextId == old(nextId)
      ensures old(failure).None? ==>
        var u := Upsert(old(records), old(nextId), rtype, name, data, ttl);
        r == Ok((u.action, u.id)) && records == u.records && nextId == u.nextId
    {
      var existing := FindRecord(rtype, name);
      if existing.Err? {
        return Err(existing.error);
      }
      if existing.value.Some? {
        var e := existing.value.value;
        FirstNamedIndex(records, rtype, name);
        assert HasId(records, e.id);
        var updated := UpdateRecord(e.id, name, data, ttl);
        return Ok((Updated, e.id));
      }
      var created := CreateRecord(rtype, name, data, ttl);
      return Ok((Created, created.value));
    }
  }

  /** Deleting the same record twice succeeds both times and leaves what the first delete left. */
  method DeleteTwice(zone: DoDomainRecords, recordId: nat) returns (first: Result<(), DoError>, second: Result<(), DoError>)
    requires zone.Valid() && zone.failure.None?
    modifies zone
    ensures first == Ok(()) && second == Ok(())
    ensures zone.records == RemoveId(old(zone.records), recordId)
  {
    first := zone.DeleteRecord(recordId);
    second := zone.DeleteRecord(recordId);
  }
}
