/**
 * Cloudflare DNS records of one zone: the zone's records are held in memory by a class
 * standing for the provider, and the service's operations are its methods.  Listing maps
 * the provider's records to the service's shape, finding takes the first exact match and
 * setting a record is an upsert (update the match, or create one).
 */
module CloudflareDns {
  import opened Wrappers
  import opened PhpStrings

  /** The record types the service supports. */
  const RecordTypes: seq<string> := ["A", "AAAA", "CNAME", "MX", "TXT", "NS", "CAA"]

  /** The record types Cloudflare can proxy. */
  const ProxiableTypes: seq<string> := ["A", "AAAA", "CNAME"]

  /** The page size listRecords asks for; only the first page is read. */
  const PerPage: nat := 100

  /** Every proxiable type is a supported type. */
  lemma ProxiableAreRecordTypes()
    ensures forall t :: t in ProxiableTypes ==> t in RecordTypes
  {
  }

  /** A record as Cloudflare stores it; `proxied` and `priority` may be absent (or null). */
  datatype CfRecord = CfRecord(
    id: string, rtype: string, name: string, content: string, ttl: int,
    proxied: Option<bool>, priority: Option<int>)

  /** A record as listRecords returns it: `proxied` is always present. */
  datatype Item = Item(
    id: string, rtype: string, name: string, content: string, ttl: int,
    proxied: bool, priority: Option<int>)

  /** The JSON body of a create or update request; absent keys are None. */
  datatype Payload = Payload(
    rtype: string, name: string, content: string, ttl: int,
    proxied: Option<bool>, priority: Option<int>)

  datatype SetAction = Created | Updated

  //
  // Request bodies
  // ----

  /**
   * The body createRecord and updateRecord send: the type upper-cased, `proxied` only for a
   * proxiable type and `priority` only when given for an MX record.
   */
  function MakePayload(rtype: string, name: string, content: string, ttl: int, proxied: bool, priority: Option<int>): (p: Payload)
    ensures p.rtype == ToUpper(rtype) && p.name == name && p.content == content && p.ttl == ttl
    ensures p.proxied.Some? <==> ToUpper(rtype) in ProxiableTypes
    ensures p.proxied.Some? ==> p.proxied.value == proxied
    ensures p.priority.Some? <==> priority.Some? && ToUpper(rtype) == "MX"
    ensures p.priority.Some? ==> p.priority == priority
  {
    var t := ToUpper(rtype);
    Payload(t, name, content, ttl,
      if t in ProxiableTypes then Some(proxied) else None,
      if priority.Some? && t == "MX" then priority else None)
  }

  /** The type is compared in upper case only, so its spelling does not change the body. */
  lemma MakePayloadIgnoresCase(rtype: string, name: string, content: string, ttl: int, proxied: bool, priority: Option<int>)
    ensures MakePayload(ToUpper(rtype), name, content, ttl, proxied, priority)
         == MakePayload(rtype, name, content, ttl, proxied, priority)
  {
    ToUpperIdempotent(rtype);
  }

  /** A body never carries both a proxy flag and a priority: no proxiable type is MX. */
  lemma PayloadProxiedOrPriority(rtype: string, name: string, content: string, ttl: int, proxied: bool, priority: Option<int>)
    ensures var p := MakePayload(rtype, name, content, ttl, proxied, priority);
      !(p.proxied.Some? && p.priority.Some?)
  {
  }

  /** The record the provider stores for a request body, under the ID it issues. */
  function Stored(id: string, p: Payload): CfRecord {
    CfRecord(id, p.rtype, p.name, p.content, p.ttl, p.proxied, p.priority)
  }

  //
  // Listing
  // ----

  /** A record as the service lists it: a missing `proxied` reads false, `priority` only if set. */
  function ToItem(r: CfRecord): (i: Item)
    ensures i.id == r.id && i.rtype == r.rtype && i.name == r.name && i.content == r.content && i.ttl == r.ttl
    ensures i.proxied <==> r.proxied == Some(true)
    ensures i.priority == r.priority
  {
    Item(r.id, r.rtype, r.name, r.content, r.ttl,
      match r.proxied case Some(b) => b case None => false,
      r.priority)
  }

  function Items(rs: seq<CfRecord>): (items: seq<Item>)
    ensures |items| == |rs|
    ensures forall i :: 0 <= i < |rs| ==> items[i] == ToItem(rs[i])
  {
    seq(|rs|, i requires 0 <= i < |rs| => ToItem(rs[i]))
  }

  /** Whether a record passes the query's type and name filters (exact comparisons). */
  predicate Selects(r: CfRecord, rtype: Option<string>, name: Option<string>) {
    (rtype.Some? ==> r.rtype == rtype.value) && (name.Some? ==> r.name == name.value)
  }

  /** The records that pass the filters, in the provider's order. */
  function Matching(records: seq<CfRecord>, rtype: Option<string>, name: Option<string>): seq<CfRecord>
    decreases |records|
  {
    if |records| == 0 then []
    else if Selects(records[0], rtype, name) then [records[0]] + Matching(records[1..], rtype, name)
    else Matching(records[1..], rtype, name)
  }

  /** The first page of the matching records. */
  function Query(records: seq<CfRecord>, rtype: Option<string>, name: Option<string>): (page: seq<CfRecord>)
  {
    var m := Matching(records, rtype, name);
    if |m| <= PerPage then m else m[..PerPage]
  }

  function UpperOpt(t: Option<string>): Option<string> {
    match t case Some(s) => Some(ToUpper(s)) case None => None
  }

  /** What listRecords returns for the optional type and name filters. */
  function Listed(records: seq<CfRecord>, rtype: Option<string>, name: Option<string>): seq<Item> {
    Items(Query(records, UpperOpt(rtype), name))
  }

  /** A record is among the matching ones exactly when it is stored and passes the filters. */
  lemma {:induction false} MatchingIff(records: seq<CfRecord>, rtype: Option<string>, name: Option<string>)
    ensures forall r :: r in Matching(records, rtype, name) <==> r in records && Selects(r, rtype, name)
    decreases |records|
  {
    if |records| > 0 {
      MatchingIff(records[1..], rtype, name);
      assert records == [records[0]] + records[1..];
    }
  }

  /**
   * Listing returns at most one page; with a type filter every item has the upper-cased
   * type, with a name filter every item has that name, and every item is a stored record.
   */
  lemma ListedShape(records: seq<CfRecord>, rtype: Option<string>, name: Option<string>)
    ensures var items := Listed(records, rtype, name);
      |items| <= PerPage
      && forall i :: 0 <= i < |items| ==>
           (rtype.Some? ==> items[i].rtype == ToUpper(rtype.value))
           && (name.Some? ==> items[i].name == name.value)
           && exists r :: r in records && items[i] == ToItem(r)
  {
    var m := Matching(records, UpperOpt(rtype), name);
    var page := Query(records, UpperOpt(rtype), name);
    MatchingIff(records, UpperOpt(rtype), name);
    var items := Listed(records, rtype, name);
    forall i | 0 <= i < |items|
      ensures (rtype.Some? ==> items[i].rtype == ToUpper(rtype.value))
        && (name.Some? ==> items[i].name == name.value)
        && exists r :: r in records && items[i] == ToItem(r)
    {
      assert page[i] in m;
      assert items[i] == ToItem(page[i]);
    }
  }

  /** A record without a stored proxy flag is listed as not proxied. */
  lemma ListedProxiedDefault(records: seq<CfRecord>, rtype: Option<string>, name: Option<string>, i: nat)
    requires i < |Query(records, UpperOpt(rtype), name)|
    requires Query(records, UpperOpt(rtype), name)[i].proxied.None?
    ensures !Listed(records, rtype, name)[i].proxied
  {
  }

  //
  // Finding
  // ----

  /** The record findRecord answers for the upper-cased type and the exact name. */
  function FirstMatch(records: seq<CfRecord>, rtype: string, name: string): Option<CfRecord> {
    var m := Matching(records, Some(rtype), Some(name));
    if |m| == 0 then None else Some(m[0])
  }

  /**
   * The listing for a type and a name holds only records with that upper-cased type and
   * name, and it starts with the first match when there is one.
   */
  lemma ListedFirst(records: seq<CfRecord>, rtype: string, name: string)
    ensures var items := Listed(records, Some(rtype), Some(name));
      var first := FirstMatch(records, ToUpper(rtype), name);
      (|items| == 0 <==> first.None?)
      && (|items| > 0 ==> items[0] == ToItem(first.value))
      && forall i :: 0 <= i < |items| ==> items[i].rtype == ToUpper(rtype) && items[i].name == name
  {
    ListedShape(records, Some(rtype), Some(name));
    var m := Matching(records, Some(ToUpper(rtype)), Some(name));
    var page := Query(records, Some(ToUpper(rtype)), Some(name));
    assert UpperOpt(Some(rtype)) == Some(ToUpper(rtype));
    assert |m| > 0 ==> page[0] == m[0];
  }

  /** A record with the type and name that comes before every other one gives the first match. */
  lemma {:induction false} FirstMatchAt(records: seq<CfRecord>, rtype: string, name: string, k: nat)
    requires k < |records| && Selects(records[k], Some(rtype), Some(name))
    requires forall j :: 0 <= j < k ==> !Selects(records[j], Some(rtype), Some(name))
    ensures FirstMatch(records, rtype, name) == Some(records[k])
    decreases k
  {
    if k > 0 {
      FirstMatchAt(records[1..], rtype, name, k - 1);
    }
  }

  /** The first match is the earliest stored record with the type and name; None when there is none. */
  lemma {:induction false} FirstMatchIndex(records: seq<CfRecord>, rtype: string, name: string)
    ensures FirstMatch(records, rtype, name).None? <==>
      forall j :: 0 <= j < |records| ==> !Selects(records[j], Some(rtype), Some(name))
    ensures FirstMatch(records, rtype, name).Some? ==>
      exists k :: 0 <= k < |records| && records[k] == FirstMatch(records, rtype, name).value
        && Selects(records[k], Some(rtype), Some(name))
        && forall j :: 0 <= j < k ==> !Selects(records[j], Some(rtype), Some(name))
    decreases |records|
  {
    if |records| > 0 {
      FirstMatchIndex(records[1..], rtype, name);
      if !Selects(records[0], Some(rtype), Some(name)) {
        var f := FirstMatch(records, rtype, name);
        assert f == FirstMatch(records[1..], rtype, name);
        forall j | 0 <= j < |records[1..]| ensures records[1..][j] == records[j + 1] { }
        if f.Some? {
          var k :| 0 <= k < |records[1..]| && records[1..][k] == f.value
            && Selects(records[1..][k], Some(rtype), Some(name))
            && forall j :: 0 <= j < k ==> !Selects(records[1..][j], Some(rtype), Some(name));
          assert records[k + 1] == f.value;
        }
      }
    }
  }

  //
  // Record IDs and updates
  // ----

  /** No two records share an ID. */
  predicate DistinctIds(records: seq<CfRecord>) {
    forall i, j :: 0 <= i < j < |records| ==> records[i].id != records[j].id
  }

  /** The ID is one the provider issued before `nextId`. */
  predicate Issued(id: string, nextId: nat) {
    exists k :: 0 <= k < nextId && id == NatToString(k)
  }

  /** Every record carries an issued ID. */
  predicate IdsIssued(records: seq<CfRecord>, nextId: nat) {
    forall i :: 0 <= i < |records| ==> Issued(records[i].id, nextId)
  }

  predicate ZoneInvariant(records: seq<CfRecord>, nextId: nat) {
    DistinctIds(records) && IdsIssued(records, nextId)
  }

  /** Whether some record has the ID. */
  predicate HasId(records: seq<CfRecord>, id: string) {
    exists i :: 0 <= i < |records| && records[i].id == id
  }

  /** A PUT of a record: the record with the ID is replaced, every other one is kept. */
  function ReplaceId(records: seq<CfRecord>, id: string, rec: CfRecord): (r: seq<CfRecord>)
    ensures |r| == |records|
    ensures forall i :: 0 <= i < |records| ==> r[i] == if records[i].id == id then rec else records[i]
  {
    seq(|records|, i requires 0 <= i < |records| => if records[i].id == id then rec else records[i])
  }

  /** A DELETE of a record: the records with other IDs, in order. */
  function RemoveId(records: seq<CfRecord>, id: string): (r: seq<CfRecord>)
    ensures forall x :: x in r <==> x in records && x.id != id
    decreases |records|
  {
    if |records| == 0 then []
    else if records[0].id == id then RemoveId(records[1..], id)
    else [records[0]] + RemoveId(records[1..], id)
  }

  /** Deleting keeps the records a subsequence of the old ones, so IDs stay distinct and issued. */
  lemma {:induction false} RemoveIdKeepsInvariant(records: seq<CfRecord>, nextId: nat, id: string)
    requires ZoneInvariant(records, nextId)
    ensures ZoneInvariant(RemoveId(records, id), nextId)
    decreases |records|
  {
    if |records| > 0 {
      var rest := records[1..];
      assert ZoneInvariant(rest, nextId) by {
        forall i | 0 <= i < |rest| ensures rest[i] == records[i + 1] { }
      }
      RemoveIdKeepsInvariant(rest, nextId, id);
      var r := RemoveId(records, id);
      if records[0].id != id {
        var tail := RemoveId(rest, id);
        assert r == [records[0]] + tail;
        forall x | x in tail ensures x.id != records[0].id {
          var i :| 0 <= i < |rest| && rest[i] == x;
          assert records[i + 1] == x;
        }
        forall i | 0 <= i < |r| ensures Issued(r[i].id, nextId) {
          assert r[i] in records;
        }
      }
    }
  }

  /** With distinct IDs, replacing by the ID of the record at `k` replaces exactly that record. */
  lemma ReplaceIdAt(records: seq<CfRecord>, k: nat, rec: CfRecord)
    requires DistinctIds(records) && k < |records|
    ensures ReplaceId(records, records[k].id, rec) == records[k := rec]
  {
  }

  /** Replacing one record by another with the same filter answer keeps the number of matches. */
  lemma {:induction false} MatchingUpdate(records: seq<CfRecord>, k: nat, rec: CfRecord, rtype: Option<string>, name: Option<string>)
    requires k < |records|
    requires Selects(records[k], rtype, name) == Selects(rec, rtype, name)
    ensures |Matching(records[k := rec], rtype, name)| == |Matching(records, rtype, name)|
    decreases k
  {
    var u := records[k := rec];
    if k == 0 {
      assert u[1..] == records[1..];
    } else {
      assert u[1..] == records[1..][k - 1 := rec];
      MatchingUpdate(records[1..], k - 1, rec, rtype, name);
    }
  }

  /** Appending a record adds it to the matches exactly when it passes the filters. */
  lemma {:induction false} MatchingSnoc(records: seq<CfRecord>, rec: CfRecord, rtype: Option<string>, name: Option<string>)
    ensures Matching(records + [rec], rtype, name)
         == Matching(records, rtype, name) + (if Selects(rec, rtype, name) then [rec] else [])
    decreases |records|
  {
    if |records| > 0 {
      assert (records + [rec])[1..] == records[1..] + [rec];
      MatchingSnoc(records[1..], rec, rtype, name);
    }
  }

  /** The number of records with the type and name. */
  function Count(records: seq<CfRecord>, rtype: string, name: string): nat {
    |Matching(records, Some(rtype), Some(name))|
  }

  //
  // Upsert
  // ----

  /** The outcome of setRecord: the action, the record's ID and the zone afterwards. */
  datatype Upserted = Upserted(action: SetAction, id: string, records: seq<CfRecord>, nextId: nat)

  /**
   * setRecord on a zone: the first record with the body's type and name is replaced in place
   * under its ID; without one a record is created under a new ID.
   */
  function Upsert(records: seq<CfRecord>, nextId: nat, p: Payload): (r: Upserted)
    ensures r.action == Updated <==> FirstMatch(records, p.rtype, p.name).Some?
    ensures r.action == Updated ==>
      r.id == FirstMatch(records, p.rtype, p.name).value.id && |r.records| == |records| && r.nextId == nextId
    ensures r.action == Created ==>
      r.id == NatToString(nextId) && r.nextId == nextId + 1 &&
      |r.records| == |records| + 1 && r.records[..|records|] == records && r.records[|records|] == Stored(r.id, p)
  {
    match FirstMatch(records, p.rtype, p.name)
    case Some(e) => Upserted(Updated, e.id, ReplaceId(records, e.id, Stored(e.id, p)), nextId)
    case None =>
      var id := NatToString(nextId);
      Upserted(Created, id, records + [Stored(id, p)], nextId + 1)
  }

  /** Records with the same IDs, position by position, carry issued IDs as well. */
  lemma SameIdsIssued(records: seq<CfRecord>, r: seq<CfRecord>, nextId: nat)
    requires IdsIssued(records, nextId)
    requires |r| == |records| && forall i :: 0 <= i < |r| ==> r[i].id == records[i].id
    ensures IdsIssued(r, nextId)
  {
    forall i | 0 <= i < |r| ensures Issued(r[i].id, nextId) {
      assert r[i].id == records[i].id;
    }
  }

  /** A new ID is not carried by any record. */
  lemma FreshId(records: seq<CfRecord>, nextId: nat)
    requires IdsIssued(records, nextId)
    ensures forall i :: 0 <= i < |records| ==> records[i].id != NatToString(nextId)
  {
    forall i | 0 <= i < |records| ensures records[i].id != NatToString(nextId) {
      var k :| 0 <= k < nextId && records[i].id == NatToString(k);
      if records[i].id == NatToString(nextId) {
        NatToStringInjective(k, nextId);
      }
    }
  }

  /** Creating a record under a new ID keeps the IDs distinct and issued. */
  lemma CreateKeepsInvariant(records: seq<CfRecord>, nextId: nat, p: Payload)
    requires ZoneInvariant(records, nextId)
    ensures ZoneInvariant(records + [Stored(NatToString(nextId), p)], nextId + 1)
  {
    FreshId(records, nextId);
    var r := records + [Stored(NatToString(nextId), p)];
    forall i | 0 <= i < |r| ensures Issued(r[i].id, nextId + 1) {
      if i == |records| {
        assert r[i].id == NatToString(nextId);
      } else {
        assert r[i] == records[i];
        var k :| 0 <= k < nextId && records[i].id == NatToString(k);
        assert k < nextId + 1;
      }
    }
  }

  /** An upsert keeps every ID distinct and issued. */
  lemma UpsertKeepsInvariant(records: seq<CfRecord>, nextId: nat, p: Payload)
    requires ZoneInvariant(records, nextId)
    ensures var u := Upsert(records, nextId, p); ZoneInvariant(u.records, u.nextId)
  {
    FirstMatchIndex(records, p.rtype, p.name);
    match FirstMatch(records, p.rtype, p.name)
    case Some(e) =>
      var k :| 0 <= k < |records| && records[k] == e;
      ReplaceIdAt(records, k, Stored(e.id, p));
      SameIdsIssued(records, records[k := Stored(e.id, p)], nextId);
    case None =>
      CreateKeepsInvariant(records, nextId, p);
  }

  /**
   * setRecord never duplicates a (type, name) pair: with a match the number of records with
   * that type and name is unchanged, without one it becomes exactly one.
   */
  lemma UpsertNoDuplicate(records: seq<CfRecord>, nextId: nat, p: Payload)
    requires DistinctIds(records)
    ensures var u := Upsert(records, nextId, p);
      Count(u.records, p.rtype, p.name) == if Count(records, p.rtype, p.name) == 0 then 1 else Count(records, p.rtype, p.name)
  {
    FirstMatchIndex(records, p.rtype, p.name);
    MatchingIff(records, Some(p.rtype), Some(p.name));
    match FirstMatch(records, p.rtype, p.name)
    case Some(e) =>
      var k :| 0 <= k < |records| && records[k] == e && Selects(e, Some(p.rtype), Some(p.name));
      ReplaceIdAt(records, k, Stored(e.id, p));
      MatchingUpdate(records, k, Stored(e.id, p), Some(p.rtype), Some(p.name));
      assert e in Matching(records, Some(p.rtype), Some(p.name));
    case None =>
      MatchingSnoc(records, Stored(NatToString(nextId), p), Some(p.rtype), Some(p.name));
  }

  /** After an upsert, finding the type and name gives the stored body under the reported ID. */
  lemma UpsertThenFind(records: seq<CfRecord>, nextId: nat, p: Payload)
    requires DistinctIds(records)
    ensures var u := Upsert(records, nextId, p);
      FirstMatch(u.records, p.rtype, p.name) == Some(Stored(u.id, p))
  {
    FirstMatchIndex(records, p.rtype, p.name);
    match FirstMatch(records, p.rtype, p.name)
    case Some(e) =>
      var k :| 0 <= k < |records| && records[k] == e
        && Selects(records[k], Some(p.rtype), Some(p.name))
        && forall j :: 0 <= j < k ==> !Selects(records[j], Some(p.rtype), Some(p.name));
      ReplaceIdAt(records, k, Stored(e.id, p));
      FirstMatchAt(records[k := Stored(e.id, p)], p.rtype, p.name, k);
    case None =>
      var r := records + [Stored(NatToString(nextId), p)];
      FirstMatchAt(r, p.rtype, p.name, |records|);
  }

  /** A second identical upsert updates the record the first one left and changes nothing. */
  lemma UpsertTwice(records: seq<CfRecord>, nextId: nat, p: Payload)
    requires ZoneInvariant(records, nextId)
    ensures var u := Upsert(records, nextId, p);
      var v := Upsert(u.records, u.nextId, p);
      v.action == Updated && v.id == u.id && v.records == u.records && v.nextId == u.nextId
  {
    var u := Upsert(records, nextId, p);
    UpsertKeepsInvariant(records, nextId, p);
    UpsertThenFind(records, nextId, p);
    FirstMatchIndex(u.records, p.rtype, p.name);
    var k :| 0 <= k < |u.records| && u.records[k] == Stored(u.id, p);
    ReplaceIdAt(u.records, k, Stored(u.id, p));
    assert u.records[k := Stored(u.id, p)] == u.records;
  }

  //
  // The zone
  // ----

  /** The DNS records of one Cloudflare zone, and the counter from which record IDs are issued. */
  class CloudflareZone {
    var records: seq<CfRecord>
    var nextId: nat

    predicate Valid()
      reads this
    {
      ZoneInvariant(records, nextId)
    }

    constructor ()
      ensures records == [] && nextId == 0 && Valid()
    {
      records := [];
      nextId := 0;
    }

    /** listRecords: the first page of records passing the filters, mapped to the listed shape. */
    method ListRecords(rtype: Option<string>, name: Option<string>) returns (items: seq<Item>)
      ensures items == Listed(records, rtype, name)
    {
      var results := Query(records, UpperOpt(rtype), name);
      items := [];
      var i := 0;
      while i < |results|
        invariant i <= |results|
        invariant |items| == i && forall j :: 0 <= j < i ==> items[j] == ToItem(results[j])
      {
        items := items + [ToItem(results[i])];
        i := i + 1;
      }
    }

    /** findRecord: the first listed record whose type is the upper-cased type and whose name is `name`. */
    method FindRecord(rtype: string, name: string) returns (r: Option<Item>)
      ensures FirstMatch(records, ToUpper(rtype), name).None? ==> r.None?
      ensures FirstMatch(records, ToUpper(rtype), name).Some? ==>
                r == Some(ToItem(FirstMatch(records, ToUpper(rtype), name).value))
    {
      var items := ListRecords(Some(rtype), Some(name));
      var t := ToUpper(rtype);
      var i := 0;
      while i < |items|
        invariant i <= |items|
        invariant forall j :: 0 <= j < i ==> !(items[j].rtype == t && items[j].name == name)
      {
        if items[i].rtype == t && items[i].name == name {
          ListedFirst(records, rtype, name);
          assert i == 0;
          return Some(items[i]);
        }
        i := i + 1;
      }
      ListedFirst(records, rtype, name);
      assert |items| == 0;
      return None;
    }

    /** createRecord: the body is stored under a new ID, which is returned. */
    method CreateRecord(rtype: string, name: string, content: string, ttl: int, proxied: bool, priority: Option<int>)
      returns (id: string)
      requires Valid()
      modifies this
      ensures Valid()
      ensures id == NatToString(old(nextId)) && !HasId(old(records), id)
      ensures records == old(records) + [Stored(id, MakePayload(rtype, name, content, ttl, proxied, priority))]
      ensures nextId == old(nextId) + 1
    {
      id := NatToString(nextId);
      var p := MakePayload(rtype, name, content, ttl, proxied, priority);
      FreshId(records, nextId);
      CreateKeepsInvariant(records, nextId, p);
      records := records + [Stored(id, p)];
      nextId := nextId + 1;
    }

    /** updateRecord: the record with the ID is replaced by the body; an unknown ID is an API error. */
    method UpdateRecord(recordId: string, rtype: string, name: string, content: string, ttl: int, proxied: bool, priority: Option<int>)
      returns (ok: bool)
      requires Valid()
      modifies this
      ensures Valid()
      ensures ok <==> HasId(old(records), recordId)
      ensures records == ReplaceId(old(records), recordId, Stored(recordId, MakePayload(rtype, name, content, ttl, proxied, priority)))
      ensures nextId == old(nextId)
    {
      ok := HasId(records, recordId);
      var r := ReplaceId(records, recordId, Stored(recordId, MakePayload(rtype, name, content, ttl, proxied, priority)));
      SameIdsIssued(records, r, nextId);
      records := r;
    }

    /** deleteRecord: the record with the ID is removed; an unknown ID is an API error. */
    method DeleteRecord(recordId: string) returns (ok: bool)
      requires Valid()
      modifies this
      ensures Valid()
      ensures ok <==> HasId(old(records), recordId)
      ensures records == RemoveId(old(records), recordId) && nextId == old(nextId)
    {
      ok := HasId(records, recordId);
      RemoveIdKeepsInvariant(records, nextId, recordId);
      records := RemoveId(records, recordId);
    }

    /** setRecord: update the record findRecord finds, or create one; the action and ID are returned. */
    method SetRecord(rtype: string, name: string, content: string, ttl: int, proxied: bool, priority: Option<int>)
      returns (action: SetAction, id: string)
      requires Valid()
      modifies this
      ensures Valid()
      ensures var u := Upsert(old(records), old(nextId), MakePayload(rtype, name, content, ttl, proxied, priority));
        action == u.action && id == u.id && records == u.records && nextId == u.nextId
    {
      var existing := FindRecord(rtype, name);
      if existing.Some? {
        var ok := UpdateRecord(existing.value.id, rtype, name, content, ttl, proxied, priority);
        return Updated, existing.value.id;
      }
      id := CreateRecord(rtype, name, content, ttl, proxied, priority);
      return Created, id;
    }
  }
}
