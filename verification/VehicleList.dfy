/** The vehicles the driver app is offered: the first 100 active ones by fleet number (routes/driver.ts). */
module VehicleList {
  import opened Common
  import opened Sorting

  const LIST_SIZE: nat := 100

  /** Fleet numbers are texts, compared as the database compares them; here they are numbers. */
  datatype Vehicle = Vehicle(id: string, tenantId: string, fleetNumber: int, isActive: bool)

  predicate Offered(u: Vehicle, tenantId: string) { u.tenantId == tenantId && u.isActive }

  predicate Before(a: Vehicle, b: Vehicle) { a.fleetNumber < b.fleetNumber }

  function ByFleetNumber(fleet: seq<Vehicle>, tenantId: string): seq<Vehicle> {
    Sort(Before, Filter(u => Offered(u, tenantId), fleet))
  }

  function Listed(fleet: seq<Vehicle>, tenantId: string): seq<Vehicle> {
    var rows := ByFleetNumber(fleet, tenantId);
    if |rows| <= LIST_SIZE then rows else rows[..LIST_SIZE]
  }

  function ListedIds(fleet: seq<Vehicle>, tenantId: string): seq<string> {
    Map((u: Vehicle) => u.id, Listed(fleet, tenantId))
  }

  /** The primary key, and the unique index on tenant and fleet number. */
  ghost predicate KeysHold(fleet: seq<Vehicle>) {
    forall i, j :: 0 <= i < j < |fleet| ==> KeysDiffer(fleet[i], fleet[j])
  }

  predicate KeysDiffer(a: Vehicle, b: Vehicle) {
    a.id != b.id && (a.tenantId == b.tenantId ==> a.fleetNumber != b.fleetNumber)
  }

  ghost function Ahead(fleet: seq<Vehicle>, tenantId: string, u: Vehicle): set<Vehicle> {
    set w | w in fleet && w.tenantId == tenantId && w.isActive && w.fleetNumber < u.fleetNumber
  }

  /** The vehicle is active and fewer than 100 active ones have a smaller fleet number. */
  ghost predicate Listable(fleet: seq<Vehicle>, tenantId: string, id: string) {
    exists u :: u in fleet && u.tenantId == tenantId && u.isActive && u.id == id && |Ahead(fleet, tenantId, u)| < 100
  }

  lemma OrderedByFleetNumber(fleet: seq<Vehicle>, tenantId: string)
    requires KeysHold(fleet)
    ensures Ordered(Before, ByFleetNumber(fleet, tenantId))
    ensures forall u :: u in ByFleetNumber(fleet, tenantId) <==> u in fleet && Offered(u, tenantId)
  {
    var offered := Filter(u => Offered(u, tenantId), fleet);
    FilterPairwise(u => Offered(u, tenantId), fleet, (a, b) => KeysDiffer(a, b));
    assert Comparable(Before, offered) by {
      forall i, j | 0 <= i < j < |offered| ensures Before(offered[i], offered[j]) || Before(offered[j], offered[i]) {
        assert offered[i] in offered && offered[j] in offered && KeysDiffer(offered[i], offered[j]);
      }
    }
    SortIsOrderedPermutation(Before, offered);
    SameElements(ByFleetNumber(fleet, tenantId), offered);
  }

  lemma SameElements<T>(s: seq<T>, t: seq<T>)
    requires multiset(s) == multiset(t)
    ensures forall x :: x in s <==> x in t
  {
    assert forall x :: x in s <==> x in multiset(s);
    assert forall x :: x in t <==> x in multiset(t);
  }

  /** As many vehicles are ahead of a row as stand before it. */
  lemma AheadOf(fleet: seq<Vehicle>, tenantId: string, k: nat)
    requires KeysHold(fleet) && k < |ByFleetNumber(fleet, tenantId)|
    ensures |Ahead(fleet, tenantId, ByFleetNumber(fleet, tenantId)[k])| == k
  {
    OrderedByFleetNumber(fleet, tenantId);
    PrefixIsAhead(fleet, tenantId, ByFleetNumber(fleet, tenantId), k);
  }

  lemma PrefixIsAhead(fleet: seq<Vehicle>, tenantId: string, rows: seq<Vehicle>, k: nat)
    requires k < |rows| && forall i, j :: 0 <= i < j < |rows| ==> Before(rows[i], rows[j])
    requires forall u :: u in rows <==> u in fleet && Offered(u, tenantId)
    ensures |Ahead(fleet, tenantId, rows[k])| == k
  {
    var first := rows[..k];
    assert forall i :: 0 <= i < k ==> first[i] == rows[i];
    forall u | u in Ahead(fleet, tenantId, rows[k]) ensures u in first {
      var i :| 0 <= i < |rows| && rows[i] == u;
      assert first[i] == u;
    }
    forall u | u in first ensures u in Ahead(fleet, tenantId, rows[k]) {
      var i :| 0 <= i < k && first[i] == u;
      assert rows[i] in rows;
    }
    assert Ahead(fleet, tenantId, rows[k]) == Elements(first);
    DistinctCardinality(first);
  }

  /** The list offers a vehicle exactly if it is active and fewer than 100 active ones go before it. */
  lemma ListedIff(fleet: seq<Vehicle>, tenantId: string, id: string)
    requires KeysHold(fleet)
    ensures id in ListedIds(fleet, tenantId) <==> Listable(fleet, tenantId, id)
  {
    if id in ListedIds(fleet, tenantId) {
      ListedIsListable(fleet, tenantId, id);
    }
    if Listable(fleet, tenantId, id) {
      ListableIsListed(fleet, tenantId, id);
    }
  }

  lemma ListedIsListable(fleet: seq<Vehicle>, tenantId: string, id: string)
    requires KeysHold(fleet) && id in ListedIds(fleet, tenantId)
    ensures Listable(fleet, tenantId, id)
  {
    var k :| 0 <= k < |Listed(fleet, tenantId)| && Listed(fleet, tenantId)[k].id == id;
    var u := ByFleetNumber(fleet, tenantId)[k];
    OrderedByFleetNumber(fleet, tenantId);
    AheadOf(fleet, tenantId, k);
    assert u in ByFleetNumber(fleet, tenantId);
  }

  lemma ListableIsListed(fleet: seq<Vehicle>, tenantId: string, id: string)
    requires KeysHold(fleet) && Listable(fleet, tenantId, id)
    ensures id in ListedIds(fleet, tenantId)
  {
    var u :| u in fleet && Offered(u, tenantId) && u.id == id && |Ahead(fleet, tenantId, u)| < LIST_SIZE;
    var k := PlaceOf(fleet, tenantId, u);
    AheadOf(fleet, tenantId, k);
    ListedAt(ByFleetNumber(fleet, tenantId), fleet, tenantId, k);
  }

  lemma PlaceOf(fleet: seq<Vehicle>, tenantId: string, u: Vehicle) returns (k: nat)
    requires KeysHold(fleet) && u in fleet && Offered(u, tenantId)
    ensures k < |ByFleetNumber(fleet, tenantId)| && ByFleetNumber(fleet, tenantId)[k] == u
  {
    OrderedByFleetNumber(fleet, tenantId);
    k :| 0 <= k < |ByFleetNumber(fleet, tenantId)| && ByFleetNumber(fleet, tenantId)[k] == u;
  }

  lemma ListedAt(rows: seq<Vehicle>, fleet: seq<Vehicle>, tenantId: string, k: nat)
    requires rows == ByFleetNumber(fleet, tenantId) && k < |rows| && k < LIST_SIZE
    ensures rows[k].id in ListedIds(fleet, tenantId)
  {
    assert ListedIds(fleet, tenantId)[k] == rows[k].id;
  }
}
