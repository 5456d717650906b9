/**
 * The `ventas` table and the three functions that touch it: `agregar_venta`
 * (app.py:48-64), `obtener_ventas_df` (app.py:66-76) and `eliminar_venta`
 * (app.py:78-89). Each write is one transaction that commits or rolls back;
 * a database exception is the parameter `fails`, and the clock is the
 * parameter `today`.
 */
module Ledger {
  import opened Tax
  import opened Records
  import opened Listing

  class SalesLedger {
    /** The table's rows. */
    var sales: seq<Sale>
    /** The next value of the table's id sequence. */
    var nextId: int

    /** Ids are a primary key, and every one came from the sequence. */
    ghost predicate Valid()
      reads this
    {
      UniqueIds(sales) && forall x :: x in sales ==> x.id < nextId
    }

    /** Every stored net amount is non-negative. */
    ghost predicate NonNegative()
      reads this
    {
      forall x :: x in sales ==> x.net >= 0.0
    }

    constructor ()
      ensures Valid() && NonNegative()
      ensures sales == [] && nextId == 1
    {
      sales := [];
      nextId := 1;
    }

    /** `agregar_venta`: stores the net part of `gross`, stamped with `today`, under a
        fresh id, and reports whether the transaction committed (app.py:48-64). */
    method Add(documentType: string, businessCode: string, description: string,
               gross: real, user: string, today: Date, fails: bool) returns (ok: bool)
      requires Valid()
      modifies this
      ensures Valid()
      ensures ok == !fails
      ensures ok ==> nextId == old(nextId) + 1
      ensures ok ==> sales == old(sales) + [Sale(old(nextId), today, documentType, businessCode,
                                                 description, NetFromGross(gross), user)]
      ensures ok ==> forall i :: 0 <= i < |old(sales)| ==> old(sales)[i].id != sales[|sales| - 1].id
      ensures !ok ==> sales == old(sales) && nextId == old(nextId)
      ensures old(NonNegative()) && gross >= 0.0 ==> NonNegative()
    {
      var net := NetFromGross(gross);
      if fails {
        // rollback: nothing was written
        ok := false;
      } else {
        sales := sales + [Sale(nextId, today, documentType, businessCode, description, net, user)];
        nextId := nextId + 1;
        ok := true;
      }
    }

    /** `obtener_ventas_df`: every row in listing order with VAT and gross recomputed;
        a failed query yields an empty listing (app.py:66-76). */
    method List(fails: bool) returns (rows: seq<Row>)
      requires Valid()
      ensures fails ==> rows == []
      ensures !fails ==> rows == ListingOf(sales)
      ensures !fails ==> |rows| == |sales| && multiset(SortListing(sales)) == multiset(sales)
      ensures forall i :: 0 <= i < |rows| ==> Derived(rows[i])
      ensures InListingOrder(rows)
    {
      if fails {
        rows := [];
      } else {
        ListingOrder(sales);
        rows := ListingOf(sales);
      }
    }

    /** `eliminar_venta`: removes the rows carrying `id`; reports success whenever the
        transaction commits, also when no row matched (app.py:78-89). */
    method Delete(id: int, fails: bool) returns (ok: bool)
      requires Valid()
      modifies this
      ensures Valid()
      ensures ok == !fails
      ensures ok ==> sales == RemoveId(old(sales), id)
      ensures ok ==> forall x :: x in sales <==> x in old(sales) && x.id != id
      ensures ok ==> IsSubsequence(sales, old(sales))
      ensures (!ok || forall i :: 0 <= i < |old(sales)| ==> old(sales)[i].id != id) ==> sales == old(sales)
      ensures nextId == old(nextId)
      ensures old(NonNegative()) ==> NonNegative()
    {
      if fails {
        ok := false;
      } else {
        var before := sales;
        RemoveIdUnique(before, id);
        RemoveIdMembers(before, id);
        RemoveIdSubsequence(before, id);
        if forall i :: 0 <= i < |before| ==> before[i].id != id {
          RemoveAbsentId(before, id);
        }
        sales := RemoveId(before, id);
        ok := true;
      }
    }
  }
}
